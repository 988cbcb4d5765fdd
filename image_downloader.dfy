/**
 * The WebP side of the Cosmo image downloader (apps/cosmo/cosmo_image_downloader.py): a media
 * item's filename is rewritten to a `.webp` name, the photo is cropped to its centred square and
 * resized to 512 by 512, and the local path under the photos directory is computed once and
 * cached on the item.
 */
module ImageDownloader {
  import opened Wrappers
  import opened Text

  const PHOTOS_DIRECTORY: string := "/homeassistant/www/images/cosmo"
  const WEBP_EXTENSION: string := "webp"
  /** Both dimensions of the saved image. */
  const TARGET_SIZE: nat := 512

  // ---------------------------------------------------------------------------------------------
  // Filename

  /** `validate_webp_filename`: drop the last dot-separated part and put `webp` in its place. */
  function ValidateWebpFilename(value: string): (r: string)
    ensures EndsWith(r, WEBP_EXTENSION)
  {
    var parts := Split(value, '.');
    var kept := parts[..|parts| - 1];
    JoinAppend(kept, WEBP_EXTENSION, '.');
    Join(kept + [WEBP_EXTENSION], '.')
  }

  /** A name without a dot becomes exactly `webp`. */
  lemma NoDotGivesBareExtension(value: string)
    requires '.' !in value
    ensures ValidateWebpFilename(value) == WEBP_EXTENSION
  {
    SplitFree(value, '.');
    JoinAppend([], WEBP_EXTENSION, '.');
  }

  /** The last extension, whatever it was, is replaced by `.webp`; the stem is kept as it is. */
  lemma ExtensionReplaced(stem: string, extension: string)
    requires '.' !in extension
    ensures ValidateWebpFilename(stem + "." + extension) == stem + ".webp"
  {
    SplitConcat(stem, extension, '.');
    SplitFree(extension, '.');
    var parts := Split(stem + "." + extension, '.');
    assert stem + "." + extension == stem + ['.'] + extension;
    assert parts[..|parts| - 1] == Split(stem, '.');
    JoinAppend(Split(stem, '.'), WEBP_EXTENSION, '.');
    JoinSplit(stem, '.');
  }

  /** Rewriting a rewritten name changes nothing. */
  lemma ValidateIdempotent(value: string)
    ensures ValidateWebpFilename(ValidateWebpFilename(value)) == ValidateWebpFilename(value)
  {
    var parts := Split(value, '.');
    var kept := parts[..|parts| - 1];
    JoinAppend(kept, WEBP_EXTENSION, '.');
    if kept == [] {
      NoDotGivesBareExtension(WEBP_EXTENSION);
    } else {
      assert Join(kept, '.') + ['.'] + WEBP_EXTENSION == Join(kept, '.') + "." + WEBP_EXTENSION;
      ExtensionReplaced(Join(kept, '.'), WEBP_EXTENSION);
    }
  }

  // ---------------------------------------------------------------------------------------------
  // Crop box

  /** PIL's crop box: left, upper, right, lower. */
  datatype Box = Box(left: int, top: int, right: int, bottom: int)

  function Min(a: int, b: int): int { if a <= b then a else b }

  /** The centred square of a `width` by `height` image, with the coordinates truncated as `int()` does. */
  function CropBox(width: nat, height: nat): (b: Box)
    ensures b.right - b.left == Min(width, height) && b.bottom - b.top == Min(width, height)
    ensures 0 <= b.left && b.right <= width && 0 <= b.top && b.bottom <= height
    ensures b.left <= width - b.right <= b.left + 1
    ensures b.top <= height - b.bottom <= b.top + 1
  {
    var side := Min(width, height);
    Box((width - side) / 2, (height - side) / 2, (width + side) / 2, (height + side) / 2)
  }

  // ---------------------------------------------------------------------------------------------
  // Local path

  /** `Path(directory) / name`: an absolute name replaces the directory. */
  function PathJoin(directory: string, name: string): (p: string)
    ensures EndsWith(p, name)
  {
    if |name| > 0 && name[0] == '/' then name
    else
      var p := directory + "/" + name;
      assert p[|p| - |name|..] == name;
      p
  }

  class WebPImage {
    /** The filename after validation. */
    const filename: string
    /** `_local_path`, unset until first asked for. */
    var localPath: Option<string>

    /** The filename is a WebP name and, once set, the cached path is the photos directory joined with it. */
    ghost predicate Valid()
      reads this
    {
      && EndsWith(filename, WEBP_EXTENSION)
      && (localPath.Some? ==> localPath.value == PathJoin(PHOTOS_DIRECTORY, filename))
    }

    constructor(rawFilename: string)
      ensures filename == ValidateWebpFilename(rawFilename) && localPath == None
      ensures Valid()
    {
      filename := ValidateWebpFilename(rawFilename);
      localPath := None;
    }

    /** The `local_path` property: computed on first access, the cached value afterwards. */
    method LocalPath() returns (p: string)
      requires Valid()
      modifies this
      ensures Valid()
      ensures p == PathJoin(PHOTOS_DIRECTORY, filename) && localPath == Some(p)
      ensures old(localPath).Some? ==> localPath == old(localPath)
      ensures EndsWith(p, WEBP_EXTENSION)
    {
      if localPath.None? {
        localPath := Some(PathJoin(PHOTOS_DIRECTORY, filename));
      }
      p := localPath.value;
      EndsWithTransitive(p, filename, WEBP_EXTENSION);
    }

    /**
     * `download` for a photo of the given size: the box it crops to, the size it scales to and
     * the path it saves under.
     */
    method Download(width: nat, height: nat) returns (box: Box, size: (nat, nat), path: string)
      requires Valid()
      modifies this
      ensures Valid()
      ensures box == CropBox(width, height) && size == (TARGET_SIZE, TARGET_SIZE)
      ensures path == PathJoin(PHOTOS_DIRECTORY, filename) && localPath == Some(path)
    {
      box := CropBox(width, height);
      size := (TARGET_SIZE, TARGET_SIZE);
      path := LocalPath();
    }
  }
}
