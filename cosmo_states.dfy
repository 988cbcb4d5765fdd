/**
 * The state values of the Cosmo vacuum's entities (apps/cosmo/cosmo_monitor.py) and their
 * classification. The earlier revision has the same task statuses, but its vacuum states lack
 * `Error` and its rooms lack `Bathroom`.
 */
module CosmoStates {
  import opened Wrappers

  /** `CosmoState`: the state of the `vacuum.cosmo` entity. */
  datatype CosmoState = Cleaning | Docked | Error | Idle | Paused | ReturningToDock | CosmoUnavailable

  /** `TaskStatus`: the state of `sensor.cosmo_task_status`. */
  datatype TaskStatus =
    | TaskCleaning | CleaningPaused | Completed | DockingPaused | FastMapping | MapCleaningPaused
    | RoomCleaning | RoomCleaningPaused | SpotCleaning | ZoneCleaning | TaskUnavailable

  /** `Room`: the state of `sensor.cosmo_current_room`. */
  datatype Room = Bathroom | Bedroom | EnSuite | Hallway | Kitchen | Lounge | Office | RoomUnavailable

  /**
   * A reading of `sensor.cosmo_cleaned_area`: the unavailable sentinel, any other text that is
   * not a number (Home Assistant's `unknown`, say), or a number of square metres, kept as the
   * state's text together with the value `float()` reads from it. States are compared as text,
   * so two spellings of one number (`12` and `12.0`) are two states.
   */
  datatype AreaReading = AreaUnavailable | AreaText(text: string) | Area(spelling: string, squareMetres: real)

  /** `is_room_cleaning`: the statuses that count as actively cleaning rooms. */
  predicate IsRoomCleaning(s: TaskStatus) {
    s == TaskCleaning || s == RoomCleaning || s == ZoneCleaning
  }

  /** `is_paused`: the statuses that pause a run without ending it. */
  predicate IsPaused(s: TaskStatus) {
    s == CleaningPaused || s == DockingPaused || s == MapCleaningPaused || s == RoomCleaningPaused
  }

  /** No status is both cleaning and paused, and neither `Completed` nor unavailable is either. */
  lemma ClassificationDisjoint(s: TaskStatus)
    ensures !(IsRoomCleaning(s) && IsPaused(s))
    ensures !IsRoomCleaning(Completed) && !IsPaused(Completed)
    ensures !IsRoomCleaning(TaskUnavailable) && !IsPaused(TaskUnavailable)
  {
  }

  /**
   * `minimum_clean_area` in square metres; the lookup table has no entry for the unavailable
   * sentinel (a KeyError), which is `None` here.
   */
  function MinimumCleanArea(room: Room): (r: Option<real>)
    ensures r.None? <==> room == RoomUnavailable
    ensures r.Some? ==> 2.0 <= r.value <= 8.0
  {
    match room
    case Bathroom => Some(3.0)
    case Bedroom => Some(6.0)
    case EnSuite => Some(2.0)
    case Hallway => Some(7.0)
    case Kitchen => Some(5.0)
    case Lounge => Some(8.0)
    case Office => Some(5.0)
    case RoomUnavailable => None
  }

  /** `input_datetime_name`: the helper entity recording when a room was last cleaned. */
  function InputDatetimeName(room: Room): (name: string)
    requires room != RoomUnavailable
    ensures |name| > |"input_datetime.cosmo_last_"|
    ensures name[..|"input_datetime.cosmo_last_"|] == "input_datetime.cosmo_last_"
  {
    "input_datetime.cosmo_last_" + LowerName(room) + "_clean"
  }

  /** The lower-cased enum member name. */
  function LowerName(room: Room): string {
    match room
    case Bathroom => "bathroom"
    case Bedroom => "bedroom"
    case EnSuite => "en_suite"
    case Hallway => "hallway"
    case Kitchen => "kitchen"
    case Lounge => "lounge"
    case Office => "office"
    case RoomUnavailable => "unavailable"
  }

  /** Distinct rooms record their clean times in distinct helper entities. */
  lemma InputDatetimeNamesDistinct(a: Room, b: Room)
    requires a != RoomUnavailable && b != RoomUnavailable && a != b
    ensures InputDatetimeName(a) != InputDatetimeName(b)
  {
    var p := |"input_datetime.cosmo_last_"|;
    assert InputDatetimeName(a)[p..|InputDatetimeName(a)| - 6] == LowerName(a);
    assert InputDatetimeName(b)[p..|InputDatetimeName(b)| - 6] == LowerName(b);
  }
}
