/**
 * Concrete runs of the Cosmo model on small inputs: the doorway debounce, the counter-reset
 * artefact, a paused run, the attribution of a falling reading, the threshold's recorded end,
 * and the inputs on which the two revisions of the reconstruction part ways.
 */
module Scenarios {
  import opened Wrappers
  import opened History
  import opened Reconstruction
  import opened CosmoStates
  import opened Filters
  import opened CleaningPeriod
  import opened Attribution
  import opened Monitor
  import opened Time

  /** The samples of the debounce scenario: kitchen, a three-second lounge visit, kitchen again. */
  function DoorwaySamples(t0: int): seq<Sample<Room>> {
    [Sample(Kitchen, t0, t0), Sample(Lounge, t0 + 5 * SECOND, t0 + 5 * SECOND),
     Sample(Kitchen, t0 + 8 * SECOND, t0 + 8 * SECOND)]
  }

  /** The newest kitchen sample opens the window's only interval. */
  lemma DoorwayNewestEmitted(t0: int)
    ensures Replay(RoomQuery(t0, t0 + 30 * SECOND), DoorwaySamples(t0), [])
            == Replay(RoomQuery(t0, t0 + 30 * SECOND), DoorwaySamples(t0)[..2], [Interval(Kitchen, t0 + 8 * SECOND, t0 + 30 * SECOND)])
  {
    var q := RoomQuery(t0, t0 + 30 * SECOND);
    var samples := DoorwaySamples(t0);
    var rest, k8 := samples[..2], samples[2];
    assert samples == rest + [k8];
    assert !Skips(q, rest, k8, []);
    NewStateSampleEmitted(q, rest, k8, []);
    var none: seq<Interval<Room>> := [];
    assert none + [Interval(k8.state, k8.changed, q.upper)] == [Interval(Kitchen, t0 + 8 * SECOND, t0 + 30 * SECOND)];
  }

  /** The lounge sample, bracketed by kitchen on both sides, is dropped by the debounce. */
  lemma DoorwayVisitDropped(t0: int)
    ensures Replay(RoomQuery(t0, t0 + 30 * SECOND), DoorwaySamples(t0)[..2], [Interval(Kitchen, t0 + 8 * SECOND, t0 + 30 * SECOND)])
            == Replay(RoomQuery(t0, t0 + 30 * SECOND), DoorwaySamples(t0)[..1], [Interval(Kitchen, t0 + 8 * SECOND, t0 + 30 * SECOND)])
  {
    var q := RoomQuery(t0, t0 + 30 * SECOND);
    var first := [Interval(Kitchen, t0 + 8 * SECOND, t0 + 30 * SECOND)];
    var samples := DoorwaySamples(t0)[..2];
    var rest, l5 := samples[..1], samples[1];
    assert samples == rest + [l5];
    assert PreviousSample(rest, true, RoomUnavailable) == Some(rest[0]);
    assert RoomDebounce(Some(rest[0]), l5, Some(first[0]));
    assert Skips(q, rest, l5, first);
    SkippedSampleContributesNothing(q, rest, l5, first);
  }

  /** The oldest kitchen sample merges into the interval and moves its start back to `t0`. */
  lemma DoorwayOldestMerged(t0: int)
    ensures Replay(RoomQuery(t0, t0 + 30 * SECOND), DoorwaySamples(t0)[..1], [Interval(Kitchen, t0 + 8 * SECOND, t0 + 30 * SECOND)])
            == [Interval(Kitchen, t0, t0 + 30 * SECOND)]
  {
    var q := RoomQuery(t0, t0 + 30 * SECOND);
    var first := [Interval(Kitchen, t0 + 8 * SECOND, t0 + 30 * SECOND)];
    var samples := DoorwaySamples(t0)[..1];
    var none: seq<Sample<Room>> := [];
    var k0 := samples[0];
    assert samples == none + [k0];
    assert PreviousSample(none, true, RoomUnavailable) == None;
    assert !Skips(q, none, k0, first);
    SameStateSampleMerges(q, none, k0, first);
    assert SetNewestStart(first, t0) == [Interval(Kitchen, t0, t0 + 30 * SECOND)];
  }

  /**
   * A three-second visit to the lounge between two kitchen samples, inside a 30-second window,
   * is absorbed: the kitchen covers the whole window.
   */
  lemma DebounceAbsorbsShortVisit(t0: int)
    ensures Reconstruct(RoomQuery(t0, t0 + 30 * SECOND), DoorwaySamples(t0))
            == [Interval(Kitchen, t0, t0 + 30 * SECOND)]
  {
    assert SortedByUpdated(DoorwaySamples(t0));
    SortSortedIsIdentity(DoorwaySamples(t0));
    DoorwayNewestEmitted(t0);
    DoorwayVisitDropped(t0);
    DoorwayOldestMerged(t0);
  }

  /** The readings of the reset scenario: 12 m² at the start, then the counter's reset to 0. */
  function ResetSamples(): seq<Sample<AreaReading>> {
    [Sample(Area("12.0", 12.0), 0, 0), Sample(Area("0.0", 0.0), SECOND, SECOND)]
  }

  /** The 0 reading opens the window's only interval. */
  lemma ResetNewestEmitted()
    ensures Replay(AreaQuery(0, 10 * SECOND), ResetSamples(), [])
            == Replay(AreaQuery(0, 10 * SECOND), ResetSamples()[..1], [Interval(Area("0.0", 0.0), SECOND, 10 * SECOND)])
  {
    var q := AreaQuery(0, 10 * SECOND);
    var samples := ResetSamples();
    var rest, a0 := samples[..1], samples[1];
    assert samples == rest + [a0];
    assert PreviousSample(rest, true, AreaUnavailable) == Some(rest[0]);
    assert !Skips(q, rest, a0, []);
    NewStateSampleEmitted(q, rest, a0, []);
    var none: seq<Interval<AreaReading>> := [];
    assert none + [Interval(a0.state, a0.changed, q.upper)] == [Interval(Area("0.0", 0.0), SECOND, 10 * SECOND)];
  }

  /** The 12 reading, older than a 0 reading, is the reset artefact and is dropped. */
  lemma ResetArtefactSkipped()
    ensures Replay(AreaQuery(0, 10 * SECOND), ResetSamples()[..1], [Interval(Area("0.0", 0.0), SECOND, 10 * SECOND)])
            == [Interval(Area("0.0", 0.0), SECOND, 10 * SECOND)]
  {
    var q := AreaQuery(0, 10 * SECOND);
    var first := [Interval(Area("0.0", 0.0), SECOND, 10 * SECOND)];
    var samples := ResetSamples()[..1];
    var none: seq<Sample<AreaReading>> := [];
    var a12 := samples[0];
    assert samples == none + [a12];
    assert AreaResetCheck(None, a12, Some(first[0])) == Success(true);
    assert Skips(q, none, a12, first);
    SkippedSampleContributesNothing(q, none, a12, first);
  }

  /**
   * A first reading of 12 m² followed by the counter's reset to 0: the 12 is dropped, so the
   * area history only holds the 0 reading and nothing is attributed.
   */
  lemma ResetArtefactDropped(room: Room)
    ensures Reconstruct(AreaQuery(0, 10 * SECOND), ResetSamples()) == [Interval(Area("0.0", 0.0), SECOND, 10 * SECOND)]
    ensures Fold(History([Interval(room, 0, 10 * SECOND)]), [Interval(0.0, SECOND, 10 * SECOND)], None, EMPTY) == Success(EMPTY)
  {
    assert SortedByUpdated(ResetSamples());
    SortSortedIsIdentity(ResetSamples());
    ResetNewestEmitted();
    ResetArtefactSkipped();
    ZeroReadingCreditsNothing(room);
  }

  /** A lone 0 m² reading is skipped by the attribution, so no room is credited. */
  lemma ZeroReadingCreditsNothing(room: Room)
    ensures Fold(History([Interval(room, 0, 10 * SECOND)]), [Interval(0.0, SECOND, 10 * SECOND)], None, EMPTY) == Success(EMPTY)
  {
    var areas := [Interval(0.0, SECOND, 10 * SECOND)];
    assert Step(History([Interval(room, 0, 10 * SECOND)]), EMPTY, areas[0], None) == Success(EMPTY);
    assert areas[1..] == [];
  }

  /** Two spellings of one number: `12` at 0, then `12.0` a second later. */
  function SpellingSamples(): seq<Sample<AreaReading>> {
    [Sample(Area("12", 12.0), 0, 0), Sample(Area("12.0", 12.0), SECOND, SECOND)]
  }

  /** The `12.0` reading opens the newest interval. */
  lemma SpellingNewestEmitted()
    ensures Replay(AreaQuery(0, 10 * SECOND), SpellingSamples(), [])
            == Replay(AreaQuery(0, 10 * SECOND), SpellingSamples()[..1], [Interval(Area("12.0", 12.0), SECOND, 10 * SECOND)])
  {
    var q := AreaQuery(0, 10 * SECOND);
    var samples := SpellingSamples();
    var rest, b := samples[..1], samples[1];
    assert samples == rest + [b];
    assert PreviousSample(rest, true, AreaUnavailable) == Some(rest[0]);
    assert !Skips(q, rest, b, []);
    NewStateSampleEmitted(q, rest, b, []);
  }

  /** The `12` reading is not the reset artefact (the newer value is not 0) and its text differs, so it is emitted. */
  lemma SpellingOldestEmitted()
    ensures Replay(AreaQuery(0, 10 * SECOND), SpellingSamples()[..1], [Interval(Area("12.0", 12.0), SECOND, 10 * SECOND)])
            == [Interval(Area("12.0", 12.0), SECOND, 10 * SECOND), Interval(Area("12", 12.0), 0, SECOND)]
  {
    var q := AreaQuery(0, 10 * SECOND);
    var first := [Interval(Area("12.0", 12.0), SECOND, 10 * SECOND)];
    var samples := SpellingSamples()[..1];
    var none: seq<Sample<AreaReading>> := [];
    var a := samples[0];
    assert samples == none + [a];
    assert "12" != "12.0" by { assert |"12"| != |"12.0"|; }
    assert AreaResetCheck(None, a, Some(first[0])) == Success(false);
    assert !Skips(q, none, a, first);
    NewStateSampleEmitted(q, none, a, first);
  }

  /** The readings of `SpellingSamples` as numbers: the repeated 12 is not credited again. */
  lemma RepeatedValueNotCredited()
    ensures Fold(History([Interval(Kitchen, 0, 10 * SECOND)]), [Interval(12.0, 0, SECOND), Interval(12.0, SECOND, 10 * SECOND)], None, EMPTY)
            == Success(RoomTotals([Kitchen], map[Kitchen := Credit(12.0, SECOND)]))
  {
    var rooms := History([Interval(Kitchen, 0, 10 * SECOND)]);
    var areas := [Interval(12.0, 0, SECOND), Interval(12.0, SECOND, 10 * SECOND)];
    var t1 := RoomTotals([Kitchen], map[Kitchen := Credit(12.0, SECOND)]);
    assert EMPTY.credits[Kitchen := Credit(12.0, SECOND)] == t1.credits && EMPTY.order + [Kitchen] == t1.order;
    assert StateAt(rooms, 0) == Success(Interval(Kitchen, 0, 10 * SECOND));
    assert Step(rooms, EMPTY, areas[0], None) == Success(t1);
    assert Step(rooms, t1, areas[1], Some(12.0)) == Success(t1);
    assert areas[1..][0] == areas[1] && areas[1..][1..] == [];
    assert Fold(rooms, areas[1..], Some(12.0), t1) == Success(t1);
  }

  /**
   * The two spellings stay two intervals, as the source's text comparison keeps them; the second
   * repeats the value and is not credited, so the kitchen's end is the first interval's end, not
   * the window's.
   */
  lemma SpellingsStayApart()
    ensures Reconstruct(AreaQuery(0, 10 * SECOND), SpellingSamples())
            == [Interval(Area("12.0", 12.0), SECOND, 10 * SECOND), Interval(Area("12", 12.0), 0, SECOND)]
    ensures Fold(History([Interval(Kitchen, 0, 10 * SECOND)]), [Interval(12.0, 0, SECOND), Interval(12.0, SECOND, 10 * SECOND)], None, EMPTY)
            == Success(RoomTotals([Kitchen], map[Kitchen := Credit(12.0, SECOND)]))
  {
    assert SortedByUpdated(SpellingSamples());
    SortSortedIsIdentity(SpellingSamples());
    SpellingNewestEmitted();
    SpellingOldestEmitted();
    RepeatedValueNotCredited();
  }

  /**
   * Newest first: idle, cleaning, paused, cleaning, and nothing older. The pause does not end the
   * run, and since no breaking status follows the older cleaning the scan raises.
   */
  lemma PausedRunWithoutBreakRaises(t0: int, t1: int, t2: int, t3: int, t4: int)
    ensures CleaningRun([Interval(Completed, t3, t4), Interval(RoomCleaning, t2, t3),
                         Interval(RoomCleaningPaused, t1, t2), Interval(RoomCleaning, t0, t1)])
            == Failure(NoCleaningTaskStatus)
  {
    var h := [Interval(Completed, t3, t4), Interval(RoomCleaning, t2, t3),
              Interval(RoomCleaningPaused, t1, t2), Interval(RoomCleaning, t0, t1)];
    ExhaustedRunRaises(h, 1);
  }

  /** The same pause with a breaking status before it: the run spans both cleanings. */
  lemma PausedRunSpansBothCleanings(t: int, t0: int, t1: int, t2: int, t3: int, t4: int)
    ensures CleaningRun([Interval(Completed, t3, t4), Interval(RoomCleaning, t2, t3),
                         Interval(RoomCleaningPaused, t1, t2), Interval(RoomCleaning, t0, t1),
                         Interval(Completed, t, t0)])
            == Success((t0, t3))
  {
    var h := [Interval(Completed, t3, t4), Interval(RoomCleaning, t2, t3),
              Interval(RoomCleaningPaused, t1, t2), Interval(RoomCleaning, t0, t1),
              Interval(Completed, t, t0)];
    CleaningRunFound(h, 1, 3, 4);
  }

  /**
   * A reading that falls from 3 m² to 2 m² in the same room is attributed as written: the
   * negative step is added, leaving 2 m².
   */
  lemma FallingReadingSubtracts()
    ensures Fold(History([Interval(Office, 0, 10)]), [Interval(3.0, 1, 2), Interval(2.0, 2, 10)], None, EMPTY)
            == Success(RoomTotals([Office], map[Office := Credit(2.0, 10)]))
  {
    var rooms := History([Interval(Office, 0, 10)]);
    var areas := [Interval(3.0, 1, 2), Interval(2.0, 2, 10)];
    var t1 := RoomTotals([Office], map[Office := Credit(3.0, 2)]);
    assert EMPTY.credits[Office := Credit(3.0, 2)] == t1.credits && EMPTY.order + [Office] == t1.order;
    assert StateAt(rooms, 1) == Success(Interval(Office, 0, 10));
    assert Step(rooms, EMPTY, areas[0], None) == Success(t1);
    assert StateAt(rooms, 2) == Success(Interval(Office, 0, 10));
    assert t1.credits[Office := Credit(2.0, 10)] == map[Office := Credit(2.0, 10)];
    assert Step(rooms, t1, areas[1], Some(3.0)) == Success(RoomTotals([Office], map[Office := Credit(2.0, 10)]));
    assert areas[1..][1..] == [];
  }

  /** The rooms of the crossing scenario: the kitchen up to 30, then the office up to 40. */
  function CrossingRooms(): History<Room> {
    History([Interval(Kitchen, 0, 30), Interval(Office, 30, 40)])
  }

  /** The area readings of the crossing scenario, one every ten seconds. */
  function CrossingAreas(): seq<Interval<real>> {
    [Interval(3.0, 0, 10), Interval(5.2, 10, 20), Interval(6.0, 20, 30), Interval(10.9, 30, 40)]
  }

  /** The first two readings credit the kitchen with 3 m² and then 5.2 m². */
  lemma CrossingEarlyReadings()
    ensures Fold(CrossingRooms(), CrossingAreas(), None, EMPTY)
            == Fold(CrossingRooms(), CrossingAreas()[2..], Some(5.2), RoomTotals([Kitchen], map[Kitchen := Credit(5.2, 20)]))
  {
    var rooms, areas := CrossingRooms(), CrossingAreas();
    var t1 := RoomTotals([Kitchen], map[Kitchen := Credit(3.0, 10)]);
    var t2 := RoomTotals([Kitchen], map[Kitchen := Credit(5.2, 20)]);
    assert StateAt(rooms, 0) == Success(Interval(Kitchen, 0, 30));
    assert EMPTY.credits[Kitchen := Credit(3.0, 10)] == t1.credits && EMPTY.order + [Kitchen] == t1.order;
    assert Step(rooms, EMPTY, areas[0], None) == Success(t1);
    assert StateAt(rooms, 10) == Success(Interval(Kitchen, 0, 30));
    assert t1.credits[Kitchen := Credit(5.2, 20)] == t2.credits;
    assert Step(rooms, t1, areas[1], Some(3.0)) == Success(t2);
    assert areas[1..][1..] == areas[2..];
  }

  /** The last two readings credit the kitchen up to 30 and the office with 4.9 m² up to 40. */
  lemma CrossingLateReadings()
    ensures Fold(CrossingRooms(), CrossingAreas()[2..], Some(5.2), RoomTotals([Kitchen], map[Kitchen := Credit(5.2, 20)]))
            == Success(RoomTotals([Kitchen, Office], map[Kitchen := Credit(6.0, 30), Office := Credit(4.9, 40)]))
  {
    var rooms, areas := CrossingRooms(), CrossingAreas()[2..];
    var t2 := RoomTotals([Kitchen], map[Kitchen := Credit(5.2, 20)]);
    var t3 := RoomTotals([Kitchen], map[Kitchen := Credit(6.0, 30)]);
    var t4 := RoomTotals([Kitchen, Office], map[Kitchen := Credit(6.0, 30), Office := Credit(4.9, 40)]);
    assert areas == [Interval(6.0, 20, 30), Interval(10.9, 30, 40)];
    assert StateAt(rooms, 20) == Success(Interval(Kitchen, 0, 30));
    assert t2.credits[Kitchen := Credit(6.0, 30)] == t3.credits;
    assert Step(rooms, t2, areas[0], Some(5.2)) == Success(t3);
    assert StateAt(rooms, 30) == Success(Interval(Office, 30, 40));
    assert t3.credits[Office := Credit(4.9, 40)] == t4.credits && t3.order + [Office] == t4.order;
    assert Step(rooms, t3, areas[1], Some(6.0)) == Success(t4);
    assert areas[1..][1..] == [];
  }

  /**
   * The kitchen crosses its 5 m² minimum at the second reading (ending at 20) but keeps being
   * credited until 30; the office is credited 4.9 m² up to 40.
   */
  lemma KitchenCreditedPastCrossing()
    ensures Fold(History([Interval(Kitchen, 0, 30), Interval(Office, 30, 40)]),
                 [Interval(3.0, 0, 10), Interval(5.2, 10, 20), Interval(6.0, 20, 30), Interval(10.9, 30, 40)], None, EMPTY)
            == Success(RoomTotals([Kitchen, Office], map[Kitchen := Credit(6.0, 30), Office := Credit(4.9, 40)]))
  {
    CrossingEarlyReadings();
    CrossingLateReadings();
  }

  /**
   * On those totals the threshold loop records the kitchen with the end of its last credited
   * interval (30), not of the interval that crossed the minimum (20), and leaves the office out.
   */
  lemma ThresholdRecordsLastCreditedEnd()
    ensures ThresholdCalls([Kitchen, Office], map[Kitchen := Credit(6.0, 30), Office := Credit(4.9, 40)], 0, [])
            == ([(Kitchen, 30)], false)
  {
    var order, credits := [Kitchen, Office], map[Kitchen := Credit(6.0, 30), Office := Credit(4.9, 40)];
    assert credits[Kitchen].area >= 5.0 && credits[Office].area < 5.0;
    assert order[0] == Kitchen && order[1] == Office && MinimumCleanArea(Kitchen) == Some(5.0);
    var calls: seq<(Room, int)> := [];
    assert calls + [(Kitchen, credits[Kitchen].end)] == [(Kitchen, 30)];
    assert ThresholdCalls(order, credits, 0, calls) == ThresholdCalls(order, credits, 1, [(Kitchen, 30)]);
    assert ThresholdCalls(order, credits, 1, [(Kitchen, 30)]) == ThresholdCalls(order, credits, 2, [(Kitchen, 30)]);
  }

  /** Samples whose last_changed is out of step with their last_updated: docked changed at 25 but updated at 5. */
  function DisorderedSamples(): seq<Sample<CosmoState>> {
    [Sample(Docked, 25, 5), Sample(Cleaning, 10, 10), Sample(Paused, 20, 20)]
  }

  /** The never-drop request over `[0, 30]` in either revision. */
  function PlainQuery(revision: Revision): Query<CosmoState> {
    Query(revision, 0, 30, false, Idle, KeepAll)
  }

  /** In both revisions the two newest samples give the same two intervals. */
  lemma DisorderedNewestTwo(revision: Revision)
    ensures Replay(PlainQuery(revision), DisorderedSamples(), [])
            == Replay(PlainQuery(revision), DisorderedSamples()[..1], [Interval(Paused, 20, 30), Interval(Cleaning, 10, 20)])
  {
    var q := PlainQuery(revision);
    var samples := DisorderedSamples();
    var one := [Interval(Paused, 20, 30)];
    var two := [Interval(Paused, 20, 30), Interval(Cleaning, 10, 20)];
    assert samples == samples[..2] + [samples[2]] && samples[..2] == samples[..1] + [samples[1]];
    var none: seq<Interval<CosmoState>> := [];
    assert none + [Interval(Paused, 20, 30)] == one;
    NewStateSampleEmitted(q, samples[..2], samples[2], []);
    assert one + [Interval(Cleaning, 10, 20)] == two;
    NewStateSampleEmitted(q, samples[..1], samples[1], one);
  }

  /** The current revision's bound is the newest start, 20, so the change at 25 is skipped. */
  lemma DisorderedCurrentSkips()
    ensures Replay(PlainQuery(Current), DisorderedSamples()[..1], [Interval(Paused, 20, 30), Interval(Cleaning, 10, 20)])
            == [Interval(Paused, 20, 30), Interval(Cleaning, 10, 20)]
  {
    var q := PlainQuery(Current);
    var two := [Interval(Paused, 20, 30), Interval(Cleaning, 10, 20)];
    var samples := DisorderedSamples()[..1];
    var none: seq<Sample<CosmoState>> := [];
    assert samples == none + [samples[0]];
    assert SkipBound(q, two) == 20;
    assert Skips(q, none, samples[0], two);
    SkippedSampleContributesNothing(q, none, samples[0], two);
  }

  /** The earlier revision's bound stays 30, so the change at 25 is kept and ends at 10. */
  lemma DisorderedEarlierKeeps()
    ensures Replay(PlainQuery(Earlier), DisorderedSamples()[..1], [Interval(Paused, 20, 30), Interval(Cleaning, 10, 20)])
            == [Interval(Paused, 20, 30), Interval(Cleaning, 10, 20), Interval(Docked, 25, 10)]
  {
    var q := PlainQuery(Earlier);
    var two := [Interval(Paused, 20, 30), Interval(Cleaning, 10, 20)];
    var three := [Interval(Paused, 20, 30), Interval(Cleaning, 10, 20), Interval(Docked, 25, 10)];
    var d := Sample(Docked, 25, 5);
    var none: seq<Sample<CosmoState>> := [];
    assert DisorderedSamples()[..1] == none + [d];
    assert SkipBound(q, two) == 30;
    assert !Skips(q, none, d, two);
    NewStateSampleEmitted(q, none, d, two);
    assert two + [Interval(d.state, d.changed, two[1].start)] == three;
    assert Replay(q, none, three) == three;
  }

  /**
   * On the disordered samples the current revision's moving bound skips the late change, while
   * the earlier revision's fixed bound keeps it and emits an interval that ends before it starts.
   */
  lemma RevisionsDivergeOnDisorderedInput()
    ensures Reconstruct(PlainQuery(Current), DisorderedSamples()) == [Interval(Paused, 20, 30), Interval(Cleaning, 10, 20)]
    ensures Reconstruct(PlainQuery(Earlier), DisorderedSamples())
            == [Interval(Paused, 20, 30), Interval(Cleaning, 10, 20), Interval(Docked, 25, 10)]
  {
    assert SortedByUpdated(DisorderedSamples());
    SortSortedIsIdentity(DisorderedSamples());
    DisorderedNewestTwo(Current);
    DisorderedNewestTwo(Earlier);
    DisorderedCurrentSkips();
    DisorderedEarlierKeeps();
  }

  /** Samples that the current revision's moving bound does not catch: paused changed at 20, after the cleaning at 10. */
  function InvertingSamples(): seq<Sample<CosmoState>> {
    [Sample(Docked, 5, 21), Sample(Paused, 20, 22), Sample(Cleaning, 10, 25)]
  }

  /** The newest two samples: cleaning up to the upper limit, then paused ending at the cleaning's start. */
  lemma InvertingNewestTwo()
    ensures Replay(PlainQuery(Current), InvertingSamples(), [])
            == Replay(PlainQuery(Current), InvertingSamples()[..1], [Interval(Cleaning, 10, 30), Interval(Paused, 20, 10)])
  {
    var q := PlainQuery(Current);
    var samples := InvertingSamples();
    var one := [Interval(Cleaning, 10, 30)];
    var two := [Interval(Cleaning, 10, 30), Interval(Paused, 20, 10)];
    assert samples == samples[..2] + [samples[2]] && samples[..2] == samples[..1] + [samples[1]];
    var none: seq<Interval<CosmoState>> := [];
    assert none + [Interval(Cleaning, 10, 30)] == one;
    NewStateSampleEmitted(q, samples[..2], samples[2], []);
    assert SkipBound(q, one) == 30;
    assert one + [Interval(Paused, 20, 10)] == two;
    NewStateSampleEmitted(q, samples[..1], samples[1], one);
  }

  /** The docked sample changed at 5, within the bound 10, and is emitted up to the paused start. */
  lemma InvertingOldest()
    ensures Replay(PlainQuery(Current), InvertingSamples()[..1], [Interval(Cleaning, 10, 30), Interval(Paused, 20, 10)])
            == [Interval(Cleaning, 10, 30), Interval(Paused, 20, 10), Interval(Docked, 5, 20)]
  {
    var q := PlainQuery(Current);
    var two := [Interval(Cleaning, 10, 30), Interval(Paused, 20, 10)];
    var three := two + [Interval(Docked, 5, 20)];
    var d := Sample(Docked, 5, 21);
    var none: seq<Sample<CosmoState>> := [];
    assert InvertingSamples()[..1] == none + [d];
    assert SkipBound(q, two) == 10;
    assert !Skips(q, none, d, two);
    NewStateSampleEmitted(q, none, d, two);
    assert Replay(q, none, three) == three;
  }

  /**
   * The current revision, too, emits an interval that ends before it starts: its bound only
   * rejects a change later than the end of the newest emitted interval, and 20 is not later than 30.
   */
  lemma CurrentRevisionCanInvert()
    ensures Reconstruct(PlainQuery(Current), InvertingSamples())
            == [Interval(Cleaning, 10, 30), Interval(Paused, 20, 10), Interval(Docked, 5, 20)]
  {
    assert SortedByUpdated(InvertingSamples());
    SortSortedIsIdentity(InvertingSamples());
    InvertingNewestTwo();
    InvertingOldest();
  }

  /** Docked and then cleaning, both changed at 10 but updated one after the other. */
  function SameInstantSamples(): seq<Sample<CosmoState>> {
    [Sample(Docked, 10, 10), Sample(Cleaning, 10, 11)]
  }

  /** The newer sample opens an interval up to the upper limit. */
  lemma SameInstantNewest()
    ensures Replay(PlainQuery(Current), SameInstantSamples(), [])
            == Replay(PlainQuery(Current), SameInstantSamples()[..1], [Interval(Cleaning, 10, 30)])
  {
    var q := PlainQuery(Current);
    var c := Sample(Cleaning, 10, 11);
    assert SameInstantSamples() == SameInstantSamples()[..1] + [c];
    assert !Skips(q, SameInstantSamples()[..1], c, []);
    NewStateSampleEmitted(q, SameInstantSamples()[..1], c, []);
    var none: seq<Interval<CosmoState>> := [];
    assert none + [Interval(c.state, c.changed, q.upper)] == [Interval(Cleaning, 10, 30)];
  }

  /** The older sample gets the interval from 10 to the newer one's start, also 10. */
  lemma SameInstantOldest()
    ensures Replay(PlainQuery(Current), SameInstantSamples()[..1], [Interval(Cleaning, 10, 30)])
            == [Interval(Cleaning, 10, 30), Interval(Docked, 10, 10)]
  {
    var q := PlainQuery(Current);
    var one := [Interval(Cleaning, 10, 30)];
    var two := [Interval(Cleaning, 10, 30), Interval(Docked, 10, 10)];
    var d := Sample(Docked, 10, 10);
    var none: seq<Sample<CosmoState>> := [];
    assert SameInstantSamples()[..1] == none + [d];
    assert SkipBound(q, one) == 30;
    assert !Skips(q, none, d, one);
    NewStateSampleEmitted(q, none, d, one);
    assert one + [Interval(d.state, d.changed, one[0].start)] == two;
    assert Replay(q, none, two) == two;
  }

  /** Two different states changed at the same instant: the older one gets an empty interval. */
  lemma SameInstantGivesEmptyInterval()
    ensures Reconstruct(PlainQuery(Current), SameInstantSamples())
            == [Interval(Cleaning, 10, 30), Interval(Docked, 10, 10)]
  {
    assert SortedByUpdated(SameInstantSamples());
    SortSortedIsIdentity(SameInstantSamples());
    SameInstantNewest();
    SameInstantOldest();
  }

  /** No samples: the history is empty and, in the current revision, asking for its limits raises. */
  lemma EmptyInputHasNoLimits<T>(q: Query<T>)
    ensures Reconstruct(q, []) == []
    ensures LowerLimit(History(InOrder(Reconstruct(q, []), false))).Failure?
    ensures Duration(History(InOrder(Reconstruct(q, []), false))).Failure?
  {
    assert SortByUpdated<T>([]) == [];
  }
}
