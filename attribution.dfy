/**
 * `CosmoMonitor._get_area_cleaned_by_room` and the threshold loop of `log_cleaning_time`
 * (apps/cosmo/cosmo_monitor.py): the cleaned-area readings are credited, step by step, to the
 * room the vacuum was in when each reading started, and each room is then compared with its
 * minimum area.
 */
module Attribution {
  import opened Wrappers
  import opened History
  import opened Reconstruction
  import opened CosmoStates
  import opened Filters

  /** One entry of the result dict: the area credited so far and the end of the last credited reading. */
  datatype Credit = Credit(area: real, end: int)

  /** A dict keyed by room: the keys in insertion order and the values. */
  datatype RoomTotals = RoomTotals(order: seq<Room>, credits: map<Room, Credit>)

  /** The keys are listed once each, in insertion order. */
  predicate WellKeyed(t: RoomTotals) {
    && (forall i, j | 0 <= i < j < |t.order| :: t.order[i] != t.order[j])
    && (forall r :: r in t.credits <==> r in t.order)
  }

  const EMPTY: RoomTotals := RoomTotals([], map[])

  // ---------------------------------------------------------------------------------------------
  // Converting the reconstructed readings to numbers

  /**
   * The area history's intervals as numbers (pydantic validates each state as a float); fails
   * if any interval carries the unavailable sentinel or other text.
   */
  function ToAreaValues(h: seq<Interval<AreaReading>>): (r: Option<seq<Interval<real>>>)
    ensures r.Some? <==> AllNumeric(h)
    ensures r.Some? ==> |r.value| == |h| && forall i | 0 <= i < |h| ::
      r.value[i] == Interval(h[i].state.squareMetres, h[i].start, h[i].end)
  {
    if h == [] then Some([])
    else
      match h[0].state
      case Area(_, v) =>
        (match ToAreaValues(h[1..])
         case None => None
         case Some(rest) => Some([Interval(v, h[0].start, h[0].end)] + rest))
      case _ => None
  }

  // ---------------------------------------------------------------------------------------------
  // The attribution fold

  /** `area_state.state not in (None, 0.0, prev_value)`. */
  predicate Credited(v: real, prev: Option<real>) {
    v != 0.0 && (prev.None? || v != prev.value)
  }

  /** `area_state.state - (prev_value or 0)`. */
  function Increment(v: real, prev: Option<real>): real {
    v - prev.GetOr(0.0)
  }

  /** The room the vacuum was in at `t`, when `state_at` finds one. */
  function RoomAt(rooms: History<Room>, t: int): Option<Room> {
    match StateAt(rooms, t)
    case Success(i) => Some(i.state)
    case Failure(_) => None
  }

  /** One iteration: credit the reading to the room current at its start (`setdefault`, `+=`, end). */
  function Step(rooms: History<Room>, t: RoomTotals, a: Interval<real>, prev: Option<real>): Result<RoomTotals, HistoryError> {
    if !Credited(a.state, prev) then Success(t)
    else
      match StateAt(rooms, a.start)
      case Failure(e) => Failure(e)
      case Success(roomState) =>
        var room := roomState.state;
        var base := if room in t.credits then t.credits[room] else Credit(0.0, a.end);
        var order := if room in t.credits then t.order else t.order + [room];
        Success(RoomTotals(order, t.credits[room := Credit(base.area + Increment(a.state, prev), a.end)]))
  }

  /** Reference definition of the loop: `prev` advances on every reading, credited or not. */
  function Fold(rooms: History<Room>, areas: seq<Interval<real>>, prev: Option<real>, t: RoomTotals): Result<RoomTotals, HistoryError>
    decreases |areas|
  {
    if areas == [] then Success(t)
    else
      match Step(rooms, t, areas[0], prev)
      case Failure(e) => Failure(e)
      case Success(t') => Fold(rooms, areas[1..], Some(areas[0].state), t')
  }

  /** `_get_area_cleaned_by_room`: the dict is updated in place while `prev_value` runs along. */
  method AreaCleanedByRoom(rooms: History<Room>, areas: seq<Interval<real>>) returns (r: Result<RoomTotals, HistoryError>)
    ensures r == Fold(rooms, areas, None, EMPTY)
  {
    var order: seq<Room> := [];
    var byRoom: map<Room, Credit> := map[];
    var prev: Option<real> := None;
    var i := 0;
    while i < |areas|
      invariant 0 <= i <= |areas|
      invariant Fold(rooms, areas[i..], prev, RoomTotals(order, byRoom)) == Fold(rooms, areas, None, EMPTY)
    {
      var areaState := areas[i];
      assert areas[i..][0] == areaState && areas[i..][1..] == areas[i + 1..];
      ghost var before := RoomTotals(order, byRoom);
      if areaState.state != 0.0 && (prev.None? || areaState.state != prev.value) {
        var roomState := StateAt(rooms, areaState.start);
        if roomState.Failure? {
          return Failure(roomState.error);
        }
        var room := roomState.value.state;
        // setdefault, then the two in-place updates of the room's entry
        var credit := if room in byRoom then byRoom[room] else Credit(0.0, areaState.end);
        if room !in byRoom {
          order := order + [room];
        }
        credit := credit.(area := credit.area + (areaState.state - prev.GetOr(0.0)));
        credit := credit.(end := areaState.end);
        byRoom := byRoom[room := credit];
        assert Step(rooms, before, areaState, prev) == Success(RoomTotals(order, byRoom));
      } else {
        assert Step(rooms, before, areaState, prev) == Success(before);
      }
      assert Fold(rooms, areas[i..], prev, before)
             == Fold(rooms, areas[i + 1..], Some(areaState.state), RoomTotals(order, byRoom));
      prev := Some(areaState.state);
      i := i + 1;
    }
    return Success(RoomTotals(order, byRoom));
  }

  // ---------------------------------------------------------------------------------------------
  // What each room is credited with

  /** Every credited reading falls inside the room history, so `state_at` never raises. */
  predicate Located(rooms: History<Room>, areas: seq<Interval<real>>, prev: Option<real>)
    decreases |areas|
  {
    areas != [] ==>
      && (Credited(areas[0].state, prev) ==> RoomAt(rooms, areas[0].start).Some?)
      && Located(rooms, areas[1..], Some(areas[0].state))
  }

  /** The sum, over the readings credited to `room`, of each reading minus the one before it. */
  function Contribution(rooms: History<Room>, areas: seq<Interval<real>>, prev: Option<real>, room: Room): real
    decreases |areas|
  {
    if areas == [] then 0.0
    else
      (if Credited(areas[0].state, prev) && RoomAt(rooms, areas[0].start) == Some(room)
       then Increment(areas[0].state, prev) else 0.0)
      + Contribution(rooms, areas[1..], Some(areas[0].state), room)
  }

  /** The end of the last reading credited to `room`. */
  function LastCreditedEnd(rooms: History<Room>, areas: seq<Interval<real>>, prev: Option<real>, room: Room): Option<int>
    decreases |areas|
  {
    if areas == [] then None
    else
      var later := LastCreditedEnd(rooms, areas[1..], Some(areas[0].state), room);
      if later.Some? then later
      else if Credited(areas[0].state, prev) && RoomAt(rooms, areas[0].start) == Some(room) then Some(areas[0].end)
      else None
  }

  /** A room no reading is credited to gets nothing. */
  lemma {:induction false} UncreditedRoomGetsNothing(rooms: History<Room>, areas: seq<Interval<real>>, prev: Option<real>, room: Room)
    requires LastCreditedEnd(rooms, areas, prev, room).None?
    ensures Contribution(rooms, areas, prev, room) == 0.0
    decreases |areas|
  {
    if areas != [] {
      UncreditedRoomGetsNothing(rooms, areas[1..], Some(areas[0].state), room);
    }
  }

  /** The fold raises exactly when a credited reading starts outside the room history. */
  lemma {:induction false} FoldSucceedsIffLocated(rooms: History<Room>, areas: seq<Interval<real>>, prev: Option<real>, t: RoomTotals)
    ensures Fold(rooms, areas, prev, t).Success? <==> Located(rooms, areas, prev)
    decreases |areas|
  {
    if areas != [] {
      var step := Step(rooms, t, areas[0], prev);
      if step.Success? {
        FoldSucceedsIffLocated(rooms, areas[1..], Some(areas[0].state), step.value);
      }
    }
  }

  /** One step keeps the keys listed once each and only ever appends a key. */
  lemma StepKeepsKeys(rooms: History<Room>, t: RoomTotals, a: Interval<real>, prev: Option<real>)
    requires WellKeyed(t)
    requires Step(rooms, t, a, prev).Success?
    ensures var t1 := Step(rooms, t, a, prev).value;
      WellKeyed(t1) && |t.order| <= |t1.order| && t1.order[..|t.order|] == t.order
  {
    var t1 := Step(rooms, t, a, prev).value;
    if Credited(a.state, prev) {
      var rr := StateAt(rooms, a.start).value.state;
      if rr !in t.credits {
        assert t1.order == t.order + [rr];
        assert rr !in t.order;
      }
    }
  }

  /** Keys keep their insertion order and are listed once each. */
  lemma {:induction false} FoldKeepsKeys(rooms: History<Room>, areas: seq<Interval<real>>, prev: Option<real>, t: RoomTotals)
    requires WellKeyed(t)
    ensures Fold(rooms, areas, prev, t).Success? ==>
      var t' := Fold(rooms, areas, prev, t).value;
      WellKeyed(t') && |t.order| <= |t'.order| && t'.order[..|t.order|] == t.order
    decreases |areas|
  {
    if areas != [] {
      var step := Step(rooms, t, areas[0], prev);
      if step.Success? {
        StepKeepsKeys(rooms, t, areas[0], prev);
        FoldKeepsKeys(rooms, areas[1..], Some(areas[0].state), step.value);
        var t' := Fold(rooms, areas, prev, t);
        if t'.Success? {
          assert t'.value.order[..|t.order|] == t'.value.order[..|step.value.order|][..|t.order|];
        }
      }
    }
  }

  /**
   * Each room's entry holds what it had plus its contribution and ends at its last credited
   * reading; a room is a key exactly when it was one already or some reading was credited to it.
   */
  lemma {:induction false} FoldCreditsEachRoom(rooms: History<Room>, areas: seq<Interval<real>>, prev: Option<real>, t: RoomTotals, room: Room)
    requires Fold(rooms, areas, prev, t).Success?
    ensures var t' := Fold(rooms, areas, prev, t).value;
      && (room in t'.credits <==> room in t.credits || LastCreditedEnd(rooms, areas, prev, room).Some?)
      && (room in t'.credits ==>
            t'.credits[room].area == (if room in t.credits then t.credits[room].area else 0.0) + Contribution(rooms, areas, prev, room))
      && (room in t'.credits && LastCreditedEnd(rooms, areas, prev, room).Some? ==>
            t'.credits[room].end == LastCreditedEnd(rooms, areas, prev, room).value)
      && (room in t.credits && LastCreditedEnd(rooms, areas, prev, room).None? ==> t'.credits[room] == t.credits[room])
    decreases |areas|
  {
    if areas != [] {
      var a := areas[0];
      var t1 := Step(rooms, t, a, prev).value;
      FoldCreditsEachRoom(rooms, areas[1..], Some(a.state), t1, room);
      if LastCreditedEnd(rooms, areas[1..], Some(a.state), room).None? {
        UncreditedRoomGetsNothing(rooms, areas[1..], Some(a.state), room);
      }
    }
  }

  // ---------------------------------------------------------------------------------------------
  // Conservation of the credited area

  /** The sum of the increments of every credited reading, whatever room it went to. */
  function TotalCredited(areas: seq<Interval<real>>, prev: Option<real>): real
    decreases |areas|
  {
    if areas == [] then 0.0
    else
      (if Credited(areas[0].state, prev) then Increment(areas[0].state, prev) else 0.0)
      + TotalCredited(areas[1..], Some(areas[0].state))
  }

  /** With no zero reading the increments telescope: the total is the last reading minus the starting one. */
  lemma {:induction false} TotalTelescopes(areas: seq<Interval<real>>, prev: Option<real>)
    requires areas != []
    requires forall i | 0 <= i < |areas| :: areas[i].state != 0.0
    ensures TotalCredited(areas, prev) == areas[|areas| - 1].state - prev.GetOr(0.0)
    decreases |areas|
  {
    if |areas| > 1 {
      TotalTelescopes(areas[1..], Some(areas[0].state));
    }
  }

  /** The contributions of the rooms in `rs`, added up. */
  function SumOver(rooms: History<Room>, areas: seq<Interval<real>>, prev: Option<real>, rs: seq<Room>): real {
    if rs == [] then 0.0 else Contribution(rooms, areas, prev, rs[0]) + SumOver(rooms, areas, prev, rs[1..])
  }

  const ALL_ROOMS: seq<Room> := [Bathroom, Bedroom, EnSuite, Hallway, Kitchen, Lounge, Office, RoomUnavailable]

  /** What the first reading contributes to each room of `rs`, added up. */
  function HeadShare(rooms: History<Room>, a: Interval<real>, prev: Option<real>, rs: seq<Room>): real {
    if rs == [] then 0.0
    else
      (if Credited(a.state, prev) && RoomAt(rooms, a.start) == Some(rs[0]) then Increment(a.state, prev) else 0.0)
      + HeadShare(rooms, a, prev, rs[1..])
  }

  /** Over a list of distinct rooms a reading is shared out once, to its own room if listed. */
  lemma {:induction false} HeadShareOnce(rooms: History<Room>, a: Interval<real>, prev: Option<real>, rs: seq<Room>)
    requires forall i, j | 0 <= i < j < |rs| :: rs[i] != rs[j]
    ensures HeadShare(rooms, a, prev, rs) ==
      if Credited(a.state, prev) && RoomAt(rooms, a.start).Some? && RoomAt(rooms, a.start).value in rs
      then Increment(a.state, prev) else 0.0
  {
    if rs != [] {
      HeadShareOnce(rooms, a, prev, rs[1..]);
      if RoomAt(rooms, a.start) == Some(rs[0]) {
        assert rs[0] !in rs[1..];
      }
    }
  }

  /** Summing over rooms splits into the first reading's shares and the rest. */
  lemma {:induction false} SumOverSplits(rooms: History<Room>, areas: seq<Interval<real>>, prev: Option<real>, rs: seq<Room>)
    requires areas != []
    ensures SumOver(rooms, areas, prev, rs) ==
      HeadShare(rooms, areas[0], prev, rs) + SumOver(rooms, areas[1..], Some(areas[0].state), rs)
  {
    if rs != [] {
      SumOverSplits(rooms, areas, prev, rs[1..]);
    }
  }

  /** With no readings every room's contribution is zero. */
  lemma {:induction false} SumOverNothing(rooms: History<Room>, prev: Option<real>, rs: seq<Room>)
    ensures SumOver(rooms, [], prev, rs) == 0.0
  {
    if rs != [] {
      SumOverNothing(rooms, prev, rs[1..]);
    }
  }

  /**
   * When every credited reading falls inside the room history, the rooms' contributions add up to
   * the total increment: every reading is credited to exactly one room.
   */
  lemma {:induction false} AreaConserved(rooms: History<Room>, areas: seq<Interval<real>>, prev: Option<real>)
    requires Located(rooms, areas, prev)
    ensures SumOver(rooms, areas, prev, ALL_ROOMS) == TotalCredited(areas, prev)
    decreases |areas|
  {
    if areas != [] {
      SumOverSplits(rooms, areas, prev, ALL_ROOMS);
      AreaConserved(rooms, areas[1..], Some(areas[0].state));
      HeadShareOnce(rooms, areas[0], prev, ALL_ROOMS);
      if Credited(areas[0].state, prev) {
        var room := RoomAt(rooms, areas[0].start).value;
        assert room in ALL_ROOMS by {
          match room
          case Bathroom => assert ALL_ROOMS[0] == room;
          case Bedroom => assert ALL_ROOMS[1] == room;
          case EnSuite => assert ALL_ROOMS[2] == room;
          case Hallway => assert ALL_ROOMS[3] == room;
          case Kitchen => assert ALL_ROOMS[4] == room;
          case Lounge => assert ALL_ROOMS[5] == room;
          case Office => assert ALL_ROOMS[6] == room;
          case RoomUnavailable => assert ALL_ROOMS[7] == room;
        }
      }
    } else {
      SumOverNothing(rooms, prev, ALL_ROOMS);
    }
  }

  // ---------------------------------------------------------------------------------------------
  // The threshold loop

  /**
   * Reference definition of the loop over the dict's items from position `i`, with the calls made
   * so far: a room whose area reaches its minimum has its end recorded, in insertion order; the
   * unavailable sentinel has no minimum, so reaching it raises a KeyError after the rooms before
   * it were recorded (`raised`).
   */
  function ThresholdCalls(order: seq<Room>, credits: map<Room, Credit>, i: nat, calls: seq<(Room, int)>): (seq<(Room, int)>, bool)
    requires i <= |order|
    requires forall r | r in order :: r in credits
    decreases |order| - i
  {
    if i == |order| then (calls, false)
    else
      var room := order[i];
      match MinimumCleanArea(room)
      case None => (calls, true)
      case Some(minimum) =>
        ThresholdCalls(order, credits, i + 1, if credits[room].area >= minimum then calls + [(room, credits[room].end)] else calls)
  }

  /** The threshold loop of `log_cleaning_time` (apps/cosmo/cosmo_monitor.py:589-607). */
  method RecordCleanRooms(t: RoomTotals) returns (calls: seq<(Room, int)>, raised: bool)
    requires WellKeyed(t)
    ensures (calls, raised) == ThresholdCalls(t.order, t.credits, 0, [])
  {
    calls := [];
    var i := 0;
    while i < |t.order|
      invariant 0 <= i <= |t.order|
      invariant ThresholdCalls(t.order, t.credits, i, calls) == ThresholdCalls(t.order, t.credits, 0, [])
    {
      var room := t.order[i];
      var minimum := MinimumCleanArea(room);
      if minimum.None? {
        return calls, true;
      }
      if t.credits[room].area >= minimum.value {
        calls := calls + [(room, t.credits[room].end)];
      }
      i := i + 1;
    }
    return calls, false;
  }

  /**
   * Without an unavailable key the loop never raises, and the recorded rooms are exactly those
   * whose area reaches the minimum, each with its own end.
   */
  lemma {:induction false} ThresholdDecides(order: seq<Room>, credits: map<Room, Credit>, i: nat, calls: seq<(Room, int)>, room: Room, end: int)
    requires i <= |order|
    requires forall r | r in order :: r in credits
    requires RoomUnavailable !in order
    ensures !ThresholdCalls(order, credits, i, calls).1
    ensures (room, end) in ThresholdCalls(order, credits, i, calls).0 <==>
      (room, end) in calls ||
      (room in order[i..] && credits[room].area >= MinimumCleanArea(room).value && end == credits[room].end)
    decreases |order| - i
  {
    if i < |order| {
      assert order[i] in order;
      var next := if credits[order[i]].area >= MinimumCleanArea(order[i]).value then calls + [(order[i], credits[order[i]].end)] else calls;
      ThresholdDecides(order, credits, i + 1, next, room, end);
      assert order[i..] == [order[i]] + order[i + 1..];
    }
  }

  /** A room history without the unavailable sentinel never credits it, so it never becomes a key. */
  lemma {:induction false} NoUnavailableKey(rooms: History<Room>, areas: seq<Interval<real>>, prev: Option<real>, t: RoomTotals)
    requires Avoids(rooms.states, RoomUnavailable)
    requires RoomUnavailable !in t.credits
    ensures Fold(rooms, areas, prev, t).Success? ==> RoomUnavailable !in Fold(rooms, areas, prev, t).value.credits
    decreases |areas|
  {
    if areas != [] {
      var step := Step(rooms, t, areas[0], prev);
      if step.Success? {
        NoUnavailableKey(rooms, areas[1..], Some(areas[0].state), step.value);
      }
    }
  }
}
