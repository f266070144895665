/** What holds in every run of the beach service, call by call. */
module BeachLaws {
  import opened Wrappers
  import opened Beach
  import opened Sets

  function Run(t: Tables, cs: seq<Call>): Tables
    decreases |cs|
  {
    if cs == [] then t else Run(After(t, cs[0]), cs[1..])
  }

  // ---------------------------------------------------------------- safety

  ghost predicate RowWithin(row: Row, bookings: Bookings) {
    |BookedIn(bookings, row.id)| <= if row.capacity < 0 then 0 else row.capacity
  }

  ghost predicate WithinCapacity(t: Tables) {
    forall i :: 0 <= i < |t.activities| ==> RowWithin(t.activities[i], t.bookings)
  }

  ghost predicate BookersCheckedIn(t: Tables) {
    forall b :: b in t.bookings ==> b.1 in t.visitors && t.visitors[b.1] && Exists(t.activities, b.0)
  }

  ghost predicate Safe(t: Tables) {
    DistinctIds(t.activities) && SingleBooking(t.bookings) && BookersCheckedIn(t) && WithinCapacity(t)
  }

  /** Fewer bookings cannot exceed a capacity. */
  lemma FewerStayWithin(t: Tables, fewer: Bookings)
    requires WithinCapacity(t) && fewer <= t.bookings
    ensures WithinCapacity(t.(bookings := fewer))
  {
    forall i | 0 <= i < |t.activities| ensures RowWithin(t.activities[i], fewer) {
      assert RowWithin(t.activities[i], t.bookings);
      SubsetSize(BookedIn(fewer, t.activities[i].id), BookedIn(t.bookings, t.activities[i].id));
    }
  }

  lemma {:induction false} FindsTheRow(rows: seq<Row>, bookings: Bookings, i: nat)
    requires DistinctIds(rows) && i < |rows|
    ensures Find(rows, bookings, rows[i].id) ==
              Some(Activity(rows[i].id, rows[i].capacity, BookedIn(bookings, rows[i].id)))
  {
    if i > 0 {
      assert rows[0].id != rows[i].id;
      FindsTheRow(rows[1..], bookings, i - 1);
    }
  }

  /** A place taken in one activity leaves every other no fuller. */
  lemma WriteAdds(bookings: Bookings, activity: string, visitor: string, other: string)
    ensures other != activity ==> BookedIn(Write(bookings, activity, visitor), other) <= BookedIn(bookings, other)
    ensures BookedIn(Write(bookings, activity, visitor), activity) == BookedIn(bookings, activity) + {visitor}
  {
    var after := Write(bookings, activity, visitor);
    assert (activity, visitor) in after;
    forall v | v in BookedIn(bookings, activity) ensures v in BookedIn(after, activity) {
      if v != visitor { assert (activity, v) in after; }
    }
  }

  lemma {:induction false} RowStaysWithin(t: Tables, activity: string, visitor: string, i: nat)
    requires Safe(t) && i < |t.activities| && Refusal(t, Book(activity, visitor)).None?
    ensures RowWithin(t.activities[i], Write(t.bookings, activity, visitor))
  {
    var row := t.activities[i];
    assert RowWithin(row, t.bookings);
    WriteAdds(t.bookings, activity, visitor, row.id);
    if row.id == activity {
      FindsTheRow(t.activities, t.bookings, i);
    } else {
      SubsetSize(BookedIn(Write(t.bookings, activity, visitor), row.id), BookedIn(t.bookings, row.id));
    }
  }

  lemma BookStaysWithin(t: Tables, activity: string, visitor: string)
    requires Safe(t) && Refusal(t, Book(activity, visitor)).None?
    ensures WithinCapacity(After(t, Book(activity, visitor)))
  {
    forall i | 0 <= i < |t.activities| ensures RowWithin(t.activities[i], Write(t.bookings, activity, visitor)) {
      RowStaysWithin(t, activity, visitor, i);
    }
  }

  lemma {:induction false} StepKeepsSafe(t: Tables, c: Call)
    requires Safe(t)
    ensures Safe(After(t, c))
  {
    var after := After(t, c);
    match c
    case CheckIn(_) =>
    case CheckOut(_) => FewerStayWithin(t, after.bookings);
    case Cancel(_, _) => FewerStayWithin(t, after.bookings);
    case Book(activity, visitor) =>
      if Refusal(t, c).None? {
        BookStaysWithin(t, activity, visitor);
        FoundHasId(t.activities, t.bookings, activity);
      }
  }

  /** In every run from empty tables, no activity exceeds its capacity, no visitor has two bookings,
      and who is booked is checked in, in an activity that exists. */
  lemma {:induction false} RunIsSafe(t: Tables, cs: seq<Call>)
    requires Safe(t)
    ensures Safe(Run(t, cs))
    decreases |cs|
  {
    if cs != [] {
      StepKeepsSafe(t, cs[0]);
      RunIsSafe(After(t, cs[0]), cs[1..]);
    }
  }

  lemma StartIsSafe(activities: seq<Row>)
    requires DistinctIds(activities)
    ensures Safe(Tables(activities, {}, map[]))
  {
    forall i | 0 <= i < |activities| ensures BookedIn({}, activities[i].id) == {} {}
  }

  // ---------------------------------------------------------------- conservation of places

  function TotalCapacity(rows: seq<Row>): int {
    if rows == [] then 0 else rows[0].capacity + TotalCapacity(rows[1..])
  }

  /** The places left, summed over the activities as the service lists them. */
  function TotalRemaining(rows: seq<Row>, bookings: Bookings): int {
    if rows == [] then 0
    else
      Activity(rows[0].id, rows[0].capacity, BookedIn(bookings, rows[0].id)).Remaining()
      + TotalRemaining(rows[1..], bookings)
  }

  function In(bookings: Bookings, id: string): Bookings {
    set b | b in bookings && b.0 == id
  }

  lemma {:induction false} BookedAreBookings(bookings: Bookings, id: string)
    ensures |BookedIn(bookings, id)| == |In(bookings, id)|
    decreases |bookings|
  {
    if b :| b in bookings {
      var rest := bookings - {b};
      BookedAreBookings(rest, id);
      if b.0 == id {
        assert In(bookings, id) == In(rest, id) + {b};
        assert BookedIn(bookings, id) == BookedIn(rest, id) + {b.1} by {
          assert b in bookings && b.1 in BookedIn(bookings, id);
          forall v | v in BookedIn(rest, id) ensures v in BookedIn(bookings, id) { assert (id, v) in bookings; }
          forall v | v in BookedIn(bookings, id) && v != b.1 ensures v in BookedIn(rest, id) { assert (id, v) in rest; }
        }
        assert b.1 !in BookedIn(rest, id);
      } else {
        assert In(bookings, id) == In(rest, id);
        forall v ensures v in BookedIn(bookings, id) <==> v in BookedIn(rest, id) {
          assert (id, v) in bookings <==> (id, v) in rest;
        }
        assert BookedIn(bookings, id) == BookedIn(rest, id);
      }
    } else {
      assert BookedIn(bookings, id) == {} && In(bookings, id) == {};
    }
  }

  /** Places left and bookings add up to the places there are. */
  lemma {:induction false} PlacesAddUp(rows: seq<Row>, bookings: Bookings)
    requires DistinctIds(rows) && forall b :: b in bookings ==> Exists(rows, b.0)
    ensures TotalRemaining(rows, bookings) + |bookings| == TotalCapacity(rows)
  {
    if rows == [] {
      assert bookings == {};
    } else {
      var here := In(bookings, rows[0].id);
      var rest := bookings - here;
      BookedAreBookings(bookings, rows[0].id);
      forall b | b in rest ensures Exists(rows[1..], b.0) {
        var i :| 0 <= i < |rows| && rows[i].id == b.0;
        assert rows[1..][i - 1].id == b.0;
      }
      PlacesAddUp(rows[1..], rest);
      SameRemaining(rows[1..], bookings, rest, rows[0].id);
      assert bookings == here + rest;
    }
  }

  lemma {:induction false} SameRemaining(rows: seq<Row>, bookings: Bookings, rest: Bookings, id: string)
    requires rest == bookings - In(bookings, id) && forall i :: 0 <= i < |rows| ==> rows[i].id != id
    ensures TotalRemaining(rows, bookings) == TotalRemaining(rows, rest)
  {
    if rows != [] {
      var other := rows[0].id;
      forall v ensures v in BookedIn(bookings, other) <==> v in BookedIn(rest, other) {
        assert (other, v) in bookings <==> (other, v) in rest;
      }
      assert BookedIn(bookings, other) == BookedIn(rest, other);
      SameRemaining(rows[1..], bookings, rest, id);
    }
  }

  /** In every run, remaining places over all activities plus bookings equal the total capacity. */
  lemma {:induction false} PlacesConserved(activities: seq<Row>, cs: seq<Call>)
    requires DistinctIds(activities)
    ensures var t := Run(Tables(activities, {}, map[]), cs);
            TotalRemaining(activities, t.bookings) + |t.bookings| == TotalCapacity(activities)
  {
    StartIsSafe(activities);
    RunIsSafe(Tables(activities, {}, map[]), cs);
    SameActivities(Tables(activities, {}, map[]), cs);
    PlacesAddUp(activities, Run(Tables(activities, {}, map[]), cs).bookings);
  }

  lemma {:induction false} SameActivities(t: Tables, cs: seq<Call>)
    ensures Run(t, cs).activities == t.activities
    decreases |cs|
  {
    if cs != [] { SameActivities(After(t, cs[0]), cs[1..]); }
  }

  // ---------------------------------------------------------------- what one booking changes

  /** A booking goes through exactly for a named visitor who is checked in, an activity that exists
      and has a place left, and a visitor not in it already. */
  lemma BookedIff(t: Tables, activity: string, visitor: string)
    requires Safe(t)
    ensures Refusal(t, Book(activity, visitor)).None? <==>
              && !IsBlank(visitor) && visitor in t.visitors && t.visitors[visitor]
              && visitor !in BookedIn(t.bookings, activity)
              && exists i :: 0 <= i < |t.activities| && t.activities[i].id == activity
                               && |BookedIn(t.bookings, activity)| < t.activities[i].capacity
  {
    FoundHasId(t.activities, t.bookings, activity);
    assert visitor in BookedIn(t.bookings, activity) <==> (activity, visitor) in t.bookings;
    if i :| 0 <= i < |t.activities| && t.activities[i].id == activity {
      FindsTheRow(t.activities, t.bookings, i);
    }
  }

  ghost predicate HasPlace(t: Tables, activity: string) {
    exists i :: 0 <= i < |t.activities| && t.activities[i].id == activity
                 && |BookedIn(t.bookings, activity)| < t.activities[i].capacity
  }

  /** What a booking is refused for, in the order in which the code looks. */
  lemma BookRefusals(t: Tables, activity: string, visitor: string)
    requires DistinctIds(t.activities)
    ensures var why, named := Refusal(t, Book(activity, visitor)), !IsBlank(visitor);
            var there := exists i :: 0 <= i < |t.activities| && t.activities[i].id == activity;
            var checkedIn := visitor in t.visitors && t.visitors[visitor];
            && (why == Some(VisitorMissingId) <==> !named)
            && (why == Some(ActivityNotFound) <==> named && !there)
            && (why == Some(VisitorNotFound) <==> named && there && visitor !in t.visitors)
            && (why == Some(NotCheckedIn) <==> named && there && visitor in t.visitors && !checkedIn)
            && (why == Some(AlreadyBooked) <==> named && there && checkedIn && (activity, visitor) in t.bookings)
            && (why == Some(ActivityFull) <==>
                  named && there && checkedIn && (activity, visitor) !in t.bookings && !HasPlace(t, activity))
  {
    FoundHasId(t.activities, t.bookings, activity);
    if i :| 0 <= i < |t.activities| && t.activities[i].id == activity {
      FindsTheRow(t.activities, t.bookings, i);
    }
  }

  lemma CancelRefusals(t: Tables, activity: string, visitor: string)
    ensures var why := Refusal(t, Cancel(activity, visitor));
            var there := exists i :: 0 <= i < |t.activities| && t.activities[i].id == activity;
            && (why == Some(ActivityNotFound) <==> !there)
            && (why == Some(VisitorMissingId) <==> there && IsBlank(visitor))
            && (why == None <==> there && !IsBlank(visitor))
  {
    FoundHasId(t.activities, t.bookings, activity);
  }

  /** What each call changes, booking by booking and visitor by visitor; a refused one changes nothing. */
  lemma CallChanges(t: Tables, c: Call)
    ensures After(t, c).activities == t.activities
    ensures Refusal(t, c).Some? ==> After(t, c) == t
    ensures Refusal(t, c).None? ==>
              forall a: string, v: string :: (a, v) in After(t, c).bookings <==>
                match c
                case CheckIn(_) => (a, v) in t.bookings
                case CheckOut(visitor) => (a, v) in t.bookings && v != visitor
                case Book(activity, visitor) =>
                  (a == activity && v == visitor) || ((a, v) in t.bookings && v != visitor)
                case Cancel(activity, visitor) => (a, v) in t.bookings && !(a == activity && v == visitor)
    ensures c.Book? || c.Cancel? ==> After(t, c).visitors == t.visitors
    ensures c.CheckIn? || c.CheckOut? ==>
              && After(t, c).visitors.Keys == t.visitors.Keys + (if c.CheckIn? then {c.visitor} else {})
              && forall v :: v in After(t, c).visitors ==>
                   After(t, c).visitors[v] == if v == c.visitor then c.CheckIn? else t.visitors[v]
  {
  }

  lemma AtMostOneOwn(bookings: Bookings, visitor: string)
    requires SingleBooking(bookings)
    ensures |BookingsOf(bookings, visitor)| == if BookingsOf(bookings, visitor) == {} then 0 else 1
  {
    if b :| b in BookingsOf(bookings, visitor) {
      assert BookingsOf(bookings, visitor) == {b};
    }
  }

  lemma WriteSize(bookings: Bookings, activity: string, visitor: string)
    ensures |Write(bookings, activity, visitor)| == |bookings| - |BookingsOf(bookings, visitor)| + 1
  {
    var own := BookingsOf(bookings, visitor);
    assert bookings == (bookings - own) + own;
    assert (activity, visitor) !in bookings - own;
  }

  /** Switching keeps the number of bookings, a first booking adds one; either way the visitor is
      booked there and nowhere else, and nobody else's booking changes. */
  lemma BookingReplaces(t: Tables, activity: string, visitor: string)
    requires Safe(t) && Refusal(t, Book(activity, visitor)).None?
    ensures var after := After(t, Book(activity, visitor)).bookings;
            && |after| == |t.bookings| + (if BookingsOf(t.bookings, visitor) == {} then 1 else 0)
            && BookingsOf(after, visitor) == {(activity, visitor)}
            && forall v :: v != visitor ==> BookingsOf(after, v) == BookingsOf(t.bookings, v)
  {
    AtMostOneOwn(t.bookings, visitor);
    WriteSize(t.bookings, activity, visitor);
    forall v | v != visitor ensures BookingsOf(Write(t.bookings, activity, visitor), v) == BookingsOf(t.bookings, v) {
      WriteSparesOthers(t.bookings, activity, visitor, v);
    }
  }

  lemma WriteSparesOthers(bookings: Bookings, activity: string, visitor: string, other: string)
    requires other != visitor
    ensures BookingsOf(Write(bookings, activity, visitor), other) == BookingsOf(bookings, other)
  {
  }

  /** A booking that is cancelled at once leaves every other visitor's booking as it was, and the
      visitor with none. */
  lemma BookThenCancel(t: Tables, activity: string, visitor: string)
    requires Safe(t) && Refusal(t, Book(activity, visitor)).None?
    ensures After(After(t, Book(activity, visitor)), Cancel(activity, visitor)).bookings
         == t.bookings - BookingsOf(t.bookings, visitor)
  {
    FoundHasId(t.activities, t.bookings, activity);
    FoundHasId(t.activities, Write(t.bookings, activity, visitor), activity);
  }

  // ---------------------------------------------------------------- calls that overlap

  /** The checks of a booking and its transaction are not one step. Here calls that all passed their
      checks on one table then write one after another. */
  function WriteAll(bookings: Bookings, calls: seq<(string, string)>): Bookings {
    if calls == [] then bookings
    else Write(WriteAll(bookings, calls[..|calls| - 1]), calls[|calls| - 1].0, calls[|calls| - 1].1)
  }

  ghost predicate DistinctVisitors(calls: seq<(string, string)>) {
    forall i, j :: 0 <= i < j < |calls| ==> calls[i].1 != calls[j].1
  }

  function Callers(calls: seq<(string, string)>): set<string> {
    set i | 0 <= i < |calls| :: calls[i].1
  }

  /** The visitors who call for an activity. */
  function Joining(calls: seq<(string, string)>, id: string): set<string> {
    set i | 0 <= i < |calls| && calls[i].0 == id :: calls[i].1
  }

  /** The booking transaction alone keeps one booking per visitor, whatever was checked before it,
      if transactions run one after another. */
  lemma WriteKeepsSingle(bookings: Bookings, activity: string, visitor: string)
    requires SingleBooking(bookings)
    ensures SingleBooking(Write(bookings, activity, visitor))
  {
  }

  lemma CallersSnoc(calls: seq<(string, string)>, c: (string, string), id: string)
    ensures Callers(calls + [c]) == Callers(calls) + {c.1}
    ensures Joining(calls + [c], id) == Joining(calls, id) + if c.0 == id then {c.1} else {}
  {
    var all := calls + [c];
    assert all[|calls|] == c && forall i :: 0 <= i < |calls| ==> all[i] == calls[i];
    forall v | v in Callers(calls) ensures v in Callers(all) {
      var i :| 0 <= i < |calls| && calls[i].1 == v;
      assert all[i].1 == v;
    }
    forall v | v in Joining(calls, id) ensures v in Joining(all, id) {
      var i :| 0 <= i < |calls| && calls[i].0 == id && calls[i].1 == v;
      assert all[i].1 == v;
    }
  }

  lemma WriteMoves(bookings: Bookings, activity: string, visitor: string, id: string)
    ensures BookedIn(Write(bookings, activity, visitor), id) ==
              BookedIn(bookings, id) - {visitor} + if activity == id then {visitor} else {}
  {
    var after := Write(bookings, activity, visitor);
    forall v
      ensures v in BookedIn(after, id) <==>
                (v == visitor && activity == id) || (v != visitor && v in BookedIn(bookings, id))
    {
      assert v in BookedIn(after, id) <==> (id, v) in after;
      assert v in BookedIn(bookings, id) <==> (id, v) in bookings;
    }
  }

  /** Afterwards an activity holds who was in it and did not call, and who called for it. */
  lemma {:induction false} BookedAfterAll(bookings: Bookings, calls: seq<(string, string)>, id: string)
    requires DistinctVisitors(calls)
    ensures BookedIn(WriteAll(bookings, calls), id) == BookedIn(bookings, id) - Callers(calls) + Joining(calls, id)
  {
    if calls != [] {
      var before, c := calls[..|calls| - 1], calls[|calls| - 1];
      assert calls == before + [c];
      BookedAfterAll(bookings, before, id);
      CallersSnoc(before, c, id);
      WriteMoves(WriteAll(bookings, before), c.0, c.1, id);
      assert c.1 !in Joining(before, id);
    }
  }

  ghost predicate AllPass(t: Tables, calls: seq<(string, string)>) {
    forall i :: 0 <= i < |calls| ==> Refusal(t, Book(calls[i].0, calls[i].1)).None?
  }

  /** The places an activity has for callers: those free, and those that callers give up. */
  function PlacesFor(row: Row, bookings: Bookings, calls: seq<(string, string)>): int {
    row.capacity - |BookedIn(bookings, row.id)| + |BookedIn(bookings, row.id) * Callers(calls)|
  }

  lemma NoneJoinsTwice(t: Tables, calls: seq<(string, string)>, id: string)
    requires AllPass(t, calls)
    ensures Joining(calls, id) * BookedIn(t.bookings, id) == {}
  {
    forall v | v in Joining(calls, id) ensures v !in BookedIn(t.bookings, id) {
      var i :| 0 <= i < |calls| && calls[i].0 == id && calls[i].1 == v;
      assert (id, v) !in t.bookings;
    }
  }

  lemma RowOverlapIff(t: Tables, calls: seq<(string, string)>, i: nat)
    requires Safe(t) && DistinctVisitors(calls) && AllPass(t, calls) && i < |t.activities|
    ensures var row := t.activities[i];
            RowWithin(row, WriteAll(t.bookings, calls)) <==>
            (Joining(calls, row.id) != {} ==> |Joining(calls, row.id)| <= PlacesFor(row, t.bookings, calls))
  {
    var row := t.activities[i];
    var was, joining, callers := BookedIn(t.bookings, row.id), Joining(calls, row.id), Callers(calls);
    BookedAfterAll(t.bookings, calls, row.id);
    NoneJoinsTwice(t, calls, row.id);
    assert was == (was - callers) + was * callers;
    assert (was - callers) * joining == {};
    assert RowWithin(row, t.bookings);
    if v :| v in joining {
      var k :| 0 <= k < |calls| && calls[k].0 == row.id && calls[k].1 == v;
      assert Refusal(t, Book(calls[k].0, calls[k].1)).None?;
      FindsTheRow(t.activities, t.bookings, i);
    }
  }

  /** Calls of different visitors that overlap keep every activity within its capacity exactly if
      no activity is called for by more visitors than it has places for. */
  lemma {:induction false} OverlapWithinIff(t: Tables, calls: seq<(string, string)>)
    requires Safe(t) && DistinctVisitors(calls) && AllPass(t, calls)
    ensures WithinCapacity(t.(bookings := WriteAll(t.bookings, calls))) <==>
            forall i :: 0 <= i < |t.activities| && Joining(calls, t.activities[i].id) != {} ==>
              |Joining(calls, t.activities[i].id)| <= PlacesFor(t.activities[i], t.bookings, calls)
  {
    forall i | 0 <= i < |t.activities|
      ensures RowWithin(t.activities[i], WriteAll(t.bookings, calls)) <==>
              (Joining(calls, t.activities[i].id) != {} ==>
                 |Joining(calls, t.activities[i].id)| <= PlacesFor(t.activities[i], t.bookings, calls))
    {
      RowOverlapIff(t, calls, i);
    }
  }

  /** All for one activity. */
  function CallsFor(id: string, visitors: seq<string>): seq<(string, string)> {
    seq(|visitors|, i requires 0 <= i < |visitors| => (id, visitors[i]))
  }

  lemma {:induction false} JoiningAll(id: string, visitors: seq<string>)
    requires forall i, j :: 0 <= i < j < |visitors| ==> visitors[i] != visitors[j]
    ensures |Joining(CallsFor(id, visitors), id)| == |visitors|
    ensures Callers(CallsFor(id, visitors)) == Joining(CallsFor(id, visitors), id)
    ensures forall other :: other != id ==> Joining(CallsFor(id, visitors), other) == {}
  {
    if visitors != [] {
      var before, v := visitors[..|visitors| - 1], visitors[|visitors| - 1];
      JoiningAll(id, before);
      assert CallsFor(id, visitors) == CallsFor(id, before) + [(id, v)];
      CallersSnoc(CallsFor(id, before), (id, v), id);
      assert v !in Joining(CallsFor(id, before), id);
    }
  }

  lemma OnePlaceRow(t: Tables, i: nat, visitors: seq<string>)
    requires Safe(t) && i < |t.activities|
    requires forall j, k :: 0 <= j < k < |visitors| ==> visitors[j] != visitors[k]
    requires forall k :: 0 <= k < |visitors| ==> Refusal(t, Book(t.activities[i].id, visitors[k])).None?
    ensures var row := t.activities[i];
            var calls := CallsFor(row.id, visitors);
            && DistinctVisitors(calls) && AllPass(t, calls)
            && (RowWithin(row, WriteAll(t.bookings, calls)) <==>
                |visitors| <= row.capacity - |BookedIn(t.bookings, row.id)| || visitors == [])
  {
    var row := t.activities[i];
    var calls := CallsFor(row.id, visitors);
    JoiningAll(row.id, visitors);
    NoneJoinsTwice(t, calls, row.id);
    RowOverlapIff(t, calls, i);
    assert BookedIn(t.bookings, row.id) * Callers(calls) == {};
  }

  /** For one activity: overlapping calls of different visitors stay within its capacity exactly if
      there are no more of them than places left. */
  lemma SamePlaceIff(t: Tables, i: nat, visitors: seq<string>)
    requires Safe(t) && i < |t.activities|
    requires forall j, k :: 0 <= j < k < |visitors| ==> visitors[j] != visitors[k]
    requires forall k :: 0 <= k < |visitors| ==> Refusal(t, Book(t.activities[i].id, visitors[k])).None?
    ensures var row := t.activities[i];
            WithinCapacity(t.(bookings := WriteAll(t.bookings, CallsFor(row.id, visitors)))) <==>
            |visitors| <= row.capacity - |BookedIn(t.bookings, row.id)| || visitors == []
  {
    var row := t.activities[i];
    var calls := CallsFor(row.id, visitors);
    var after := WriteAll(t.bookings, calls);
    OnePlaceRow(t, i, visitors);
    forall j | 0 <= j < |t.activities| && j != i ensures RowWithin(t.activities[j], after) {
      assert t.activities[j].id != row.id;
      JoiningAll(row.id, visitors);
      RowOverlapIff(t, calls, j);
    }
    assert WithinCapacity(t.(bookings := after)) <==> RowWithin(row, after);
  }

  /** The smallest failure: two calls for the last place are both booked. */
  lemma LastPlaceTwice(t: Tables, i: nat, v: string, w: string)
    requires Safe(t) && v != w && i < |t.activities|
    requires var id := t.activities[i].id; Refusal(t, Book(id, v)).None? && Refusal(t, Book(id, w)).None?
    requires |BookedIn(t.bookings, t.activities[i].id)| == t.activities[i].capacity - 1
    ensures var id := t.activities[i].id;
            !WithinCapacity(t.(bookings := Write(Write(t.bookings, id, v), id, w)))
  {
    var id, visitors := t.activities[i].id, [v, w];
    var calls := CallsFor(id, visitors);
    SamePlaceIff(t, i, visitors);
    assert calls == [(id, v), (id, w)] && calls[..1] == [(id, v)] && calls[..1][..0] == [];
    assert WriteAll(t.bookings, calls) == Write(WriteAll(t.bookings, calls[..1]), id, w);
    assert WriteAll(t.bookings, calls[..1]) == Write(t.bookings, id, v);
  }
}
