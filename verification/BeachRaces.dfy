/**
  Beach calls whose checks and transactions overlap. Transactions run under REPEATABLE READ
  (services/beach/src/main/kotlin/infrastructure/database/DatabaseFactory.kt, line 34): they read one
  snapshot, and one that loses a conflict is aborted and redone on the table as it then is.
 */
module BeachRaces {
  import opened Beach
  import opened BeachLaws

  type BookingCalls = seq<(string, string)>

  // ---------------------------------------------------------------- transactions on one snapshot

  /** A transaction loses if an earlier one deleted a row that it deletes too, or inserted its pair. */
  predicate Conflicts(snapshot: Bookings, earlier: BookingCalls, table: Bookings, c: (string, string)) {
    || (BookingsOf(snapshot, c.1) != {} && c.1 in Callers(earlier))
    || c in table - BookingsOf(snapshot, c.1)
  }

  /** The table after the booking transactions of `calls`, all begun on `snapshot`, in commit order:
      each deletes what it saw of its visitor and inserts its pair; a loser is redone on its own. */
  function CommitAll(snapshot: Bookings, calls: BookingCalls): Bookings {
    if calls == [] then snapshot
    else
      var earlier, c := calls[..|calls| - 1], calls[|calls| - 1];
      var table := CommitAll(snapshot, earlier);
      if Conflicts(snapshot, earlier, table, c) then Write(table, c.0, c.1)
      else table - BookingsOf(snapshot, c.1) + {c}
  }

  /** The activities a visitor called for since the last call that repeated one of these, that call
      included. */
  function Pending(calls: BookingCalls, visitor: string): set<string> {
    if calls == [] then {}
    else
      var before, c := Pending(calls[..|calls| - 1], visitor), calls[|calls| - 1];
      if c.1 != visitor then before
      else if c.0 in before then {c.0}
      else before + {c.0}
  }

  function Pairs(activities: set<string>, visitor: string): Bookings {
    set a | a in activities :: (a, visitor)
  }

  ghost predicate AtMostOne(rows: Bookings) {
    forall b, c :: b in rows && c in rows ==> b == c
  }

  lemma SingleIffEach(bookings: Bookings)
    ensures SingleBooking(bookings) <==> forall v :: AtMostOne(BookingsOf(bookings, v))
  {
    if forall v :: AtMostOne(BookingsOf(bookings, v)) {
      forall b, c | b in bookings && c in bookings && b.1 == c.1 ensures b == c {
        assert AtMostOne(BookingsOf(bookings, b.1));
        assert b in BookingsOf(bookings, b.1) && c in BookingsOf(bookings, b.1);
      }
    }
  }

  /** One commit touches the rows of its own visitor only. */
  lemma CommitSparesOthers(snapshot: Bookings, calls: BookingCalls, visitor: string)
    requires calls != [] && calls[|calls| - 1].1 != visitor
    ensures BookingsOf(CommitAll(snapshot, calls), visitor) ==
            BookingsOf(CommitAll(snapshot, calls[..|calls| - 1]), visitor)
  {
    var c := calls[|calls| - 1];
    WriteSparesOthers(CommitAll(snapshot, calls[..|calls| - 1]), c.0, c.1, visitor);
  }

  lemma CallersGrow(calls: BookingCalls, visitor: string)
    requires calls != []
    ensures visitor in Callers(calls) <==> visitor in Callers(calls[..|calls| - 1]) || calls[|calls| - 1].1 == visitor
  {
    CallersSnoc(calls[..|calls| - 1], calls[|calls| - 1], "");
    assert calls == calls[..|calls| - 1] + [calls[|calls| - 1]];
  }

  /** A visitor who does not call keeps the rows of the snapshot. */
  lemma {:induction false} RowsOfSilent(snapshot: Bookings, calls: BookingCalls, visitor: string)
    requires visitor !in Callers(calls)
    ensures BookingsOf(CommitAll(snapshot, calls), visitor) == BookingsOf(snapshot, visitor)
  {
    if calls != [] {
      CallersGrow(calls, visitor);
      RowsOfSilent(snapshot, calls[..|calls| - 1], visitor);
      CommitSparesOthers(snapshot, calls, visitor);
    }
  }

  /** A visitor with a row on the snapshot has one row after any calls: the deletes collide. */
  lemma {:induction false} RowsOfBooked(snapshot: Bookings, calls: BookingCalls, visitor: string)
    requires BookingsOf(snapshot, visitor) != {} && visitor in Callers(calls)
    ensures exists a :: BookingsOf(CommitAll(snapshot, calls), visitor) == {(a, visitor)}
  {
    var earlier, c := calls[..|calls| - 1], calls[|calls| - 1];
    CallersGrow(calls, visitor);
    if c.1 != visitor {
      RowsOfBooked(snapshot, earlier, visitor);
      CommitSparesOthers(snapshot, calls, visitor);
    } else {
      if visitor !in Callers(earlier) { RowsOfSilent(snapshot, earlier, visitor); }
      assert BookingsOf(CommitAll(snapshot, calls), visitor) == {(c.0, visitor)};
    }
  }

  /** A visitor with none has the pending activities: nothing is deleted, so only a repeated insert
      collides. */
  lemma {:induction false} RowsOfUnbooked(snapshot: Bookings, calls: BookingCalls, visitor: string)
    requires BookingsOf(snapshot, visitor) == {}
    ensures BookingsOf(CommitAll(snapshot, calls), visitor) == Pairs(Pending(calls, visitor), visitor)
  {
    if calls != [] {
      var earlier, c := calls[..|calls| - 1], calls[|calls| - 1];
      RowsOfUnbooked(snapshot, earlier, visitor);
      if c.1 != visitor {
        CommitSparesOthers(snapshot, calls, visitor);
      } else {
        UnbookedStep(snapshot, CommitAll(snapshot, earlier), earlier, c);
      }
    }
  }

  lemma UnbookedStep(snapshot: Bookings, table: Bookings, earlier: BookingCalls, c: (string, string))
    requires BookingsOf(snapshot, c.1) == {} && BookingsOf(table, c.1) == Pairs(Pending(earlier, c.1), c.1)
    ensures Conflicts(snapshot, earlier, table, c) <==> c.0 in Pending(earlier, c.1)
    ensures BookingsOf(Write(table, c.0, c.1), c.1) == Pairs({c.0}, c.1)
    ensures BookingsOf(table - BookingsOf(snapshot, c.1) + {c}, c.1) == Pairs(Pending(earlier, c.1) + {c.0}, c.1)
  {
    var pending := Pending(earlier, c.1);
    assert c in table <==> c in BookingsOf(table, c.1);
    assert c in Pairs(pending, c.1) <==> c.0 in pending;
    assert BookingsOf(table - BookingsOf(snapshot, c.1) + {c}, c.1) == BookingsOf(table, c.1) + {c};
    PairsGrow(pending, c.0, c.1);
  }

  lemma PairsGrow(activities: set<string>, a: string, visitor: string)
    ensures Pairs(activities, visitor) + {(a, visitor)} == Pairs(activities + {a}, visitor)
  {
    forall x | x in activities + {a} ensures (x, visitor) in Pairs(activities + {a}, visitor) {}
  }

  ghost predicate NoTwo(activities: set<string>) {
    forall a, b :: a in activities && b in activities ==> a == b
  }

  lemma PairsSingleIff(activities: set<string>, visitor: string)
    ensures AtMostOne(Pairs(activities, visitor)) <==> NoTwo(activities)
  {
    forall a | a in activities ensures (a, visitor) in Pairs(activities, visitor) {}
  }

  /** Overlapping bookings keep one booking per visitor if and only if no visitor without a booking on
      the snapshot has calls for two activities pending. */
  lemma SnapshotSingleIff(snapshot: Bookings, calls: BookingCalls)
    requires SingleBooking(snapshot)
    ensures SingleBooking(CommitAll(snapshot, calls)) <==>
            forall v :: BookingsOf(snapshot, v) == {} ==> NoTwo(Pending(calls, v))
  {
    var after := CommitAll(snapshot, calls);
    SingleIffEach(snapshot);
    SingleIffEach(after);
    forall v
      ensures AtMostOne(BookingsOf(after, v)) <==> (BookingsOf(snapshot, v) == {} ==> NoTwo(Pending(calls, v)))
    {
      if BookingsOf(snapshot, v) == {} {
        RowsOfUnbooked(snapshot, calls, v);
        PairsSingleIff(Pending(calls, v), v);
      } else if v in Callers(calls) {
        RowsOfBooked(snapshot, calls, v);
      } else {
        RowsOfSilent(snapshot, calls, v);
        assert AtMostOne(BookingsOf(snapshot, v));
      }
    }
  }

  // ---------------------------------------------------------------- when no call is repeated

  function Asked(calls: BookingCalls, visitor: string): set<string> {
    set i | 0 <= i < |calls| && calls[i].1 == visitor :: calls[i].0
  }

  ghost predicate NoRepeats(calls: BookingCalls) {
    forall i, j :: 0 <= i < j < |calls| ==> calls[i] != calls[j]
  }

  lemma {:induction false} PendingIsAsked(calls: BookingCalls, visitor: string)
    requires NoRepeats(calls)
    ensures Pending(calls, visitor) == Asked(calls, visitor)
  {
    if calls != [] {
      var before, c := calls[..|calls| - 1], calls[|calls| - 1];
      PendingIsAsked(before, visitor);
      AskedSnoc(before, c, visitor);
      assert calls == before + [c];
      forall i | 0 <= i < |before| ensures before[i] != c { assert calls[i] != calls[|calls| - 1]; }
    }
  }

  lemma AskedSnoc(before: BookingCalls, c: (string, string), visitor: string)
    ensures Asked(before + [c], visitor) == Asked(before, visitor) + if c.1 == visitor then {c.0} else {}
  {
    var all := before + [c];
    assert all[|before|] == c && forall i :: 0 <= i < |before| ==> all[i] == before[i];
    forall a | a in Asked(before, visitor) ensures a in Asked(all, visitor) {
      var i :| 0 <= i < |before| && before[i].1 == visitor && before[i].0 == a;
      assert all[i].0 == a;
    }
  }

  /** Two calls of one visitor who has no booking. */
  ghost predicate SameUnbooked(snapshot: Bookings, c: (string, string), d: (string, string)) {
    c.1 == d.1 && BookingsOf(snapshot, c.1) == {}
  }

  /** Then exactly if no visitor without a booking calls for two activities. */
  lemma SnapshotSingleNoRepeatsIff(snapshot: Bookings, calls: BookingCalls)
    requires SingleBooking(snapshot) && NoRepeats(calls)
    ensures SingleBooking(CommitAll(snapshot, calls)) <==>
            forall i, j :: 0 <= i < |calls| && 0 <= j < |calls| ==>
                             SameUnbooked(snapshot, calls[i], calls[j]) ==> calls[i] == calls[j]
  {
    SnapshotSingleIff(snapshot, calls);
    forall v ensures Pending(calls, v) == Asked(calls, v) { PendingIsAsked(calls, v); }
    forall i | 0 <= i < |calls| ensures calls[i].0 in Asked(calls, calls[i].1) {}
    if SingleBooking(CommitAll(snapshot, calls)) {
      forall i, j | 0 <= i < |calls| && 0 <= j < |calls| && SameUnbooked(snapshot, calls[i], calls[j])
        ensures calls[i] == calls[j]
      {
        assert calls[i].0 in Pending(calls, calls[i].1) && calls[j].0 in Pending(calls, calls[i].1);
      }
    }
  }

  /** An instance the service lets through: a visitor without a booking calls for two activities at
      once, both checks pass, and both bookings are kept. */
  lemma TwoAtOnce(t: Tables, x: string, y: string, visitor: string)
    requires Safe(t) && x != y && BookingsOf(t.bookings, visitor) == {}
    requires Refusal(t, Book(x, visitor)).None? && Refusal(t, Book(y, visitor)).None?
    ensures !SingleBooking(CommitAll(t.bookings, [(x, visitor), (y, visitor)]))
  {
    var calls := [(x, visitor), (y, visitor)];
    SnapshotSingleNoRepeatsIff(t.bookings, calls);
    assert calls[0].1 == calls[1].1 && calls[0] != calls[1];
  }

  /** For different visitors nothing collides: overlapping transactions do what serial ones do, so
      what is known of capacities for those holds here. */
  lemma {:induction false} DistinctVisitorsSerial(snapshot: Bookings, calls: BookingCalls)
    requires DistinctVisitors(calls)
    ensures CommitAll(snapshot, calls) == WriteAll(snapshot, calls)
  {
    if calls != [] {
      var earlier, c := calls[..|calls| - 1], calls[|calls| - 1];
      DistinctVisitorsSerial(snapshot, earlier);
      RowsOfSilent(snapshot, earlier, c.1);
    }
  }

  // ---------------------------------------------------------------- leaving between check and booking

  /** Whether a visitor is inside after some calls, having been inside or not before. */
  function InsideAfter(inside: bool, cs: seq<Call>, visitor: string): bool
    decreases |cs|
  {
    if cs == [] then inside
    else InsideAfter(if cs[0] == CheckIn(visitor) then true else if cs[0] == CheckOut(visitor) then false else inside,
                     cs[1..], visitor)
  }

  ghost predicate Inside(t: Tables, visitor: string) {
    visitor in t.visitors && t.visitors[visitor]
  }

  lemma {:induction false} InsideFollows(t: Tables, cs: seq<Call>, visitor: string)
    ensures Inside(Run(t, cs), visitor) <==> InsideAfter(Inside(t, visitor), cs, visitor)
    decreases |cs|
  {
    if cs != [] { InsideFollows(After(t, cs[0]), cs[1..], visitor); }
  }

  /** The visitor checked out and did not check in again. */
  ghost predicate Left(cs: seq<Call>, visitor: string) {
    exists i :: 0 <= i < |cs| && cs[i] == CheckOut(visitor) && forall j :: i < j < |cs| ==> cs[j] != CheckIn(visitor)
  }

  ghost predicate Entered(cs: seq<Call>, visitor: string) {
    exists i :: 0 <= i < |cs| && cs[i] == CheckIn(visitor)
  }

  lemma {:induction false} InsideAfterIff(inside: bool, cs: seq<Call>, visitor: string)
    ensures InsideAfter(inside, cs, visitor) <==> !Left(cs, visitor) && (inside || Entered(cs, visitor))
    decreases |cs|
  {
    if cs != [] {
      var next := if cs[0] == CheckIn(visitor) then true else if cs[0] == CheckOut(visitor) then false else inside;
      InsideAfterIff(next, cs[1..], visitor);
      LeftCons(cs, visitor);
    }
  }

  lemma LeftCons(cs: seq<Call>, visitor: string)
    requires cs != []
    ensures Entered(cs, visitor) <==> cs[0] == CheckIn(visitor) || Entered(cs[1..], visitor)
    ensures Left(cs, visitor) <==> Left(cs[1..], visitor) || (cs[0] == CheckOut(visitor) && !Entered(cs[1..], visitor))
  {
    var rest := cs[1..];
    if i :| 0 <= i < |rest| && rest[i] == CheckIn(visitor) { assert cs[i + 1] == CheckIn(visitor); }
    if Left(rest, visitor) {
      var i :| 0 <= i < |rest| && rest[i] == CheckOut(visitor)
               && forall j :: i < j < |rest| ==> rest[j] != CheckIn(visitor);
      assert cs[i + 1] == CheckOut(visitor);
      forall j | i + 1 < j < |cs| ensures cs[j] != CheckIn(visitor) { assert cs[j] == rest[j - 1]; }
    }
    if Left(cs, visitor) {
      var i :| 0 <= i < |cs| && cs[i] == CheckOut(visitor) && forall j :: i < j < |cs| ==> cs[j] != CheckIn(visitor);
      if i > 0 {
        assert rest[i - 1] == CheckOut(visitor);
      } else {
        forall j | 0 <= j < |rest| ensures rest[j] != CheckIn(visitor) { assert rest[j] == cs[j + 1]; }
      }
    }
    if cs[0] == CheckOut(visitor) && !Entered(rest, visitor) {
      forall j | 0 < j < |cs| ensures cs[j] != CheckIn(visitor) { assert cs[j] == rest[j - 1]; }
    }
  }

  /** A booking whose checks passed on `t` and whose transaction comes after the calls `between` leaves
      every booked visitor checked in, in an activity that exists, if and only if its visitor has not
      left in between. */
  lemma LateWriteIff(t: Tables, between: seq<Call>, activity: string, visitor: string)
    requires Safe(t) && Refusal(t, Book(activity, visitor)).None?
    ensures var s := Run(t, between);
            BookersCheckedIn(s.(bookings := Write(s.bookings, activity, visitor))) <==> !Left(between, visitor)
  {
    var s := Run(t, between);
    RunIsSafe(t, between);
    SameActivities(t, between);
    FoundHasId(t.activities, t.bookings, activity);
    InsideFollows(t, between, visitor);
    InsideAfterIff(true, between, visitor);
    assert (activity, visitor) in Write(s.bookings, activity, visitor);
  }
}
