/**
  The order of a gate's queue over runs with any number of crashes
  (services/airport/gate_manager.py, lines 36-44 and 113-131).
 */
module RehydrationOrder {
  import opened GateQueues

  /** `a` is to be called before `b`: an earlier class, or the same class and an earlier stamp. */
  predicate Before(a: Guest, b: Guest) {
    EarlierClass(a, b) || (!EarlierClass(b, a) && a.queuedAt < b.queuedAt)
  }

  ghost predicate Sorted(q: seq<Guest>) {
    forall i, j :: 0 <= i < j < |q| ==> Before(q[i], q[j])
  }

  /** `g` was stamped after everyone in `q`. */
  ghost predicate Newest(g: Guest, q: seq<Guest>) {
    forall i :: 0 <= i < |q| ==> q[i].queuedAt < g.queuedAt
  }

  // ---------------------------------------------------------------- one insertion

  lemma InsertContents(q: seq<Guest>, g: Guest)
    ensures multiset(Insert(q, g)) == multiset(q) + multiset{g}
  {
    var i := InsertIndex(q, EffectiveRank(g));
    assert q == q[..i] + q[i..];
  }

  lemma {:induction false} InsertSorts(q: seq<Guest>, g: Guest)
    requires Newest(g, q) && Sorted(q)
    ensures Sorted(Insert(q, g))
  {
    InsertElements(q, g);
    var i, r := InsertIndex(q, EffectiveRank(g)), Insert(q, g);
    forall j | i <= j < |q| ensures Before(g, q[j]) {
      assert i == j || Before(q[i], q[j]);
    }
    forall j, k | 0 <= j < k < |r| ensures Before(r[j], r[k]) {
      if j != i && k != i { assert Before(q[if j < i then j else j - 1], q[if k < i then k else k - 1]); }
    }
  }

  lemma InsertHidesNothing(q: seq<Guest>, g: Guest)
    requires Sorted(Insert(q, g))
    ensures Sorted(q)
  {
    var i, r := InsertIndex(q, EffectiveRank(g)), Insert(q, g);
    forall j, k | 0 <= j < k < |q| ensures Before(q[j], q[k]) {
      assert q[j] == r[if j < i then j else j + 1] && q[k] == r[if k < i then k else k + 1];
    }
  }

  /** Inserting the newest guest neither makes nor mends disorder. */
  lemma InsertSortedIff(q: seq<Guest>, g: Guest)
    requires Newest(g, q)
    ensures Sorted(Insert(q, g)) <==> Sorted(q)
  {
    if Sorted(q) { InsertSorts(q, g); }
    if Sorted(Insert(q, g)) { InsertHidesNothing(q, g); }
  }

  // ---------------------------------------------------------------- rebuilding one gate

  /** The guests of one gate among the rows, in row order. */
  function GuestsOf(rows: seq<Row>, gate: GateId): seq<Guest> {
    if rows == [] then []
    else
      GuestsOf(rows[..|rows| - 1], gate) +
      if rows[|rows| - 1].gate == gate then [rows[|rows| - 1].guest] else []
  }

  /** The rows of the gate come in strictly increasing stamp order; other rows do not matter. */
  ghost predicate OldestFirst(rows: seq<Row>, gate: GateId) {
    forall i, j :: 0 <= i < j < |rows| && rows[i].gate == gate && rows[j].gate == gate ==>
      rows[i].guest.queuedAt < rows[j].guest.queuedAt
  }

  /** Row `m` is the interrupted row of its gate, and the only one. */
  ghost predicate Interrupted(rows: seq<Row>, gate: GateId, m: nat) {
    && m < |rows| && rows[m].gate == gate
    && forall i :: 0 <= i < |rows| && rows[i].gate == gate ==> (rows[i].status == Processing <==> i == m)
  }

  ghost predicate NoneInterrupted(rows: seq<Row>, gate: GateId) {
    forall i :: 0 <= i < |rows| && rows[i].gate == gate ==> rows[i].status != Processing
  }

  /** Rebuilding loses and invents nobody. */
  lemma {:induction false} RebuildContents(rows: seq<Row>, gate: GateId)
    ensures multiset(Rebuild(rows, gate)) == multiset(GuestsOf(rows, gate))
    ensures forall g :: g in Rebuild(rows, gate) ==>
              exists i :: 0 <= i < |rows| && rows[i].gate == gate && rows[i].guest == g
  {
    if rows != [] {
      var before, row := rows[..|rows| - 1], rows[|rows| - 1];
      RebuildContents(before, gate);
      InsertContents(Rebuild(before, gate), row.guest);
      forall g | g in Rebuild(rows, gate)
        ensures exists i :: 0 <= i < |rows| && rows[i].gate == gate && rows[i].guest == g
      {
        if g in Rebuild(before, gate) {
          var i :| 0 <= i < |before| && before[i].gate == gate && before[i].guest == g;
          assert rows[i].gate == gate && rows[i].guest == g;
        } else {
          assert g in multiset(Rebuild(rows, gate));
          assert row.gate == gate && row.guest == g;
        }
      }
    }
  }

  lemma {:induction false} RebuiltAreOlder(rows: seq<Row>, gate: GateId, g: Guest)
    requires forall i :: 0 <= i < |rows| && rows[i].gate == gate ==> rows[i].guest.queuedAt < g.queuedAt
    ensures Newest(g, Rebuild(rows, gate))
  {
    RebuildContents(rows, gate);
    forall i | 0 <= i < |Rebuild(rows, gate)| ensures Rebuild(rows, gate)[i].queuedAt < g.queuedAt {
      assert Rebuild(rows, gate)[i] in Rebuild(rows, gate);
    }
  }

  lemma {:induction false} RebuildSorted(rows: seq<Row>, gate: GateId)
    requires OldestFirst(rows, gate) && NoneInterrupted(rows, gate)
    ensures Sorted(Rebuild(rows, gate))
  {
    if rows != [] {
      var before, row := rows[..|rows| - 1], rows[|rows| - 1];
      RebuildSorted(before, gate);
      if row.gate == gate {
        RebuiltAreOlder(before, gate, row.guest);
        InsertSortedIff(Rebuild(before, gate), row.guest);
      }
    }
  }

  /** Exactly when a restart restores rank order: every guest of the gate stamped before the
      interrupted one is of a later class. */
  ghost predicate OlderAreWorse(rows: seq<Row>, gate: GateId, m: nat)
    requires m < |rows|
  {
    forall i :: 0 <= i < m && rows[i].gate == gate ==> EarlierClass(rows[m].guest, rows[i].guest)
  }

  lemma InterruptedLast(before: seq<Row>, row: Row, gate: GateId)
    requires row.gate == gate && OldestFirst(before, gate) && NoneInterrupted(before, gate)
    requires forall i :: 0 <= i < |before| && before[i].gate == gate ==> before[i].guest.queuedAt < row.guest.queuedAt
    ensures Sorted([row.guest] + Rebuild(before, gate)) <==>
            forall i :: 0 <= i < |before| && before[i].gate == gate ==>
              EarlierClass(row.guest, before[i].guest)
  {
    RebuildSorted(before, gate);
    RebuiltAreOlder(before, gate, row.guest);
    FrontSortedIff(Rebuild(before, gate), row.guest);
    RebuildContents(before, gate);
    RebuiltCoverRows(before, gate);
  }

  lemma {:induction false} RebuildSortedIff(rows: seq<Row>, gate: GateId, m: nat)
    requires OldestFirst(rows, gate) && Interrupted(rows, gate, m)
    ensures Sorted(Rebuild(rows, gate)) <==> OlderAreWorse(rows, gate, m)
  {
    var before, row := rows[..|rows| - 1], rows[|rows| - 1];
    if m == |rows| - 1 {
      InterruptedLast(before, row, gate);
    } else {
      RebuildSortedIff(before, gate, m);
      if row.gate == gate {
        RebuiltAreOlder(before, gate, row.guest);
        InsertSortedIff(Rebuild(before, gate), row.guest);
      }
    }
  }

  lemma {:induction false} FrontSortedIff(q: seq<Guest>, g: Guest)
    requires Sorted(q) && Newest(g, q)
    ensures Sorted([g] + q) <==> forall x :: x in q ==> EarlierClass(g, x)
  {
    var r := [g] + q;
    if Sorted(r) {
      forall x | x in q ensures EarlierClass(g, x) {
        var i :| 0 <= i < |q| && q[i] == x;
        assert Before(r[0], r[i + 1]);
      }
    }
  }

  lemma {:induction false} RebuiltCoverRows(rows: seq<Row>, gate: GateId)
    ensures forall i :: 0 <= i < |rows| && rows[i].gate == gate ==> rows[i].guest in Rebuild(rows, gate)
  {
    if rows != [] {
      var before, row := rows[..|rows| - 1], rows[|rows| - 1];
      RebuiltCoverRows(before, gate);
      InsertContents(Rebuild(before, gate), row.guest);
      forall g | g in Rebuild(before, gate) || (g == row.guest && row.gate == gate)
        ensures g in Rebuild(rows, gate)
      {
        assert g in multiset(Rebuild(before, gate)) + multiset{row.guest};
        if row.gate == gate && row.status != Processing {
          assert g in multiset(Insert(Rebuild(before, gate), row.guest));
        }
      }
    }
  }

  ghost predicate YoungerNoBetter(rows: seq<Row>, gate: GateId, m: nat)
    requires m < |rows|
  {
    forall i :: m < i < |rows| && rows[i].gate == gate ==> !EarlierClass(rows[i].guest, rows[m].guest)
  }

  /** The interrupted guest comes back at the front if and only if nobody stamped after them
      is of an earlier class. */
  lemma {:induction false} InterruptedAtFrontIff(rows: seq<Row>, gate: GateId, m: nat)
    requires OldestFirst(rows, gate) && Interrupted(rows, gate, m)
    ensures Rebuild(rows, gate) != []
    ensures Rebuild(rows, gate)[0] == rows[m].guest <==> YoungerNoBetter(rows, gate, m)
  {
    if m < |rows| - 1 {
      InterruptedAtFrontIff(rows[..|rows| - 1], gate, m);
    }
  }

  // ---------------------------------------------------------------- runs of one gate

  /** What the worker of the gate holds; only a committed `Working` guest has a row marked
      processing. */
  datatype Hands = Idle | Popped(guest: Guest) | Working(guest: Guest)

  datatype GateState = GateState(queue: seq<Guest>, hands: Hands, clock: real)

  /** An arrival is one step here: stamped, committed and enqueued. */
  datatype Step = Arrive(guest: Guest) | Pop | Mark | Finish | Crash(rows: seq<Row>)

  function Held(h: Hands): multiset<Guest> {
    if h.Idle? then multiset{} else multiset{h.guest}
  }

  /** The unprocessed rows of the database, oldest first, when the service restarts. */
  ghost predicate Replays(s: GateState, rows: seq<Row>, gate: GateId) {
    && OldestFirst(rows, gate)
    && multiset(GuestsOf(rows, gate)) == multiset(s.queue) + Held(s.hands)
    && forall i :: 0 <= i < |rows| && rows[i].gate == gate ==>
                     (rows[i].status == Processing <==> s.hands == Working(rows[i].guest))
  }

  ghost predicate Enabled(s: GateState, step: Step, gate: GateId) {
    match step
    case Arrive(g) => g.queuedAt > s.clock
    case Pop => s.hands.Idle? && s.queue != []
    case Mark => s.hands.Popped?
    case Finish => s.hands.Working?
    case Crash(rows) => Replays(s, rows, gate)
  }

  function Apply(s: GateState, step: Step, gate: GateId): GateState {
    match step
    case Arrive(g) => s.(queue := Insert(s.queue, g), clock := g.queuedAt)
    case Pop => if s.queue == [] then s else s.(queue := s.queue[1..], hands := Popped(s.queue[0]))
    case Mark => if s.hands.Popped? then s.(hands := Working(s.hands.guest)) else s
    case Finish => s.(hands := Idle)
    case Crash(rows) => s.(queue := Rebuild(rows, gate), hands := Idle)
  }

  function Run(steps: seq<Step>, gate: GateId): GateState {
    if steps == [] then GateState([], Idle, 0.0)
    else Apply(Run(steps[..|steps| - 1], gate), steps[|steps| - 1], gate)
  }

  ghost predicate Possible(steps: seq<Step>, gate: GateId) {
    steps == [] ||
    (Possible(steps[..|steps| - 1], gate) && Enabled(Run(steps[..|steps| - 1], gate), steps[|steps| - 1], gate))
  }

  /** The queue is in order, nobody is stamped in the future, and any waiting guest older than
      the one in hand is of a later class. */
  ghost predicate Ordered(s: GateState) {
    && Sorted(s.queue)
    && (forall x :: x in s.queue ==> x.queuedAt <= s.clock)
    && (!s.hands.Idle? ==> s.hands.guest.queuedAt <= s.clock && forall x :: x in s.queue ==> Precedes(s.hands.guest, x))
  }

  ghost predicate Precedes(p: Guest, x: Guest) {
    x.queuedAt < p.queuedAt ==> EarlierClass(p, x)
  }

  lemma {:induction false} RowOfGuest(rows: seq<Row>, gate: GateId, g: Guest) returns (i: nat)
    requires g in multiset(GuestsOf(rows, gate))
    ensures i < |rows| && rows[i].gate == gate && rows[i].guest == g
  {
    var row := rows[|rows| - 1];
    if row.gate == gate && row.guest == g { return |rows| - 1; }
    assert g in GuestsOf(rows, gate);
    i := RowOfGuest(rows[..|rows| - 1], gate, g);
  }

  lemma {:induction false} GuestOfRow(rows: seq<Row>, gate: GateId, i: nat)
    requires i < |rows| && rows[i].gate == gate
    ensures rows[i].guest in multiset(GuestsOf(rows, gate))
  {
    if i == |rows| - 1 {
      assert rows[i].guest in GuestsOf(rows, gate);
    } else {
      GuestOfRow(rows[..|rows| - 1], gate, i);
      assert rows[i].guest in GuestsOf(rows[..|rows| - 1], gate);
      assert rows[i].guest in GuestsOf(rows, gate);
    }
  }

  /** One restart of an ordered gate: the rebuilt queue is the waiting guests and the one in
      hand, in order. */
  lemma {:induction false} CrashRestoresOrder(s: GateState, rows: seq<Row>, gate: GateId)
    requires Ordered(s) && Replays(s, rows, gate)
    ensures Sorted(Rebuild(rows, gate))
    ensures multiset(Rebuild(rows, gate)) == multiset(s.queue) + Held(s.hands)
  {
    RebuildContents(rows, gate);
    if s.hands.Working? {
      var p := s.hands.guest;
      var m := RowOfGuest(rows, gate, p);
      forall i | 0 <= i < |rows| && rows[i].gate == gate
        ensures rows[i].status == Processing <==> i == m
        ensures i < m ==> EarlierClass(p, rows[i].guest)
      {
        if i < m {
          GuestOfRow(rows, gate, i);
          assert rows[i].guest in multiset(s.queue);
          assert Precedes(p, rows[i].guest);
        }
      }
      RebuildSortedIff(rows, gate, m);
    } else {
      RebuildSorted(rows, gate);
    }
  }

  lemma {:induction false} ArrivalKeepsOrder(s: GateState, g: Guest)
    requires Ordered(s) && g.queuedAt > s.clock
    ensures Ordered(s.(queue := Insert(s.queue, g), clock := g.queuedAt))
  {
    InsertSortedIff(s.queue, g);
    InsertContents(s.queue, g);
    forall x | x in Insert(s.queue, g) ensures x == g || x in s.queue {
      assert x in multiset(Insert(s.queue, g));
    }
  }

  lemma {:induction false} CrashKeepsOrder(s: GateState, rows: seq<Row>, gate: GateId)
    requires Ordered(s) && Replays(s, rows, gate)
    ensures Ordered(s.(queue := Rebuild(rows, gate), hands := Idle))
  {
    CrashRestoresOrder(s, rows, gate);
    forall x | x in Rebuild(rows, gate) ensures x.queuedAt <= s.clock {
      assert x in multiset(Rebuild(rows, gate));
      assert x in multiset(s.queue) || x in Held(s.hands);
    }
  }

  lemma {:induction false} RunOrdered(steps: seq<Step>, gate: GateId)
    requires Possible(steps, gate)
    ensures Ordered(Run(steps, gate))
  {
    if steps != [] {
      var s, step := Run(steps[..|steps| - 1], gate), steps[|steps| - 1];
      RunOrdered(steps[..|steps| - 1], gate);
      match step
      case Arrive(g) => ArrivalKeepsOrder(s, g);
      case Pop => PopKeepsOrder(s);
      case Mark =>
      case Finish =>
      case Crash(rows) => CrashKeepsOrder(s, rows, gate);
    }
  }

  lemma PopKeepsOrder(s: GateState)
    requires Ordered(s) && s.queue != []
    ensures Sorted(s.queue[1..])
    ensures forall x :: x in s.queue[1..] ==> x in s.queue && Precedes(s.queue[0], x)
  {
    forall x | x in s.queue[1..] ensures x in s.queue && Precedes(s.queue[0], x) {
      var i :| 0 <= i < |s.queue[1..]| && s.queue[1..][i] == x;
      assert Before(s.queue[0], s.queue[i + 1]);
    }
  }

  /** In every run with any number of crashes, each rebuilt queue is the waiting guests plus
      the one in hand, sorted by rank and stamp. */
  lemma {:induction false} EveryRestartIsSorted(steps: seq<Step>, rows: seq<Row>, gate: GateId)
    requires Possible(steps + [Crash(rows)], gate)
    ensures var s, after := Run(steps, gate), Run(steps + [Crash(rows)], gate);
            Sorted(after.queue) && multiset(after.queue) == multiset(s.queue) + Held(s.hands)
  {
    var all := steps + [Crash(rows)];
    assert all[..|all| - 1] == steps;
    RunOrdered(steps, gate);
    CrashRestoresOrder(Run(steps, gate), rows, gate);
  }

  /** There is only one such order, so a restart while the worker is idle changes nothing. */
  lemma {:induction false} IdleRestartIsInvisible(steps: seq<Step>, rows: seq<Row>, gate: GateId)
    requires Possible(steps + [Crash(rows)], gate) && Run(steps, gate).hands.Idle?
    ensures Run(steps + [Crash(rows)], gate) == Run(steps, gate)
  {
    var all := steps + [Crash(rows)];
    assert all[..|all| - 1] == steps;
    EveryRestartIsSorted(steps, rows, gate);
    RunOrdered(steps, gate);
    SortedUnique(Run(all, gate).queue, Run(steps, gate).queue);
  }

  lemma {:induction false} SortedUnique(a: seq<Guest>, b: seq<Guest>)
    requires Sorted(a) && Sorted(b) && multiset(a) == multiset(b)
    ensures a == b
  {
    assert |multiset(a)| == |a| && |multiset(b)| == |b|;
    if a != [] {
      SameHead(a, b);
      assert a == [a[0]] + a[1..] && b == [b[0]] + b[1..];
      assert multiset(a[1..]) == multiset(a) - multiset{a[0]};
      assert multiset(b[1..]) == multiset(b) - multiset{b[0]};
      SortedUnique(a[1..], b[1..]);
    }
  }

  lemma SameHead(a: seq<Guest>, b: seq<Guest>)
    requires a != [] && b != [] && Sorted(a) && Sorted(b) && multiset(a) == multiset(b)
    ensures a[0] == b[0]
  {
    assert a[0] in multiset(b) && b[0] in multiset(a);
    var i :| 0 <= i < |b| && b[i] == a[0];
    var j :| 0 <= j < |a| && a[j] == b[0];
    if i > 0 && j > 0 { assert false; }
  }
}
