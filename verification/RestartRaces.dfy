/**
  Restarts at the fine grain (services/airport/gate_manager.py, lines 113-131 and 145-176): what the
  interleaved steps of handlers and workers leave for a restart to rebuild, and when that is in order.
 */
module RestartRaces {
  import opened GateQueues
  import Order = RehydrationOrder
  import opened AirportModel
  import opened AirportConservation

  /** A row the gate still has to serve. */
  ghost predicate OpenAt(s: Airport, gate: GateId, id: nat) {
    id in s.rows && s.rows[id].gate == gate && s.rows[id].status != Processed
  }

  /** No two unprocessed rows of the gate carry the same stamp; rows of other gates may. */
  ghost predicate DistinctStamps(s: Airport, gate: GateId) {
    forall a, b :: OpenAt(s, gate, a) && OpenAt(s, gate, b) && a != b ==>
      s.rows[a].guest.queuedAt != s.rows[b].guest.queuedAt
  }

  /** An unprocessed row of the gate other than the one being processed. */
  ghost predicate WaitsAt(s: Airport, gate: GateId, id: nat) {
    id in s.rows && s.rows[id].gate == gate && s.rows[id].status == Queued
  }

  /** What a caller can read off the rows before the restart: whoever was stamped before the guest
      being processed is of a later class. */
  ghost predicate OlderWaitWorse(s: Airport, gate: GateId)
    requires gate in s.workers
  {
    s.workers[gate].Working? ==>
      forall id :: WaitsAt(s, gate, id) && s.rows[id].guest.queuedAt < s.workers[gate].guest.queuedAt ==>
        EarlierClass(s.workers[gate].guest, s.rows[id].guest)
  }

  /** Whoever was stamped after the guest being processed has no better rank. */
  ghost predicate YoungerNoBetter(s: Airport, gate: GateId)
    requires gate in s.workers && s.workers[gate].Working?
  {
    forall id :: WaitsAt(s, gate, id) && s.rows[id].guest.queuedAt > s.workers[gate].guest.queuedAt ==>
      !EarlierClass(s.rows[id].guest, s.workers[gate].guest)
  }

  lemma ReplayIsOldestFirst(s: Airport, replay: seq<nat>, gate: GateId)
    requires ReplayOf(s, replay) && DistinctStamps(s, gate)
    ensures Order.OldestFirst(RowsOf(s.rows, replay), gate)
  {
    forall i, j | 0 <= i < j < |replay| && s.rows[replay[i]].gate == gate && s.rows[replay[j]].gate == gate
      ensures s.rows[replay[i]].guest.queuedAt < s.rows[replay[j]].guest.queuedAt
    {
      assert replay[i] != replay[j] && OpenAt(s, gate, replay[i]) && OpenAt(s, gate, replay[j]);
    }
  }

  /** The row in the hands of the worker is the interrupted one. */
  lemma WorkingIsInterrupted(s: Airport, replay: seq<nat>, gate: GateId) returns (m: nat)
    requires Inv(s) && ReplayOf(s, replay) && AtGate(s, gate) && s.workers[gate].Working?
    ensures m < |replay| && replay[m] == s.workers[gate].guest.arrivalId
    ensures s.rows[replay[m]].guest == s.workers[gate].guest
    ensures Order.Interrupted(RowsOf(s.rows, replay), gate, m)
  {
    var p := s.workers[gate].guest;
    assert GateGood(s, gate);
    m :| 0 <= m < |replay| && replay[m] == p.arrivalId;
    var rows := RowsOf(s.rows, replay);
    forall i | 0 <= i < |rows| && rows[i].gate == gate ensures rows[i].status == Processing <==> i == m {
      assert RowGood(s, replay[i]);
      if i != m { assert replay[i] != replay[m]; }
    }
  }

  lemma NotWorkingNoneInterrupted(s: Airport, replay: seq<nat>, gate: GateId)
    requires Inv(s) && ReplayOf(s, replay) && AtGate(s, gate) && !s.workers[gate].Working?
    ensures Order.NoneInterrupted(RowsOf(s.rows, replay), gate)
  {
    var rows := RowsOf(s.rows, replay);
    forall i | 0 <= i < |rows| && rows[i].gate == gate ensures rows[i].status != Processing {
      assert RowGood(s, replay[i]);
    }
  }

  /** Rows before the interrupted one in the replay are the older waiting ones, those after it the
      younger. */
  lemma ReplaySplits(s: Airport, replay: seq<nat>, gate: GateId, m: nat)
    requires ReplayOf(s, replay) && DistinctStamps(s, gate) && m < |replay|
    requires Order.Interrupted(RowsOf(s.rows, replay), gate, m)
    ensures forall i :: 0 <= i < |replay| && i != m && s.rows[replay[i]].gate == gate ==> WaitsAt(s, gate, replay[i])
    ensures forall i :: 0 <= i < m && s.rows[replay[i]].gate == gate ==>
              s.rows[replay[i]].guest.queuedAt < s.rows[replay[m]].guest.queuedAt
    ensures forall i :: m < i < |replay| && s.rows[replay[i]].gate == gate ==>
              s.rows[replay[i]].guest.queuedAt > s.rows[replay[m]].guest.queuedAt
    ensures forall id :: WaitsAt(s, gate, id) ==> id in replay && id != replay[m]
  {
    ReplayIsOldestFirst(s, replay, gate);
    var rows := RowsOf(s.rows, replay);
    forall i | 0 <= i < |rows| ensures rows[i] == s.rows[replay[i]] {}
  }

  /** In every run of handlers, workers and restarts, the next restart leaves a gate in rank order if
      and only if nobody who waits there, in the queue or still with a handler, was stamped before
      the guest being processed without having worse rank. */
  lemma {:induction false} RestartSortedIff(gates: set<GateId>, steps: seq<Step>, replay: seq<nat>, gate: GateId)
    requires var s := Run(gates, steps);
             ReplayOf(s, replay) && AtGate(s, gate) && DistinctStamps(s, gate)
    ensures var s := Run(gates, steps);
            var after := Apply(s, Crash(replay));
            gate in after.queues && (Order.Sorted(after.queues[gate]) <==> OlderWaitWorse(s, gate))
  {
    var s := Run(gates, steps);
    RunKeepsInv(gates, steps);
    CrashQueue(s, replay, gate);
    RestartOrder(s, replay, gate);
  }

  lemma RestartOrder(s: Airport, replay: seq<nat>, gate: GateId)
    requires Inv(s) && ReplayOf(s, replay) && AtGate(s, gate) && DistinctStamps(s, gate)
    ensures Order.Sorted(Rebuild(RowsOf(s.rows, replay), gate)) <==> OlderWaitWorse(s, gate)
  {
    ReplayIsOldestFirst(s, replay, gate);
    if s.workers[gate].Working? {
      var m := WorkingIsInterrupted(s, replay, gate);
      OlderRowsWait(s, replay, gate, m);
      Order.RebuildSortedIff(RowsOf(s.rows, replay), gate, m);
    } else {
      NotWorkingNoneInterrupted(s, replay, gate);
      Order.RebuildSorted(RowsOf(s.rows, replay), gate);
    }
  }

  lemma OlderRowsWait(s: Airport, replay: seq<nat>, gate: GateId, m: nat)
    requires ReplayOf(s, replay) && DistinctStamps(s, gate) && m < |replay|
    requires gate in s.workers && s.workers[gate].Working?
    requires s.rows[replay[m]].guest == s.workers[gate].guest && Order.Interrupted(RowsOf(s.rows, replay), gate, m)
    ensures Order.OlderAreWorse(RowsOf(s.rows, replay), gate, m) <==> OlderWaitWorse(s, gate)
  {
    var rows := RowsOf(s.rows, replay);
    ReplaySplits(s, replay, gate, m);
    if OlderWaitWorse(s, gate) {
      forall i | 0 <= i < m && rows[i].gate == gate
        ensures EarlierClass(rows[m].guest, rows[i].guest)
      {
        assert WaitsAt(s, gate, replay[i]);
      }
    }
    if Order.OlderAreWorse(rows, gate, m) {
      forall id | WaitsAt(s, gate, id) && s.rows[id].guest.queuedAt < s.workers[gate].guest.queuedAt
        ensures EarlierClass(s.workers[gate].guest, s.rows[id].guest)
      {
        var i :| 0 <= i < |replay| && replay[i] == id;
        assert i < m && rows[i].gate == gate;
      }
    }
  }

  /** And the interrupted guest is at the front if and only if nobody who waits there was stamped
      later with better rank. */
  lemma {:induction false} RestartFrontIff(gates: set<GateId>, steps: seq<Step>, replay: seq<nat>, gate: GateId)
    requires var s := Run(gates, steps);
             ReplayOf(s, replay) && AtGate(s, gate) && DistinctStamps(s, gate) && s.workers[gate].Working?
    ensures var s := Run(gates, steps);
            var after := Apply(s, Crash(replay));
            && gate in after.queues && after.queues[gate] != []
            && (after.queues[gate][0] == s.workers[gate].guest <==> YoungerNoBetter(s, gate))
  {
    var s := Run(gates, steps);
    RunKeepsInv(gates, steps);
    CrashQueue(s, replay, gate);
    RestartFront(s, replay, gate);
  }

  lemma {:induction false} RestartFront(s: Airport, replay: seq<nat>, gate: GateId)
    requires Inv(s) && ReplayOf(s, replay) && AtGate(s, gate) && DistinctStamps(s, gate) && s.workers[gate].Working?
    ensures var q := Rebuild(RowsOf(s.rows, replay), gate);
            q != [] && (q[0] == s.workers[gate].guest <==> YoungerNoBetter(s, gate))
  {
    ReplayIsOldestFirst(s, replay, gate);
    var m := WorkingIsInterrupted(s, replay, gate);
    YoungerRowsWait(s, replay, gate, m);
    Order.InterruptedAtFrontIff(RowsOf(s.rows, replay), gate, m);
  }

  lemma YoungerRowsWait(s: Airport, replay: seq<nat>, gate: GateId, m: nat)
    requires ReplayOf(s, replay) && DistinctStamps(s, gate) && m < |replay|
    requires gate in s.workers && s.workers[gate].Working?
    requires s.rows[replay[m]].guest == s.workers[gate].guest && Order.Interrupted(RowsOf(s.rows, replay), gate, m)
    ensures Order.YoungerNoBetter(RowsOf(s.rows, replay), gate, m) <==> YoungerNoBetter(s, gate)
  {
    var rows := RowsOf(s.rows, replay);
    ReplaySplits(s, replay, gate, m);
    if YoungerNoBetter(s, gate) {
      forall i | m < i < |rows| && rows[i].gate == gate
        ensures !EarlierClass(rows[i].guest, rows[m].guest)
      {
        assert WaitsAt(s, gate, replay[i]);
      }
    }
    if Order.YoungerNoBetter(rows, gate, m) {
      forall id | WaitsAt(s, gate, id) && s.rows[id].guest.queuedAt > s.workers[gate].guest.queuedAt
        ensures !EarlierClass(s.rows[id].guest, s.workers[gate].guest)
      {
        var i :| 0 <= i < |replay| && replay[i] == id;
        assert i > m && rows[i].gate == gate;
      }
    }
  }

  lemma CrashQueue(s: Airport, replay: seq<nat>, gate: GateId)
    requires ReplayOf(s, replay) && AtGate(s, gate)
    ensures var after := Apply(s, Crash(replay));
            gate in after.queues && after.queues[gate] == Rebuild(RowsOf(s.rows, replay), gate)
  {
  }

  // ---------------------------------------------------------------- runs in which the order is lost

  lemma RunSnoc(gates: set<GateId>, steps: seq<Step>, step: Step)
    ensures Run(gates, steps + [step]) == Apply(Run(gates, steps), step)
  {
    assert (steps + [step])[..|steps|] == steps;
  }

  lemma RunFive(gates: set<GateId>, a: Step, b: Step, c: Step, d: Step, e: Step)
    ensures Run(gates, [a, b, c, d, e]) == Apply(Apply(Apply(Apply(Apply(Start(gates), a), b), c), d), e)
  {
    RunSnoc(gates, [], a);
    RunSnoc(gates, [a], b);
    RunSnoc(gates, [a, b], c);
    RunSnoc(gates, [a, b, c], d);
    RunSnoc(gates, [a, b, c, d], e);
    assert [] + [a] == [a] && [a] + [b] == [a, b] && [a, b] + [c] == [a, b, c];
    assert [a, b, c] + [d] == [a, b, c, d] && [a, b, c, d] + [e] == [a, b, c, d, e];
  }

  /** Two handlers, one slow: `late` is stamped and committed first, but `held` is enqueued, taken and
      marked processing before `late` is enqueued. */
  function SlowHandler(gate: GateId, late: Guest, held: Guest): seq<Step> {
    [Commit(late, gate), Commit(held, gate), Enqueue(held.arrivalId), Take(gate), MarkProcessing(gate)]
  }

  /** A guest of better rank who arrives while another is being processed. */
  function LateArrival(gate: GateId, held: Guest, better: Guest): seq<Step> {
    [Commit(held, gate), Enqueue(held.arrivalId), Take(gate), MarkProcessing(gate), Commit(better, gate)]
  }

  /** Where both runs lead: `held` is being processed, `other` is committed but not enqueued. */
  function OneHeldOneWaiting(gate: GateId, held: Guest, other: Guest): Airport {
    Airport(map[other.arrivalId := Row(other, gate, Queued), held.arrivalId := Row(held, gate, Processing)],
            {other.arrivalId}, map[gate := []], map[gate := Working(held)], [])
  }

  lemma InsertFirst(g: Guest)
    ensures Insert([], g) == [g]
  {
  }

  lemma SlowHandlerState(gate: GateId, late: Guest, held: Guest)
    requires late.arrivalId != held.arrivalId
    ensures Run({gate}, SlowHandler(gate, late, held)) == OneHeldOneWaiting(gate, held, late)
  {
    var all := SlowHandler(gate, late, held);
    RunFive({gate}, all[0], all[1], all[2], all[3], all[4]);
    var l, h := late.arrivalId, held.arrivalId;
    var rows := map[l := Row(late, gate, Queued), h := Row(held, gate, Queued)];
    var s2 := Airport(rows, {l, h}, map[gate := []], map[gate := Idle], []);
    assert Apply(Apply(Start({gate}), all[0]), all[1]) == s2;
    EnqueueTakeMark(s2, gate, held);
    var s5 := OneHeldOneWaiting(gate, held, late);
    assert s2.handlers - {h} == s5.handlers && s2.rows[h := Row(held, gate, Processing)] == s5.rows;
  }

  lemma {:induction false} EnqueueSteps(s: Airport, id: nat)
    requires id in s.handlers && id in s.rows && AtGate(s, s.rows[id].gate)
    ensures var row := s.rows[id];
            Apply(s, Enqueue(id)) ==
              s.(handlers := s.handlers - {id}, queues := s.queues[row.gate := Insert(s.queues[row.gate], row.guest)])
  {
  }

  lemma EnqueueFirst(s: Airport, gate: GateId, g: Guest)
    requires g.arrivalId in s.handlers && g.arrivalId in s.rows && s.rows[g.arrivalId] == Row(g, gate, Queued)
    requires s.queues == map[gate := []] && gate in s.workers
    ensures Apply(s, Enqueue(g.arrivalId)) == s.(handlers := s.handlers - {g.arrivalId}, queues := map[gate := [g]])
  {
    EnqueueSteps(s, g.arrivalId);
    InsertFirst(g);
    OneQueue(gate, [], [g]);
  }

  lemma OneQueue(gate: GateId, q: seq<Guest>, r: seq<Guest>)
    ensures (map[gate := q])[gate := r] == map[gate := r]
  {
  }

  lemma TakeFirst(s: Airport, gate: GateId, g: Guest)
    requires s.queues == map[gate := [g]] && s.workers == map[gate := Idle]
    ensures Apply(s, Take(gate)) == s.(queues := map[gate := []], workers := map[gate := Popped(g)])
  {
    assert [g][1..] == [];
    assert s.queues[gate := []] == map[gate := []] && s.workers[gate := Popped(g)] == map[gate := Popped(g)];
  }

  lemma MarkPopped(s: Airport, gate: GateId, g: Guest)
    requires gate in s.queues && s.workers == map[gate := Popped(g)]
    requires g.arrivalId in s.rows && s.rows[g.arrivalId] == Row(g, gate, Queued)
    ensures Apply(s, MarkProcessing(gate)) ==
              s.(rows := s.rows[g.arrivalId := Row(g, gate, Processing)], workers := map[gate := Working(g)])
  {
    assert s.workers[gate := Working(g)] == map[gate := Working(g)];
  }

  /** The guest of an idle gate with an empty queue goes from the handler into the worker's hands. */
  lemma EnqueueTakeMark(s: Airport, gate: GateId, g: Guest)
    requires g.arrivalId in s.handlers && g.arrivalId in s.rows && s.rows[g.arrivalId] == Row(g, gate, Queued)
    requires s.queues == map[gate := []] && s.workers == map[gate := Idle]
    ensures Apply(Apply(Apply(s, Enqueue(g.arrivalId)), Take(gate)), MarkProcessing(gate)) ==
              s.(rows := s.rows[g.arrivalId := Row(g, gate, Processing)], handlers := s.handlers - {g.arrivalId},
                 queues := map[gate := []], workers := map[gate := Working(g)])
  {
    var enqueued := s.(handlers := s.handlers - {g.arrivalId}, queues := map[gate := [g]]);
    EnqueueFirst(s, gate, g);
    TakeFirst(enqueued, gate, g);
    MarkPopped(enqueued.(queues := map[gate := []], workers := map[gate := Popped(g)]), gate, g);
  }

  lemma LateArrivalState(gate: GateId, held: Guest, better: Guest)
    requires held.arrivalId != better.arrivalId
    ensures Run({gate}, LateArrival(gate, held, better)) == OneHeldOneWaiting(gate, held, better)
  {
    var all := LateArrival(gate, held, better);
    RunFive({gate}, all[0], all[1], all[2], all[3], all[4]);
    var s1 := Apply(Start({gate}), all[0]);
    var h := held.arrivalId;
    assert s1 == Airport(map[h := Row(held, gate, Queued)], {h}, map[gate := []], map[gate := Idle], []);
    EnqueueTakeMark(s1, gate, held);
    var s4 := Airport(map[h := Row(held, gate, Processing)], {}, map[gate := []], map[gate := Working(held)], []);
    assert s1.handlers - {held.arrivalId} == {};
    assert Apply(s4, all[4]) == OneHeldOneWaiting(gate, held, better);
  }

  /** The queue rebuilt from two rows. */
  lemma RebuildTwo(rows: seq<Row>, gate: GateId)
    requires |rows| == 2 && rows[0].gate == gate && rows[1].gate == gate
    ensures Rebuild(rows, gate) ==
              if rows[1].status == Processing then [rows[1].guest, rows[0].guest]
              else Insert([rows[0].guest], rows[1].guest)
  {
    assert Rebuild(rows[..1][..0], gate) == [];
    InsertFirst(rows[0].guest);
    assert Rebuild(rows[..1], gate) == [rows[0].guest];
  }

  lemma ReplayOfTwo(gate: GateId, held: Guest, other: Guest, replay: seq<nat>)
    requires held.arrivalId != other.arrivalId && held.queuedAt != other.queuedAt
    requires replay == if held.queuedAt < other.queuedAt then [held.arrivalId, other.arrivalId]
                       else [other.arrivalId, held.arrivalId]
    ensures ReplayOf(OneHeldOneWaiting(gate, held, other), replay)
  {
    assert replay[0] in replay && replay[1] in replay;
  }

  /** What a restart makes of that state: the one held goes first, unless the other was stamped later
      and has better rank. */
  lemma {:induction false} RestartOfTwo(gate: GateId, held: Guest, other: Guest, replay: seq<nat>)
    requires held.arrivalId != other.arrivalId && held.queuedAt != other.queuedAt
    requires replay == if held.queuedAt < other.queuedAt then [held.arrivalId, other.arrivalId]
                       else [other.arrivalId, held.arrivalId]
    ensures var s := OneHeldOneWaiting(gate, held, other);
            var after := Apply(s, Crash(replay));
            && Enabled(s, Crash(replay)) && gate in after.queues
            && after.queues[gate] ==
                 if held.queuedAt < other.queuedAt && EarlierClass(other, held)
                 then [other, held] else [held, other]
  {
    var s := OneHeldOneWaiting(gate, held, other);
    ReplayOfTwo(gate, held, other, replay);
    CrashQueue(s, replay, gate);
    RebuiltOfTwo(RowsOf(s.rows, replay), gate, held, other);
  }

  lemma RebuiltOfTwo(rows: seq<Row>, gate: GateId, held: Guest, other: Guest)
    requires var h, o := Row(held, gate, Processing), Row(other, gate, Queued); rows == [h, o] || rows == [o, h]
    ensures Rebuild(rows, gate) ==
              if rows[0].guest == held && rows[0].status == Processing && EarlierClass(other, held)
              then [other, held] else [held, other]
  {
    RebuildTwo(rows, gate);
    assert InsertIndex([held], EffectiveRank(other)) == if EarlierClass(other, held) then 0 else 1;
  }

  /** Whenever the slow handler's guest has better rank, or equal rank and so the earlier stamp, the
      restart puts the other one first: the queue is out of order. */
  lemma LateHandlerBreaksOrder(gate: GateId, late: Guest, held: Guest)
    requires late.arrivalId != held.arrivalId && late.queuedAt < held.queuedAt
    requires !EarlierClass(held, late)
    ensures var crash := Crash([late.arrivalId, held.arrivalId]);
            var after := Run({gate}, SlowHandler(gate, late, held) + [crash]);
            && Enabled(Run({gate}, SlowHandler(gate, late, held)), crash)
            && gate in after.queues && after.queues[gate] == [held, late] && !Order.Sorted(after.queues[gate])
  {
    var replay := [late.arrivalId, held.arrivalId];
    SlowHandlerState(gate, late, held);
    RunSnoc({gate}, SlowHandler(gate, late, held), Crash(replay));
    RestartOfTwo(gate, held, late, replay);
    assert !Order.Before([held, late][0], [held, late][1]);
  }

  /** A run after which the interrupted guest is not at the front: someone of an earlier class
      arrived meanwhile. */
  lemma LateArrivalTakesTheFront(gate: GateId, held: Guest, better: Guest)
    requires held.arrivalId != better.arrivalId && held.queuedAt < better.queuedAt
    requires EarlierClass(better, held)
    ensures var s := Run({gate}, LateArrival(gate, held, better));
            var crash := Crash([held.arrivalId, better.arrivalId]);
            var after := Run({gate}, LateArrival(gate, held, better) + [crash]);
            && Enabled(s, crash) && gate in s.workers && s.workers[gate] == Working(held)
            && gate in after.queues && after.queues[gate] == [better, held]
  {
    var replay := [held.arrivalId, better.arrivalId];
    LateArrivalState(gate, held, better);
    RunSnoc({gate}, LateArrival(gate, held, better), Crash(replay));
    RestartOfTwo(gate, held, better, replay);
  }
}
