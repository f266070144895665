/**
  No guest is lost or duplicated, whatever the interleaving and however often the service crashes.
 */
module AirportConservation {
  import opened GateQueues
  import opened AirportModel
  import Order = RehydrationOrder

  // ---------------------------------------------------------------- each step keeps it

  lemma IdsConcat(a: seq<Guest>, b: seq<Guest>)
    ensures Ids(a + b) == Ids(a) + Ids(b)
  {
    var r := a + b;
    forall id | id in Ids(a) ensures id in Ids(r) {
      var j :| 0 <= j < |a| && a[j].arrivalId == id;
      assert r[j].arrivalId == id;
    }
    forall id | id in Ids(b) ensures id in Ids(r) {
      var j :| 0 <= j < |b| && b[j].arrivalId == id;
      assert r[|a| + j].arrivalId == id;
    }
  }

  lemma InsertIds(q: seq<Guest>, g: Guest)
    ensures Ids(Insert(q, g)) == Ids(q) + {g.arrivalId}
  {
    var i := InsertIndex(q, EffectiveRank(g));
    IdsConcat(q[..i] + [g], q[i..]);
    IdsConcat(q[..i], [g]);
    IdsConcat(q[..i], q[i..]);
    assert q == q[..i] + q[i..];
    assert Ids([g]) == {g.arrivalId} by { assert [g][0] == g; }
  }

  lemma InsertGood(rows: map<nat, Row>, gate: GateId, q: seq<Guest>, g: Guest)
    requires QueueGood(rows, gate, q) && g.arrivalId !in Ids(q)
    requires g.arrivalId in rows && rows[g.arrivalId] == Row(g, gate, Queued)
    ensures QueueGood(rows, gate, Insert(q, g))
  {
    InsertElements(q, g);
    forall j | 0 <= j < |q| ensures q[j].arrivalId != g.arrivalId { assert q[j].arrivalId in Ids(q); }
  }

  lemma PopIds(q: seq<Guest>)
    requires q != [] && DistinctIds(q)
    ensures Ids(q[1..]) == Ids(q) - {q[0].arrivalId} && DistinctIds(q[1..])
  {
    var r := q[1..];
    forall id | id in Ids(r) ensures id in Ids(q) && id != q[0].arrivalId {
      var j :| 0 <= j < |r| && r[j].arrivalId == id;
      assert q[j + 1].arrivalId == id;
    }
    forall id | id in Ids(q) && id != q[0].arrivalId ensures id in Ids(r) {
      var j :| 0 <= j < |q| && q[j].arrivalId == id;
      assert r[j - 1].arrivalId == id;
    }
  }

  /** A row nobody in the queue refers to may change. */
  lemma QueueUntouched(rows: map<nat, Row>, rows': map<nat, Row>, gate: GateId, q: seq<Guest>, id: nat)
    requires QueueGood(rows, gate, q) && id !in Ids(q)
    requires forall k :: k in rows && k != id ==> k in rows' && rows'[k] == rows[k]
    ensures QueueGood(rows', gate, q)
  {
    forall i | 0 <= i < |q| ensures q[i].arrivalId != id { assert q[i].arrivalId in Ids(q); }
  }

  lemma ForeignIds(rows: map<nat, Row>, gate: GateId, q: seq<Guest>, id: nat)
    requires QueueGood(rows, gate, q) && id in Ids(q)
    ensures id in rows && rows[id].gate == gate && rows[id].status == Queued
  {
  }

  lemma CommitKeeps(s: Airport, guest: Guest, gate: GateId)
    requires Inv(s) && Enabled(s, Commit(guest, gate))
    ensures Inv(Apply(s, Commit(guest, gate)))
  {
    var s', id := Apply(s, Commit(guest, gate)), guest.arrivalId;
    forall g | AtGate(s', g) ensures GateGood(s', g) {
      assert GateGood(s, g);
      if id in Ids(s.queues[g]) { ForeignIds(s.rows, g, s.queues[g], id); }
      QueueUntouched(s.rows, s'.rows, g, s.queues[g], id);
    }
    forall k | k in s'.rows ensures RowGood(s', k) {
      assert k in s.rows ==> RowGood(s, k);
      if k == id {
        assert GateGood(s, gate);
        if id in Ids(s.queues[gate]) { ForeignIds(s.rows, gate, s.queues[gate], id); }
      }
    }
  }

  lemma EnqueueRow(s: Airport, id: nat, k: nat)
    requires Inv(s) && id in s.handlers && id in s.rows && AtGate(s, s.rows[id].gate) && k in s.rows
    ensures RowGood(Enqueued(s, id), k)
  {
    assert RowGood(s, k);
    InsertIds(s.queues[s.rows[id].gate], s.rows[id].guest);
    assert RowGood(s, id);
  }

  lemma {:induction false} EnqueueKeeps(s: Airport, id: nat)
    requires Inv(s) && id in s.handlers && id in s.rows && AtGate(s, s.rows[id].gate)
    ensures Inv(Enqueued(s, id))
  {
    var s', row := Enqueued(s, id), s.rows[id];
    assert RowGood(s, id);
    forall g | AtGate(s', g) ensures GateGood(s', g) {
      assert GateGood(s, g);
      if g == row.gate { InsertGood(s.rows, g, s.queues[g], row.guest); }
    }
    forall k | k in s'.rows ensures RowGood(s', k) { EnqueueRow(s, id, k); }
  }

  lemma TakeRow(s: Airport, gate: GateId, k: nat)
    requires Inv(s) && Enabled(s, Take(gate)) && k in s.rows
    ensures RowGood(Apply(s, Take(gate)), k)
  {
    var q := s.queues[gate];
    assert GateGood(s, gate) && RowGood(s, k);
    PopIds(q);
    assert q[0].arrivalId in Ids(q);
  }

  lemma TakeKeeps(s: Airport, gate: GateId)
    requires Inv(s) && Enabled(s, Take(gate))
    ensures Inv(Apply(s, Take(gate)))
  {
    var s' := Apply(s, Take(gate));
    assert GateGood(s, gate);
    PopIds(s.queues[gate]);
    forall g | AtGate(s', g) ensures GateGood(s', g) { assert GateGood(s, g); }
    forall k | k in s'.rows ensures RowGood(s', k) { TakeRow(s, gate, k); }
  }

  lemma RestampGate(s: Airport, s': Airport, gate: GateId, g: GateId, id: nat)
    requires Inv(s) && AtGate(s, gate) && HeldIds(s.workers[gate]) == {id} && AtGate(s, g)
    requires s'.rows.Keys == s.rows.Keys && (forall k :: k in s.rows && k != id ==> s'.rows[k] == s.rows[k])
    requires s'.published == s.published && AtGate(s', g) && s'.queues[g] == s.queues[g]
    ensures QueueGood(s'.rows, g, s'.queues[g])
    ensures g != gate && s'.workers[g] == s.workers[g] ==> GateGood(s', g)
  {
    assert GateGood(s, gate) && RowGood(s, id) && GateGood(s, g);
    if id in Ids(s.queues[g]) { ForeignIds(s.rows, g, s.queues[g], id); }
    QueueUntouched(s.rows, s'.rows, g, s.queues[g], id);
  }

  /** The airport after restamping the row in the hands of a worker, who moves on with it. */
  function Restamped(s: Airport, gate: GateId, w: Worker): Airport
    requires !w.Idle?
  {
    s.(rows := Stamp(s.rows, w.guest.arrivalId, StatusOf(w)), workers := s.workers[gate := w])
  }

  lemma RestampRow(s: Airport, gate: GateId, w: Worker, k: nat)
    requires Inv(s) && AtGate(s, gate) && HeldIds(s.workers[gate]) != {}
    requires w == Working(s.workers[gate].guest) || w == Done(s.workers[gate].guest)
    requires k in s.rows
    ensures RowGood(Restamped(s, gate, w), k)
  {
    assert GateGood(s, gate) && RowGood(s, w.guest.arrivalId) && RowGood(s, k);
  }

  lemma {:induction false} RestampKeeps(s: Airport, gate: GateId, w: Worker)
    requires Inv(s) && AtGate(s, gate) && HeldIds(s.workers[gate]) != {}
    requires w == Working(s.workers[gate].guest) || w == Done(s.workers[gate].guest)
    ensures Inv(Restamped(s, gate, w))
  {
    var id, s' := w.guest.arrivalId, Restamped(s, gate, w);
    assert GateGood(s, gate) && RowGood(s, id);
    forall g | AtGate(s', g) ensures GateGood(s', g) { RestampGate(s, s', gate, g, id); }
    forall k | k in s'.rows ensures RowGood(s', k) { RestampRow(s, gate, w, k); }
  }

  lemma PublishRow(s: Airport, gate: GateId, k: nat)
    requires Inv(s) && Enabled(s, Publish(gate)) && k in s.rows
    ensures RowGood(Apply(s, Publish(gate)), k)
  {
    assert RowGood(s, k);
  }

  lemma {:induction false} PublishKeeps(s: Airport, gate: GateId)
    requires Inv(s) && Enabled(s, Publish(gate))
    ensures Inv(Apply(s, Publish(gate)))
  {
    var s' := Apply(s, Publish(gate));
    assert GateGood(s, gate);
    forall g | AtGate(s', g) ensures GateGood(s', g) { assert GateGood(s, g); }
    forall k | k in s'.rows ensures RowGood(s', k) { PublishRow(s, gate, k); }
  }

  lemma ClearKeeps(s: Airport, gate: GateId)
    requires Inv(s) && Enabled(s, Clear(gate))
    ensures Inv(Apply(s, Clear(gate)))
  {
    var s' := Apply(s, Clear(gate));
    forall g | AtGate(s', g) ensures GateGood(s', g) { assert GateGood(s, g); }
    forall k | k in s'.rows ensures RowGood(s', k) { assert RowGood(s, k); }
  }

  lemma RebuiltInRows(rows: seq<Row>, gate: GateId)
    ensures forall i :: 0 <= i < |Rebuild(rows, gate)| ==> InRows(rows, gate, Rebuild(rows, gate)[i])
    ensures forall i :: 0 <= i < |rows| && rows[i].gate == gate ==> rows[i].guest.arrivalId in Ids(Rebuild(rows, gate))
  {
    var q := Rebuild(rows, gate);
    Order.RebuildContents(rows, gate);
    Order.RebuiltCoverRows(rows, gate);
    forall i | 0 <= i < |q| ensures InRows(rows, gate, q[i]) { assert q[i] in q; }
    forall i | 0 <= i < |rows| && rows[i].gate == gate ensures rows[i].guest.arrivalId in Ids(q) {
      var k :| 0 <= k < |q| && q[k] == rows[i].guest;
    }
  }

  /** Rebuilding a gate from its replayed rows puts exactly those rows into its queue. */
  lemma {:induction false} RebuildIds(rows: seq<Row>, gate: GateId)
    requires forall i, j :: 0 <= i < j < |rows| ==> rows[i].guest.arrivalId != rows[j].guest.arrivalId
    ensures DistinctIds(Rebuild(rows, gate))
    ensures forall i :: 0 <= i < |Rebuild(rows, gate)| ==> InRows(rows, gate, Rebuild(rows, gate)[i])
    ensures forall i :: 0 <= i < |rows| && rows[i].gate == gate ==> rows[i].guest.arrivalId in Ids(Rebuild(rows, gate))
  {
    RebuiltInRows(rows, gate);
    if rows != [] {
      var before, row := rows[..|rows| - 1], rows[|rows| - 1];
      var q := Rebuild(before, gate);
      RebuildIds(before, gate);
      forall i | 0 <= i < |q| ensures q[i].arrivalId != row.guest.arrivalId {
        assert InRows(before, gate, q[i]);
        var k :| 0 <= k < |before| && before[k].gate == gate && before[k].guest == q[i];
        assert rows[k] == before[k];
      }
      if row.gate == gate { PlacedIds(q, row.guest, Rebuild(rows, gate)); }
    }
  }

  ghost predicate InRows(rows: seq<Row>, gate: GateId, g: Guest) {
    exists k :: 0 <= k < |rows| && rows[k].gate == gate && rows[k].guest == g
  }

  /** Both ways of putting a new guest into a queue add that guest and nothing else. */
  lemma {:induction false} PlacedIds(q: seq<Guest>, g: Guest, r: seq<Guest>)
    requires DistinctIds(q) && (forall i :: 0 <= i < |q| ==> q[i].arrivalId != g.arrivalId)
    requires r == Insert(q, g) || r == [g] + q
    ensures DistinctIds(r) && Ids(r) == Ids(q) + {g.arrivalId}
    ensures forall i :: 0 <= i < |r| ==> r[i] == g || r[i] in q
  {
    if r == Insert(q, g) {
      InsertIds(q, g);
      InsertElements(q, g);
    } else {
      IdsConcat([g], q);
      assert [g][0] == g && Ids([g]) == {g.arrivalId};
    }
  }

  /** What a restart rebuilds for one gate is good: its unprocessed rows, each once. */
  lemma {:induction false} RebuiltGateGood(s: Airport, replay: seq<nat>, g: GateId)
    requires Inv(s) && ReplayOf(s, replay) && AtGate(s, g)
    ensures var q := Rebuild(RowsOf(s.rows, replay), g);
            && QueueGood(map id | id in s.rows :: Requeued(s.rows[id]), g, q)
            && forall id :: id in s.rows && s.rows[id].gate == g ==> (id in Ids(q) <==> s.rows[id].status != Processed)
  {
    var rows := RowsOf(s.rows, replay);
    forall i, j | 0 <= i < j < |rows| ensures rows[i].guest.arrivalId != rows[j].guest.arrivalId {
      assert replay[i] != replay[j] && RowGood(s, replay[i]) && RowGood(s, replay[j]);
    }
    RebuildIds(rows, g);
    var q := Rebuild(rows, g);
    forall i | 0 <= i < |q|
      ensures q[i].arrivalId in s.rows && s.rows[q[i].arrivalId].status != Processed
      ensures s.rows[q[i].arrivalId].gate == g && s.rows[q[i].arrivalId].guest == q[i]
    {
      assert InRows(rows, g, q[i]);
      var k :| 0 <= k < |rows| && rows[k].gate == g && rows[k].guest == q[i];
      assert RowGood(s, replay[k]);
    }
    forall id | id in s.rows && s.rows[id].gate == g && s.rows[id].status != Processed ensures id in Ids(q) {
      var k :| 0 <= k < |replay| && replay[k] == id;
      assert RowGood(s, id) && rows[k].gate == g;
    }
  }

  lemma CrashKeeps(s: Airport, replay: seq<nat>)
    requires Inv(s) && Enabled(s, Crash(replay))
    ensures Inv(Apply(s, Crash(replay)))
  {
    var s' := Apply(s, Crash(replay));
    forall g | AtGate(s', g) ensures GateGood(s', g) { RebuiltGateGood(s, replay, g); }
    forall k | k in s'.rows ensures RowGood(s', k) {
      assert RowGood(s, k);
      RebuiltGateGood(s, replay, s.rows[k].gate);
    }
  }

  lemma StepKeeps(s: Airport, step: Step)
    requires Inv(s) && Enabled(s, step)
    ensures Inv(Apply(s, step))
  {
    match step
    case Commit(guest, gate) => CommitKeeps(s, guest, gate);
    case Enqueue(id) => EnqueueKeeps(s, id);
    case Take(gate) => TakeKeeps(s, gate);
    case MarkProcessing(gate) => RestampKeeps(s, gate, Working(s.workers[gate].guest));
    case MarkProcessed(gate) => RestampKeeps(s, gate, Done(s.workers[gate].guest));
    case Publish(gate) => PublishKeeps(s, gate);
    case Clear(gate) => ClearKeeps(s, gate);
    case Crash(replay) => CrashKeeps(s, replay);
  }

  // ---------------------------------------------------------------- runs

  /** The airport after any sequence of steps, restarts among them. */
  ghost function Run(gates: set<GateId>, steps: seq<Step>): Airport {
    if steps == [] then Start(gates)
    else Apply(Run(gates, steps[..|steps| - 1]), steps[|steps| - 1])
  }

  lemma {:induction false} RunKeepsInv(gates: set<GateId>, steps: seq<Step>)
    ensures Inv(Run(gates, steps))
  {
    if steps != [] {
      RunKeepsInv(gates, steps[..|steps| - 1]);
      var s, step := Run(gates, steps[..|steps| - 1]), steps[|steps| - 1];
      if Enabled(s, step) { StepKeeps(s, step); }
    }
  }

  /** Conservation: in every run, an unprocessed guest is in exactly one place and a processed
      one in none; queues hold nobody twice and nobody else's guests; and each gate has at most
      one row marked processing. */
  lemma {:induction false} NobodyLostOrDuplicated(gates: set<GateId>, steps: seq<Step>)
    ensures var s := Run(gates, steps);
            && (forall id :: id in s.rows ==>
                  AtGate(s, s.rows[id].gate) && Places(s, id) == if s.rows[id].status == Processed then 0 else 1)
            && (forall g :: AtGate(s, g) ==> QueueGood(s.rows, g, s.queues[g]) && WorkerGood(s.rows, g, s.workers[g]))
            && (forall a, b ::
                  (a in s.rows && b in s.rows && s.rows[a].gate == s.rows[b].gate
                   && s.rows[a].status == Processing && s.rows[b].status == Processing) ==> a == b)
  {
    RunKeepsInv(gates, steps);
    var s := Run(gates, steps);
    forall id | id in s.rows ensures RowGood(s, id) {}
    forall g | AtGate(s, g) ensures GateGood(s, g) {}
  }

  /** So once handlers, queues and workers are all empty, every guest has been processed. */
  lemma QuietMeansServed(gates: set<GateId>, steps: seq<Step>)
    requires var s := Run(gates, steps);
             && s.handlers == {} && (forall g :: g in s.queues ==> s.queues[g] == [])
             && (forall g :: g in s.workers ==> s.workers[g].Idle?)
    ensures forall id :: id in Run(gates, steps).rows ==> Run(gates, steps).rows[id].status == Processed
  {
    NobodyLostOrDuplicated(gates, steps);
  }

  /** Events go out at most once per guest, and only for rows already committed as processed. */
  lemma {:induction false} PublishedAtMostOnce(gates: set<GateId>, steps: seq<Step>)
    ensures PublishedGood(Run(gates, steps))
  {
    RunKeepsInv(gates, steps);
  }

  lemma StepKeepsRows(s: Airport, step: Step, id: nat)
    requires Inv(s) && id in s.rows
    ensures id in Apply(s, step).rows
    ensures Apply(s, step).rows[id] == s.rows[id].(status := Apply(s, step).rows[id].status)
    ensures s.rows[id].status == Processed ==> Apply(s, step).rows[id].status == Processed
  {
    assert RowGood(s, id);
    if Enabled(s, step) && (step.MarkProcessing? || step.MarkProcessed?) { assert GateGood(s, step.gate); }
  }

  lemma {:induction false} NextKeepsRows(gates: set<GateId>, steps: seq<Step>, id: nat)
    requires steps != [] && id in Run(gates, steps[..|steps| - 1]).rows
    ensures var row, s := Run(gates, steps[..|steps| - 1]).rows[id], Run(gates, steps);
            && id in s.rows && s.rows[id].guest == row.guest && s.rows[id].gate == row.gate
            && (row.status == Processed ==> s.rows[id].status == Processed)
  {
    RunKeepsInv(gates, steps[..|steps| - 1]);
    StepKeepsRows(Run(gates, steps[..|steps| - 1]), steps[|steps| - 1], id);
  }

  /** Rows are never lost, keep their guest and gate, and `processed` is final, crashes or not. */
  lemma {:induction false} ProcessedIsFinal(gates: set<GateId>, steps: seq<Step>, later: seq<Step>, id: nat)
    requires id in Run(gates, steps).rows
    ensures var row := Run(gates, steps).rows[id];
            var s := Run(gates, steps + later);
            && id in s.rows && s.rows[id].guest == row.guest && s.rows[id].gate == row.gate
            && (row.status == Processed ==> s.rows[id].status == Processed)
  {
    var all := steps + later;
    if later == [] {
      assert all == steps;
    } else {
      assert all[..|all| - 1] == steps + later[..|later| - 1];
      ProcessedIsFinal(gates, steps, later[..|later| - 1], id);
      NextKeepsRows(gates, all, id);
    }
  }

  // ---------------------------------------------------------------- which events go out

  ghost predicate IsProcessed(s: Airport, id: nat) {
    id in s.rows && s.rows[id].status == Processed
  }

  /** A worker has committed row `id` as processed and has not published it yet. */
  ghost predicate AboutToPublish(s: Airport, id: nat) {
    exists g :: AtGate(s, g) && s.workers[g].Done? && s.workers[g].guest.arrivalId == id
  }

  /** A restart of the run found a worker about to publish `id`. */
  ghost predicate CaughtByCrash(gates: set<GateId>, steps: seq<Step>, id: nat) {
    exists k: nat :: k < |steps| && CrashesAt(gates, steps, k) && AboutToPublish(Run(gates, steps[..k]), id)
  }

  ghost predicate CrashesAt(gates: set<GateId>, steps: seq<Step>, k: nat)
    requires k < |steps|
  {
    steps[k].Crash? && Enabled(Run(gates, steps[..k]), steps[k])
  }

  lemma AboutIsProcessed(s: Airport, id: nat)
    requires Inv(s) && AboutToPublish(s, id)
    ensures IsProcessed(s, id) && id !in s.published
  {
    var g :| AtGate(s, g) && s.workers[g].Done? && s.workers[g].guest.arrivalId == id;
    assert GateGood(s, g);
  }

  /** A row is processed by a worker that is then about to publish it. */
  lemma StepProcesses(s: Airport, step: Step, id: nat)
    requires Inv(s) && Enabled(s, step)
    ensures var s' := Apply(s, step);
            && (IsProcessed(s, id) ==> IsProcessed(s', id))
            && (IsProcessed(s', id) && !IsProcessed(s, id) ==> AboutToPublish(s', id) && !step.Crash?)
  {
    var s' := Apply(s, step);
    if id in s.rows { StepKeepsRows(s, step, id); }
    if step.MarkProcessed? {
      assert GateGood(s, step.gate) && AtGate(s', step.gate) && s'.workers[step.gate].Done?;
    }
  }

  /** Unless it crashes, what is about to be published still is, or has been. */
  lemma StepPublishes(s: Airport, step: Step, id: nat)
    requires Inv(s) && Enabled(s, step) && AboutToPublish(s, id) && !step.Crash?
    ensures AboutToPublish(Apply(s, step), id) || id in Apply(s, step).published
  {
    var s' := Apply(s, step);
    var g :| AtGate(s, g) && s.workers[g].Done? && s.workers[g].guest.arrivalId == id;
    assert AtGate(s', g);
    if step.Publish? && step.gate == g {
      assert s'.published[|s.published|] == id;
    } else {
      assert s'.workers[g] == s.workers[g];
    }
  }

  /** A processed row that nobody is about to publish is published now or never. */
  lemma StepForgets(s: Airport, step: Step, id: nat)
    requires Inv(s) && Enabled(s, step) && IsProcessed(s, id) && (!AboutToPublish(s, id) || step.Crash?)
    ensures !AboutToPublish(Apply(s, step), id) && (id in s.published <==> id in Apply(s, step).published)
  {
    var s' := Apply(s, step);
    forall g | AtGate(s', g) && s'.workers[g].Done? ensures s'.workers[g].guest.arrivalId != id {
      assert AtGate(s, g) && GateGood(s, g);
    }
  }

  lemma CaughtSnoc(gates: set<GateId>, steps: seq<Step>, id: nat)
    requires steps != []
    ensures var n := |steps| - 1;
            CaughtByCrash(gates, steps, id) <==>
            || CaughtByCrash(gates, steps[..n], id)
            || (CrashesAt(gates, steps, n) && AboutToPublish(Run(gates, steps[..n]), id))
  {
    var n := |steps| - 1;
    forall k: nat | k < n ensures CrashesAt(gates, steps, k) <==> CrashesAt(gates, steps[..n], k) {
      assert steps[..n][..k] == steps[..k];
    }
    if CaughtByCrash(gates, steps, id) {
      var k: nat :| k < |steps| && CrashesAt(gates, steps, k) && AboutToPublish(Run(gates, steps[..k]), id);
      assert k < n ==> CrashesAt(gates, steps[..n], k) && steps[..n][..k] == steps[..k];
    }
    if CaughtByCrash(gates, steps[..n], id) {
      var k: nat :| k < n && CrashesAt(gates, steps[..n], k) && AboutToPublish(Run(gates, steps[..n][..k]), id);
      assert CrashesAt(gates, steps, k) && steps[..n][..k] == steps[..k];
    }
  }

  lemma StepFate(s: Airport, step: Step, id: nat)
    requires Inv(s) && Enabled(s, step)
    ensures var s' := Apply(s, step);
            && (IsProcessed(s', id) && !IsProcessed(s, id) ==> AboutToPublish(s', id) && !step.Crash?)
            && (AboutToPublish(s, id) && !step.Crash? ==> AboutToPublish(s', id) || id in s'.published)
            && (IsProcessed(s, id) && (!AboutToPublish(s, id) || step.Crash?) ==>
                  IsProcessed(s', id) && !AboutToPublish(s', id) && (id in s.published <==> id in s'.published))
  {
    StepProcesses(s, step, id);
    if AboutToPublish(s, id) && !step.Crash? { StepPublishes(s, step, id); }
    if IsProcessed(s, id) && (!AboutToPublish(s, id) || step.Crash?) { StepForgets(s, step, id); }
  }

  lemma {:induction false} Fates(gates: set<GateId>, steps: seq<Step>, id: nat)
    ensures var s := Run(gates, steps);
            && (CaughtByCrash(gates, steps, id) ==>
                  IsProcessed(s, id) && !AboutToPublish(s, id) && id !in s.published)
            && (IsProcessed(s, id) ==>
                  id in s.published || AboutToPublish(s, id) || CaughtByCrash(gates, steps, id))
  {
    if steps != [] {
      var n := |steps| - 1;
      var s := Run(gates, steps[..n]);
      Fates(gates, steps[..n], id);
      CaughtSnoc(gates, steps, id);
      RunKeepsInv(gates, steps[..n]);
      if AboutToPublish(s, id) { AboutIsProcessed(s, id); }
      if Enabled(s, steps[n]) { StepFate(s, steps[n], id); }
    }
  }

  /** The event of a processed guest is missing exactly while the worker is about to publish it, and for
      good if a restart came at that moment. */
  lemma EventMissingIff(gates: set<GateId>, steps: seq<Step>, id: nat)
    requires IsProcessed(Run(gates, steps), id)
    ensures id !in Run(gates, steps).published <==>
            AboutToPublish(Run(gates, steps), id) || CaughtByCrash(gates, steps, id)
  {
    Fates(gates, steps, id);
    RunKeepsInv(gates, steps);
    if AboutToPublish(Run(gates, steps), id) { AboutIsProcessed(Run(gates, steps), id); }
  }
}
