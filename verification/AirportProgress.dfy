/**
  The airport gets everyone through: every step of a handler or a worker brings it nearer to rest
  (services/airport/gate_manager.py, lines 50-89 and 145-176).
 */
module AirportProgress {
  import opened GateQueues
  import opened AirportModel
  import opened AirportConservation

  /** A step of a handler that has committed or of a worker; the others are arrivals and restarts. */
  predicate Advances(step: Step) {
    !step.Commit? && !step.Crash?
  }

  /** Steps a gate still has to make: five for every waiting guest, and those left for the one in hand. */
  function GateWork(q: seq<Guest>, w: Worker): nat {
    5 * |q| +
    match w
    case Idle => 0
    case Popped(_) => 4
    case Working(_) => 3
    case Done(_) => 2
    case Told(_) => 1
  }

  ghost function AGate(gates: set<GateId>): (g: GateId)
    requires gates != {}
    ensures g in gates
  {
    var g :| g in gates;
    g
  }

  ghost function Work(queues: map<GateId, seq<Guest>>, workers: map<GateId, Worker>, gates: set<GateId>): nat
    requires gates <= queues.Keys && gates <= workers.Keys
  {
    if gates == {} then 0
    else
      var g := AGate(gates);
      GateWork(queues[g], workers[g]) + Work(queues, workers, gates - {g})
  }

  /** The steps left until everyone there is has been served: six for every guest still with a handler. */
  ghost function StepsLeft(s: Airport): nat
    requires s.queues.Keys == s.workers.Keys
  {
    6 * |s.handlers| + Work(s.queues, s.workers, s.queues.Keys)
  }

  lemma {:induction false} WorkChanges(s: Airport, s': Airport, gates: set<GateId>, g: GateId)
    requires gates <= s.queues.Keys * s.workers.Keys && gates <= s'.queues.Keys * s'.workers.Keys
    requires forall h :: h in gates && h != g ==> s.queues[h] == s'.queues[h] && s.workers[h] == s'.workers[h]
    ensures Work(s'.queues, s'.workers, gates) - Work(s.queues, s.workers, gates)
         == if g in gates then GateWork(s'.queues[g], s'.workers[g]) - GateWork(s.queues[g], s.workers[g]) else 0
    decreases |gates|
  {
    if gates != {} { WorkChanges(s, s', gates - {AGate(gates)}, g); }
  }

  lemma EnqueueAdvances(s: Airport, id: nat)
    requires Inv(s) && Enabled(s, Enqueue(id))
    ensures Apply(s, Enqueue(id)).queues.Keys == s.queues.Keys == Apply(s, Enqueue(id)).workers.Keys
    ensures StepsLeft(Apply(s, Enqueue(id))) == StepsLeft(s) - 1
  {
    var s', gate := Apply(s, Enqueue(id)), s.rows[id].gate;
    WorkChanges(s, s', s.queues.Keys, gate);
    InsertElements(s.queues[gate], s.rows[id].guest);
    assert s'.queues.Keys == s.queues.Keys;
    assert |s.handlers - {id}| == |s.handlers| - 1;
  }

  lemma WorkerAdvances(s: Airport, step: Step)
    requires Inv(s) && Enabled(s, step) && Advances(step) && !step.Enqueue?
    ensures Apply(s, step).queues.Keys == s.queues.Keys == Apply(s, step).workers.Keys
    ensures StepsLeft(Apply(s, step)) == StepsLeft(s) - 1
  {
    var s', g := Apply(s, step), step.gate;
    assert s'.queues.Keys == s.queues.Keys && s'.workers.Keys == s.workers.Keys && s'.handlers == s.handlers;
    assert GateWork(s'.queues[g], s'.workers[g]) == GateWork(s.queues[g], s.workers[g]) - 1;
    forall h | h in s.queues && h != g ensures s.queues[h] == s'.queues[h] && s.workers[h] == s'.workers[h] {}
    WorkChanges(s, s', s.queues.Keys, g);
  }

  /** Every step of a handler or a worker takes exactly one off the steps left. */
  lemma StepAdvances(s: Airport, step: Step)
    requires Inv(s) && Enabled(s, step) && Advances(step)
    ensures Apply(s, step).queues.Keys == s.queues.Keys == Apply(s, step).workers.Keys
    ensures StepsLeft(Apply(s, step)) == StepsLeft(s) - 1
  {
    if step.Enqueue? {
      EnqueueAdvances(s, step.id);
    } else {
      WorkerAdvances(s, step);
    }
  }

  lemma {:induction false} NoWorkIff(s: Airport, gates: set<GateId>)
    requires gates <= s.queues.Keys * s.workers.Keys
    ensures Work(s.queues, s.workers, gates) == 0 <==>
            forall g :: g in gates ==> s.queues[g] == [] && s.workers[g].Idle?
    decreases |gates|
  {
    if gates != {} {
      var h := AGate(gates);
      NoWorkIff(s, gates - {h});
      assert forall g :: g in gates <==> g == h || g in gates - {h};
    }
  }

  /** No steps are left exactly when handlers, queues and workers are all empty. */
  ghost predicate Quiet(s: Airport) {
    && s.handlers == {} && (forall g :: g in s.queues ==> s.queues[g] == [])
    && forall g :: g in s.workers ==> s.workers[g].Idle?
  }

  lemma QuietIff(s: Airport)
    requires Inv(s)
    ensures StepsLeft(s) == 0 <==> Quiet(s)
  {
    NoWorkIff(s, s.queues.Keys);
  }

  /** While steps are left, one of them can be made. */
  lemma NeverStuck(s: Airport) returns (step: Step)
    requires Inv(s) && !Quiet(s)
    ensures Enabled(s, step) && Advances(step)
  {
    if s.handlers != {} {
      var id :| id in s.handlers;
      assert RowGood(s, id);
      return Enqueue(id);
    }
    var g :| AtGate(s, g) && (s.queues[g] != [] || !s.workers[g].Idle?);
    match s.workers[g]
    case Idle => return Take(g);
    case Popped(_) => return MarkProcessing(g);
    case Working(_) => return MarkProcessed(g);
    case Done(_) => return Publish(g);
    case Told(_) => return Clear(g);
  }

  /** `more` are possible steps of handlers and workers after `steps`, without arrivals or restarts. */
  ghost predicate Continues(gates: set<GateId>, steps: seq<Step>, more: seq<Step>) {
    forall k: nat :: k < |more| ==> Advances(more[k]) && Enabled(Run(gates, steps + more[..k]), more[k])
  }

  lemma {:induction false} LastOfMore(gates: set<GateId>, steps: seq<Step>, more: seq<Step>)
    requires Continues(gates, steps, more) && more != []
    ensures var n := |more| - 1;
            && Continues(gates, steps, more[..n])
            && Advances(more[n]) && Enabled(Run(gates, steps + more[..n]), more[n])
            && Run(gates, steps + more) == Apply(Run(gates, steps + more[..n]), more[n])
  {
    var n := |more| - 1;
    forall k: nat | k < n ensures Advances(more[..n][k]) && Enabled(Run(gates, steps + more[..n][..k]), more[..n][k]) {
      assert more[..n][..k] == more[..k] && more[..n][k] == more[k];
    }
    assert (steps + more)[..|steps + more| - 1] == steps + more[..n];
  }

  lemma {:induction false} CountsDown(gates: set<GateId>, steps: seq<Step>, more: seq<Step>)
    requires Continues(gates, steps, more)
    ensures Inv(Run(gates, steps)) && Inv(Run(gates, steps + more))
    ensures StepsLeft(Run(gates, steps + more)) + |more| == StepsLeft(Run(gates, steps))
  {
    RunKeepsInv(gates, steps);
    RunKeepsInv(gates, steps + more);
    if more == [] {
      assert steps + more == steps;
    } else {
      LastOfMore(gates, steps, more);
      CountsDown(gates, steps, more[..|more| - 1]);
      StepAdvances(Run(gates, steps + more[..|more| - 1]), more[|more| - 1]);
    }
  }

  /** Once arrivals and restarts stop, handlers and workers make exactly `StepsLeft` more steps, in
      whatever order, and then every guest has been processed. */
  lemma EveryoneIsServed(gates: set<GateId>, steps: seq<Step>, more: seq<Step>)
    requires Continues(gates, steps, more)
    ensures Inv(Run(gates, steps)) && |more| <= StepsLeft(Run(gates, steps))
    ensures var s := Run(gates, steps + more);
            |more| == StepsLeft(Run(gates, steps)) ==>
              Quiet(s) && forall id :: id in s.rows ==> IsProcessed(s, id)
  {
    CountsDown(gates, steps, more);
    QuietIff(Run(gates, steps + more));
    if Quiet(Run(gates, steps + more)) { QuietMeansServed(gates, steps + more); }
  }

  /** And they can: every run has such a continuation. */
  lemma {:induction false} EveryRunDrains(gates: set<GateId>, steps: seq<Step>) returns (more: seq<Step>)
    ensures Continues(gates, steps, more) && Inv(Run(gates, steps)) && |more| == StepsLeft(Run(gates, steps))
  {
    more := [];
    CountsDown(gates, steps, more);
    while StepsLeft(Run(gates, steps + more)) > 0
      invariant Continues(gates, steps, more) && Inv(Run(gates, steps)) && Inv(Run(gates, steps + more))
      invariant StepsLeft(Run(gates, steps + more)) + |more| == StepsLeft(Run(gates, steps))
      decreases StepsLeft(Run(gates, steps)) - |more|
    {
      QuietIff(Run(gates, steps + more));
      var step := NeverStuck(Run(gates, steps + more));
      ContinuesLonger(gates, steps, more, step);
      more := more + [step];
      CountsDown(gates, steps, more);
    }
  }

  lemma ContinuesLonger(gates: set<GateId>, steps: seq<Step>, more: seq<Step>, step: Step)
    requires Continues(gates, steps, more) && Advances(step) && Enabled(Run(gates, steps + more), step)
    ensures Continues(gates, steps, more + [step])
  {
    var all := more + [step];
    forall k: nat | k < |all| ensures Advances(all[k]) && Enabled(Run(gates, steps + all[..k]), all[k]) {
      if k < |more| { assert all[..k] == more[..k] && all[k] == more[k]; } else { assert all[..k] == more; }
    }
  }

  /** In a run without restarts that has come to rest, every guest's event has gone out, once. */
  lemma {:induction false} EveryoneIsAnnounced(gates: set<GateId>, steps: seq<Step>)
    requires (forall k :: 0 <= k < |steps| ==> !steps[k].Crash?) && Quiet(Run(gates, steps))
    ensures var s := Run(gates, steps);
            && (forall id :: id in s.rows <==> id in s.published)
            && forall i, j :: 0 <= i < j < |s.published| ==> s.published[i] != s.published[j]
  {
    var s := Run(gates, steps);
    QuietMeansServed(gates, steps);
    PublishedAtMostOnce(gates, steps);
    forall id | id in s.rows ensures id in s.published {
      EventMissingIff(gates, steps, id);
    }
  }
}
