/**
  Positions and waiting times at one gate while the service does not crash
  (services/airport/gate_manager.py, lines 36-89 and 145-184).
 */
module GateWaiting {
  import opened Wrappers
  import opened GateQueues

  /** The gate with its clock; `started` is when the guest in hand was taken. */
  datatype Line = Line(queue: seq<Guest>, hand: Option<Guest>, started: real, now: real)

  datatype Event = Arrive(guest: Guest, at: real) | Take(at: real) | Finish(at: real)

  /** The worker takes one guest at a time and keeps them at least `pace` of game time. */
  predicate Enabled(l: Line, e: Event, pace: real) {
    && e.at >= l.now
    && match e
       case Arrive(_, _) => true
       case Take(_) => l.hand.None? && l.queue != []
       case Finish(at) => l.hand.Some? && at >= l.started + pace
  }

  function Apply(l: Line, e: Event): Line {
    match e
    case Arrive(g, at) => l.(queue := Insert(l.queue, g), now := at)
    case Take(at) =>
      if l.queue == [] then l
      else Line(l.queue[1..], Some(l.queue[0]), at, at)
    case Finish(at) => l.(hand := None, now := at)
  }

  function After(l: Line, es: seq<Event>): Line {
    if es == [] then l else Apply(After(l, es[..|es| - 1]), es[|es| - 1])
  }

  ghost predicate Feasible(l: Line, es: seq<Event>, pace: real) {
    es == [] ||
    (Feasible(l, es[..|es| - 1], pace) && Enabled(After(l, es[..|es| - 1]), es[|es| - 1], pace))
  }

  // ---------------------------------------------------------------- following one guest

  datatype Place = Waiting(index: nat) | InHand | Served(at: real)

  /** Where the guest who stood at index `i` is after one event. */
  function Moved(l: Line, p: Place, e: Event): Place {
    match e
    case Arrive(g, _) =>
      if p.Waiting? && InsertIndex(l.queue, EffectiveRank(g)) <= p.index then Waiting(p.index + 1) else p
    case Take(_) =>
      if p.Waiting? then if p.index == 0 then InHand else Waiting(p.index - 1) else p
    case Finish(at) => if p.InHand? then Served(at) else p
  }

  function Follow(l: Line, i: nat, es: seq<Event>): Place {
    if es == [] then Waiting(i)
    else Moved(After(l, es[..|es| - 1]), Follow(l, i, es[..|es| - 1]), es[|es| - 1])
  }

  /** How many guests the worker took. */
  function Takes(es: seq<Event>): nat {
    if es == [] then 0 else Takes(es[..|es| - 1]) + if es[|es| - 1].Take? then 1 else 0
  }

  /** How many guests of an earlier class than `x` arrived. */
  function EarlierArrivals(es: seq<Event>, x: Guest): nat {
    if es == [] then 0
    else
      EarlierArrivals(es[..|es| - 1], x) +
      if es[|es| - 1].Arrive? && EarlierClass(es[|es| - 1].guest, x) then 1 else 0
  }

  /** A queue in class order stays so; this is all the position law needs of the past. */
  lemma {:induction false} ClassesStay(l: Line, es: seq<Event>)
    requires InClassOrder(l.queue)
    ensures InClassOrder(After(l, es).queue)
  {
    if es != [] {
      ClassesStay(l, es[..|es| - 1]);
      if es[|es| - 1].Arrive? { InsertPasses(After(l, es[..|es| - 1]).queue, es[|es| - 1].guest); }
    }
  }

  /** The guest `x` is where `p` says. */
  ghost predicate Stands(l: Line, p: Place, x: Guest) {
    && (p.Waiting? ==> p.index < |l.queue| && l.queue[p.index] == x)
    && (p.InHand? ==> l.hand == Some(x))
  }

  lemma MoveStands(l: Line, p: Place, x: Guest, e: Event, pace: real)
    requires Stands(l, p, x) && Enabled(l, e, pace)
    ensures Stands(Apply(l, e), Moved(l, p, e), x)
  {
  }

  lemma {:induction false} FollowStands(l: Line, i: nat, es: seq<Event>, pace: real)
    requires i < |l.queue| && Feasible(l, es, pace)
    ensures Stands(After(l, es), Follow(l, i, es), l.queue[i])
  {
    if es != [] {
      var before := es[..|es| - 1];
      FollowStands(l, i, before, pace);
      MoveStands(After(l, before), Follow(l, i, before), l.queue[i], es[|es| - 1], pace);
    }
  }

  /** The position law: while a guest waits, their index is the one they started from, less one
      per guest taken, plus one per later arrival of an earlier class. */
  lemma {:induction false} PositionLaw(l: Line, i: nat, es: seq<Event>, pace: real)
    requires i < |l.queue| && InClassOrder(l.queue) && Feasible(l, es, pace)
    ensures Stands(After(l, es), Follow(l, i, es), l.queue[i])
    ensures Follow(l, i, es).Waiting? ==>
              Follow(l, i, es).index + Takes(es) == i + EarlierArrivals(es, l.queue[i])
  {
    FollowStands(l, i, es, pace);
    if es != [] {
      var before, e := es[..|es| - 1], es[|es| - 1];
      PositionLaw(l, i, before, pace);
      ClassesStay(l, before);
      if e.Arrive? { InsertPasses(After(l, before).queue, e.guest); }
    }
  }

  /** Nobody ever passes a guest with a disability: they only move forward, one place for each
      guest taken. */
  lemma DisabilityIsNeverOvertaken(l: Line, i: nat, es: seq<Event>, pace: real)
    requires i < |l.queue| && InClassOrder(l.queue) && Feasible(l, es, pace)
    requires l.queue[i].disability && Follow(l, i, es).Waiting?
    ensures Follow(l, i, es).index == i - Takes(es)
  {
    PositionLaw(l, i, es, pace);
    NobodyEarlier(es, l.queue[i]);
  }

  lemma {:induction false} NobodyEarlier(es: seq<Event>, x: Guest)
    requires x.disability
    ensures EarlierArrivals(es, x) == 0
  {
    if es != [] { NobodyEarlier(es[..|es| - 1], x); }
  }

  // ---------------------------------------------------------------- the wait

  function Times(n: nat, pace: real): real {
    n as real * pace
  }

  lemma TimesStep(n: nat, pace: real)
    ensures Times(n + 1, pace) == Times(n, pace) + pace
  {
  }

  /** The earliest moment at which the worker can be free. */
  function Free(l: Line, pace: real): real {
    if l.hand.Some? && l.started + pace > l.now then l.started + pace else l.now
  }

  /** No event can serve the followed guest before `due`. */
  ghost predicate NotBefore(l: Line, p: Place, due: real, pace: real) {
    match p
    case Waiting(i) => due <= Free(l, pace) + Times(i + 1, pace)
    case InHand => l.hand.Some? && due <= l.started + pace
    case Served(at) => due <= at
  }

  lemma MoveKeepsDue(l: Line, p: Place, e: Event, pace: real, due: real)
    requires pace >= 0.0 && Enabled(l, e, pace) && NotBefore(l, p, due, pace)
    ensures NotBefore(Apply(l, e), Moved(l, p, e), due, pace)
  {
    if p.Waiting? {
      TimesStep(p.index, pace);
      TimesStep(p.index + 1, pace);
      assert Times(0, pace) == 0.0;
    }
  }

  lemma {:induction false} DueIsKept(l: Line, i: nat, es: seq<Event>, pace: real, due: real)
    requires pace >= 0.0 && i < |l.queue| && Feasible(l, es, pace)
    requires due <= Free(l, pace) + Times(i + 1, pace)
    ensures NotBefore(After(l, es), Follow(l, i, es), due, pace)
  {
    if es != [] {
      var before := es[..|es| - 1];
      DueIsKept(l, i, before, pace, due);
      MoveKeepsDue(After(l, before), Follow(l, i, before), es[|es| - 1], pace, due);
    }
  }

  /** A guest told position `n` on arrival waits at least `n` processing times: whoever joins
      the queue at index `n - 1` is not served before `n` of them have passed, so neither is
      the recorded `processed_at - queued_at` smaller. */
  lemma WaitBound(l: Line, guest: Guest, es: seq<Event>, pace: real)
    requires pace >= 0.0
    requires guest.queuedAt <= l.now
    requires var joined := Apply(l, Arrive(guest, l.now));
             var i := InsertIndex(l.queue, EffectiveRank(guest));
             Feasible(joined, es, pace) && Follow(joined, i, es).Served?
    ensures var joined := Apply(l, Arrive(guest, l.now));
            var i := InsertIndex(l.queue, EffectiveRank(guest));
            Follow(joined, i, es).at - guest.queuedAt >= Times(i + 1, pace)
  {
    var joined := Apply(l, Arrive(guest, l.now));
    var i := InsertIndex(l.queue, EffectiveRank(guest));
    DueIsKept(joined, i, es, pace, l.now + Times(i + 1, pace));
  }
}
