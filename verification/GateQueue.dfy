/**
  One passport-control gate of the airport service (services/airport/gate_manager.py):
  priority insertion, the rebuilding of the queues from the database after a restart,
  and the classes that do both in place.
 */
module GateQueues {
  import opened Wrappers

  type GateId = string

  datatype Guest = Guest(arrivalId: nat, guestId: string, disability: bool, priority: string, queuedAt: real)

  datatype Status = Queued | Processing | Processed

  datatype Row = Row(guest: Guest, gate: GateId, status: Status)

  /** Disability first, then fast track, then everyone else. */
  function EffectiveRank(g: Guest): (r: nat)
    ensures r <= 2
  {
    if g.disability then 0
    else if g.priority == "fast" then 1
    else 2
  }

  /** Guests with a disability come first, then those with fast-track priority, then all others:
      `a` is of an earlier class than `b`. */
  predicate EarlierClass(a: Guest, b: Guest) {
    if a.disability then !b.disability
    else a.priority == "fast" && !b.disability && b.priority != "fast"
  }

  ghost predicate InClassOrder(q: seq<Guest>) {
    forall i, j :: 0 <= i < j < |q| ==> !EarlierClass(q[j], q[i])
  }

  lemma RankIsClass(a: Guest, b: Guest)
    ensures EffectiveRank(a) < EffectiveRank(b) <==> EarlierClass(a, b)
  {
  }

  /** The index of the first guest of strictly worse rank, or the end of the queue. */
  function InsertIndex(q: seq<Guest>, rank: nat): (i: nat)
    ensures i <= |q|
    ensures forall j :: 0 <= j < i ==> EffectiveRank(q[j]) <= rank
    ensures i < |q| ==> EffectiveRank(q[i]) > rank
  {
    if q == [] || EffectiveRank(q[0]) > rank then 0 else 1 + InsertIndex(q[1..], rank)
  }

  function Insert(q: seq<Guest>, g: Guest): seq<Guest> {
    var i := InsertIndex(q, EffectiveRank(g));
    q[..i] + [g] + q[i..]
  }

  lemma InsertElements(q: seq<Guest>, g: Guest)
    ensures var i, r := InsertIndex(q, EffectiveRank(g)), Insert(q, g);
            && |r| == |q| + 1 && r[i] == g
            && (forall j :: 0 <= j < i ==> r[j] == q[j])
            && forall j :: i < j < |r| ==> r[j] == q[j - 1]
  {
  }

  /** In a queue in class order a newcomer at place `i` stands where `Insert` puts it: behind everyone but
      the guests of a later class, all of whom it passes. */
  ghost predicate PassesLaterClasses(q: seq<Guest>, g: Guest, i: nat) {
    && i <= |q|
    && forall j :: 0 <= j < |q| ==> (i <= j <==> EarlierClass(g, q[j]))
  }

  lemma InsertPasses(q: seq<Guest>, g: Guest)
    requires InClassOrder(q)
    ensures PassesLaterClasses(q, g, InsertIndex(q, EffectiveRank(g))) && InClassOrder(Insert(q, g))
  {
    var i := InsertIndex(q, EffectiveRank(g));
    forall j | 0 <= j < |q| ensures i <= j <==> EarlierClass(g, q[j]) {
      RankIsClass(g, q[j]);
      if i < j {
        assert !EarlierClass(q[j], q[i]);
        RankIsClass(q[j], q[i]);
      }
    }
    InsertElements(q, g);
    var r := Insert(q, g);
    forall j, k | 0 <= j < k < |r| ensures !EarlierClass(r[k], r[j]) {
      if j != i && k != i { assert !EarlierClass(q[if k < i then k else k - 1], q[if j < i then j else j - 1]); }
    }
  }

  /** The queue of gate `gate` rebuilt from unprocessed rows, oldest first: an interrupted
      guest goes to the front, everyone else is inserted by rank. */
  function Rebuild(rows: seq<Row>, gate: GateId): seq<Guest> {
    if rows == [] then []
    else
      var q, row := Rebuild(rows[..|rows| - 1], gate), rows[|rows| - 1];
      if row.gate != gate then q
      else if row.status == Processing then [row.guest] + q
      else Insert(q, row.guest)
  }

  /** One row replayed into the queue of a gate. */
  function Replayed(q: seq<Guest>, row: Row, gate: GateId): seq<Guest> {
    if row.gate != gate then q
    else if row.status == Processing then [row.guest] + q
    else Insert(q, row.guest)
  }

  lemma RebuildStep(rows: seq<Row>, i: nat, gate: GateId)
    requires i < |rows|
    ensures Rebuild(rows[..i + 1], gate) == Replayed(Rebuild(rows[..i], gate), rows[i], gate)
  {
    assert rows[..i + 1][..i] == rows[..i];
  }

  function Requeued(row: Row): Row {
    if row.status == Processing then row.(status := Queued) else row
  }

  datatype GateType = Eu | All

  class Gate {
    const gateId: GateId
    const gateType: GateType
    var queue: seq<Guest>
    var currentlyProcessing: Option<Guest>

    constructor (gateId: GateId, gateType: GateType)
      ensures this.gateId == gateId && this.gateType == gateType && queue == [] && currentlyProcessing == None
    {
      this.gateId, this.gateType := gateId, gateType;
      queue := [];
      currentlyProcessing := None;
    }

    /** Stable priority insertion; answers the 1-based position. */
    method Enqueue(guest: Guest) returns (position: nat)
      modifies this`queue
      ensures queue == Insert(old(queue), guest)
      ensures position == InsertIndex(old(queue), EffectiveRank(guest)) + 1
      ensures 1 <= position <= |old(queue)| + 1
      ensures queue == old(queue)[..position - 1] + [guest] + old(queue)[position - 1..]
      ensures old(InClassOrder(queue)) ==>
                InClassOrder(queue) && PassesLaterClasses(old(queue), guest, position - 1)
    {
      ghost var before := queue;
      var rank := EffectiveRank(guest);
      var insertAt := |queue|;
      var i := 0;
      while i < |queue|
        invariant i <= |queue| == insertAt
        invariant forall j :: 0 <= j < i ==> EffectiveRank(queue[j]) <= rank
      {
        if EffectiveRank(queue[i]) > rank {
          insertAt := i;
          break;
        }
        i := i + 1;
      }
      FirstWorse(queue, rank, insertAt);
      queue := queue[..insertAt] + [guest] + queue[insertAt..];
      position := insertAt + 1;
      if InClassOrder(before) { InsertPasses(before, guest); }
    }

    /** The step a worker takes under the lock: the head of the queue goes into its hands. */
    method TakeNext() returns (guest: Option<Guest>)
      modifies this
      ensures old(queue) == [] ==>
                guest == None && queue == [] && currentlyProcessing == old(currentlyProcessing)
      ensures old(queue) != [] ==>
                guest == Some(old(queue)[0]) && queue == old(queue)[1..] && currentlyProcessing == guest
    {
      if queue == [] { return None; }
      guest := Some(queue[0]);
      queue := queue[1..];
      currentlyProcessing := guest;
    }

    /** 0 for the guest being processed, else the 1-based place of the first match. */
    method GuestPosition(guestId: string) returns (position: Option<nat>)
      ensures currentlyProcessing.Some? && currentlyProcessing.value.guestId == guestId ==> position == Some(0)
      ensures position.Some? && position.value > 0 ==>
                && position.value <= |queue| && queue[position.value - 1].guestId == guestId
                && forall j :: 0 <= j < position.value - 1 ==> queue[j].guestId != guestId
      ensures position.None? ==> forall j :: 0 <= j < |queue| ==> queue[j].guestId != guestId
      ensures position == Some(0) ==> currentlyProcessing.Some? && currentlyProcessing.value.guestId == guestId
    {
      if currentlyProcessing.Some? && currentlyProcessing.value.guestId == guestId { return Some(0); }
      for i := 0 to |queue|
        invariant forall j :: 0 <= j < i ==> queue[j].guestId != guestId
      {
        if queue[i].guestId == guestId { return Some(i + 1); }
      }
      return None;
    }
  }

  lemma {:induction false} FirstWorse(q: seq<Guest>, rank: nat, i: nat)
    requires i <= |q| && (forall j :: 0 <= j < i ==> EffectiveRank(q[j]) <= rank)
    requires i < |q| ==> EffectiveRank(q[i]) > rank
    ensures InsertIndex(q, rank) == i
  {
    if i > 0 { FirstWorse(q[1..], rank, i - 1); }
  }

  /** What an arrival commits and is answered; the gate and the stamp are those of the row. */
  datatype Placement = Placement(row: Row, position: nat, queueSize: nat)

  class GateManager {
    const gates: map<GateId, Gate>
    /** The ids in the order in which the gates were created. */
    const ids: seq<GateId>

    ghost predicate Valid() {
      && (forall a, b :: a in gates && b in gates && a != b ==> gates[a] != gates[b])
      && forall g :: g in gates <==> g in ids
    }

    constructor (gates: map<GateId, Gate>, ids: seq<GateId>)
      requires forall a, b :: a in gates && b in gates && a != b ==> gates[a] != gates[b]
      requires forall g :: g in gates <==> g in ids
      ensures Valid() && this.gates == gates && this.ids == ids
    {
      this.gates, this.ids := gates, ids;
    }

    /** No gate of its type that was created before it has a queue as short. */
    ghost predicate FirstShortest(gate: GateId)
      requires Valid() && gate in gates
      reads gates.Values
    {
      exists n :: 0 <= n < |ids| && ids[n] == gate &&
                  forall j :: 0 <= j < n && gates[ids[j]].gateType == gates[gate].gateType ==>
                    |gates[ids[j]].queue| > |gates[gate].queue|
    }

    /** The first gate of the type, in creation order, with the shortest queue; none of the type
        is an error in the caller. */
    method ShortestQueueGate(gateType: GateType) returns (best: Option<GateId>)
      requires Valid()
      ensures best.None? <==> forall g :: g in gates ==> gates[g].gateType != gateType
      ensures best.Some? ==> best.value in gates && gates[best.value].gateType == gateType
      ensures best.Some? ==> forall g :: g in gates && gates[g].gateType == gateType ==>
                               |gates[best.value].queue| <= |gates[g].queue|
      ensures best.Some? ==> FirstShortest(best.value)
    {
      best := None;
      ghost var n := 0;
      for i := 0 to |ids|
        invariant best.None? ==> forall j :: 0 <= j < i ==> gates[ids[j]].gateType != gateType
        invariant best.Some? ==> n < i && ids[n] == best.value && gates[best.value].gateType == gateType
        invariant best.Some? ==> forall j :: 0 <= j < i && gates[ids[j]].gateType == gateType ==>
                    |gates[best.value].queue| <= |gates[ids[j]].queue|
        invariant best.Some? ==> forall j :: 0 <= j < n && gates[ids[j]].gateType == gateType ==>
                    |gates[ids[j]].queue| > |gates[best.value].queue|
      {
        var gate := gates[ids[i]];
        if gate.gateType == gateType && (best.None? || |gate.queue| < |gates[best.value].queue|) {
          best, n := Some(ids[i]), i;
        }
      }
    }

    /** The gate for an arriving guest: with an EU passport a shortest queue of all gates, an EU gate
        on a tie, and else a shortest queue of the gates for all passports. Nothing is answered when a
        needed type has no gate. */
    method ChooseGate(eu: bool) returns (gate: Option<GateId>)
      requires Valid()
      ensures gate.Some? ==> gate.value in gates && (eu || gates[gate.value].gateType == All)
      ensures gate.Some? ==> forall g :: g in gates && (eu || gates[g].gateType == All) ==>
                               |gates[gate.value].queue| <= |gates[g].queue|
      ensures gate.Some? && eu && gates[gate.value].gateType == All ==>
                forall g :: g in gates && gates[g].gateType == Eu ==> |gates[gate.value].queue| < |gates[g].queue|
      ensures gate.Some? ==> FirstShortest(gate.value)
      ensures gate.Some? <==>
                && (exists g :: g in gates && gates[g].gateType == All)
                && (eu ==> exists g :: g in gates && gates[g].gateType == Eu)
    {
      var allGate := ShortestQueueGate(All);
      if !eu || allGate.None? { return allGate; }
      var euGate := ShortestQueueGate(Eu);
      if euGate.None? { return None; }
      if |gates[allGate.value].queue| < |gates[euGate.value].queue| { return allGate; }
      return euGate;
    }

    /** `assign_and_enqueue` as one step: the guest is stamped and sent to the chosen gate, a queued row
        is committed, and the guest joins that gate's queue; no other queue changes. */
    method AssignAndEnqueue(guest: Guest, eu: bool, now: real, arrivalId: nat) returns (answer: Option<Placement>)
      requires Valid()
      modifies gates.Values
      ensures answer.Some? <==>
                && (exists g :: g in gates && gates[g].gateType == All)
                && (eu ==> exists g :: g in gates && gates[g].gateType == Eu)
      ensures answer.None? ==> forall g :: g in gates ==> gates[g].queue == old(gates[g].queue)
      ensures answer.Some? ==>
                var gate := answer.value.row.gate;
                && gate in gates && (eu || gates[gate].gateType == All) && old(FirstShortest(gate))
                && (forall g :: g in gates && (eu || gates[g].gateType == All) ==>
                      |old(gates[gate].queue)| <= |old(gates[g].queue)|)
                && (eu && gates[gate].gateType == All ==>
                      forall g :: g in gates && gates[g].gateType == Eu ==>
                        |old(gates[gate].queue)| < |old(gates[g].queue)|)
      ensures answer.Some? ==>
                var stamped := guest.(queuedAt := now, arrivalId := arrivalId);
                var gate := answer.value.row.gate;
                && answer.value.row == Row(stamped, gate, Queued)
                && (forall g :: g in gates ==>
                      gates[g].queue == if g == gate then Insert(old(gates[g].queue), stamped) else old(gates[g].queue))
                && answer.value.position == InsertIndex(old(gates[gate].queue), EffectiveRank(guest)) + 1
                && (old(InClassOrder(gates[gate].queue)) ==>
                      InClassOrder(gates[gate].queue)
                      && PassesLaterClasses(old(gates[gate].queue), guest, answer.value.position - 1))
                && answer.value.queueSize == |old(gates[gate].queue)| + 1
    {
      var chosen := ChooseGate(eu);
      if chosen.None? { return None; }
      var stamped := guest.(queuedAt := now, arrivalId := arrivalId);
      var gate := gates[chosen.value];
      assert gate in gates.Values;
      var position := gate.Enqueue(stamped);
      return Some(Placement(Row(stamped, chosen.value, Queued), position, |gate.queue|));
    }

    /** One row of the replay; a gate that no longer exists is skipped. */
    method ReplayRow(row: Row) returns (after: Row)
      requires Valid()
      modifies gates.Values
      ensures forall g :: g in gates ==> gates[g].queue == Replayed(old(gates[g].queue), row, g)
      ensures after == if row.gate in gates then Requeued(row) else row
    {
      if row.gate !in gates { return row; }
      var gate := gates[row.gate];
      assert gate in gates.Values;
      if row.status == Processing {
        gate.queue := [row.guest] + gate.queue;
      } else {
        var _ := gate.Enqueue(row.guest);
      }
      return Requeued(row);
    }

    /** Replays the unprocessed rows, oldest first, and puts interrupted rows back to queued.
        Rows of a gate that no longer exists keep their status. */
    method Rehydrate(rows: seq<Row>) returns (after: seq<Row>)
      requires Valid()
      requires forall g :: g in gates ==> gates[g].queue == []
      modifies gates.Values
      ensures forall g :: g in gates ==> gates[g].queue == Rebuild(rows, g)
      ensures |after| == |rows|
      ensures forall i :: 0 <= i < |rows| ==>
                after[i] == rows[i].(status :=
                  if rows[i].gate in gates && rows[i].status == Processing then Queued else rows[i].status)
    {
      after := [];
      for i := 0 to |rows|
        invariant forall g :: g in gates ==> gates[g].queue == Rebuild(rows[..i], g)
        invariant |after| == i
        invariant forall j :: 0 <= j < i ==>
                    after[j] == if rows[j].gate in gates then Requeued(rows[j]) else rows[j]
      {
        forall g ensures Rebuild(rows[..i + 1], g) == Replayed(Rebuild(rows[..i], g), rows[i], g) {
          RebuildStep(rows, i, g);
        }
        var row := ReplayRow(rows[i]);
        after := after + [row];
      }
      assert rows[..|rows|] == rows;
    }
  }
}
