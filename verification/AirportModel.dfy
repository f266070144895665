/**
  The airport as interleaved steps of arrival handlers, gate workers and restarts
  (services/airport/gate_manager.py, lines 50-89, 113-131 and 145-176), and its invariant.
 */
module AirportModel {
  import opened GateQueues

  /** Where a worker stands in its loop. `Popped` has not marked the row yet; `Done` has
      committed the processed row but not published; `Told` has published but not cleared. */
  datatype Worker = Idle | Popped(guest: Guest) | Working(guest: Guest) | Done(guest: Guest) | Told(guest: Guest)

  /** The database (`rows`, `published` are what outlives a crash) and the memory. */
  datatype Airport = Airport(
    rows: map<nat, Row>,
    handlers: set<nat>,
    queues: map<GateId, seq<Guest>>,
    workers: map<GateId, Worker>,
    published: seq<nat>)

  datatype Step =
    | Commit(guest: Guest, gate: GateId)
    | Enqueue(id: nat)
    | Take(gate: GateId)
    | MarkProcessing(gate: GateId)
    | MarkProcessed(gate: GateId)
    | Publish(gate: GateId)
    | Clear(gate: GateId)
    | Crash(replay: seq<nat>)

  function Start(gates: set<GateId>): Airport {
    Airport(map[], {}, map g | g in gates :: [], map g | g in gates :: Idle, [])
  }

  predicate AtGate(s: Airport, gate: GateId) {
    gate in s.queues && gate in s.workers
  }

  /** The ids a restart replays: every unprocessed row once, by stamp. */
  ghost predicate ReplayOf(s: Airport, replay: seq<nat>) {
    && (forall i :: 0 <= i < |replay| ==> replay[i] in s.rows && s.rows[replay[i]].status != Processed)
    && (forall id :: id in s.rows && s.rows[id].status != Processed ==> id in replay)
    && (forall i, j :: 0 <= i < j < |replay| ==> replay[i] != replay[j])
    && (forall i, j :: 0 <= i < j < |replay| ==>
          s.rows[replay[i]].guest.queuedAt <= s.rows[replay[j]].guest.queuedAt)
  }

  ghost predicate Enabled(s: Airport, step: Step) {
    match step
    case Commit(guest, gate) => AtGate(s, gate) && guest.arrivalId !in s.rows
    case Enqueue(id) => id in s.handlers && id in s.rows && AtGate(s, s.rows[id].gate)
    case Take(gate) => AtGate(s, gate) && s.workers[gate].Idle? && s.queues[gate] != []
    case MarkProcessing(gate) => AtGate(s, gate) && s.workers[gate].Popped?
    case MarkProcessed(gate) => AtGate(s, gate) && s.workers[gate].Working?
    case Publish(gate) => AtGate(s, gate) && s.workers[gate].Done?
    case Clear(gate) => AtGate(s, gate) && s.workers[gate].Told?
    case Crash(replay) => ReplayOf(s, replay)
  }

  function Stamp(rows: map<nat, Row>, id: nat, status: Status): map<nat, Row> {
    if id in rows then rows[id := rows[id].(status := status)] else rows
  }

  function RowsOf(rows: map<nat, Row>, replay: seq<nat>): (r: seq<Row>)
    requires forall i :: 0 <= i < |replay| ==> replay[i] in rows
    ensures |r| == |replay| && forall i :: 0 <= i < |r| ==> r[i] == rows[replay[i]]
  {
    seq(|replay|, i requires 0 <= i < |replay| => rows[replay[i]])
  }

  /** The handler of row `id` puts its guest into the queue of the row's gate. */
  function Enqueued(s: Airport, id: nat): Airport
    requires id in s.rows && s.rows[id].gate in s.queues
  {
    var row := s.rows[id];
    s.(handlers := s.handlers - {id}, queues := s.queues[row.gate := Insert(s.queues[row.gate], row.guest)])
  }

  /** One step; a step that is not possible changes nothing. */
  ghost function Apply(s: Airport, step: Step): Airport {
    if !Enabled(s, step) then s else
    match step
    case Commit(guest, gate) =>
      s.(rows := s.rows[guest.arrivalId := Row(guest, gate, Queued)], handlers := s.handlers + {guest.arrivalId})
    case Enqueue(id) => Enqueued(s, id)
    case Take(gate) =>
      var q := s.queues[gate];
      s.(queues := s.queues[gate := q[1..]], workers := s.workers[gate := Popped(q[0])])
    case MarkProcessing(gate) =>
      var guest := s.workers[gate].guest;
      s.(rows := Stamp(s.rows, guest.arrivalId, Processing), workers := s.workers[gate := Working(guest)])
    case MarkProcessed(gate) =>
      var guest := s.workers[gate].guest;
      s.(rows := Stamp(s.rows, guest.arrivalId, Processed), workers := s.workers[gate := Done(guest)])
    case Publish(gate) =>
      var guest := s.workers[gate].guest;
      s.(published := s.published + [guest.arrivalId], workers := s.workers[gate := Told(guest)])
    case Clear(gate) => s.(workers := s.workers[gate := Idle])
    case Crash(replay) =>
      var replayed := RowsOf(s.rows, replay);
      Airport(map id | id in s.rows :: Requeued(s.rows[id]), {},
              map g | g in s.queues :: Rebuild(replayed, g), map g | g in s.workers :: Idle, s.published)
  }

  // ---------------------------------------------------------------- the invariant

  ghost predicate DistinctIds(q: seq<Guest>) {
    forall i, j :: 0 <= i < j < |q| ==> q[i].arrivalId != q[j].arrivalId
  }

  /** The queue of `gate` holds queued rows of that gate, each once. */
  ghost predicate QueueGood(rows: map<nat, Row>, gate: GateId, q: seq<Guest>) {
    DistinctIds(q) &&
    forall i :: 0 <= i < |q| ==> q[i].arrivalId in rows && rows[q[i].arrivalId] == Row(q[i], gate, Queued)
  }

  function StatusOf(w: Worker): Status
    requires !w.Idle?
  {
    if w.Popped? then Queued else if w.Working? then Processing else Processed
  }

  ghost predicate WorkerGood(rows: map<nat, Row>, gate: GateId, w: Worker) {
    !w.Idle? ==> w.guest.arrivalId in rows && rows[w.guest.arrivalId] == Row(w.guest, gate, StatusOf(w))
  }

  function Ids(q: seq<Guest>): set<nat> {
    set i | 0 <= i < |q| :: q[i].arrivalId
  }

  function HeldIds(w: Worker): set<nat> {
    if w.Popped? || w.Working? then {w.guest.arrivalId} else {}
  }

  /** In how many of the three kinds of places a guest is: with the handler that committed the
      row, in the queue of the row's gate, or in the hands of that gate's worker. A queue holds
      an id at most once (`QueueGood`), and no queue or worker of another gate holds it. */
  function Places(s: Airport, id: nat): nat
    requires id in s.rows && AtGate(s, s.rows[id].gate)
  {
    var gate := s.rows[id].gate;
    (if id in s.handlers then 1 else 0) +
    (if id in Ids(s.queues[gate]) then 1 else 0) +
    (if id in HeldIds(s.workers[gate]) then 1 else 0)
  }

  /** A row sits at an existing gate and is in exactly one place until it is processed, in none
      after that; a row marked processing is in the hands of its gate's worker. */
  ghost predicate RowGood(s: Airport, id: nat)
    requires id in s.rows
  {
    var row := s.rows[id];
    && row.guest.arrivalId == id && AtGate(s, row.gate)
    && Places(s, id) == (if row.status == Processed then 0 else 1)
    && (row.status == Processing ==> s.workers[row.gate] == Working(row.guest))
  }

  ghost predicate GateGood(s: Airport, g: GateId)
    requires AtGate(s, g)
  {
    && QueueGood(s.rows, g, s.queues[g])
    && WorkerGood(s.rows, g, s.workers[g])
    && (s.workers[g].Done? ==> s.workers[g].guest.arrivalId !in s.published)
  }

  /** Published at most once, and only after the processed commit. */
  ghost predicate PublishedGood(s: Airport) {
    && (forall i, j :: 0 <= i < j < |s.published| ==> s.published[i] != s.published[j])
    && (forall i :: 0 <= i < |s.published| ==> s.published[i] in s.rows && s.rows[s.published[i]].status == Processed)
  }

  ghost predicate Inv(s: Airport) {
    && s.queues.Keys == s.workers.Keys
    && (forall id :: id in s.rows ==> RowGood(s, id))
    && (forall id :: id in s.handlers ==> id in s.rows && s.rows[id].status == Queued)
    && (forall g :: AtGate(s, g) ==> GateGood(s, g))
    && PublishedGood(s)
  }
}
