/** Runs of the hotel service: each booking and each cancellation is one step. */
module HotelRuns {
  import opened Wrappers
  import opened HotelModel

  datatype Command = Make(request: Request, cleared: Clearance) | Drop(id: nat)

  datatype Answer = Made(made: Result<nat>) | Dropped(dropped: CancelAnswer)

  datatype Outcome = Outcome(table: seq<Reservation>, answer: Answer, events: seq<HotelEvent>)

  /** The first member the airport knows not to have cleared. */
  function FirstHeld(members: seq<string>, cleared: Clearance): Option<string> {
    if members == [] then None
    else if members[0] in cleared && !cleared[members[0]] then Some(members[0])
    else FirstHeld(members[1..], cleared)
  }

  /** `guest` is member `i`, known not to have cleared, and nobody before them is. */
  predicate IsFirstBlocked(members: seq<string>, cleared: Clearance, i: nat, guest: string) {
    && i < |members| && members[i] == guest && guest in cleared && !cleared[guest]
    && forall j :: 0 <= j < i && members[j] in cleared ==> cleared[members[j]]
  }

  lemma {:induction false} FirstHeldIs(members: seq<string>, cleared: Clearance)
    ensures FirstHeld(members, cleared).None? <==> forall g :: g in members && g in cleared ==> cleared[g]
    ensures forall g :: FirstHeld(members, cleared) == Some(g) <==>
                        exists i: nat :: IsFirstBlocked(members, cleared, i, g)
  {
    if members != [] {
      FirstHeldIs(members[1..], cleared);
      assert members == [members[0]] + members[1..];
      forall g ensures FirstHeld(members, cleared) == Some(g) <==>
                       exists i: nat :: IsFirstBlocked(members, cleared, i, g)
      {
        FirstBlockedCons(members, cleared, g);
      }
    }
  }

  lemma FirstBlockedCons(members: seq<string>, cleared: Clearance, g: string)
    requires members != []
    ensures (exists i: nat :: IsFirstBlocked(members, cleared, i, g)) <==>
            if members[0] in cleared && !cleared[members[0]] then g == members[0]
            else exists i: nat :: IsFirstBlocked(members[1..], cleared, i, g)
  {
    if members[0] in cleared && !cleared[members[0]] {
      if g == members[0] { assert IsFirstBlocked(members, cleared, 0, g); }
    } else {
      if i: nat :| IsFirstBlocked(members, cleared, i, g) {
        assert IsFirstBlocked(members[1..], cleared, i - 1, g);
      }
      if i: nat :| IsFirstBlocked(members[1..], cleared, i, g) {
        assert IsFirstBlocked(members, cleared, i + 1, g) by {
          forall j | 0 <= j < i + 1 && members[j] in cleared ensures cleared[members[j]] {
            if j > 0 { assert members[j] == members[1..][j - 1]; }
          }
        }
      }
    }
  }

  /** The first room from `k` on that can take the party. */
  function Search(rooms: seq<Room>, rs: seq<Reservation>, q: Request, heads: int, k: nat): Option<nat>
    decreases |rooms| - k
  {
    if k >= |rooms| then None
    else if CanStay(rooms, rs, q, heads, k) then Some(k)
    else Search(rooms, rs, q, heads, k + 1)
  }

  predicate SomeRoomFits(rooms: seq<Room>, kind: RoomType, heads: int) {
    exists k :: 0 <= k < |rooms| && Eligible(rooms[k], kind, heads)
  }

  /** The room a request is given. */
  function Decide(rooms: seq<Room>, rs: seq<Reservation>, q: Request, cleared: Clearance): Result<nat> {
    if q.checkOut <= q.checkIn then Refused(BadDays)
    else
      match ResolveParty(q)
      case Refused(why) => Refused(why)
      case Ok(party) =>
        match FirstHeld(party.members, cleared)
        case Some(guest) => Refused(NotCleared(guest))
        case None =>
          if !SomeRoomFits(rooms, q.kind, party.heads) then Refused(OverCapacity)
          else
            match Search(rooms, rs, q, party.heads, 0)
            case None => Refused(NoRoom)
            case Some(k) => Ok(k)
  }

  function Step(rooms: seq<Room>, rs: seq<Reservation>, c: Command): (s: Outcome)
    ensures s.answer.Made? <==> c.Make?
  {
    match c
    case Make(q, cleared) =>
      (match Decide(rooms, rs, q, cleared)
       case Refused(why) => Outcome(rs, Made(Refused(why)), [])
       case Ok(k) =>
         DecideFacts(rooms, rs, q, cleared);
         var r := Booked(q, ResolveParty(q).value.members, rooms[k]);
         Outcome(rs + [r], Made(Ok(|rs|)), [ReservationConfirmed(|rs|, r)]))
    case Drop(id) =>
      if id >= |rs| then Outcome(rs, Dropped(NotFound), [])
      else if rs[id].status == Cancelled then Outcome(rs, Dropped(IsCancelled(id)), [])
      else
        var r := rs[id].(status := Cancelled);
        Outcome(rs[id := r], Dropped(IsCancelled(id)), [ReservationCancelled(id, r)])
  }

  lemma {:induction false} SearchFinds(rooms: seq<Room>, rs: seq<Reservation>, q: Request, heads: int, k: nat)
    requires k <= |rooms| && forall j :: 0 <= j < k ==> !CanStay(rooms, rs, q, heads, j)
    ensures var found := Search(rooms, rs, q, heads, k);
            match found
            case Some(n) => FirstFit(rooms, rs, q, heads, n)
            case None => forall j :: 0 <= j < |rooms| ==> !CanStay(rooms, rs, q, heads, j)
    decreases |rooms| - k
  {
    if k < |rooms| && !CanStay(rooms, rs, q, heads, k) { SearchFinds(rooms, rs, q, heads, k + 1); }
  }

  lemma DecideFacts(rooms: seq<Room>, rs: seq<Reservation>, q: Request, cleared: Clearance)
    ensures Decide(rooms, rs, q, cleared).Ok? ==>
              ResolveParty(q).Ok? && Decide(rooms, rs, q, cleared).value < |rooms|
  {
    if ResolveParty(q).Ok? { SearchFinds(rooms, rs, q, ResolveParty(q).value.heads, 0); }
  }

  lemma FirstFitIsUnique(rooms: seq<Room>, rs: seq<Reservation>, q: Request, heads: int, k: nat)
    requires FirstFit(rooms, rs, q, heads, k)
    ensures Search(rooms, rs, q, heads, 0) == Some(k)
  {
    SearchFinds(rooms, rs, q, heads, 0);
  }

  lemma NoneFoundIff(rooms: seq<Room>, rs: seq<Reservation>, q: Request, cleared: Clearance)
    ensures ResolveParty(q).Ok? ==>
              var heads := ResolveParty(q).value.heads;
              Search(rooms, rs, q, heads, 0).None? <==>
              forall j :: 0 <= j < |rooms| ==> !CanStay(rooms, rs, q, heads, j)
  {
    if ResolveParty(q).Ok? { SearchFinds(rooms, rs, q, ResolveParty(q).value.heads, 0); }
  }

  // ---------------------------------------------------------------- runs

  function Run(rooms: seq<Room>, rs: seq<Reservation>, cs: seq<Command>): seq<Reservation>
    decreases |cs|
  {
    if cs == [] then rs else Run(rooms, Step(rooms, rs, cs[0]).table, cs[1..])
  }

  function Answers(rooms: seq<Room>, rs: seq<Reservation>, cs: seq<Command>): seq<Answer>
    decreases |cs|
  {
    if cs == [] then []
    else
      var s := Step(rooms, rs, cs[0]);
      [s.answer] + Answers(rooms, s.table, cs[1..])
  }

  function Published(rooms: seq<Room>, rs: seq<Reservation>, cs: seq<Command>): seq<HotelEvent>
    decreases |cs|
  {
    if cs == [] then []
    else
      var s := Step(rooms, rs, cs[0]);
      s.events + Published(rooms, s.table, cs[1..])
  }
}
