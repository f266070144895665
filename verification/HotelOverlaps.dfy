/**
  Hotel bookings that overlap: both scan one table before either inserts
  (services/hotel/src/reservation/reservation.service.ts, lines 66-97). When that is safe is read off
  the requests and the rooms.
 */
module HotelOverlaps {
  import opened HotelModel
  import opened HotelRuns
  import opened HotelLaws
  import opened HotelOccupancy

  predicate StaysMeet(a: Request, b: Request) {
    a.checkIn < b.checkOut && b.checkIn < a.checkOut
  }

  ghost predicate FitsParty(room: Room, q: Request)
    requires ResolveParty(q).Ok?
  {
    Eligible(room, q.kind, ResolveParty(q).value.heads)
  }

  /** Some room could be given to either. */
  ghost predicate ShareARoom(rooms: seq<Room>, a: Request, b: Request)
    requires ResolveParty(a).Ok? && ResolveParty(b).Ok?
  {
    exists k :: 0 <= k < |rooms| && FitsParty(rooms[k], a) && FitsParty(rooms[k], b)
  }

  /** What a caller can check before either call: the stays meet and some room could be given to
      either. */
  ghost predicate Rivals(rooms: seq<Room>, a: Request, b: Request) {
    ResolveParty(a).Ok? && ResolveParty(b).Ok? && StaysMeet(a, b) && ShareARoom(rooms, a, b)
  }

  /** Both bookings are granted on the table, or not; if they are, both inserts leave no double
      booking. */
  ghost predicate SafeOn(rooms: seq<Room>, rs: seq<Reservation>, cs: seq<Command>) {
    AllGranted(rooms, rs, cs) ==> Sound(InsertAll(rooms, rs, cs))
  }

  lemma CollideMeansRivals(rooms: seq<Room>, rs: seq<Reservation>, a: Command, b: Command)
    requires a.Make? && b.Make? && Collide(rooms, rs, a, b)
    requires Decide(rooms, rs, a.request, a.cleared).Ok?
    ensures Rivals(rooms, a.request, b.request)
  {
    var k := Decide(rooms, rs, a.request, a.cleared).value;
    DecideFacts(rooms, rs, a.request, a.cleared);
    DecideFacts(rooms, rs, b.request, b.cleared);
    SearchFinds(rooms, rs, a.request, ResolveParty(a.request).value.heads, 0);
    SearchFinds(rooms, rs, b.request, ResolveParty(b.request).value.heads, 0);
    assert FitsParty(rooms[k], a.request) && FitsParty(rooms[k], b.request);
  }

  /** Any number of bookings no two of which are rivals may overlap: every run stays without double
      booking. */
  lemma WithoutRivalsSafe(rooms: seq<Room>, history: seq<Command>, cs: seq<Command>)
    requires Ordered(rooms)
    requires forall i, j :: 0 <= i < j < |cs| && cs[i].Make? && cs[j].Make? ==>
               !Rivals(rooms, cs[i].request, cs[j].request)
    ensures SafeOn(rooms, Run(rooms, [], history), cs)
  {
    var rs := Run(rooms, [], history);
    RunStaysSound(rooms, [], history);
    if AllGranted(rooms, rs, cs) {
      forall i, j | 0 <= i < j < |cs| ensures !Collide(rooms, rs, cs[i], cs[j]) {
        if Collide(rooms, rs, cs[i], cs[j]) { CollideMeansRivals(rooms, rs, cs[i], cs[j]); }
      }
      OverlapSoundIff(rooms, rs, cs);
    }
  }

  /** The first room that fits the party of `q`, if one does. */
  lemma {:induction false} FirstFitting(rooms: seq<Room>, q: Request, n: nat) returns (k: nat)
    requires ResolveParty(q).Ok? && n < |rooms| && FitsParty(rooms[n], q)
    ensures k <= n && FitsParty(rooms[k], q) && forall j :: 0 <= j < k ==> !FitsParty(rooms[j], q)
  {
    k := n;
    if j :| 0 <= j < n && FitsParty(rooms[j], q) { k := FirstFitting(rooms, q, j); }
  }

  /** For rivals there is a reachable table on which both are given the same room: repeat the one with
      the smaller party until the first room that fits the larger is the next to be given. */
  lemma RivalsMeet(rooms: seq<Room>, a: Request, ca: Clearance, b: Request, cb: Clearance)
    returns (history: seq<Command>, k: nat)
    requires Ordered(rooms) && Admissible(a, ca) && Admissible(b, cb) && Rivals(rooms, a, b)
    requires ResolveParty(a).value.heads <= ResolveParty(b).value.heads
    ensures Decide(rooms, Run(rooms, [], history), a, ca) == Ok(k)
    ensures Decide(rooms, Run(rooms, [], history), b, cb) == Ok(k)
  {
    var n :| 0 <= n < |rooms| && FitsParty(rooms[n], a) && FitsParty(rooms[n], b);
    k := FirstFitting(rooms, b, n);
    history := Refill(rooms, a, ca, k);
    var rs := Run(rooms, [], history);
    assert FitsParty(rooms[k], a);
    FillNext(rooms, rs, a, ca, k);
    GivenWhenEmpty(rooms, rs, b, cb, k);
  }

  /** The first room that fits a party is given to it when nobody holds it. */
  lemma GivenWhenEmpty(rooms: seq<Room>, rs: seq<Reservation>, q: Request, cleared: Clearance, k: nat)
    requires Admissible(q, cleared) && k < |rooms| && FitsParty(rooms[k], q)
    requires forall j :: 0 <= j < k ==> !FitsParty(rooms[j], q)
    requires forall i :: 0 <= i < |rs| ==> rs[i].room != rooms[k].id
    ensures Decide(rooms, rs, q, cleared) == Ok(k)
  {
    var heads := ResolveParty(q).value.heads;
    FirstHeldIs(ResolveParty(q).value.members, cleared);
    forall j | 0 <= j < k ensures !CanStay(rooms, rs, q, heads, j) { assert !FitsParty(rooms[j], q); }
    FirstFitIsUnique(rooms, rs, q, heads, k);
  }

  /** A run after which rivals are both granted and both inserts double-book a room. */
  lemma RivalsDoubleBook(rooms: seq<Room>, a: Request, ca: Clearance, b: Request, cb: Clearance)
    returns (history: seq<Command>)
    requires Ordered(rooms) && Admissible(a, ca) && Admissible(b, cb) && Rivals(rooms, a, b)
    ensures var rs, cs := Run(rooms, [], history), [Make(a, ca), Make(b, cb)];
            AllGranted(rooms, rs, cs) && !Sound(InsertAll(rooms, rs, cs))
  {
    var k;
    if ResolveParty(a).value.heads <= ResolveParty(b).value.heads {
      history, k := RivalsMeet(rooms, a, ca, b, cb);
    } else {
      assert Rivals(rooms, b, a) by {
        var n :| 0 <= n < |rooms| && FitsParty(rooms[n], a) && FitsParty(rooms[n], b);
      }
      history, k := RivalsMeet(rooms, b, cb, a, ca);
    }
    var rs, cs := Run(rooms, [], history), [Make(a, ca), Make(b, cb)];
    RunStaysSound(rooms, [], history);
    OverlapSoundIff(rooms, rs, cs);
    assert Collide(rooms, rs, cs[0], cs[1]);
  }

  /** Two admissible bookings may overlap in every run without double booking if and only if they are
      not rivals. */
  lemma OverlapSafeIff(rooms: seq<Room>, a: Request, ca: Clearance, b: Request, cb: Clearance)
    requires Ordered(rooms) && Admissible(a, ca) && Admissible(b, cb)
    ensures (forall history :: SafeOn(rooms, Run(rooms, [], history), [Make(a, ca), Make(b, cb)])) <==>
            !Rivals(rooms, a, b)
  {
    var cs := [Make(a, ca), Make(b, cb)];
    if Rivals(rooms, a, b) {
      var history := RivalsDoubleBook(rooms, a, ca, b, cb);
      assert !SafeOn(rooms, Run(rooms, [], history), cs);
    } else {
      forall history ensures SafeOn(rooms, Run(rooms, [], history), cs) { WithoutRivalsSafe(rooms, history, cs); }
    }
  }
}
