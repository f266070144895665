/**
  Booking beach activities: the use cases and the tables they work on
  (services/beach/src/main/kotlin/application/usecase, infrastructure/repository, domain/model).
 */
module Beach {
  import opened Wrappers

  datatype Activity = Activity(id: string, capacity: int, booked: set<string>) {
    function Remaining(): int { capacity - |booked| }

    predicate IsFull() { |booked| >= capacity }
  }

  datatype Row = Row(id: string, capacity: int)

  /** Pairs of activity and visitor; the pair is the primary key. */
  type Bookings = set<(string, string)>

  datatype Tables = Tables(activities: seq<Row>, bookings: Bookings, visitors: map<string, bool>)

  datatype Error = VisitorMissingId | ActivityNotFound | VisitorNotFound | NotCheckedIn | AlreadyBooked | ActivityFull

  /** Kotlin's notion of white space. */
  predicate IsWhitespace(c: char) {
    var n := c as int;
    || 0x9 <= n <= 0xD || 0x1C <= n <= 0x20 || n == 0xA0 || n == 0x1680 || 0x2000 <= n <= 0x200A
    || n == 0x2028 || n == 0x2029 || n == 0x202F || n == 0x205F || n == 0x3000
  }

  predicate IsBlank(s: string) {
    forall i :: 0 <= i < |s| ==> IsWhitespace(s[i])
  }

  ghost predicate DistinctIds(rows: seq<Row>) {
    forall i, j :: 0 <= i < j < |rows| ==> rows[i].id != rows[j].id
  }

  function BookedIn(bookings: Bookings, id: string): set<string> {
    set b | b in bookings && b.0 == id :: b.1
  }

  function BookingsOf(bookings: Bookings, visitor: string): Bookings {
    set b | b in bookings && b.1 == visitor
  }

  predicate Exists(rows: seq<Row>, id: string) {
    exists i :: 0 <= i < |rows| && rows[i].id == id
  }

  /** The activity with an id, as the repository loads it. */
  function Load(t: Tables, id: string): Option<Activity> {
    Find(t.activities, t.bookings, id)
  }

  function Find(rows: seq<Row>, bookings: Bookings, id: string): Option<Activity> {
    if rows == [] then None
    else if rows[0].id == id then Some(Activity(id, rows[0].capacity, BookedIn(bookings, id)))
    else Find(rows[1..], bookings, id)
  }

  /** One completed call of the service. */
  datatype Call =
    | CheckIn(visitor: string)
    | CheckOut(visitor: string)
    | Book(activity: string, visitor: string)
    | Cancel(activity: string, visitor: string)

  /** What a call answers; `None` is success. */
  function Refusal(t: Tables, c: Call): Option<Error> {
    match c
    case CheckIn(_) => None
    case CheckOut(_) => None
    case Book(activity, visitor) =>
      if IsBlank(visitor) then Some(VisitorMissingId)
      else if Load(t, activity).None? then Some(ActivityNotFound)
      else if visitor !in t.visitors then Some(VisitorNotFound)
      else if !t.visitors[visitor] then Some(NotCheckedIn)
      else if (activity, visitor) in t.bookings then Some(AlreadyBooked)
      else if Load(t, activity).value.IsFull() then Some(ActivityFull)
      else None
    case Cancel(activity, visitor) =>
      if Load(t, activity).None? then Some(ActivityNotFound)
      else if IsBlank(visitor) then Some(VisitorMissingId)
      else None
  }

  /** The transaction behind a booking. */
  function Write(bookings: Bookings, activity: string, visitor: string): Bookings {
    bookings - BookingsOf(bookings, visitor) + {(activity, visitor)}
  }

  function After(t: Tables, c: Call): Tables {
    match c
    case CheckIn(visitor) => t.(visitors := t.visitors[visitor := true])
    case CheckOut(visitor) =>
      t.(bookings := t.bookings - BookingsOf(t.bookings, visitor),
         visitors := if visitor in t.visitors then t.visitors[visitor := false] else t.visitors)
    case Book(activity, visitor) =>
      if Refusal(t, c).None? then t.(bookings := Write(t.bookings, activity, visitor)) else t
    case Cancel(activity, visitor) =>
      if Refusal(t, c).None? then t.(bookings := t.bookings - {(activity, visitor)}) else t
  }

  ghost predicate SingleBooking(bookings: Bookings) {
    forall b, c :: b in bookings && c in bookings && b.1 == c.1 ==> b == c
  }

  class BeachService {
    const activities: seq<Row>
    var bookings: Bookings
    var visitors: map<string, bool>

    constructor (activities: seq<Row>)
      ensures State() == Tables(activities, {}, map[])
      ensures SingleBooking(bookings)
    {
      this.activities := activities;
      bookings, visitors := {}, map[];
    }

    ghost function State(): Tables
      reads this
    {
      Tables(activities, bookings, visitors)
    }

    method FindById(id: string) returns (activity: Option<Activity>)
      ensures activity == Load(State(), id)
      ensures activity.None? <==> forall i :: 0 <= i < |activities| ==> activities[i].id != id
      ensures activity.Some? ==>
                && (exists i :: 0 <= i < |activities| && activities[i] == Row(id, activity.value.capacity)
                                 && forall j :: 0 <= j < i ==> activities[j].id != id)
                && activity.value.id == id
                && forall v :: v in activity.value.booked <==> (id, v) in bookings
    {
      for i := 0 to |activities|
        invariant Find(activities, bookings, id) == Find(activities[i..], bookings, id)
        invariant forall j :: 0 <= j < i ==> activities[j].id != id
      {
        if activities[i].id == id {
          return Some(Activity(id, activities[i].capacity, BookedIn(bookings, id)));
        }
      }
      return None;
    }

    /** One booking of the visitor is read, and then its activity. */
    method FindByBookedVisitor(visitor: string) returns (activity: Option<Activity>)
      ensures activity.None? ==>
                || BookingsOf(bookings, visitor) == {}
                || exists b :: b in BookingsOf(bookings, visitor) && Load(State(), b.0).None?
      ensures activity.Some? ==>
                (activity.value.id, visitor) in bookings && activity == Load(State(), activity.value.id)
    {
      var own := BookingsOf(bookings, visitor);
      if own == {} { return None; }
      var booking: (string, string) :| booking in own;
      activity := FindById(booking.0);
      FoundHasId(activities, bookings, booking.0);
    }

    /** If the visitor had several bookings and another one was read, the double booking is not
        noticed and the call goes on to the capacity check. */
    method BookActivity(activity: string, visitor: string) returns (error: Option<Error>)
      modifies this`bookings
      ensures bookings == if error.None? then Write(old(bookings), activity, visitor) else old(bookings)
      ensures SingleBooking(old(bookings)) ==>
                && error == old(Refusal(State(), Book(activity, visitor)))
                && State() == After(old(State()), Book(activity, visitor)) && SingleBooking(bookings)
      ensures var refusal := old(Refusal(State(), Book(activity, visitor)));
              || error == refusal
              || (refusal == Some(AlreadyBooked) && !SingleBooking(old(BookingsOf(bookings, visitor)))
                  && error == if old(Load(State(), activity)).value.IsFull() then Some(ActivityFull) else None)
      ensures error.None? ==> BookingsOf(bookings, visitor) == {(activity, visitor)}
    {
      if IsBlank(visitor) { return Some(VisitorMissingId); }
      var found := FindById(activity);
      if found.None? { return Some(ActivityNotFound); }
      if visitor !in visitors { return Some(VisitorNotFound); }
      if !visitors[visitor] { return Some(NotCheckedIn); }
      var current := FindByBookedVisitor(visitor);
      assert (activity, visitor) in bookings ==> (activity, visitor) in BookingsOf(bookings, visitor);
      if current.Some? {
        if current.value.id == activity { return Some(AlreadyBooked); }
      }
      if found.value.IsFull() { return Some(ActivityFull); }
      Replace(activity, visitor);
      return None;
    }

    /** The repository's `book`. */
    method Replace(activity: string, visitor: string)
      modifies this`bookings
      ensures bookings == Write(old(bookings), activity, visitor)
    {
      bookings := bookings - BookingsOf(bookings, visitor);
      bookings := bookings + {(activity, visitor)};
    }

    method CancelActivity(activity: string, visitor: string) returns (error: Option<Error>)
      modifies this`bookings
      ensures error == old(Refusal(State(), Cancel(activity, visitor)))
      ensures State() == After(old(State()), Cancel(activity, visitor))
    {
      var found := FindById(activity);
      if found.None? { return Some(ActivityNotFound); }
      if IsBlank(visitor) { return Some(VisitorMissingId); }
      FoundHasId(activities, bookings, activity);
      if visitor !in found.value.booked { return None; }
      bookings := bookings - {(activity, visitor)};
      return None;
    }

    method CheckInVisitor(visitor: string)
      modifies this`visitors
      ensures State() == After(old(State()), CheckIn(visitor))
    {
      visitors := visitors[visitor := true];
    }

    method CheckOutVisitor(visitor: string)
      modifies this`bookings, this`visitors
      ensures State() == After(old(State()), CheckOut(visitor))
    {
      bookings := bookings - BookingsOf(bookings, visitor);
      if visitor in visitors { visitors := visitors[visitor := false]; }
    }

    /** Every activity with its booked visitors. */
    method FindAll() returns (all: seq<Activity>)
      ensures |all| == |activities|
      ensures forall i :: 0 <= i < |all| ==>
                all[i] == Activity(activities[i].id, activities[i].capacity, BookedIn(bookings, activities[i].id))
    {
      all := [];
      for i := 0 to |activities|
        invariant |all| == i
        invariant forall j :: 0 <= j < i ==>
                    all[j] == Activity(activities[j].id, activities[j].capacity, BookedIn(bookings, activities[j].id))
      {
        all := all + [Activity(activities[i].id, activities[i].capacity, BookedIn(bookings, activities[i].id))];
      }
    }
  }

  lemma {:induction false} FoundHasId(rows: seq<Row>, bookings: Bookings, id: string)
    ensures Find(rows, bookings, id).Some? <==> Exists(rows, id)
    ensures Find(rows, bookings, id).Some? ==>
              Find(rows, bookings, id).value.id == id && Find(rows, bookings, id).value.booked == BookedIn(bookings, id)
  {
    if rows != [] {
      if rows[0].id == id {
      } else {
        FoundHasId(rows[1..], bookings, id);
        if Exists(rows, id) {
          var i :| 0 <= i < |rows| && rows[i].id == id;
          assert rows[1..][i - 1].id == id;
        }
        if Exists(rows[1..], id) {
          var i :| 0 <= i < |rows[1..]| && rows[1..][i].id == id;
          assert rows[i + 1].id == id;
        }
      }
    }
  }
}
