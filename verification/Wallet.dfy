/**
  The token wallet (frontend/src/features/tokens/token-store.ts, lines 45-159): what each
  operation does to a wallet, and the store that holds one.
 */
module Wallets {
  import opened Wrappers

  datatype Booking = Booking(activityId: string, cost: int)

  /** A booking that was given back is `None`; one never made is absent. */
  datatype Wallet = Wallet(balances: map<string, int>, credited: set<string>, bookings: map<string, Option<Booking>>)

  const EMPTY: Wallet := Wallet(map[], {}, map[])

  function BalanceOf(w: Wallet, guest: string): int {
    if guest in w.balances then w.balances[guest] else 0
  }

  function Tracked(w: Wallet, guest: string): Option<Booking> {
    if guest in w.bookings then w.bookings[guest] else None
  }

  function CreditKey(guest: string, reservation: string): string {
    guest + ":" + reservation
  }

  predicate Tracks(w: Wallet, guest: string, activity: Option<string>) {
    Tracked(w, guest).Some? && activity == Some(Tracked(w, guest).value.activityId)
  }

  function RefundableCost(w: Wallet, guest: string, current: Option<string>): int {
    if Tracks(w, guest, current) then Tracked(w, guest).value.cost else 0
  }

  function TrackedCost(w: Wallet, guest: string): int {
    if Tracked(w, guest).Some? then Tracked(w, guest).value.cost else 0
  }

  /** The tokens in a guest's name: those to spend and those in the tracked booking. */
  function Holding(w: Wallet, guest: string): int {
    BalanceOf(w, guest) + TrackedCost(w, guest)
  }

  /** What a guest can pay with who says that `current` is the activity to be given up: everything in
      their name if that is the tracked one, and the balance alone if not. */
  function Funds(w: Wallet, guest: string, current: Option<string>): int {
    match Tracked(w, guest)
    case Some(booking) => if current == Some(booking.activityId) then Holding(w, guest) else BalanceOf(w, guest)
    case None => BalanceOf(w, guest)
  }

  /** A step of a run, with the arguments of the operation. */
  datatype Step =
    | Credit(guest: string, reservation: string, amount: int)
    | Spend(guest: string, activity: string, cost: int, current: Option<string>)
    | Refund(guest: string, activity: string, fallback: int)

  function Pay(w: Wallet, guest: string, balance: int, booking: Option<Booking>): Wallet {
    w.(balances := w.balances[guest := balance], bookings := w.bookings[guest := booking])
  }

  /** What a step leaves. */
  function After(w: Wallet, s: Step): Wallet {
    match s
    case Credit(guest, reservation, amount) =>
      if amount <= 0 || CreditKey(guest, reservation) in w.credited then w
      else w.(balances := w.balances[guest := BalanceOf(w, guest) + amount],
              credited := w.credited + {CreditKey(guest, reservation)})
    case Spend(guest, activity, cost, current) =>
      if Tracks(w, guest, Some(activity)) || BalanceOf(w, guest) + RefundableCost(w, guest, current) < cost then w
      else Pay(w, guest, BalanceOf(w, guest) + RefundableCost(w, guest, current) - cost, Some(Booking(activity, cost)))
    case Refund(guest, activity, fallback) =>
      if Tracks(w, guest, Some(activity)) then Pay(w, guest, BalanceOf(w, guest) + Tracked(w, guest).value.cost, None)
      else if Tracked(w, guest).Some? || fallback <= 0 then w
      else Pay(w, guest, BalanceOf(w, guest) + fallback, None)
  }

  class TokenWallet {
    var balances: map<string, int>
    var creditedReservations: set<string>
    var activityBookings: map<string, Option<Booking>>

    constructor ()
      ensures State() == EMPTY
    {
      balances, creditedReservations, activityBookings := map[], {}, map[];
    }

    ghost function State(): Wallet
      reads this
    {
      Wallet(balances, creditedReservations, activityBookings)
    }

    method CreditReservationTokens(guest: string, reservation: string, amount: int) returns (accepted: bool)
      modifies this
      ensures State() == After(old(State()), Credit(guest, reservation, amount))
      ensures accepted <==> amount > 0 && CreditKey(guest, reservation) !in old(creditedReservations)
      ensures accepted ==> BalanceOf(State(), guest) == old(BalanceOf(State(), guest)) + amount
      ensures !accepted ==> State() == old(State())
    {
      if amount <= 0 { return false; }
      var key := CreditKey(guest, reservation);
      if key in creditedReservations { return false; }
      balances := balances[guest := (if guest in balances then balances[guest] else 0) + amount];
      creditedReservations := creditedReservations + {key};
      return true;
    }

    method CanAffordActivity(guest: string, cost: int, current: Option<string>) returns (can: bool)
      ensures can <==> cost <= Funds(State(), guest, current)
    {
      var balance := if guest in balances then balances[guest] else 0;
      var refundable := GetRefundableCost(guest, current);
      return balance + refundable >= cost;
    }

    method GetRefundableCost(guest: string, current: Option<string>) returns (cost: int)
      ensures cost == RefundableCost(State(), guest, current)
    {
      var tracked := if guest in activityBookings then activityBookings[guest] else None;
      if tracked.Some? && current == Some(tracked.value.activityId) { return tracked.value.cost; }
      return 0;
    }

    /** Spending succeeds without effect if the activity is the tracked one; else it succeeds
        exactly if it can be afforded, and never leaves a debt. */
    method SpendActivityTokens(guest: string, activity: string, cost: int, current: Option<string>) returns (done: bool)
      modifies this
      ensures State() == After(old(State()), Spend(guest, activity, cost, current))
      ensures done <==> old(Tracks(State(), guest, Some(activity))) || cost <= old(Funds(State(), guest, current))
      ensures done ==> Tracked(State(), guest).Some? && Tracked(State(), guest).value.activityId == activity
      ensures done && !old(Tracks(State(), guest, Some(activity))) ==>
                && Tracked(State(), guest) == Some(Booking(activity, cost))
                && BalanceOf(State(), guest) == old(Funds(State(), guest, current)) - cost
      ensures !done || old(Tracks(State(), guest, Some(activity))) ==> State() == old(State())
    {
      var tracked := if guest in activityBookings then activityBookings[guest] else None;
      if tracked.Some? && tracked.value.activityId == activity { return true; }
      var balance := if guest in balances then balances[guest] else 0;
      var refundable := GetRefundableCost(guest, current);
      var next := balance + refundable - cost;
      if next < 0 { return false; }
      balances := balances[guest := next];
      activityBookings := activityBookings[guest := Some(Booking(activity, cost))];
      return true;
    }

    method RefundActivityTokens(guest: string, activity: string, fallback: int := 0) returns (refunded: int)
      modifies this
      ensures State() == After(old(State()), Refund(guest, activity, fallback))
      ensures refunded == BalanceOf(State(), guest) - old(BalanceOf(State(), guest))
      ensures !Tracks(State(), guest, Some(activity))
    {
      var tracked := if guest in activityBookings then activityBookings[guest] else None;
      var balance := if guest in balances then balances[guest] else 0;
      if !(tracked.Some? && tracked.value.activityId == activity) {
        if tracked.Some? || fallback <= 0 { return 0; }
        balances := balances[guest := balance + fallback];
        activityBookings := activityBookings[guest := None];
        return fallback;
      }
      balances := balances[guest := balance + tracked.value.cost];
      activityBookings := activityBookings[guest := None];
      return tracked.value.cost;
    }
  }
}
