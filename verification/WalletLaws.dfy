/** The ledger of the token wallet over whole runs. */
module WalletLaws {
  import opened Wrappers
  import opened Wallets

  type Trace = seq<Step>

  function Run(w: Wallet, trace: Trace): Wallet
    decreases |trace|
  {
    if trace == [] then w else After(Run(w, trace[..|trace| - 1]), trace[|trace| - 1])
  }

  // ---------------------------------------------------------------- no debts

  /** No guest is ever in debt, whatever is charged, even costs below zero; and giving a booking
      back never puts one in debt either. */
  lemma {:induction false} NeverInDebt(trace: Trace, guest: string)
    ensures BalanceOf(Run(EMPTY, trace), guest) >= 0 && Holding(Run(EMPTY, trace), guest) >= 0
  {
    if trace != [] { NeverInDebt(trace[..|trace| - 1], guest); }
  }

  // ---------------------------------------------------------------- the ledger

  /** The credit keys a trace asks for, whatever became of them. */
  function KeysAsked(trace: Trace): set<string> {
    set i | 0 <= i < |trace| && trace[i].Credit? && trace[i].amount > 0 ::
      CreditKey(trace[i].guest, trace[i].reservation)
  }

  /** Each key counts once, for the amount it was first asked with. */
  function CreditsOnce(trace: Trace, guest: string): int {
    if trace == [] then 0
    else
      var before, s := trace[..|trace| - 1], trace[|trace| - 1];
      CreditsOnce(before, guest) +
      if s.Credit? && s.guest == guest && s.amount > 0 && CreditKey(guest, s.reservation) !in KeysAsked(before)
      then s.amount else 0
  }

  /** Refunds of bookings the wallet does not track. */
  function Fallbacks(trace: Trace, guest: string): int {
    if trace == [] then 0
    else
      var before, s := trace[..|trace| - 1], trace[|trace| - 1];
      Fallbacks(before, guest) +
      if s.Refund? && s.guest == guest && s.fallback > 0 && Tracked(Run(EMPTY, before), guest).None?
      then s.fallback else 0
  }

  /** Tracked costs lost by spends that went through while naming another current activity. */
  function Forfeits(trace: Trace, guest: string): int {
    if trace == [] then 0
    else
      var before, s := trace[..|trace| - 1], trace[|trace| - 1];
      var w := Run(EMPTY, before);
      Forfeits(before, guest) +
      if s.Spend? && s.guest == guest && !Tracks(w, guest, Some(s.activity)) && BalanceOf(w, guest) >= s.cost
         && !Tracks(w, guest, s.current)
      then TrackedCost(w, guest) else 0
  }

  lemma KeysSnoc(before: Trace, s: Step)
    ensures KeysAsked(before + [s]) ==
              KeysAsked(before) + if s.Credit? && s.amount > 0 then {CreditKey(s.guest, s.reservation)} else {}
  {
    var after := before + [s];
    assert after[|before|] == s;
    forall k | k in KeysAsked(before) ensures k in KeysAsked(after) {
      var i :| 0 <= i < |before| && before[i].Credit? && before[i].amount > 0
          && CreditKey(before[i].guest, before[i].reservation) == k;
      assert after[i] == before[i];
    }
  }

  /** The keys on record are those ever asked for. */
  lemma {:induction false} KeysOnRecord(trace: Trace)
    ensures Run(EMPTY, trace).credited == KeysAsked(trace)
  {
    if trace != [] {
      var before, s := trace[..|trace| - 1], trace[|trace| - 1];
      KeysOnRecord(before);
      KeysSnoc(before, s);
      assert trace == before + [s];
    }
  }

  /** In every run, what a guest holds is what came in by credits, each key once, and by fallback
      refunds, less what was forfeited. */
  lemma {:induction false} LedgerBalances(trace: Trace, guest: string)
    ensures Holding(Run(EMPTY, trace), guest) ==
              CreditsOnce(trace, guest) + Fallbacks(trace, guest) - Forfeits(trace, guest)
  {
    if trace != [] {
      LedgerBalances(trace[..|trace| - 1], guest);
      KeysOnRecord(trace[..|trace| - 1]);
    }
  }

  /** So whether a switch to another activity goes through can be read off the ledger: what came in, less
      what was forfeited, has to cover the cost; unless the call does not name the tracked booking, which is
      then forfeited too. What is left over is the balance; a refused spend changes nothing. */
  lemma SpendsFromLedger(trace: Trace, guest: string, activity: string, cost: int, current: Option<string>)
    requires var booking := Tracked(Run(EMPTY, trace), guest);
             booking.Some? ==> booking.value.activityId != activity
    ensures var w := Run(EMPTY, trace);
            var after := After(w, Spend(guest, activity, cost, current));
            var total := CreditsOnce(trace, guest) + Fallbacks(trace, guest) - Forfeits(trace, guest);
            var booking := Tracked(w, guest);
            var given := if booking.Some? && current != Some(booking.value.activityId) then booking.value.cost else 0;
            if cost <= total - given
            then
              && Tracked(after, guest) == Some(Booking(activity, cost))
              && BalanceOf(after, guest) == total - given - cost
            else after == w
  {
    LedgerBalances(trace, guest);
  }

  // ---------------------------------------------------------------- spending and giving back

  /** A booking given back at once returns the guest to the balance before it, plus what the
      booking it replaced was refunded for. */
  lemma SpendThenRefund(w: Wallet, guest: string, activity: string, cost: int, current: Option<string>, fallback: int)
    requires cost <= Funds(w, guest, current) && !Tracks(w, guest, Some(activity))
    ensures var after := After(After(w, Spend(guest, activity, cost, current)), Refund(guest, activity, fallback));
            && BalanceOf(after, guest) == BalanceOf(w, guest) + RefundableCost(w, guest, current)
            && Tracked(after, guest).None?
            && (Tracked(w, guest).None? ==> BalanceOf(after, guest) == BalanceOf(w, guest))
  {
  }

  // ---------------------------------------------------------------- whose credit is it

  /** Two guests' credits can be mistaken for each other. */
  ghost predicate Confusable(g: string, h: string) {
    exists r: string, s: string :: CreditKey(g, r) == CreditKey(h, s)
  }

  lemma KeyPrefix(g: string, r: string, h: string, s: string)
    requires |g| < |h| && CreditKey(g, r) == CreditKey(h, s)
    ensures g + ":" <= h
  {
    var k := CreditKey(g, r);
    assert k[..|g| + 1] == g + ":" && k[..|h|] == h;
    assert h[..|g| + 1] == k[..|g| + 1];
  }

  lemma SameLength(g: string, r: string, h: string, s: string)
    requires |g| == |h| && CreditKey(g, r) == CreditKey(h, s)
    ensures g == h && r == s
  {
    var k := CreditKey(g, r);
    assert k[..|g|] == g && k[..|h|] == h;
    assert k[|g| + 1..] == r && k[|h| + 1..] == s;
  }

  lemma ExtensionConfuses(g: string, h: string)
    requires g + ":" <= h
    ensures Confusable(g, h) && Confusable(h, g)
  {
    var r := h[|g| + 1..] + ":";
    assert h == g + ":" + h[|g| + 1..];
    assert CreditKey(g, r) == CreditKey(h, "");
  }

  /** Credits of different guests can collide exactly if one guest's id continues the other's
      with a colon. */
  lemma ConfusableIff(g: string, h: string)
    requires g != h
    ensures Confusable(g, h) <==> g + ":" <= h || h + ":" <= g
  {
    if g + ":" <= h { ExtensionConfuses(g, h); }
    if h + ":" <= g { ExtensionConfuses(h, g); }
    if Confusable(g, h) {
      var r: string, s: string :| CreditKey(g, r) == CreditKey(h, s);
      if |g| < |h| { KeyPrefix(g, r, h, s); }
      else if |h| < |g| { KeyPrefix(h, s, g, r); }
      else { SameLength(g, r, h, s); }
    }
  }

  // ---------------------------------------------------------------- other guests

  function Own(trace: Trace, guest: string): Trace {
    if trace == [] then []
    else Own(trace[..|trace| - 1], guest) + if trace[|trace| - 1].guest == guest then [trace[|trace| - 1]] else []
  }

  /** Two wallets look the same to a guest. */
  ghost predicate SameFor(v: Wallet, w: Wallet, guest: string) {
    && BalanceOf(v, guest) == BalanceOf(w, guest) && Tracked(v, guest) == Tracked(w, guest)
    && forall r: string :: CreditKey(guest, r) in v.credited <==> CreditKey(guest, r) in w.credited
  }

  lemma OtherStepInvisible(v: Wallet, w: Wallet, s: Step, guest: string)
    requires SameFor(v, w, guest) && s.guest != guest && !Confusable(s.guest, guest)
    ensures SameFor(After(v, s), w, guest)
  {
    if s.Credit? {
      forall r: string ensures CreditKey(guest, r) != CreditKey(s.guest, s.reservation) {}
    }
  }

  lemma OwnStepAgrees(v: Wallet, w: Wallet, s: Step, guest: string)
    requires SameFor(v, w, guest) && s.guest == guest
    ensures SameFor(After(v, s), After(w, s), guest)
  {
  }

  /** A guest's wallet depends on the guest's own steps only, if nobody's id in the run continues,
      or is continued by, the guest's with a colon. */
  lemma {:induction false} OthersDoNotMatter(trace: Trace, guest: string)
    requires forall i :: 0 <= i < |trace| && trace[i].guest != guest ==>
               !(trace[i].guest + ":" <= guest) && !(guest + ":" <= trace[i].guest)
    ensures SameFor(Run(EMPTY, trace), Run(EMPTY, Own(trace, guest)), guest)
  {
    if trace != [] {
      var before, s := trace[..|trace| - 1], trace[|trace| - 1];
      OthersDoNotMatter(before, guest);
      if s.guest == guest {
        assert Own(trace, guest)[..|Own(trace, guest)| - 1] == Own(before, guest);
        OwnStepAgrees(Run(EMPTY, before), Run(EMPTY, Own(before, guest)), s, guest);
      } else {
        ConfusableIff(s.guest, guest);
        OtherStepInvisible(Run(EMPTY, before), Run(EMPTY, Own(before, guest)), s, guest);
        assert Own(trace, guest) == Own(before, guest);
      }
    }
  }

  /** Otherwise a credit can be swallowed: the second guest's first credit is refused. */
  lemma CreditSwallowed(g: string, h: string, amount: int)
    requires g + ":" <= h && amount > 0
    ensures exists r: string, s: string ::
              After(Run(EMPTY, [Credit(g, r, amount)]), Credit(h, s, amount)) == Run(EMPTY, [Credit(g, r, amount)])
  {
    ExtensionConfuses(g, h);
    var r: string, s: string :| CreditKey(g, r) == CreditKey(h, s);
    var trace := [Credit(g, r, amount)];
    assert trace[..0] == [];
    assert CreditKey(h, s) in Run(EMPTY, trace).credited;
    assert After(Run(EMPTY, trace), Credit(h, s, amount)) == Run(EMPTY, trace);
  }
}
