/**
  The gateway's fixed-window rate limiter (gateway/ratelimit.go). `Decide` is one
  call of `allow` for one client; traces of calls carry the limit and window each
  call loaded, because `SetLimits` may change them at any time.
 */
module RateLimiters {
  import opened Wrappers

  type Client = string

  datatype Window = Window(count: int, reset: int)

  /** One call of `allow`: who, when, and the limit and window length it loaded. */
  datatype Request = Request(client: Client, now: int, limit: int, per: int)

  type Windows = map<Client, Window>

  predicate Opens(w: Option<Window>, now: int) {
    w.None? || now > w.value.reset
  }

  /** The window `allow` works on: the client's own, or a fresh one. */
  function Current(w: Option<Window>, r: Request): Window {
    if Opens(w, r.now) then Window(0, r.now + r.per) else w.value
  }

  predicate Admits(w: Option<Window>, r: Request) {
    Current(w, r).count < r.limit
  }

  function Next(w: Option<Window>, r: Request): Window {
    var cur := Current(w, r);
    if cur.count < r.limit then cur.(count := cur.count + 1) else cur
  }

  function WindowOf(ws: Windows, c: Client): Option<Window> {
    if c in ws then Some(ws[c]) else None
  }

  class RateLimiter {
    var clients: Windows
    var limit: int
    var per: int

    constructor (limit: int, per: int)
      ensures clients == map[] && this.limit == limit && this.per == per
    {
      clients := map[];
      this.limit := limit;
      this.per := per;
    }

    /** A window length of zero or less is left unchanged. */
    method SetLimits(limit: int, per: int)
      modifies this`limit, this`per
      ensures this.limit == limit && this.per == if per > 0 then per else old(this.per)
    {
      this.limit := limit;
      if per > 0 { this.per := per; }
    }

    method Allow(key: Client, now: int) returns (ok: bool)
      modifies this`clients
      ensures var r := Request(key, now, limit, per);
              var w := WindowOf(old(clients), key);
              ok == Admits(w, r) && clients == old(clients)[key := Next(w, r)]
    {
      if key !in clients || now > clients[key].reset {
        clients := clients[key := Window(0, now + per)];
      }
      if clients[key].count >= limit { return false; }
      clients := clients[key := clients[key].(count := clients[key].count + 1)];
      return true;
    }
  }

  // ---------------------------------------------------------------- traces

  type Trace = seq<Request>

  /** The clock read under the mutex never goes back. */
  ghost predicate Ordered(t: Trace) {
    forall i, j :: 0 <= i < j < |t| ==> t[i].now <= t[j].now
  }

  /** The shared map after a trace. */
  function Run(t: Trace): Windows {
    if t == [] then map[]
    else
      var ws, r := Run(t[..|t| - 1]), t[|t| - 1];
      ws[r.client := Next(WindowOf(ws, r.client), r)]
  }

  /** Was call `i` of the trace let through? */
  predicate Passed(t: Trace, i: nat)
    requires i < |t|
  {
    Admits(WindowOf(Run(t[..i]), t[i].client), t[i])
  }

  function Only(t: Trace, c: Client): Trace {
    if t == [] then []
    else Only(t[..|t| - 1], c) + if t[|t| - 1].client == c then [t[|t| - 1]] else []
  }

  /** The answers a client got, in order. */
  function Answers(t: Trace, c: Client): seq<bool> {
    if t == [] then []
    else Answers(t[..|t| - 1], c) + if t[|t| - 1].client == c then [Passed(t, |t| - 1)] else []
  }

  lemma {:induction false} ClientWindow(t: Trace, c: Client)
    ensures WindowOf(Run(t), c) == WindowOf(Run(Only(t, c)), c)
  {
    if t != [] {
      ClientWindow(t[..|t| - 1], c);
      assert Only(t[..|t| - 1], c) + [] == Only(t[..|t| - 1], c);
      if t[|t| - 1].client == c { assert Only(t, c)[..|Only(t, c)| - 1] == Only(t[..|t| - 1], c); }
    }
  }

  lemma {:induction false} OnlyIsOwn(t: Trace, c: Client)
    ensures forall i :: 0 <= i < |Only(t, c)| ==> Only(t, c)[i].client == c
  {
    if t != [] { OnlyIsOwn(t[..|t| - 1], c); }
  }

  /** Non-interference: a client's answers in a mixed trace are its answers in the trace of
      its own calls. */
  lemma {:induction false} OthersDoNotInterfere(t: Trace, c: Client)
    ensures Answers(t, c) == Answers(Only(t, c), c)
  {
    if t != [] {
      var before, own := t[..|t| - 1], Only(t, c);
      OthersDoNotInterfere(before, c);
      OnlyIsOwn(before, c);
      assert Only(before, c) + [] == Only(before, c) && Answers(before, c) + [] == Answers(before, c);
      if t[|t| - 1].client == c {
        assert own[..|own| - 1] == Only(before, c);
        ClientWindow(before, c);
      }
    }
  }

  // ---------------------------------------------------------------- admissions over time

  /** How many calls of `c` were let through at times in `[lo, hi]`. */
  function Admitted(t: Trace, c: Client, lo: int, hi: int): nat {
    if t == [] then 0
    else
      Admitted(t[..|t| - 1], c, lo, hi) +
      if t[|t| - 1].client == c && lo <= t[|t| - 1].now <= hi && Passed(t, |t| - 1) then 1 else 0
  }

  ghost predicate Constant(t: Trace, limit: int, per: int) {
    forall i :: 0 <= i < |t| ==> t[i].limit == limit && t[i].per == per
  }

  lemma {:induction false} NothingBefore(t: Trace, c: Client, lo: int, hi: int)
    requires forall i :: 0 <= i < |t| && t[i].client == c ==> t[i].now < lo
    ensures Admitted(t, c, lo, hi) == 0
  {
    if t != [] { NothingBefore(t[..|t| - 1], c, lo, hi); }
  }

  /** Every past call of a client lies at or before the end of its current window. */
  lemma {:induction false} PastWithinWindow(t: Trace, c: Client, limit: int, per: int)
    requires Ordered(t) && Constant(t, limit, per) && per > 0
    ensures forall i :: 0 <= i < |t| && t[i].client == c ==> c in Run(t) && t[i].now <= Run(t)[c].reset
  {
    if t != [] { PastWithinWindow(t[..|t| - 1], c, limit, per); }
  }

  /** The accounting kept by every call, for the interval `[lo, lo + per]`. A window that
      opened before `lo` spent its first admission outside the interval; a window that
      opened inside it follows at most one such window. */
  lemma {:induction false} WindowAccounting(t: Trace, c: Client, limit: int, per: int, lo: int)
    requires Ordered(t) && Constant(t, limit, per) && limit > 0 && per > 0
    ensures c !in Run(t) ==> Admitted(t, c, lo, lo + per) == 0
    ensures c in Run(t) ==>
              var w, n := Run(t)[c], Admitted(t, c, lo, lo + per);
              && t != [] && w.reset - per <= t[|t| - 1].now
              && 1 <= w.count <= limit && n <= 2 * limit - 1
              && (w.reset - per < lo ==> n <= w.count - 1)
              && (w.reset - per == lo ==> n <= w.count)
              && (lo < w.reset - per <= lo + per ==> n <= limit - 1 + w.count)
  {
    if t != [] {
      var before, r := t[..|t| - 1], t[|t| - 1];
      WindowAccounting(before, c, limit, per, lo);
      if r.client == c && Opens(WindowOf(Run(before), c), r.now) {
        PastWithinWindow(before, c, limit, per);
        if r.now <= lo { NothingBefore(before, c, lo, lo + per); }
      }
    }
  }

  /** With a constant limit and window, a client gets fewer than twice the limit through in
      any closed interval of one window length, whatever the other clients do. */
  lemma BelowTwiceTheLimit(t: Trace, c: Client, limit: int, per: int, lo: int)
    requires Ordered(t) && Constant(t, limit, per) && limit > 0 && per > 0
    ensures Admitted(t, c, lo, lo + per) <= 2 * limit - 1
  {
    WindowAccounting(t, c, limit, per, lo);
  }

  /** `n` equal calls in a row. */
  function Burst(r: Request, n: nat): Trace {
    seq(n, i => r)
  }

  lemma OneMorePasses(t: Trace, r: Request, lo: int, hi: int)
    requires lo <= r.now <= hi && r.client in Run(t)
    requires r.now <= Run(t)[r.client].reset && Run(t)[r.client].count < r.limit
    ensures r.client in Run(t + [r])
    ensures Run(t + [r])[r.client] == Run(t)[r.client].(count := Run(t)[r.client].count + 1)
    ensures Admitted(t + [r], r.client, lo, hi) == Admitted(t, r.client, lo, hi) + 1
  {
    RunStep(t, r);
    assert (t + [r])[..|t|] == t;
  }

  /** A burst that fits into what the current window has left passes whole. */
  lemma {:induction false} BurstPasses(t: Trace, r: Request, n: nat, lo: int, hi: int)
    requires lo <= r.now <= hi
    requires r.client in Run(t) && r.now <= Run(t)[r.client].reset
    requires Run(t)[r.client].count + n <= r.limit
    ensures r.client in Run(t + Burst(r, n))
    ensures Run(t + Burst(r, n))[r.client] == Run(t)[r.client].(count := Run(t)[r.client].count + n)
    ensures Admitted(t + Burst(r, n), r.client, lo, hi) == Admitted(t, r.client, lo, hi) + n
  {
    var u := t + Burst(r, n);
    if n == 0 {
      assert u == t;
    } else {
      var before := t + Burst(r, n - 1);
      BurstPasses(t, r, n - 1, lo, hi);
      assert u == before + [r];
      OneMorePasses(before, r, lo, hi);
    }
  }

  /** The bound is attained for every limit and every window length. */
  lemma BoundIsAttained(c: Client, limit: int, per: int, lo: int) returns (t: Trace)
    requires limit > 0 && per > 0
    ensures Ordered(t) && Constant(t, limit, per)
    ensures Admitted(t, c, lo, lo + per) == 2 * limit - 1
  {
    var r0, r1 := Request(c, lo - 1, limit, per), Request(c, lo - 1 + per, limit, per);
    var r2 := Request(c, lo + per, limit, per);
    FirstOfBound(r0, r1, lo, lo + per);
    RestOfBound([r0] + Burst(r1, limit - 1), r2, limit, lo, lo + per);
    AttainingTrace(r0, r1, r2, limit - 1);
    t := [r0] + Burst(r1, limit - 1) + [r2] + Burst(r2, limit - 1);
  }

  /** A window that opened before the interval adds all of its limit but one. */
  lemma FirstOfBound(r0: Request, r1: Request, lo: int, hi: int)
    requires r0.client == r1.client && r0.limit == r1.limit > 0
    requires r0.now < lo <= r1.now <= hi && r1.now <= r0.now + r0.per
    ensures var t := [r0] + Burst(r1, r0.limit - 1);
            && r0.client in Run(t) && Run(t)[r0.client].reset == r0.now + r0.per
            && Admitted(t, r0.client, lo, hi) == r0.limit - 1
  {
    assert [r0][..0] == [];
    BurstPasses([r0], r1, r0.limit - 1, lo, hi);
  }

  lemma AttainingTrace(r0: Request, r1: Request, r2: Request, n: nat)
    requires r0.now <= r1.now <= r2.now
    requires r0.limit == r1.limit == r2.limit && r0.per == r1.per == r2.per
    ensures var t := [r0] + Burst(r1, n) + [r2] + Burst(r2, n);
            Ordered(t) && Constant(t, r0.limit, r0.per)
  {
    var t := [r0] + Burst(r1, n) + [r2] + Burst(r2, n);
    forall i | 0 <= i < |t| ensures t[i] == if i == 0 then r0 else if i <= n then r1 else r2 {}
  }

  /** A window that opens inside the interval adds its whole limit. */
  lemma RestOfBound(t: Trace, r: Request, limit: int, lo: int, hi: int)
    requires limit == r.limit > 0 && r.per > 0 && lo <= r.now <= hi
    requires r.client in Run(t) && r.now > Run(t)[r.client].reset
    ensures Admitted(t + [r] + Burst(r, limit - 1), r.client, lo, hi) == Admitted(t, r.client, lo, hi) + limit
  {
    assert (t + [r])[..|t + [r]| - 1] == t;
    BurstPasses(t + [r], r, limit - 1, lo, hi);
  }

  // ---------------------------------------------------------------- one fixed window

  /** How many of the calls `seg`, made after `pre`, were let through. */
  function PassedIn(pre: Trace, seg: Trace): nat {
    if seg == [] then 0
    else
      PassedIn(pre, seg[..|seg| - 1]) +
      if Passed(pre + seg, |pre| + |seg| - 1) then 1 else 0
  }

  /** `seg` are the calls of one client in one window: the first opens it, no later one
      opens another. */
  ghost predicate OneWindow(pre: Trace, seg: Trace, c: Client) {
    && seg != []
    && var rest, r := seg[..|seg| - 1], seg[|seg| - 1];
       && r.client == c
       && (rest != [] ==> OneWindow(pre, rest, c))
       && (Opens(WindowOf(Run(pre + rest), c), r.now) <==> rest == [])
  }

  lemma RunStep(t: Trace, r: Request)
    ensures Run(t + [r]) == Run(t)[r.client := Next(WindowOf(Run(t), r.client), r)]
    ensures Passed(t + [r], |t|) == Admits(WindowOf(Run(t), r.client), r)
  {
    assert (t + [r])[..|t|] == t;
  }

  /** Also when the limits change at run time, a window lets through at most the largest limit
      in force during it, and at least the smallest (or every call); with a constant limit that
      is exactly the smaller of the limit and the number of calls. */
  lemma {:induction false} FixedWindow(pre: Trace, seg: Trace, c: Client, least: nat, most: nat)
    requires OneWindow(pre, seg, c)
    requires forall i :: 0 <= i < |seg| ==> least <= seg[i].limit <= most
    ensures c in Run(pre + seg) && Run(pre + seg)[c].count == PassedIn(pre, seg)
    ensures PassedIn(pre, seg) <= most
    ensures PassedIn(pre, seg) >= if |seg| <= least then |seg| else least
  {
    var rest, r := seg[..|seg| - 1], seg[|seg| - 1];
    assert pre + seg == (pre + rest) + [r];
    RunStep(pre + rest, r);
    if rest != [] { FixedWindow(pre, rest, c, least, most); }
  }

  // ---------------------------------------------------------------- one window in a mixed trace

  /** How many of the calls of `c` in `seg`, made after `pre`, were let through. */
  function PassedOf(pre: Trace, seg: Trace, c: Client): nat {
    if seg == [] then 0
    else
      PassedOf(pre, seg[..|seg| - 1], c) +
      if seg[|seg| - 1].client == c && Passed(pre + seg, |pre| + |seg| - 1) then 1 else 0
  }

  lemma {:induction false} OwnConcat(a: Trace, b: Trace, c: Client)
    ensures Only(a + b, c) == Only(a, c) + Only(b, c)
  {
    if b == [] {
      assert a + b == a;
    } else {
      assert (a + b)[..|a + b| - 1] == a + b[..|b| - 1];
      OwnConcat(a, b[..|b| - 1], c);
    }
  }

  /** A call gets the answer it would get after the client's own calls alone. */
  lemma {:induction false} SameAnswer(pre: Trace, rest: Trace, r: Request)
    ensures var own := Only(pre, r.client) + Only(rest, r.client);
            Passed((pre + rest) + [r], |pre + rest|) == Passed(own + [r], |own|)
  {
    RunStep(pre + rest, r);
    RunStep(Only(pre, r.client) + Only(rest, r.client), r);
    OwnConcat(pre, rest, r.client);
    ClientWindow(pre + rest, r.client);
  }

  lemma {:induction false} PassedOfOwn(pre: Trace, seg: Trace, c: Client)
    ensures PassedOf(pre, seg, c) == PassedIn(Only(pre, c), Only(seg, c))
  {
    if seg != [] {
      var rest, r := seg[..|seg| - 1], seg[|seg| - 1];
      var own, ownRest := Only(seg, c), Only(rest, c);
      PassedOfOwn(pre, rest, c);
      if r.client == c {
        assert own == ownRest + [r] && own[..|own| - 1] == ownRest;
        assert pre + seg == (pre + rest) + [r] && Only(pre, c) + own == (Only(pre, c) + ownRest) + [r];
        SameAnswer(pre, rest, r);
      } else {
        assert own == ownRest;
      }
    }
  }

  /** The calls a client makes during one of its windows, whoever else calls in between: at most the
      largest limit in force is let through, and at least the smallest, or every call. */
  lemma {:induction false} FixedWindowAmongOthers(pre: Trace, seg: Trace, c: Client, least: nat, most: nat)
    requires OneWindow(Only(pre, c), Only(seg, c), c)
    requires forall i :: 0 <= i < |seg| && seg[i].client == c ==> least <= seg[i].limit <= most
    ensures c in Run(pre + seg) && Run(pre + seg)[c].count == PassedOf(pre, seg, c)
    ensures PassedOf(pre, seg, c) <= most
    ensures PassedOf(pre, seg, c) >= if |Only(seg, c)| <= least then |Only(seg, c)| else least
  {
    OnlyWithin(seg, c, least, most);
    FixedWindow(Only(pre, c), Only(seg, c), c, least, most);
    PassedOfOwn(pre, seg, c);
    OwnConcat(pre, seg, c);
    ClientWindow(pre + seg, c);
  }

  lemma {:induction false} OnlyWithin(t: Trace, c: Client, least: nat, most: nat)
    requires forall i :: 0 <= i < |t| && t[i].client == c ==> least <= t[i].limit <= most
    ensures forall i :: 0 <= i < |Only(t, c)| ==> least <= Only(t, c)[i].limit <= most
  {
    if t != [] { OnlyWithin(t[..|t| - 1], c, least, most); }
  }
}
