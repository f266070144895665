/**
  What the response cache does over whole traces: hits are exactly the last
  accepted entry, recently used keys are never lost, and a larger cache always
  holds at least what a smaller one holds (stack inclusion).
 */
module CacheLaws {
  import opened Wrappers
  import opened CacheModel
  import opened Sets

  datatype Op = GetOp(key: Key, now: int) | SetOp(key: Key, entry: Entry, now: int)

  type Trace = seq<Op>

  function Apply(cfg: Config, s: Recency, op: Op): Recency {
    match op
    case GetOp(k, now) => Get(s, k, now).0
    case SetOp(k, e, now) => Set(cfg, s, k, e, now)
  }

  /** The cache after a trace of calls on an empty one. */
  function Run(cfg: Config, t: Trace): Recency {
    if t == [] then [] else Apply(cfg, Run(cfg, t[..|t| - 1]), t[|t| - 1])
  }

  lemma {:induction false} RunBounded(cfg: Config, t: Trace)
    ensures Bounded(cfg, Run(cfg, t))
  {
    if t != [] {
      RunBounded(cfg, t[..|t| - 1]);
      var s := Run(cfg, t[..|t| - 1]);
      match t[|t| - 1]
      case GetOp(k, now) => GetKeeps(cfg, s, k, now);
      case SetOp(k, e, now) => SetKeeps(cfg, s, k, e, now);
    }
  }

  // ---------------------------------------------------------------- one call

  lemma {:induction false} LookupAt(s: Recency, i: nat)
    requires UniqueKeys(s) && i < |s|
    ensures Lookup(s, s[i].key) == Some(s[i].entry)
  {
    LookupFacts(s, s[i].key);
    assert Record(s[i].key, s[i].entry) in s;
  }

  /** What a `get` of the record at place `i` leaves: the record is dropped if it has expired, and is else the
      answer and moves to the front; the others keep their order. */
  lemma GetMoves(s: Recency, i: nat, now: int)
    requires UniqueKeys(s) && i < |s|
    ensures Get(s, s[i].key, now) ==
            if now > s[i].entry.expires then (s[..i] + s[i + 1..], None)
            else ([s[i]] + (s[..i] + s[i + 1..]), Some(s[i].entry))
  {
    LookupAt(s, i);
    WithoutAt(s, i);
  }

  /** A `get` of any other key changes nothing. */
  lemma GetMisses(s: Recency, k: Key, now: int)
    requires forall i :: 0 <= i < |s| ==> s[i].key != k
    ensures Get(s, k, now) == (s, None)
  {
    LookupFacts(s, k);
  }

  /** What a `set` leaves: nothing new if the cache holds nothing or the body is too long; else the entry with
      its expiry in front, the old record of the key gone, and of the rest, in order, as many as there is
      room for. */
  lemma SetMoves(cfg: Config, s: Recency, k: Key, e: Entry, now: int, i: nat)
    requires Bounded(cfg, s) && i <= |s| && (if i < |s| then s[i].key == k else k !in KeySet(s))
    ensures var after := Set(cfg, s, k, e, now);
            var others := if i < |s| then s[..i] + s[i + 1..] else s;
            if cfg.maxEntries <= 0 || (cfg.maxBodyBytes > 0 && |e.body| > cfg.maxBodyBytes) then after == s
            else
              && after != [] && after[0] == Record(k, Entry(e.status, e.header, e.body, now + cfg.ttl))
              && after[1..] == if |others| < cfg.maxEntries then others else others[..cfg.maxEntries - 1]
  {
    if i < |s| {
      WithoutAt(s, i);
    } else {
      WithoutFacts(s, k);
    }
  }

  // ---------------------------------------------------------------- the timed log

  /** The reference: the last entry stored under `k` that the filter accepted, stamped. */
  function LastAccepted(cfg: Config, t: Trace, k: Key): Option<Entry> {
    if t == [] then None
    else
      var op := t[|t| - 1];
      if op.SetOp? && op.key == k && Accepted(cfg, op.entry)
      then Some(Stamped(cfg, op.entry, op.now))
      else LastAccepted(cfg, t[..|t| - 1], k)
  }

  lemma {:induction false} InWithout(s: Recency, k: Key, r: Record)
    requires r in Without(s, k)
    ensures r in s && r.key != k
  {
    if s[0].key == k || r != s[0] { InWithout(s[1..], k, r); }
  }

  lemma {:induction false} StoredIsLatest(cfg: Config, t: Trace, r: Record)
    requires r in Run(cfg, t)
    ensures LastAccepted(cfg, t, r.key) == Some(r.entry)
  {
    var before, op := t[..|t| - 1], t[|t| - 1];
    var s := Run(cfg, before);
    if r in Without(s, op.key) { InWithout(s, op.key, r); }
    LookupFacts(s, op.key);
    if r in s && !(op.SetOp? && op.key == r.key && Accepted(cfg, op.entry)) {
      StoredIsLatest(cfg, before, r);
    }
  }

  /** A hit returns exactly the last accepted entry of its key, no older than the ttl. */
  lemma HitIsLastAccepted(cfg: Config, t: Trace, k: Key, now: int)
    requires Get(Run(cfg, t), k, now).1.Some?
    ensures Get(Run(cfg, t), k, now).1 == LastAccepted(cfg, t, k)
    ensures now <= LastAccepted(cfg, t, k).value.expires
  {
    var s := Run(cfg, t);
    LookupFacts(s, k);
    StoredIsLatest(cfg, t, Record(k, Lookup(s, k).value));
  }

  // ---------------------------------------------------------------- in terms of the calls themselves

  /** Call `i` of the trace is a `set` of `k` that the cache takes: it may hold entries at all, and the
      body is within the limit if there is one. */
  predicate Takes(cfg: Config, t: Trace, k: Key, i: nat) {
    && i < |t| && t[i].SetOp? && t[i].key == k
    && cfg.maxEntries > 0 && (cfg.maxBodyBytes <= 0 || |t[i].entry.body| <= cfg.maxBodyBytes)
  }

  ghost predicate LastTaken(cfg: Config, t: Trace, k: Key, i: nat) {
    Takes(cfg, t, k, i) && forall j: nat :: i < j ==> !Takes(cfg, t, k, j)
  }

  predicate SameContent(a: Entry, b: Entry) {
    a.status == b.status && a.header == b.header && a.body == b.body
  }

  lemma {:induction false} LastTakenIsAccepted(cfg: Config, t: Trace, k: Key, i: nat)
    requires LastTaken(cfg, t, k, i)
    ensures var a := LastAccepted(cfg, t, k);
            a.Some? && SameContent(a.value, t[i].entry) && a.value.expires == t[i].now + cfg.ttl
  {
    var before := t[..|t| - 1];
    if i < |t| - 1 {
      assert !Takes(cfg, t, k, |t| - 1);
      forall j: nat | i < j ensures !Takes(cfg, before, k, j) { assert !Takes(cfg, t, k, j); }
      LastTakenIsAccepted(cfg, before, k, i);
    }
  }

  lemma {:induction false} AcceptedWasTaken(cfg: Config, t: Trace, k: Key) returns (i: nat)
    requires LastAccepted(cfg, t, k).Some?
    ensures LastTaken(cfg, t, k, i)
  {
    i := |t| - 1;
    if !Takes(cfg, t, k, i) {
      i := AcceptedWasTaken(cfg, t[..|t| - 1], k);
      forall j: nat | i < j ensures !Takes(cfg, t, k, j) { assert !Takes(cfg, t[..|t| - 1], k, j); }
    }
  }

  /** A hit returns the status, header and body of the last `set` of the key that was taken, and not
      later than the ttl after it. */
  lemma HitIsWhatWasSet(cfg: Config, t: Trace, k: Key, now: int) returns (i: nat)
    requires Get(Run(cfg, t), k, now).1.Some?
    ensures LastTaken(cfg, t, k, i) && now <= t[i].now + cfg.ttl
    ensures SameContent(Get(Run(cfg, t), k, now).1.value, t[i].entry)
  {
    HitIsLastAccepted(cfg, t, k, now);
    i := AcceptedWasTaken(cfg, t, k);
    LastTakenIsAccepted(cfg, t, k, i);
  }

  /** Right after a `set` that is taken, the key is a hit if and only if the ttl has not passed. */
  lemma FreshAfterSetIff(cfg: Config, t: Trace, k: Key, e: Entry, at: int, now: int)
    requires Takes(cfg, t + [SetOp(k, e, at)], k, |t|)
    ensures var hit := Get(Run(cfg, t + [SetOp(k, e, at)]), k, now).1;
            && (hit.Some? <==> now <= at + cfg.ttl)
            && (hit.Some? ==> SameContent(hit.value, e))
  {
    assert (t + [SetOp(k, e, at)])[..|t|] == t;
    var s := Run(cfg, t + [SetOp(k, e, at)]);
    assert s[0].key == k && Lookup(s, k) == Some(s[0].entry);
  }

  // ---------------------------------------------------------------- recently used keys stay

  /** Does the last call of `t` use its key, that is, store it or hit it? */
  predicate Uses(cfg: Config, t: Trace)
    requires t != []
  {
    var op := t[|t| - 1];
    if op.SetOp? then Accepted(cfg, op.entry)
    else Get(Run(cfg, t[..|t| - 1]), op.key, op.now).1.Some?
  }

  /** The other keys stored or hit since `k` was last stored or hit. */
  function UsedSince(cfg: Config, t: Trace, k: Key): set<Key> {
    if t == [] then {}
    else
      var op := t[|t| - 1];
      if !Uses(cfg, t) then UsedSince(cfg, t[..|t| - 1], k)
      else if op.key == k then {}
      else UsedSince(cfg, t[..|t| - 1], k) + {op.key}
  }

  /** The keys more recent than `k`. */
  function Ahead(s: Recency, k: Key): set<Key> {
    if s == [] || s[0].key == k then {} else {s[0].key} + Ahead(s[1..], k)
  }

  lemma {:induction false} AheadWithout(s: Recency, j: Key, k: Key)
    requires j != k
    ensures Ahead(Without(s, j), k) == Ahead(s, k) - {j}
  {
    if s != [] { AheadWithout(s[1..], j, k); }
  }

  /** The record at index `i` has exactly `i` keys ahead of it. */
  lemma {:induction false} AheadOfIndex(s: Recency, i: nat)
    requires UniqueKeys(s) && i < |s|
    ensures |Ahead(s, s[i].key)| == i
  {
    if i > 0 {
      AheadOfIndex(s[1..], i - 1);
      AheadInKeys(s[1..], s[i].key);
      assert s[0].key !in KeySet(s[1..]);
    }
  }

  /** The same keys in any longer cut. */
  lemma {:induction false} AheadInCut(s: Recency, i: nat, n: nat)
    requires i < n <= |s|
    ensures Ahead(s[..n], s[i].key) == Ahead(s, s[i].key)
  {
    var k := s[i].key;
    assert s[..n][0] == s[0];
    if s[0].key != k {
      AheadInCut(s[1..], i - 1, n - 1);
      assert s[..n][1..] == s[1..][..n - 1];
    }
  }

  /** Cutting a list to `n` keeps `k` when fewer than `n` keys are ahead of it. */
  lemma {:induction false} FrontKeeps(s: Recency, n: nat, k: Key)
    requires UniqueKeys(s) && k in KeySet(s) && |Ahead(s, k)| < n
    ensures k in KeySet(Front(s, n)) && Ahead(Front(s, n), k) == Ahead(s, k)
  {
    var i :| 0 <= i < |s| && s[i].key == k;
    AheadOfIndex(s, i);
    if n < |s| {
      AheadInCut(s, i, n);
      assert s[..n][i].key == k;
    }
  }

  lemma {:induction false} AheadInKeys(s: Recency, k: Key)
    ensures Ahead(s, k) <= KeySet(s)
  {
    if s != [] {
      KeySetCons(s);
      AheadInKeys(s[1..], k);
    }
  }

  /** The heart of the recency law: while `k` has not been idle for `maxEntries` other keys
      and no get has seen it expire, it is in the list behind only the keys used since. */
  lemma {:induction false} RecentIsHeld(cfg: Config, t: Trace, k: Key, now: int)
    requires LastAccepted(cfg, t, k).Some? && now <= LastAccepted(cfg, t, k).value.expires
    requires forall i :: 0 <= i < |t| && t[i].GetOp? ==> t[i].now <= now
    requires |UsedSince(cfg, t, k)| < cfg.maxEntries
    ensures k in KeySet(Run(cfg, t)) && Ahead(Run(cfg, t), k) <= UsedSince(cfg, t, k)
  {
    var before, op := t[..|t| - 1], t[|t| - 1];
    var s := Run(cfg, before);
    RunBounded(cfg, before);
    WithoutFacts(s, op.key);
    if op.key == k && Uses(cfg, t) {
      KeySetCons(Run(cfg, t));
    } else {
      assert UsedSince(cfg, before, k) <= UsedSince(cfg, t, k);
      SubsetSize(UsedSince(cfg, before, k), UsedSince(cfg, t, k));
      RecentIsHeld(cfg, before, k, now);
      if op.key == k {
        LookupFacts(s, k);
        StoredIsLatest(cfg, before, Record(k, Lookup(s, k).value));
      } else {
        OtherKeepsRecent(cfg, s, op, k, UsedSince(cfg, t, k));
      }
    }
  }

  /** Putting another record in front, then cutting, leaves `k` behind only used keys. */
  lemma PushKeepsRecent(s: Recency, r: Record, n: nat, k: Key, used: set<Key>)
    requires UniqueKeys(s) && k in KeySet(s) && r.key != k && r.key !in KeySet(s)
    requires Ahead(s, k) + {r.key} <= used && |used| < n
    ensures k in KeySet(Front([r] + s, n)) && Ahead(Front([r] + s, n), k) <= used
  {
    var moved := [r] + s;
    assert moved[1..] == s;
    KeySetCons(moved);
    ConsUnique(r, s);
    SubsetSize(Ahead(moved, k), used);
    FrontKeeps(moved, n, k);
  }

  /** A call on another key leaves `k` behind at most that key and those already ahead. */
  lemma OtherKeepsRecent(cfg: Config, s: Recency, op: Op, k: Key, used: set<Key>)
    requires Bounded(cfg, s) && k in KeySet(s) && op.key != k
    requires Ahead(s, k) <= used && |used| < cfg.maxEntries
    requires op.key in used || Apply(cfg, s, op) == s || Apply(cfg, s, op) == Without(s, op.key)
    ensures k in KeySet(Apply(cfg, s, op)) && Ahead(Apply(cfg, s, op), k) <= used
  {
    var rest := Without(s, op.key);
    WithoutFacts(s, op.key);
    AheadWithout(s, op.key, k);
    if op.key in used {
      match op
      case SetOp(j, e, now) =>
        PushKeepsRecent(rest, Record(j, Stamped(cfg, e, now)), cfg.maxEntries, k, used);
      case GetOp(j, _) =>
        LookupFacts(s, j);
        if Lookup(s, j).Some? {
          PushKeepsRecent(rest, Record(j, Lookup(s, j).value), cfg.maxEntries, k, used);
        }
    }
  }

  /** A fresh key with fewer than `maxEntries` other keys used since its last use is a hit. */
  lemma {:induction false} RecentlyUsedIsHit(cfg: Config, t: Trace, k: Key, now: int)
    requires LastAccepted(cfg, t, k).Some? && now <= LastAccepted(cfg, t, k).value.expires
    requires forall i :: 0 <= i < |t| && t[i].GetOp? ==> t[i].now <= now
    requires |UsedSince(cfg, t, k)| < cfg.maxEntries
    ensures Get(Run(cfg, t), k, now).1 == LastAccepted(cfg, t, k)
  {
    var s := Run(cfg, t);
    RecentIsHeld(cfg, t, k, now);
    LookupFacts(s, k);
    StoredIsLatest(cfg, t, Record(k, Lookup(s, k).value));
  }

  /** The same of the call that stored it: within the ttl it is a hit with that content. */
  lemma RecentSetIsHit(cfg: Config, t: Trace, k: Key, i: nat, now: int)
    requires LastTaken(cfg, t, k, i) && now <= t[i].now + cfg.ttl
    requires forall j :: 0 <= j < |t| && t[j].GetOp? ==> t[j].now <= now
    requires |UsedSince(cfg, t, k)| < cfg.maxEntries
    ensures var hit := Get(Run(cfg, t), k, now).1; hit.Some? && SameContent(hit.value, t[i].entry)
  {
    LastTakenIsAccepted(cfg, t, k, i);
    RecentlyUsedIsHit(cfg, t, k, now);
  }

  function Keys(t: Trace): set<Key> {
    set i | 0 <= i < |t| :: t[i].key
  }

  lemma {:induction false} UsedSinceInKeys(cfg: Config, t: Trace, k: Key)
    ensures UsedSince(cfg, t, k) <= Keys(t) - {k}
  {
    if t != [] { UsedSinceInKeys(cfg, t[..|t| - 1], k); }
  }

  /** On a trace of at most `maxEntries` keys the cache is exactly the timed log. */
  lemma SmallTraceIsLog(cfg: Config, t: Trace, k: Key, now: int)
    requires k in Keys(t) && |Keys(t)| <= cfg.maxEntries
    requires forall i :: 0 <= i < |t| && t[i].GetOp? ==> t[i].now <= now
    ensures
      var log := LastAccepted(cfg, t, k);
      Get(Run(cfg, t), k, now).1 == if log.Some? && now <= log.value.expires then log else None
  {
    var log := LastAccepted(cfg, t, k);
    if log.Some? && now <= log.value.expires {
      UsedSinceInKeys(cfg, t, k);
      SubsetSize(UsedSince(cfg, t, k), Keys(t) - {k});
      RecentlyUsedIsHit(cfg, t, k, now);
    } else if Get(Run(cfg, t), k, now).1.Some? {
      HitIsLastAccepted(cfg, t, k, now);
    }
  }

  /** A `set` of the key that was taken last, at most the ttl ago. */
  ghost predicate SetWithinTtl(cfg: Config, t: Trace, k: Key, i: nat, now: int) {
    LastTaken(cfg, t, k, i) && now <= t[i].now + cfg.ttl
  }

  /** So there a key is a hit if and only if its last `set` that was taken is at most the ttl ago. */
  lemma SmallTraceHitIff(cfg: Config, t: Trace, k: Key, now: int)
    requires k in Keys(t) && |Keys(t)| <= cfg.maxEntries
    requires forall i :: 0 <= i < |t| && t[i].GetOp? ==> t[i].now <= now
    ensures Get(Run(cfg, t), k, now).1.Some? <==> exists i: nat :: SetWithinTtl(cfg, t, k, i, now)
  {
    SmallTraceIsLog(cfg, t, k, now);
    if Get(Run(cfg, t), k, now).1.Some? {
      var i := HitIsWhatWasSet(cfg, t, k, now);
      assert SetWithinTtl(cfg, t, k, i, now);
    } else if i: nat :| SetWithinTtl(cfg, t, k, i, now) {
      LastTakenIsAccepted(cfg, t, k, i);
    }
  }

  // ---------------------------------------------------------------- stack inclusion

  /** `a` is a subsequence of `b`. */
  ghost predicate Within(a: Recency, b: Recency) {
    a == [] || (b != [] && ((a[0] == b[0] && Within(a[1..], b[1..])) || Within(a, b[1..])))
  }

  lemma {:induction false} WithinKeys(a: Recency, b: Recency)
    requires Within(a, b)
    ensures KeySet(a) <= KeySet(b) && |a| <= |b|
    ensures forall r :: r in a ==> r in b
  {
    if a != [] {
      KeySetCons(a);
      KeySetCons(b);
      if a[0] == b[0] && Within(a[1..], b[1..]) {
        WithinKeys(a[1..], b[1..]);
        assert a == [a[0]] + a[1..];
      } else {
        WithinKeys(a, b[1..]);
      }
    }
  }

  lemma {:induction false} WithinWithout(a: Recency, b: Recency, k: Key)
    requires Within(a, b)
    ensures Within(Without(a, k), Without(b, k))
  {
    if a != [] {
      if a[0] == b[0] && Within(a[1..], b[1..]) {
        WithinWithout(a[1..], b[1..], k);
      } else {
        WithinWithout(a, b[1..], k);
      }
    }
  }

  lemma {:induction false} WithinDropLast(a: Recency, b: Recency)
    requires Within(a, b) && a != []
    ensures Within(a[..|a| - 1], b[..|b| - 1])
  {
    if |a| > 1 {
      WithinKeys(a, b);
      var a', b' := a[..|a| - 1], b[..|b| - 1];
      if a[0] == b[0] && Within(a[1..], b[1..]) {
        WithinDropLast(a[1..], b[1..]);
        assert a[1..][..|a| - 2] == a'[1..] && b[1..][..|b| - 2] == b'[1..];
      } else {
        WithinKeys(a, b[1..]);
        WithinDropLast(a, b[1..]);
        assert b[1..][..|b| - 2] == b'[1..];
      }
    }
  }

  lemma {:induction false} WithinShorter(a: Recency, b: Recency)
    requires Within(a, b) && a != []
    ensures Within(a[..|a| - 1], b)
  {
    if |a| > 1 {
      if a[0] == b[0] && Within(a[1..], b[1..]) {
        WithinShorter(a[1..], b[1..]);
        assert a[1..][..|a| - 2] == a[..|a| - 1][1..];
      } else {
        WithinShorter(a, b[1..]);
      }
    }
  }

  /** The relation between a small and a large cache that every call keeps. */
  ghost predicate Included(small: Config, a: Recency, large: Config, b: Recency) {
    && Bounded(small, a) && Bounded(large, b) && Within(a, b)
    && small.maxEntries - |a| <= large.maxEntries - |b|
  }

  /** The two configurations differ in capacity only. */
  ghost predicate Smaller(small: Config, large: Config) {
    small == large.(maxEntries := small.maxEntries) && small.maxEntries <= large.maxEntries
  }

  lemma GetIncluded(small: Config, a: Recency, large: Config, b: Recency, k: Key, now: int)
    requires Smaller(small, large) && Included(small, a, large, b)
    ensures Included(small, Get(a, k, now).0, large, Get(b, k, now).0)
    ensures Get(a, k, now).1.Some? ==> Get(b, k, now).1 == Get(a, k, now).1
  {
    GetKeeps(small, a, k, now);
    GetKeeps(large, b, k, now);
    LookupFacts(a, k);
    LookupFacts(b, k);
    WithinKeys(a, b);
    WithoutFacts(a, k);
    WithoutFacts(b, k);
    WithinWithout(a, b, k);
    if Lookup(b, k).Some? {
      var r := Record(k, Lookup(b, k).value);
      assert ([r] + Without(a, k))[1..] == Without(a, k);
      assert ([r] + Without(b, k))[1..] == Without(b, k);
    }
  }

  lemma SetIncluded(small: Config, a: Recency, large: Config, b: Recency, k: Key, e: Entry, now: int)
    requires Smaller(small, large) && Included(small, a, large, b)
    ensures Included(small, Set(small, a, k, e, now), large, Set(large, b, k, e, now))
  {
    SetKeeps(small, a, k, e, now);
    SetKeeps(large, b, k, e, now);
    WithinKeys(a, b);
    WithoutFacts(a, k);
    WithoutFacts(b, k);
    WithinWithout(a, b, k);
    var r := Record(k, Stamped(small, e, now));
    var a', b' := [r] + Without(a, k), [r] + Without(b, k);
    assert a'[1..] == Without(a, k) && b'[1..] == Without(b, k);
    if Accepted(small, e) { FrontIncluded(a', small.maxEntries, b', large.maxEntries); }
  }

  /** Evicting at most one record from each side keeps the inclusion. */
  lemma {:induction false} FrontIncluded(a: Recency, m: nat, b: Recency, n: nat)
    requires Within(a, b) && 0 < m <= n && |a| <= m + 1 && |b| <= n + 1 && m - |a| <= n - |b|
    ensures Within(Front(a, m), Front(b, n))
    ensures m - |Front(a, m)| <= n - |Front(b, n)|
  {
    if |a| > m {
      WithinDropLast(a, b);
      WithinShorter(a, b);
    }
  }

  /** Stack inclusion: after any trace the smaller cache's list is a subsequence of the
      larger one's, with equal entries and no more free slots. */
  lemma {:induction false} StackInclusion(small: Config, large: Config, t: Trace)
    requires Smaller(small, large)
    ensures Included(small, Run(small, t), large, Run(large, t))
  {
    if t != [] {
      var before := t[..|t| - 1];
      StackInclusion(small, large, before);
      match t[|t| - 1]
      case GetOp(k, now) => GetIncluded(small, Run(small, before), large, Run(large, before), k, now);
      case SetOp(k, e, now) => SetIncluded(small, Run(small, before), large, Run(large, before), k, e, now);
    }
  }

  /** Raising `maxEntries` never turns a hit into a miss. */
  lemma LargerCacheKeepsHits(small: Config, large: Config, t: Trace, k: Key, now: int)
    requires Smaller(small, large)
    requires Get(Run(small, t), k, now).1.Some?
    ensures Get(Run(large, t), k, now).1 == Get(Run(small, t), k, now).1
  {
    StackInclusion(small, large, t);
    GetIncluded(small, Run(small, t), large, Run(large, t), k, now);
  }
}
