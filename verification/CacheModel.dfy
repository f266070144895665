/**
  The value-level view of the gateway's response cache (gateway/cache.go): the
  records it holds, most recently used first. `Get` and `Set` describe one call
  on that view.
 */
module CacheModel {
  import opened Wrappers

  type Key = string
  type Byte = bv8

  datatype Entry = Entry(status: int, header: map<string, seq<string>>, body: seq<Byte>, expires: int)

  datatype Record = Record(key: Key, entry: Entry)

  type Recency = seq<Record>

  datatype Config = Config(ttl: int, maxEntries: int, maxBodyBytes: int)

  ghost predicate UniqueKeys(s: Recency) {
    forall i, j :: 0 <= i < j < |s| ==> s[i].key != s[j].key
  }

  ghost function KeySet(s: Recency): set<Key> {
    set i | 0 <= i < |s| :: s[i].key
  }

  function Lookup(s: Recency, k: Key): Option<Entry> {
    if s == [] then None
    else if s[0].key == k then Some(s[0].entry)
    else Lookup(s[1..], k)
  }

  /** `s` without its records for `k`. */
  function Without(s: Recency, k: Key): Recency {
    if s == [] then []
    else if s[0].key == k then Without(s[1..], k)
    else [s[0]] + Without(s[1..], k)
  }

  /** The first `n` records of `s`. */
  function Front(s: Recency, n: int): Recency {
    if n <= 0 then [] else if |s| <= n then s else s[..n]
  }

  predicate Accepted(cfg: Config, e: Entry) {
    cfg.maxEntries > 0 && !(cfg.maxBodyBytes > 0 && |e.body| > cfg.maxBodyBytes)
  }

  function Stamped(cfg: Config, e: Entry, now: int): Entry {
    e.(expires := now + cfg.ttl)
  }

  function Get(s: Recency, k: Key, now: int): (Recency, Option<Entry>) {
    match Lookup(s, k)
    case None => (s, None)
    case Some(e) =>
      if now > e.expires then (Without(s, k), None)
      else ([Record(k, e)] + Without(s, k), Some(e))
  }

  function Set(cfg: Config, s: Recency, k: Key, e: Entry, now: int): Recency {
    if Accepted(cfg, e)
    then Front([Record(k, Stamped(cfg, e, now))] + Without(s, k), cfg.maxEntries)
    else s
  }

  // ---------------------------------------------------------------- lists with unique keys

  lemma {:induction false} WithoutFacts(s: Recency, k: Key)
    requires UniqueKeys(s)
    ensures UniqueKeys(Without(s, k))
    ensures KeySet(Without(s, k)) == KeySet(s) - {k}
    ensures |Without(s, k)| == if k in KeySet(s) then |s| - 1 else |s|
    ensures k !in KeySet(s) ==> Without(s, k) == s
  {
    if s != [] {
      var t := s[1..];
      assert forall i :: 0 <= i < |t| ==> t[i] == s[i + 1];
      assert KeySet(s) == {s[0].key} + KeySet(t) by { KeySetCons(s); }
      WithoutFacts(t, k);
      assert s[0].key !in KeySet(t);
      if s[0].key != k {
        var w := Without(t, k);
        assert Without(s, k) == [s[0]] + w;
        KeySetCons([s[0]] + w);
        assert ([s[0]] + w)[1..] == w;
        forall i | 0 <= i < |w| ensures w[i].key != s[0].key { assert w[i].key in KeySet(w); }
      }
    }
  }

  lemma KeySetCons(s: Recency)
    requires s != []
    ensures KeySet(s) == {s[0].key} + KeySet(s[1..])
  {
    forall x | x in KeySet(s) ensures x in {s[0].key} + KeySet(s[1..]) {
      var i :| 0 <= i < |s| && s[i].key == x;
      if i > 0 { assert s[1..][i - 1].key == x; }
    }
    forall x | x in KeySet(s[1..]) ensures x in KeySet(s) {
      var i :| 0 <= i < |s[1..]| && s[1..][i].key == x;
      assert s[i + 1].key == x;
    }
  }

  lemma {:induction false} LookupFacts(s: Recency, k: Key)
    ensures Lookup(s, k).Some? <==> k in KeySet(s)
    ensures Lookup(s, k).Some? ==> Record(k, Lookup(s, k).value) in s
    ensures UniqueKeys(s) ==> forall e :: Record(k, e) in s ==> Lookup(s, k) == Some(e)
  {
    if s != [] {
      KeySetCons(s);
      LookupFacts(s[1..], k);
      if UniqueKeys(s) {
        assert UniqueKeys(s[1..]);
        forall e | Record(k, e) in s ensures Lookup(s, k) == Some(e) {
          var i :| 0 <= i < |s| && s[i] == Record(k, e);
          if i > 0 { assert s[1..][i - 1] == Record(k, e); }
        }
      }
    }
  }

  /** What every call keeps: distinct keys and at most `maxEntries` records. */
  ghost predicate Bounded(cfg: Config, s: Recency) {
    UniqueKeys(s) && |s| <= if cfg.maxEntries <= 0 then 0 else cfg.maxEntries
  }

  lemma ConsUnique(r: Record, s: Recency)
    requires UniqueKeys(s) && r.key !in KeySet(s)
    ensures UniqueKeys([r] + s)
  {
    forall i | 0 <= i < |s| ensures s[i].key != r.key { assert s[i].key in KeySet(s); }
  }

  lemma GetKeeps(cfg: Config, s: Recency, k: Key, now: int)
    requires Bounded(cfg, s)
    ensures Bounded(cfg, Get(s, k, now).0)
    ensures KeySet(Get(s, k, now).0) <= KeySet(s)
  {
    WithoutFacts(s, k);
    LookupFacts(s, k);
    if Lookup(s, k).Some? {
      var r := Record(k, Lookup(s, k).value);
      ConsUnique(r, Without(s, k));
      KeySetCons([r] + Without(s, k));
      assert ([r] + Without(s, k))[1..] == Without(s, k);
    }
  }

  lemma SetKeeps(cfg: Config, s: Recency, k: Key, e: Entry, now: int)
    requires Bounded(cfg, s)
    ensures Bounded(cfg, Set(cfg, s, k, e, now))
  {
    WithoutFacts(s, k);
    ConsUnique(Record(k, Stamped(cfg, e, now)), Without(s, k));
  }

  lemma {:induction false} UniqueKeysCount(s: Recency)
    requires UniqueKeys(s)
    ensures |KeySet(s)| == |s|
  {
    if s != [] {
      KeySetCons(s);
      UniqueKeysCount(s[1..]);
      assert s[0].key !in KeySet(s[1..]);
    }
  }

  /** Rewriting the entry stored under `k` does not show in the other records. */
  lemma {:induction false} RewrittenWithout(s: Recency, t: Recency, k: Key)
    requires |s| == |t|
    requires forall i :: 0 <= i < |s| ==> s[i].key == t[i].key && (s[i].key != k ==> s[i] == t[i])
    ensures Without(s, k) == Without(t, k)
  {
    if s != [] {
      RewrittenWithout(s[1..], t[1..], k);
    }
  }

  lemma {:induction false} WithoutAbsent(s: Recency, k: Key)
    requires forall i :: 0 <= i < |s| ==> s[i].key != k
    ensures Without(s, k) == s
  {
    if s != [] { WithoutAbsent(s[1..], k); }
  }

  lemma {:induction false} WithoutAt(s: Recency, i: nat)
    requires UniqueKeys(s) && i < |s|
    ensures Without(s, s[i].key) == s[..i] + s[i + 1..]
  {
    if i == 0 {
      WithoutAbsent(s[1..], s[0].key);
    } else {
      WithoutAt(s[1..], i - 1);
      assert s[1..][..i - 1] + s[1..][i..] == s[1..i] + s[i + 1..];
      assert [s[0]] + s[1..i] == s[..i];
    }
  }
}
