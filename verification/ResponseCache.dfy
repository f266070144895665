/**
  The cache of gateway/cache.go as it is built: a map from keys to elements of a
  linked list, both changed in place. Each method is proved to refine the
  corresponding function of `CacheModel`.
 */
module ResponseCaches {
  import opened Wrappers
  import opened CacheModel
  import opened Sets

  /** One element of the linked list; the map points at it and `Store` rewrites it in place. */
  class Element {
    const key: Key
    var entry: Entry

    constructor (key: Key, entry: Entry)
      ensures this.key == key && this.entry == entry
    {
      this.key := key;
      this.entry := entry;
    }
  }

  ghost function RecordsOf(o: seq<Element>): (s: Recency)
    reads o
    ensures |s| == |o|
    ensures forall i :: 0 <= i < |s| ==> s[i] == Record(o[i].key, o[i].entry)
  {
    seq(|o|, i requires 0 <= i < |o| reads o => Record(o[i].key, o[i].entry))
  }

  function Position(o: seq<Element>, el: Element): (i: nat)
    requires el in o
    ensures i < |o| && o[i] == el
  {
    if o[0] == el then 0 else 1 + Position(o[1..], el)
  }

  /** The list after `container/list` has taken `el` out of it. */
  function Unlink(o: seq<Element>, el: Element): seq<Element>
    requires el in o
  {
    o[..Position(o, el)] + o[Position(o, el) + 1..]
  }

  ghost predicate DistinctKeys(o: seq<Element>) {
    forall i, j :: 0 <= i < j < |o| ==> o[i].key != o[j].key
  }

  lemma UnlinkFacts(o: seq<Element>, el: Element)
    requires DistinctKeys(o) && el in o
    ensures DistinctKeys(Unlink(o, el))
    ensures forall x :: x in Unlink(o, el) ==> x in o && x.key != el.key
    ensures forall x :: x in o && x != el ==> x in Unlink(o, el)
    ensures o[|o| - 1] == el ==> Unlink(o, el) == o[..|o| - 1]
  {
    var p := Position(o, el);
    var u := Unlink(o, el);
    forall i | 0 <= i < |u| ensures u[i] == if i < p then o[i] else o[i + 1] {}
    forall x | x in o && x != el ensures x in u {
      var i :| 0 <= i < |o| && o[i] == x;
      assert x == u[if i < p then i else i - 1];
    }
  }

  lemma UnlinkRecords(o: seq<Element>, el: Element)
    requires DistinctKeys(o) && el in o
    ensures RecordsOf(Unlink(o, el)) == Without(RecordsOf(o), el.key)
  {
    var p := Position(o, el);
    WithoutAt(RecordsOf(o), p);
  }

  /** The map and the list hold the same elements, each once, under its own key: every
      listed element is mapped from its key, and the map has no further entries. */
  ghost predicate Agree(entries: map<Key, Element>, order: seq<Element>) {
    && DistinctKeys(order)
    && (forall i :: 0 <= i < |order| ==> order[i].key in entries && entries[order[i].key] == order[i])
    && |entries| == |order|
  }

  lemma AgreeAfterUnlink(entries: map<Key, Element>, order: seq<Element>, el: Element)
    requires Agree(entries, order) && el in order
    ensures Agree(entries - {el.key}, Unlink(order, el))
  {
    UnlinkFacts(order, el);
    var u := Unlink(order, el);
    forall i | 0 <= i < |u|
      ensures u[i].key in entries - {el.key} && entries[u[i].key] == u[i]
    {
      assert u[i] in u;
    }
    MapWithout(entries, el.key);
  }

  lemma AgreeAfterMove(entries: map<Key, Element>, order: seq<Element>, el: Element)
    requires Agree(entries, order) && el in order
    ensures Agree(entries, [el] + Unlink(order, el))
  {
    UnlinkFacts(order, el);
    var u := Unlink(order, el);
    forall i | 0 <= i < |u| ensures u[i].key != el.key && u[i] in order { assert u[i] in u; }
  }

  /** Hence the map has exactly the listed keys, each pointing into the list. */
  lemma {:induction false} AgreeKeys(entries: map<Key, Element>, order: seq<Element>, k: Key)
    requires Agree(entries, order)
    ensures KeySet(RecordsOf(order)) == entries.Keys
    ensures k in entries ==> entries[k] in order && entries[k].key == k
    ensures Lookup(RecordsOf(order), k) == if k in entries then Some(entries[k].entry) else None
  {
    var s := RecordsOf(order);
    UniqueKeysCount(s);
    assert |entries| == |entries.Keys|;
    SubsetSize(KeySet(s), entries.Keys);
    LookupFacts(s, k);
    if k in entries {
      assert k in KeySet(s);
      var i :| 0 <= i < |s| && s[i].key == k;
      assert order[i].key == k && s[i] == Record(k, entries[k].entry);
    }
  }

  function Min(a: int, b: int): int {
    if a <= b then a else b
  }

  class ResponseCache {
    const cfg: Config
    var entries: map<Key, Element>
    var order: seq<Element>

    ghost predicate Linked()
      reads this
    {
      Agree(entries, order)
    }

    ghost function Contents(): (s: Recency)
      reads this, order
    {
      RecordsOf(order)
    }

    ghost predicate Valid()
      reads this, order
    {
      Linked() && Bounded(cfg, Contents())
    }

    constructor (ttl: int, maxEntries: int, maxBodyBytes: int)
      ensures Valid() && Contents() == [] && cfg == Config(ttl, maxEntries, maxBodyBytes)
    {
      cfg := Config(ttl, maxEntries, maxBodyBytes);
      entries := map[];
      order := [];
    }

    method RemoveElement(el: Element?)
      requires Linked()
      requires el != null ==> el in order
      modifies this
      ensures Linked()
      ensures el == null ==> order == old(order) && entries == old(entries)
      ensures el != null ==> order == Unlink(old(order), el) && entries == old(entries) - {el.key}
      ensures el != null ==> Contents() == Without(old(Contents()), el.key)
    {
      if el == null { return; }
      AgreeAfterUnlink(entries, order, el);
      UnlinkRecords(order, el);
      entries := entries - {el.key};
      order := Unlink(order, el);
    }

    method MoveToFront(el: Element)
      requires Linked() && el in order
      modifies this`order
      ensures Linked()
      ensures Contents() == [Record(el.key, el.entry)] + Without(old(Contents()), el.key)
    {
      AgreeAfterMove(entries, order, el);
      UnlinkRecords(order, el);
      var rest := Unlink(order, el);
      order := [el] + rest;
      assert RecordsOf(order) == [Record(el.key, el.entry)] + RecordsOf(rest);
    }

    /** `get`: a hit moves the key to the front, an expired entry is removed. */
    method Fetch(k: Key, now: int) returns (hit: Option<Entry>)
      requires Valid()
      modifies this
      ensures Valid()
      ensures Contents() == Get(old(Contents()), k, now).0
      ensures hit == Get(old(Contents()), k, now).1
    {
      AgreeKeys(entries, order, k);
      GetKeeps(cfg, Contents(), k, now);
      if k !in entries { return None; }
      var el := entries[k];
      if now > el.entry.expires {
        RemoveElement(el);
        return None;
      }
      MoveToFront(el);
      return Some(el.entry);
    }

    /** `set`: refused entries change nothing; otherwise the key goes to the front and the
        loop evicts from the back. */
    method Store(k: Key, e: Entry, now: int)
      requires Valid()
      modifies this, order
      ensures Valid()
      ensures Contents() == Set(cfg, old(Contents()), k, e, now)
    {
      if cfg.maxEntries <= 0 { return; }
      if cfg.maxBodyBytes > 0 && |e.body| > cfg.maxBodyBytes { return; }
      var stamped := e.(expires := now + cfg.ttl);
      assert stamped == Stamped(cfg, e, now) && Accepted(cfg, e);
      ghost var before := Contents();
      SetKeeps(cfg, before, k, e, now);
      AgreeKeys(entries, order, k);
      WithoutFacts(before, k);

      if k in entries {
        Rewrite(k, stamped);
        assert |Contents()| <= cfg.maxEntries;
        return;
      }

      Insert(k, stamped);
    }

    /** The branch of `set` for a new key. */
    method Insert(k: Key, stamped: Entry)
      requires Linked() && k !in entries && cfg.maxEntries > 0
      modifies this
      ensures Linked()
      ensures Contents() == Front([Record(k, stamped)] + old(Contents()), cfg.maxEntries)
    {
      PushFront(k, stamped);
      ghost var full := Contents();
      Evict();
      assert Contents() == full[..|order|];
    }

    method PushFront(k: Key, stamped: Entry)
      requires Linked() && k !in entries
      modifies this
      ensures Linked()
      ensures Contents() == [Record(k, stamped)] + old(Contents())
    {
      var el := new Element(k, stamped);
      forall x | x in order ensures x.key != k {}
      order := [el] + order;
      entries := entries[k := el];
      assert Contents() == [Record(k, stamped)] + old(Contents());
    }

    /** The loop at the end of `set`: only the least recently used elements go. */
    method Evict()
      requires Linked() && cfg.maxEntries > 0
      modifies this
      ensures Linked()
      ensures order <= old(order)
      ensures |order| == Min(|old(order)|, cfg.maxEntries)
    {
      while |entries| > cfg.maxEntries
        invariant Linked() && |entries| == |order| <= |old(order)|
        invariant order == old(order)[..|order|]
        invariant |order| >= Min(|old(order)|, cfg.maxEntries)
        decreases |entries|
      {
        RemoveBack();
      }
    }

    method RemoveBack()
      requires Linked() && order != []
      modifies this
      ensures Linked() && |entries| == |order|
      ensures order == old(order)[..|old(order)| - 1]
    {
      UnlinkFacts(order, order[|order| - 1]);
      RemoveElement(order[|order| - 1]);
    }

    /** The branch of `set` for a key already stored. */
    method Rewrite(k: Key, stamped: Entry)
      requires Linked() && k in entries
      modifies this`order, order
      ensures Linked() && entries == old(entries)
      ensures Contents() == [Record(k, stamped)] + Without(old(Contents()), k)
    {
      AgreeKeys(entries, order, k);
      var el := entries[k];
      ghost var before := Contents();
      el.entry := stamped;
      forall i | 0 <= i < |order| && order[i].key != k
        ensures Contents()[i] == before[i]
      {
        assert order[i] != el;
      }
      RewrittenWithout(before, Contents(), k);
      MoveToFront(el);
    }
  }
}
