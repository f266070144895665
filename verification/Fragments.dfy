/**
  Assembling tool calls from the fragments of a streamed completion
  (services/parrot/llm.py, lines 212-241).
 */
module Fragments {
  import opened Wrappers
  import opened Messages
  import opened Sets

  /** One streamed piece of one tool call; absent and empty parts are ignored alike. */
  datatype Fragment = Fragment(index: int, id: string, name: string, args: string)

  datatype Slot = Slot(id: Option<string>, name: Option<string>, args: string)

  type Slots = map<int, Slot>

  const EMPTY: Slot := Slot(None, None, "")

  function Replaced(known: Option<string>, part: string): Option<string> {
    if part == "" then known else Some(part)
  }

  function Extended(slot: Slot, f: Fragment): Slot {
    Slot(Replaced(slot.id, f.id), Replaced(slot.name, f.name), slot.args + f.args)
  }

  function SlotAt(slots: Slots, i: int): Slot {
    if i in slots then slots[i] else EMPTY
  }

  /** The slots after a stream of fragments. */
  function Merge(fs: seq<Fragment>): Slots {
    if fs == [] then map[]
    else
      var slots, f := Merge(fs[..|fs| - 1]), fs[|fs| - 1];
      slots[f.index := Extended(SlotAt(slots, f.index), f)]
  }

  // ---------------------------------------------------------------- what a slot holds

  function Only(fs: seq<Fragment>, i: int): seq<Fragment> {
    if fs == [] then []
    else Only(fs[..|fs| - 1], i) + if fs[|fs| - 1].index == i then [fs[|fs| - 1]] else []
  }

  /** The arguments of one call, in stream order. */
  function Args(fs: seq<Fragment>): string {
    if fs == [] then "" else Args(fs[..|fs| - 1]) + fs[|fs| - 1].args
  }

  function LastId(fs: seq<Fragment>): Option<string> {
    if fs == [] then None else Replaced(LastId(fs[..|fs| - 1]), fs[|fs| - 1].id)
  }

  function LastName(fs: seq<Fragment>): Option<string> {
    if fs == [] then None else Replaced(LastName(fs[..|fs| - 1]), fs[|fs| - 1].name)
  }

  function Indices(fs: seq<Fragment>): set<int> {
    set k | 0 <= k < |fs| :: fs[k].index
  }

  /** The slot that a call's own fragments spell out. */
  function Spelled(own: seq<Fragment>): Slot {
    Slot(LastId(own), LastName(own), Args(own))
  }

  /** Each slot is the last non-empty id and name and the concatenated arguments of the fragments
      with its index, whatever was streamed in between. */
  lemma {:induction false} MergeByIndex(fs: seq<Fragment>, i: int)
    ensures i in Merge(fs) <==> Only(fs, i) != []
    ensures SlotAt(Merge(fs), i) == Spelled(Only(fs, i))
  {
    if fs != [] {
      MergeByIndex(fs[..|fs| - 1], i);
      if fs[|fs| - 1].index == i { assert Only(fs, i)[..|Only(fs, i)| - 1] == Only(fs[..|fs| - 1], i); }
      else { assert Only(fs, i) == Only(fs[..|fs| - 1], i); }
    }
  }

  /** `r` is the last part that is not empty among those of the fragments with index `i`. */
  ghost predicate IsLast(fs: seq<Fragment>, i: int, part: Fragment -> string, r: Option<string>) {
    match r
    case None => forall k :: 0 <= k < |fs| && fs[k].index == i ==> part(fs[k]) == ""
    case Some(x) =>
      x != "" && exists k :: 0 <= k < |fs| && fs[k].index == i && part(fs[k]) == x
                             && forall j :: k < j < |fs| && fs[j].index == i ==> part(fs[j]) == ""
  }

  lemma IsLastGrows(fs: seq<Fragment>, i: int, part: Fragment -> string, r: Option<string>, f: Fragment)
    requires IsLast(fs, i, part, r)
    ensures IsLast(fs + [f], i, part, if f.index == i && part(f) != "" then Some(part(f)) else r)
  {
    var all := fs + [f];
    assert all[|fs|] == f && forall k :: 0 <= k < |fs| ==> all[k] == fs[k];
    if r.Some? && !(f.index == i && part(f) != "") {
      var k :| 0 <= k < |fs| && fs[k].index == i && part(fs[k]) == r.value
               && forall j :: k < j < |fs| && fs[j].index == i ==> part(fs[j]) == "";
      assert all[k].index == i && part(all[k]) == r.value;
    }
  }

  /** The id and the name of a slot are the last ones that came for its index, and a slot is there if
      and only if some fragment came for it. */
  lemma {:induction false} SlotIsLast(fs: seq<Fragment>, i: int)
    ensures i in Merge(fs) <==> exists k :: 0 <= k < |fs| && fs[k].index == i
    ensures IsLast(fs, i, (f: Fragment) => f.id, SlotAt(Merge(fs), i).id)
    ensures IsLast(fs, i, (f: Fragment) => f.name, SlotAt(Merge(fs), i).name)
  {
    MergedKeys(fs);
    if fs != [] {
      var before, f := fs[..|fs| - 1], fs[|fs| - 1];
      SlotIsLast(before, i);
      assert fs == before + [f];
      IsLastGrows(before, i, (f: Fragment) => f.id, SlotAt(Merge(before), i).id, f);
      IsLastGrows(before, i, (f: Fragment) => f.name, SlotAt(Merge(before), i).name, f);
    }
  }

  lemma {:induction false} PresentIff(fs: seq<Fragment>, i: int)
    ensures i in Indices(fs) <==> Only(fs, i) != []
  {
    if fs != [] {
      var before, f := fs[..|fs| - 1], fs[|fs| - 1];
      PresentIff(before, i);
      if i in Indices(before) {
        var k :| 0 <= k < |before| && before[k].index == i;
        assert fs[k].index == i;
      } else if i in Indices(fs) {
        var k :| 0 <= k < |fs| && fs[k].index == i;
        assert k == |fs| - 1;
      }
    }
  }

  lemma MergedKeys(fs: seq<Fragment>)
    ensures Merge(fs).Keys == Indices(fs)
  {
    forall i ensures i in Merge(fs) <==> i in Indices(fs) {
      MergeByIndex(fs, i);
      PresentIff(fs, i);
    }
  }

  // ---------------------------------------------------------------- the calls

  lemma {:induction false} MinExists(s: set<int>, a: int)
    requires a in s
    ensures exists m :: m in s && forall x :: x in s ==> m <= x
    decreases |s|
  {
    if forall x :: x in s ==> a <= x {
    } else {
      var b :| b in s && b < a;
      MinExists(s - {a}, b);
      var m :| m in s - {a} && forall x :: x in s - {a} ==> m <= x;
      forall x | x in s ensures m <= x {
        if x != a { assert x in s - {a}; }
      }
    }
  }

  lemma LeastExists(s: set<int>)
    requires s != {}
    ensures exists m :: m in s && forall x :: x in s ==> m <= x
  {
    var a := AnElement(s);
    MinExists(s, a);
  }

  function Least(s: set<int>): (m: int)
    requires s != {}
    ensures m in s && forall x :: x in s ==> m <= x
  {
    LeastExists(s);
    var m :| m in s && forall x :: x in s ==> m <= x;
    m
  }

  /** The elements of `s` in ascending order. */
  function Ascending(s: set<int>): (r: seq<int>)
    ensures |r| == |s|
  {
    if s == {} then [] else [Least(s)] + Ascending(s - {Least(s)})
  }

  lemma {:induction false} AscendingCovers(s: set<int>)
    ensures forall x :: x in s <==> x in Ascending(s)
  {
    if s != {} {
      var m := Least(s);
      AscendingCovers(s - {m});
      forall x ensures x in s <==> x in Ascending(s) {
        assert x in Ascending(s) <==> x == m || x in Ascending(s - {m});
      }
    }
  }

  lemma {:induction false} AscendingSorted(s: set<int>)
    ensures forall j, k :: 0 <= j < k < |Ascending(s)| ==> Ascending(s)[j] < Ascending(s)[k]
  {
    if s != {} {
      var m := Least(s);
      var rest := Ascending(s - {m});
      AscendingSorted(s - {m});
      AscendingCovers(s - {m});
      forall k | 0 <= k < |rest| ensures m < rest[k] { assert rest[k] in rest; }
    }
  }

  function Digits(n: nat): string {
    if n < 10 then ["0123456789"[n]] else Digits(n / 10) + ["0123456789"[n % 10]]
  }

  function Decimal(n: int): string {
    if n < 0 then "-" + Digits(-n) else Digits(n)
  }

  function Number(s: string): int {
    if s == "" then 0 else 10 * Number(s[..|s| - 1]) + (s[|s| - 1] as int - '0' as int)
  }

  /** Reading the digits gives the number back, and there is no leading zero. */
  lemma {:induction false} DigitsRead(n: nat)
    ensures Number(Digits(n)) == n && Digits(n) != "" && (n > 0 ==> Digits(n)[0] != '0')
    ensures forall k :: 0 <= k < |Digits(n)| ==> '0' <= Digits(n)[k] <= '9'
  {
    var d := "0123456789"[n % 10];
    assert d as int - '0' as int == n % 10 && '0' <= d <= '9';
    if n < 10 {
      assert Digits(n)[..0] == "";
    } else {
      DigitsRead(n / 10);
      assert Digits(n)[..|Digits(n)| - 1] == Digits(n / 10);
    }
  }

  /** A call whose id never came gets one made from its index. */
  function CallAt(slots: Slots, i: int): Call {
    var slot := SlotAt(slots, i);
    Call(Some(slot.id.GetOr("call_" + Decimal(i))), slot.name, Some(slot.args))
  }

  function CallsOf(slots: Slots): (calls: seq<Call>)
    ensures |calls| == |slots|
  {
    var order := Ascending(slots.Keys);
    assert |slots| == |slots.Keys|;
    seq(|order|, k requires 0 <= k < |order| => CallAt(slots, order[k]))
  }

  /** The assembled calls come in index order, each from the fragments of its own index. */
  lemma {:induction false} CallsInIndexOrder(fs: seq<Fragment>, k: nat)
    requires k < |CallsOf(Merge(fs))|
    ensures var order := Ascending(Indices(fs));
            && |order| == |CallsOf(Merge(fs))| && (forall j :: 0 <= j < k ==> order[j] < order[k])
            && var own, call := Only(fs, order[k]), CallsOf(Merge(fs))[k];
               && own != [] && call.arguments == Some(Args(own)) && call.name == LastName(own)
               && call.id == Some(LastId(own).GetOr("call_" + Decimal(order[k])))
  {
    MergedKeys(fs);
    AscendingCovers(Indices(fs));
    AscendingSorted(Indices(fs));
    var i := Ascending(Indices(fs))[k];
    assert i in Ascending(Indices(fs));
    MergeByIndex(fs, i);
    PresentIff(fs, i);
  }

  /** Confluence: streams that agree index by index on the ids, names and arguments they spell out
      assemble to the same calls, however the indices interleave and the pieces are cut. */
  lemma {:induction false} AssemblyIsConfluent(fs: seq<Fragment>, gs: seq<Fragment>)
    requires forall i :: SameCall(Only(fs, i), Only(gs, i))
    ensures CallsOf(Merge(fs)) == CallsOf(Merge(gs))
  {
    forall i ensures SameAt(Merge(fs), Merge(gs), i) {
      assert SameCall(Only(fs, i), Only(gs, i));
      MergeByIndex(fs, i);
      MergeByIndex(gs, i);
    }
    SameSlots(Merge(fs), Merge(gs));
  }

  predicate SameAt(a: Slots, b: Slots, i: int) {
    (i in a <==> i in b) && SlotAt(a, i) == SlotAt(b, i)
  }

  lemma SameSlots(a: Slots, b: Slots)
    requires forall i :: SameAt(a, b, i)
    ensures a == b
  {
    forall i ensures i in a <==> i in b { assert SameAt(a, b, i); }
    forall i | i in a ensures a[i] == b[i] { assert SameAt(a, b, i); }
  }

  predicate SameCall(f: seq<Fragment>, g: seq<Fragment>) {
    (f == [] <==> g == []) && Spelled(f) == Spelled(g)
  }

  lemma {:induction false} OnlyConcat(a: seq<Fragment>, b: seq<Fragment>, i: int)
    ensures Only(a + b, i) == Only(a, i) + Only(b, i)
  {
    if b == [] {
      assert a + b == a;
    } else {
      assert (a + b)[..|a + b| - 1] == a + b[..|b| - 1];
      OnlyConcat(a, b[..|b| - 1], i);
    }
  }

  /** Neighbouring fragments of different calls may be swapped. */
  lemma SwapIsInvisible(a: seq<Fragment>, f: Fragment, g: Fragment, b: seq<Fragment>)
    requires f.index != g.index
    ensures CallsOf(Merge(a + [f, g] + b)) == CallsOf(Merge(a + [g, f] + b))
  {
    forall i ensures SameCall(Only(a + [f, g] + b, i), Only(a + [g, f] + b, i)) {
      OnlyThree(a, [f, g], b, i);
      OnlyThree(a, [g, f], b, i);
      OnlyPair(f, g, i);
      OnlyPair(g, f, i);
      assert Only([f, g], i) == Only([g, f], i);
    }
    AssemblyIsConfluent(a + [f, g] + b, a + [g, f] + b);
  }

  lemma OnlyPair(f: Fragment, g: Fragment, i: int)
    ensures Only([f, g], i) == (if f.index == i then [f] else []) + (if g.index == i then [g] else [])
  {
    assert [f, g][..1] == [f] && [f][..0] == [];
    assert Only([f], i) == if f.index == i then [f] else [];
  }

  lemma {:induction false} SpellingConcat(a: seq<Fragment>, b: seq<Fragment>)
    ensures Args(a + b) == Args(a) + Args(b)
    ensures LastId(a + b) == if LastId(b).Some? then LastId(b) else LastId(a)
    ensures LastName(a + b) == if LastName(b).Some? then LastName(b) else LastName(a)
  {
    if b == [] {
      assert a + b == a;
    } else {
      var before, f := b[..|b| - 1], b[|b| - 1];
      assert (a + b)[..|a + b| - 1] == a + before && (a + b)[|a + b| - 1] == f;
      SpellingConcat(a, before);
      assert Args(a) + (Args(before) + f.args) == Args(a) + Args(before) + f.args;
    }
  }

  /** An argument string may be cut anywhere. */
  lemma CutIsInvisible(a: seq<Fragment>, f: Fragment, args: string, b: seq<Fragment>)
    ensures CallsOf(Merge(a + [f.(args := f.args + args)] + b))
         == CallsOf(Merge(a + [f, Fragment(f.index, "", "", args)] + b))
  {
    var rest := Fragment(f.index, "", "", args);
    var whole, cut := [f.(args := f.args + args)], [f, rest];
    forall i ensures SameCall(Only(a + whole + b, i), Only(a + cut + b, i)) { CutAt(a, f, args, b, i); }
    AssemblyIsConfluent(a + whole + b, a + cut + b);
  }

  lemma CutAt(a: seq<Fragment>, f: Fragment, args: string, b: seq<Fragment>, i: int)
    ensures SameCall(Only(a + [f.(args := f.args + args)] + b, i),
              Only(a + [f, Fragment(f.index, "", "", args)] + b, i))
  {
    var rest := Fragment(f.index, "", "", args);
    var whole, cut := [f.(args := f.args + args)], [f, rest];
    OnlyThree(a, whole, b, i);
    OnlyThree(a, cut, b, i);
    assert whole[..0] == [];
    assert Only(whole, i) == if f.index == i then whole else [];
    OnlyPair(f, rest, i);
    SpellingThree(Only(a, i), Only(whole, i), Only(b, i));
    SpellingThree(Only(a, i), Only(cut, i), Only(b, i));
    CutSpellsTheSame(f, args);
  }

  lemma CutSpellsTheSame(f: Fragment, args: string)
    ensures Spelled([f.(args := f.args + args)]) == Spelled([f, Fragment(f.index, "", "", args)])
  {
    var rest := Fragment(f.index, "", "", args);
    SpellingConcat([f], [rest]);
    assert [f] + [rest] == [f, rest];
    OneSpells(f);
    OneSpells(rest);
    OneSpells(f.(args := f.args + args));
  }

  lemma OneSpells(f: Fragment)
    ensures Args([f]) == f.args && LastId([f]) == Replaced(None, f.id) && LastName([f]) == Replaced(None, f.name)
  {
    assert [f][..0] == [] && "" + f.args == f.args;
  }

  lemma OnlyThree(a: seq<Fragment>, m: seq<Fragment>, b: seq<Fragment>, i: int)
    ensures Only(a + m + b, i) == Only(a, i) + Only(m, i) + Only(b, i)
  {
    OnlyConcat(a + m, b, i);
    OnlyConcat(a, m, i);
  }

  lemma {:induction false} SpellingThree(a: seq<Fragment>, m: seq<Fragment>, b: seq<Fragment>)
    ensures Args(a + m + b) == Args(a) + Args(m) + Args(b)
    ensures LastId(a + m + b) == if LastId(b).Some? then LastId(b) else if LastId(m).Some? then LastId(m) else LastId(a)
    ensures LastName(a + m + b) ==
              if LastName(b).Some? then LastName(b) else if LastName(m).Some? then LastName(m) else LastName(a)
  {
    SpellingConcat(a + m, b);
    SpellingConcat(a, m);
  }
}
