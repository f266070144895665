/**
  The transcript shown to administrators (services/parrot/admin.py, lines 157-208): every
  message in order, each tool row named after the call it answers.
 */
module Transcript {
  import opened Wrappers
  import opened Messages
  import opened Turns
  import opened Fragments

  type Group = map<string, string>

  /** A normalized message; `name` is only set on tool rows. */
  datatype Entry = Entry(role: Role, content: Option<string>, calls: seq<Call>, toolCallId: Option<string>,
                         name: Option<string>)

  /** The names of a group of calls by id; a later call with the same id wins. */
  function GroupOf(calls: seq<Call>): Group {
    if calls == [] then map[]
    else
      var g, c := GroupOf(calls[..|calls| - 1]), calls[|calls| - 1];
      if c.id.Some? && c.name.Some? then g[c.id.value := c.name.value] else g
  }

  /** Call `k` gives `id` its name. */
  ghost predicate Names(calls: seq<Call>, k: nat, id: string, name: string) {
    k < |calls| && calls[k].id == Some(id) && calls[k].name == Some(name)
  }

  /** The name under an id is that of the last call that has this id and a name. */
  lemma {:induction false} GroupNamesLast(calls: seq<Call>, id: string)
    ensures id in GroupOf(calls) <==> exists k: nat, name: string :: Names(calls, k, id, name)
    ensures id in GroupOf(calls) ==>
              exists k: nat :: && Names(calls, k, id, GroupOf(calls)[id])
                               && forall j: nat, name: string :: k < j ==> !Names(calls, j, id, name)
  {
    if calls != [] {
      var before, n := calls[..|calls| - 1], |calls| - 1;
      GroupNamesLast(before, id);
      forall k: nat, name: string | k < n ensures Names(calls, k, id, name) <==> Names(before, k, id, name) {}
      if calls[n].id == Some(id) && calls[n].name.Some? {
        assert Names(calls, n, id, calls[n].name.value);
      } else if id in GroupOf(before) {
        var k: nat :| && Names(before, k, id, GroupOf(before)[id])
                      && forall j: nat, name: string :: k < j ==> !Names(before, j, id, name);
        assert Names(calls, k, id, GroupOf(calls)[id]);
        forall j: nat, name: string | k < j ensures !Names(calls, j, id, name) {}
      }
    }
  }

  function NameIn(g: Group, id: Option<string>): Option<string> {
    if id.Some? && id.value in g then Some(g[id.value]) else None
  }

  function Normalize(m: Message, g: Group): Entry {
    if m.role == Tool
    then Entry(m.role, m.content, CallsIn(m), m.toolCallId, NameIn(g, m.toolCallId))
    else Entry(m.role, m.content, CallsIn(m), None, None)
  }

  /** The group in force after `ms`: that of the last message with tool calls. */
  function GroupAfter(ms: Dialogue): Group {
    if ms == [] then map[]
    else if CallsIn(ms[|ms| - 1]) != [] then GroupOf(CallsIn(ms[|ms| - 1]))
    else GroupAfter(ms[..|ms| - 1])
  }

  method GroupCalls(calls: seq<Call>) returns (g: Group)
    ensures g == GroupOf(calls)
  {
    g := map[];
    for i := 0 to |calls|
      invariant g == GroupOf(calls[..i])
    {
      assert calls[..i + 1][..i] == calls[..i];
      if calls[i].id.Some? && calls[i].name.Some? { g := g[calls[i].id.value := calls[i].name.value]; }
    }
    assert calls[..|calls|] == calls;
  }

  /** `normalize_transcript`: nothing is dropped or reordered. */
  method NormalizeTranscript(ms: Dialogue) returns (out: seq<Entry>)
    ensures |out| == |ms|
    ensures forall i :: 0 <= i < |ms| ==> out[i] == Normalize(ms[i], GroupAfter(ms[..i + 1]))
    ensures forall i :: 0 <= i < |ms| ==>
              && out[i].role == ms[i].role && out[i].content == ms[i].content
              && out[i].calls == (if ms[i].toolCalls.Some? then ms[i].toolCalls.value else [])
              && (ms[i].role == Tool ==> out[i].toolCallId == ms[i].toolCallId)
              && (ms[i].role != Tool ==> out[i].toolCallId == None && out[i].name == None)
  {
    out := [];
    var current: Group := map[];
    for i := 0 to |ms|
      invariant |out| == i && current == GroupAfter(ms[..i])
      invariant forall j :: 0 <= j < i ==> out[j] == Normalize(ms[j], GroupAfter(ms[..j + 1]))
    {
      assert ms[..i + 1][..i] == ms[..i];
      if CallsIn(ms[i]) != [] { current := GroupCalls(CallsIn(ms[i])); }
      out := out + [Normalize(ms[i], current)];
    }
    assert ms[..|ms|] == ms;
  }

  // ---------------------------------------------------------------- which call a row answers

  /** In a well-formed conversation, the calls a tool row belongs to and its place among them. */
  function Expected(ms: Dialogue, i: nat): Scan
    requires i < |ms|
  {
    TalkFrom(Start, ms[..i])
  }

  ghost predicate Tracks(s: Scan, g: Group) {
    s.Awaiting? ==> s.next < |s.calls| && g == GroupOf(s.calls)
  }

  lemma {:induction false} GroupTracksScan(ms: Dialogue)
    ensures Tracks(TalkFrom(Start, ms), GroupAfter(ms))
  {
    if ms != [] {
      var before, m := ms[..|ms| - 1], ms[|ms| - 1];
      assert ms == before + [m];
      TalkConcat(Start, before, [m]);
      GroupTracksScan(before);
      assert TalkFrom(Start, ms) == TalkStep(TalkFrom(Start, before), m);
    }
  }

  /** Every tool row of a well-formed conversation answers a call of its own group, and is labelled
      from that group alone, although ids repeat across groups. */
  lemma RowNamedFromOwnGroup(ms: Dialogue, i: nat)
    requires Talk(ms) && i < |ms| && ms[i].role == Tool
    ensures var s := Expected(ms, i);
            && s.Awaiting? && s.next < |s.calls| && IsAnswer(ms[i], s.calls[s.next])
            && Normalize(ms[i], GroupAfter(ms[..i + 1])).name == NameIn(GroupOf(s.calls), s.calls[s.next].id)
  {
    var before, s := ms[..i], Expected(ms, i);
    assert ms == before + ms[i..];
    TalkConcat(Start, before, ms[i..]);
    BadTalk(ms[i..][1..]);
    GroupTracksScan(before);
    assert ms[..i + 1][..i] == before;
  }

  /** The group a row belongs to starts `next + 1` messages before it. */
  lemma {:induction false} OwnGroupIsNearest(ms: Dialogue, i: nat)
    requires Talk(ms) && i <= |ms| && TalkFrom(Start, ms[..i]).Awaiting?
    ensures var s := TalkFrom(Start, ms[..i]);
            && s.next < i && ms[i - s.next - 1].toolCalls == Some(s.calls)
            && forall j :: i - s.next <= j < i ==> ms[j].role == Tool && ms[j].toolCalls.None?
  {
    if i > 0 {
      var before := ms[..i - 1];
      assert ms[..i] == before + [ms[i - 1]];
      TalkConcat(Start, before, [ms[i - 1]]);
      assert TalkFrom(Start, ms[..i]) == TalkStep(TalkFrom(Start, before), ms[i - 1]);
      if TalkFrom(Start, before).Awaiting? { OwnGroupIsNearest(ms, i - 1); }
    }
  }

  // ---------------------------------------------------------------- when the labels are right

  /** What a caller can check of a group: calls with one id carry one name, and a call without an
      id carries none. */
  predicate Consistent(calls: seq<Call>) {
    && (forall j, k :: 0 <= j < |calls| && 0 <= k < |calls| && calls[j].id == calls[k].id ==>
        calls[j].name == calls[k].name)
    && (forall j :: 0 <= j < |calls| && calls[j].id.None? ==> calls[j].name.None?)
  }

  predicate LabelledRight(calls: seq<Call>, j: nat)
    requires j < |calls|
  {
    NameIn(GroupOf(calls), calls[j].id) == calls[j].name
  }

  lemma {:induction false} GroupHolds(calls: seq<Call>, id: string)
    ensures id in GroupOf(calls) ==>
              exists k :: 0 <= k < |calls| && calls[k].id == Some(id) && calls[k].name == Some(GroupOf(calls)[id])
    ensures id !in GroupOf(calls) ==> forall k :: 0 <= k < |calls| && calls[k].id == Some(id) ==> calls[k].name.None?
  {
    if calls != [] {
      var before, n := calls[..|calls| - 1], |calls| - 1;
      GroupHolds(before, id);
      if id in GroupOf(calls) {
        if calls[n].id == Some(id) && calls[n].name.Some? {
          assert calls[n].name == Some(GroupOf(calls)[id]);
        } else {
          var k :| 0 <= k < |before| && before[k].id == Some(id) && before[k].name == Some(GroupOf(before)[id]);
          assert calls[k].id == Some(id) && calls[k].name == Some(GroupOf(calls)[id]);
        }
      } else {
        forall k | 0 <= k < |calls| && calls[k].id == Some(id) ensures calls[k].name.None? {
          if k < n { assert calls[k] == before[k]; }
        }
      }
    }
  }

  /** Every row of a group is labelled with the name of the very call it answers if and only if
      the group is consistent. */
  lemma LabelsRightIff(calls: seq<Call>)
    ensures (forall j :: 0 <= j < |calls| ==> LabelledRight(calls, j)) <==> Consistent(calls)
  {
    if Consistent(calls) {
      forall j | 0 <= j < |calls| ensures LabelledRight(calls, j) {
        if calls[j].id.Some? { GroupHolds(calls, calls[j].id.value); }
      }
    }
    if forall j :: 0 <= j < |calls| ==> LabelledRight(calls, j) {
      forall j, k | 0 <= j < |calls| && 0 <= k < |calls| && calls[j].id == calls[k].id
        ensures calls[j].name == calls[k].name
      {
        assert LabelledRight(calls, j) && LabelledRight(calls, k);
      }
      forall j | 0 <= j < |calls| && calls[j].id.None? ensures calls[j].name.None? {
        assert LabelledRight(calls, j);
      }
    }
  }

  ghost predicate AllConsistent(ms: Dialogue) {
    forall j :: 0 <= j < |ms| && ms[j].toolCalls.Some? ==> Consistent(ms[j].toolCalls.value)
  }

  /** In a well-formed conversation whose groups are all consistent, every tool row of the transcript
      bears the name of the very call it answers. */
  lemma RowsNamedRight(ms: Dialogue, i: nat)
    requires Talk(ms) && AllConsistent(ms) && i < |ms| && ms[i].role == Tool
    ensures var s := Expected(ms, i);
            && s.Awaiting? && s.next < |s.calls| && IsAnswer(ms[i], s.calls[s.next])
            && s.next < i && ms[i - s.next - 1].toolCalls == Some(s.calls)
            && Normalize(ms[i], GroupAfter(ms[..i + 1])).name == s.calls[s.next].name
  {
    RowNamedFromOwnGroup(ms, i);
    OwnGroupIsNearest(ms, i);
    var s := Expected(ms, i);
    assert Consistent(ms[i - s.next - 1].toolCalls.value);
    LabelsRightIff(s.calls);
    assert LabelledRight(s.calls, s.next);
  }

  /** Distinct ids are enough. */
  lemma DistinctIdsSuffice(calls: seq<Call>)
    requires forall j :: 0 <= j < |calls| ==> calls[j].id.Some?
    requires forall j, k :: 0 <= j < k < |calls| ==> calls[j].id != calls[k].id
    ensures Consistent(calls)
  {
  }

  lemma TwoAscending(i: int, j: int)
    requires i < j
    ensures Ascending({i, j}) == [i, j]
  {
    var order := Ascending({i, j});
    assert |{i, j}| == 2;
    AscendingCovers({i, j});
    AscendingSorted({i, j});
    assert order[0] in order && order[1] in order;
  }

  lemma TwoIndices(f: Fragment, g: Fragment)
    requires f.index < g.index
    ensures Merge([f, g]).Keys == {f.index, g.index} && Ascending(Indices([f, g])) == [f.index, g.index]
  {
    MergedKeys([f, g]);
    assert [f, g][0] == f && [f, g][1] == g;
    assert Indices([f, g]) == {f.index, g.index};
    TwoAscending(f.index, g.index);
  }

  lemma OwnFragments(f: Fragment, g: Fragment)
    requires f.index != g.index
    ensures Only([f, g], f.index) == [f] && Only([f, g], g.index) == [g]
  {
    OnlyPair(f, g, f.index);
    OnlyPair(f, g, g.index);
    assert [f] + [] == [f] && [] + [g] == [g];
  }

  lemma OwnSlot(fs: seq<Fragment>, own: Fragment)
    requires Only(fs, own.index) == [own]
    ensures SlotAt(Merge(fs), own.index) == Slot(Replaced(None, own.id), Replaced(None, own.name), own.args)
  {
    MergeByIndex(fs, own.index);
    OneSpells(own);
  }

  /** The calls of two fragments with different indices. */
  lemma {:induction false} TwoCalls(f: Fragment, g: Fragment)
    requires f.index < g.index
    ensures var calls := CallsOf(Merge([f, g]));
            |calls| == 2 && calls[0] == Alone(f) && calls[1] == Alone(g)
  {
    TwoIndices(f, g);
    MergedKeys([f, g]);
    OwnFragments(f, g);
    OwnSlot([f, g], f);
    OwnSlot([f, g], g);
    assert |Merge([f, g])| == |Merge([f, g]).Keys| == 2;
  }

  /** The call spelled by a single fragment. */
  function Alone(f: Fragment): Call {
    Call(Some(Replaced(None, f.id).GetOr("call_" + Decimal(f.index))), Replaced(None, f.name), Some(f.args))
  }

  /** A streamed round can break the condition: an id sent for one call may be the one made up for
      another that had none, and then one of the two rows gets the other's name. */
  lemma MadeUpIdCollides(f: Fragment, g: Fragment)
    requires f.index < g.index && f.id == "call_" + Decimal(g.index) && g.id == ""
    requires f.name != "" && g.name != "" && f.name != g.name
    ensures !Consistent(CallsOf(Merge([f, g]))) && !LabelledRight([Alone(f), Alone(g)], 0)
  {
    var calls := [Alone(f), Alone(g)];
    TwoCalls(f, g);
    assert "call_" + Decimal(g.index) != "" by { assert |"call_"| == 5; }
    assert calls[0].id == calls[1].id && calls[0].name != calls[1].name;
    assert calls[..1] == [Alone(f)];
  }

  lemma CollisionExists()
    ensures exists f: Fragment, g: Fragment ::
              f.index < g.index && f.id == "call_1" && g.id == "" && !Consistent(CallsOf(Merge([f, g])))
  {
    var f, g := Fragment(0, "call_1", "a", ""), Fragment(1, "", "b", "");
    assert Decimal(1) == "1" && "call_" + "1" == "call_1";
    MadeUpIdCollides(f, g);
  }
}
