/**
  The streaming tool-calling loop of the parrot service (services/parrot/llm.py, lines 177-283).
  A run is a script of acts; the client may go away, or the task be cancelled, at any point
  where the generator is suspended, which cuts the script short.
 */
module ChatStream {
  import opened Wrappers
  import opened Messages
  import opened Fragments
  import opened Chat

  datatype Event =
    | Token(delta: string)
    | ToolCalled(name: Option<string>)
    | ToolAnswered(name: Option<string>)
    | Done(reply: string)
    | Terminator
    | Error

  /** `Emit` yields an event, `Await` waits for the model or a tool, `Keep` appends to the
      messages to persist. The generator is suspended in the first two. */
  datatype Act = Emit(event: Event) | Await | Keep(message: Message)

  type Script = seq<Act>

  /** A streamed chunk; an absent or empty delta text is the empty string. */
  datatype Chunk = NoDelta | Delta(text: string, calls: seq<Fragment>)

  /** Opening the stream may raise; else it yields chunks and then ends or breaks. */
  datatype Stream = OpenFails | Stream(chunks: seq<Chunk>, breaks: bool)

  type StreamingModel = nat -> Stream

  // ---------------------------------------------------------------- the script of a run

  /** The acts of the chunk loop, followed by `rest`. */
  function ChunkActs(chunks: seq<Chunk>, rest: Script): Script {
    if chunks == [] then rest
    else if ChunkText(chunks[0]) == "" then [Await] + ChunkActs(chunks[1..], rest)
    else [Await] + ([Emit(Token(ChunkText(chunks[0])))] + ChunkActs(chunks[1..], rest))
  }

  function ChunkText(c: Chunk): string {
    if c.Delta? then c.text else ""
  }

  function ChunkFragments(c: Chunk): seq<Fragment> {
    if c.Delta? then c.calls else []
  }

  function TextOf(chunks: seq<Chunk>): string {
    if chunks == [] then "" else ChunkText(chunks[0]) + TextOf(chunks[1..])
  }

  function FragmentsOf(chunks: seq<Chunk>): seq<Fragment> {
    if chunks == [] then [] else ChunkFragments(chunks[0]) + FragmentsOf(chunks[1..])
  }

  /** The assembled tool-call message; streamed text of the round goes with it when there is any. */
  function RoundMessage(chunks: seq<Chunk>): Message {
    var text := TextOf(chunks);
    CallsMessage(if text == "" then None else Some(text), CallsOf(Merge(FragmentsOf(chunks))))
  }

  /** The acts of the loop over the calls from `i` on, followed by `rest` unless a tool raises. */
  function ToolActs(tools: Tools, round: nat, calls: seq<Call>, i: nat, rest: Script): Script
    requires i <= |calls|
    decreases |calls| - i
  {
    if i == |calls| then rest
    else
      [Emit(ToolCalled(calls[i].name))] + ([Await] +
      match tools(round, i)
      case ToolRaises => [Emit(Error)]
      case ToolOk(content) =>
        [Emit(ToolAnswered(calls[i].name))]
        + ([Keep(ToolMessage(calls[i], content))] + ToolActs(tools, round, calls, i + 1, rest)))
  }

  function FinalActs(reply: string): Script {
    [Keep(ReplyMessage(reply)), Emit(Done(reply)), Emit(Terminator)]
  }

  const EXHAUSTED: Script :=
    [Keep(ReplyMessage(FALLBACK)), Emit(Token(FALLBACK)), Emit(Done(FALLBACK)), Emit(Terminator)]

  /** What is done from round `round` on, when `streamed` has been emitted so far. */
  function Acts(model: StreamingModel, tools: Tools, limit: nat, round: nat, streamed: string): Script
    decreases limit - round, 1
  {
    if round >= limit then EXHAUSTED
    else
      match model(round)
      case OpenFails => [Await, Emit(Error)]
      case Stream(chunks, breaks) =>
        [Await] + ChunkActs(chunks, [Await] + RoundActs(model, tools, limit, round, streamed + TextOf(chunks)))
  }

  /** The script of a whole run. */
  function WholeRun(model: StreamingModel, tools: Tools, limit: nat): Script {
    Acts(model, tools, limit, 0, "")
  }

  /** What follows once the stream of a round has ended or broken. */
  function RoundActs(model: StreamingModel, tools: Tools, limit: nat, round: nat, streamed: string): Script
    requires round < limit && model(round).Stream?
    decreases limit - round, 0
  {
    var chunks := model(round).chunks;
    if model(round).breaks then [Emit(Error)]
    else if FragmentsOf(chunks) == [] then FinalActs(OrFallback(streamed))
    else
      var m := RoundMessage(chunks);
      [Keep(m)] + ToolActs(tools, round, m.toolCalls.value, 0, Acts(model, tools, limit, round + 1, streamed))
  }

  /** A script cut at its suspension number `cut`; what was yielded there has gone out. */
  function Cut(script: Script, cut: nat): Script {
    if script == [] then []
    else if script[0].Keep? then [script[0]] + Cut(script[1..], cut)
    else if cut == 0 then [script[0]]
    else [script[0]] + Cut(script[1..], cut - 1)
  }

  function Suspensions(script: Script): nat {
    if script == [] then 0 else (if script[0].Keep? then 0 else 1) + Suspensions(script[1..])
  }

  function EventOf(act: Act): seq<Event> {
    if act.Emit? then [act.event] else []
  }

  function KeptOf(act: Act): Dialogue {
    if act.Keep? then [act.message] else []
  }

  /** What a script yields to the client. */
  function Events(script: Script): seq<Event> {
    if script == [] then [] else EventOf(script[0]) + Events(script[1..])
  }

  /** What a script adds to the messages to persist. */
  function Kept(script: Script): Dialogue {
    if script == [] then [] else KeptOf(script[0]) + Kept(script[1..])
  }

  /** Everything the client was sent as text. */
  function Deltas(events: seq<Event>): string {
    if events == [] then "" else DeltaOf(events[0]) + Deltas(events[1..])
  }

  function DeltaOf(e: Event): string {
    if e.Token? then e.delta else ""
  }

  lemma {:induction false} CutIsPrefix(script: Script, cut: nat)
    ensures Cut(script, cut) <= script
    ensures cut >= Suspensions(script) ==> Cut(script, cut) == script
  {
    if script != [] {
      if script[0].Keep? { CutIsPrefix(script[1..], cut); }
      else if cut > 0 { CutIsPrefix(script[1..], cut - 1); }
    }
  }

  lemma {:induction false} CutConcat(a: Script, b: Script, cut: nat)
    ensures Cut(a + b, cut) == if Suspensions(a) > cut then Cut(a, cut) else a + Cut(b, cut - Suspensions(a))
  {
    if a == [] {
      assert a + b == b;
    } else {
      assert (a + b)[1..] == a[1..] + b;
      if a[0].Keep? { CutConcat(a[1..], b, cut); }
      else if cut > 0 { CutConcat(a[1..], b, cut - 1); }
    }
  }

  lemma {:induction false} SuspensionsConcat(a: Script, b: Script)
    ensures Suspensions(a + b) == Suspensions(a) + Suspensions(b)
  {
    if a == [] {
      assert a + b == b;
    } else {
      assert (a + b)[1..] == a[1..] + b;
      SuspensionsConcat(a[1..], b);
    }
  }

  lemma {:induction false} EventsConcat(a: Script, b: Script)
    ensures Events(a + b) == Events(a) + Events(b)
  {
    if a == [] {
      assert a + b == b;
    } else {
      assert (a + b)[1..] == a[1..] + b;
      EventsConcat(a[1..], b);
    }
  }

  lemma {:induction false} KeptConcat(a: Script, b: Script)
    ensures Kept(a + b) == Kept(a) + Kept(b)
  {
    if a == [] {
      assert a + b == b;
    } else {
      assert (a + b)[1..] == a[1..] + b;
      KeptConcat(a[1..], b);
    }
  }

  lemma {:induction false} DeltasConcat(a: seq<Event>, b: seq<Event>)
    ensures Deltas(a + b) == Deltas(a) + Deltas(b)
  {
    if a == [] {
      assert a + b == b;
    } else {
      assert (a + b)[1..] == a[1..] + b;
      DeltasConcat(a[1..], b);
    }
  }

  // ---------------------------------------------------------------- the generator

  predicate Performs(done: Script, todo: Script, left: nat, closed: bool, whole: Script) {
    whole == if closed then done else done + Cut(todo, left)
  }

  /** The generator's own variables: what it yielded and kept, and how many suspensions are left
      before it is closed. */
  class Generator {
    var events: seq<Event>
    var kept: Dialogue
    var left: nat
    var closed: bool
    ghost const cut: nat
    ghost const plan: Script
    ghost var performed: Script
    ghost var todo: Script

    constructor (cut: nat, ghost plan: Script)
      ensures Valid() && !closed && todo == plan == this.plan && this.cut == cut
    {
      this.cut, this.plan := cut, plan;
      events, kept, left, closed, performed, todo := [], [], cut, false, [], plan;
      new;
      assert [] + Cut(plan, cut) == Cut(plan, cut);
    }

    /** What was performed, followed by what is left to do within the remaining suspensions, is the
        plan cut where the client went away. */
    ghost predicate Valid()
      reads this
    {
      && events == Events(performed) && kept == Kept(performed)
      && Performs(performed, todo, left, closed, Cut(plan, cut))
    }

    /** Does the next act of the plan; the generator is closed if that was its last suspension. */
    method Do(act: Act, ghost rest: Script)
      requires Valid() && !closed && todo == [act] + rest
      modifies this
      ensures Valid()
      ensures !closed ==> todo == rest
    {
      OneMore(performed, act);
      CutStep(performed, act, rest, left, Cut(plan, cut));
      events := events + EventOf(act);
      kept := kept + KeptOf(act);
      performed := performed + [act];
      todo := rest;
      if !act.Keep? {
        if left == 0 { closed := true; } else { left := left - 1; }
      }
    }

    /** The chunk loop: text goes out as it comes, fragments are merged into their slots. */
    method ReadChunks(chunks: seq<Chunk>, ghost rest: Script) returns (text: string, slots: Slots)
      requires Valid() && !closed && todo == ChunkActs(chunks, rest)
      modifies this
      ensures Valid()
      ensures !closed ==> todo == rest && text == TextOf(chunks) && slots == Merge(FragmentsOf(chunks))
    {
      text, slots := "", map[];
      for i := 0 to |chunks|
        invariant Valid() && !closed && todo == ChunkActs(chunks[i..], rest)
        invariant text == TextOf(chunks[..i]) && slots == Merge(FragmentsOf(chunks[..i]))
      {
        ChunksSnoc(chunks, i);
        ghost var later := ChunkActs(chunks[i + 1..], rest);
        assert chunks[i..][1..] == chunks[i + 1..];
        Do(Await, if ChunkText(chunks[i]) == "" then later else [Emit(Token(ChunkText(chunks[i])))] + later);
        if closed { return; }
        if chunks[i].Delta? {
          if chunks[i].text != "" {
            text := text + chunks[i].text;
            Do(Emit(Token(chunks[i].text)), later);
            if closed { return; }
          }
          slots := MergeAll(slots, FragmentsOf(chunks[..i]), chunks[i].calls);
        }
      }
      assert chunks[..|chunks|] == chunks;
    }

    /** The loop over the tool calls of one round; `ok` is false when a tool raised. */
    method AnswerCalls(tools: Tools, round: nat, calls: seq<Call>, ghost rest: Script) returns (ok: bool)
      requires Valid() && !closed && todo == ToolActs(tools, round, calls, 0, rest)
      modifies this
      ensures Valid()
      ensures !closed ==> todo == if ok then rest else []
    {
      for i := 0 to |calls|
        invariant Valid() && !closed && todo == ToolActs(tools, round, calls, i, rest)
      {
        ghost var later := ToolActs(tools, round, calls, i + 1, rest);
        ghost var answered := match tools(round, i)
          case ToolRaises => [Emit(Error)]
          case ToolOk(content) =>
            [Emit(ToolAnswered(calls[i].name))] + ([Keep(ToolMessage(calls[i], content))] + later);
        Do(Emit(ToolCalled(calls[i].name)), [Await] + answered);
        if closed { return false; }
        Do(Await, answered);
        if closed { return false; }
        match tools(round, i)
        case ToolRaises =>
          assert answered == [Emit(Error)] + [];
          Do(Emit(Error), []);
          return false;
        case ToolOk(content) =>
          Do(Emit(ToolAnswered(calls[i].name)), [Keep(ToolMessage(calls[i], content))] + later);
          if closed { return false; }
          Do(Keep(ToolMessage(calls[i], content)), later);
          if closed { return false; }
      }
      return true;
    }

    /** The body of `chat_stream` up to its `finally`. */
    method Run(model: StreamingModel, tools: Tools, limit: nat)
      requires Valid() && !closed && todo == WholeRun(model, tools, limit)
      modifies this
      ensures Valid() && (!closed ==> todo == [])
    {
      var streamed, more := "", true;
      for round := 0 to limit
        invariant Valid() && !closed && todo == Acts(model, tools, limit, round, streamed)
      {
        more, streamed := Round(model, tools, limit, round, streamed);
        if !more { return; }
      }
      Finish(EXHAUSTED);
    }

    /** A generator that was closed, or has nothing left to do, did the plan up to the cut. */
    lemma Over()
      requires Valid() && (!closed ==> todo == [])
      ensures events == Events(Cut(plan, cut)) && kept == Kept(Cut(plan, cut))
    {
      assert performed + [] == performed;
    }

    /** One round; `more` says that its tool calls were answered and another round follows. */
    method Round(model: StreamingModel, tools: Tools, limit: nat, round: nat, streamed: string)
      returns (more: bool, text: string)
      requires Valid() && !closed && round < limit && todo == Acts(model, tools, limit, round, streamed)
      modifies this
      ensures Valid() && (closed ==> !more)
      ensures !closed ==> todo == if more then Acts(model, tools, limit, round + 1, text) else []
    {
      text := streamed;
      if model(round).OpenFails? {
        Finish([Await, Emit(Error)]);
        return false, text;
      }
      var chunks := model(round).chunks;
      ghost var later := RoundActs(model, tools, limit, round, streamed + TextOf(chunks));
      Do(Await, ChunkActs(chunks, [Await] + later));
      if closed { return false, text; }
      var content, slots := ReadChunks(chunks, [Await] + later);
      if closed { return false, text; }
      Do(Await, later);
      if closed { return false, text; }
      text := streamed + content;
      more := Conclude(model, tools, limit, round, text, content, slots);
    }

    /** What is done with a stream read to its end: an error, the final answer, or tool calls. */
    method Conclude(model: StreamingModel, tools: Tools, limit: nat, round: nat, streamed: string, content: string,
          slots: Slots)
      returns (more: bool)
      requires Valid() && !closed && round < limit && model(round).Stream?
      requires todo == RoundActs(model, tools, limit, round, streamed)
      requires content == TextOf(model(round).chunks) && slots == Merge(FragmentsOf(model(round).chunks))
      modifies this
      ensures Valid() && (closed ==> !more)
      ensures !closed ==> todo == if more then Acts(model, tools, limit, round + 1, streamed) else []
    {
      NoSlotsIff(FragmentsOf(model(round).chunks));
      if model(round).breaks {
        Finish([Emit(Error)]);
        return false;
      }
      if slots == map[] {
        Finish(FinalActs(if streamed == "" then FALLBACK else streamed));
        return false;
      }
      var m := CallsMessage(if content == "" then None else Some(content), CallsOf(slots));
      ghost var next := Acts(model, tools, limit, round + 1, streamed);
      Do(Keep(m), ToolActs(tools, round, m.toolCalls.value, 0, next));
      if closed { return false; }
      more := AnswerCalls(tools, round, m.toolCalls.value, next);
      if closed { more := false; }
    }

    /** The last acts of a run. */
    method Finish(acts: Script)
      requires Valid() && !closed && todo == acts
      modifies this
      ensures Valid() && (!closed ==> todo == [])
    {
      for i := 0 to |acts|
        invariant Valid() && !closed && todo == acts[i..]
      {
        assert acts[i..] == [acts[i]] + acts[i + 1..];
        Do(acts[i], acts[i + 1..]);
        if closed { return; }
      }
    }
  }

  lemma {:induction false} NoSlotsIff(fs: seq<Fragment>)
    ensures Merge(fs) == map[] <==> fs == []
  {
    if fs != [] { assert fs[|fs| - 1].index in Merge(fs); }
  }

  lemma OneMore(done: Script, act: Act)
    ensures Events(done + [act]) == Events(done) + EventOf(act)
    ensures Kept(done + [act]) == Kept(done) + KeptOf(act)
  {
    EventsConcat(done, [act]);
    KeptConcat(done, [act]);
    assert [act][1..] == [];
  }

  lemma CutStep(done: Script, act: Act, rest: Script, left: nat, whole: Script)
    requires done + Cut([act] + rest, left) == whole
    ensures act.Keep? ==> done + [act] + Cut(rest, left) == whole
    ensures !act.Keep? && left == 0 ==> done + [act] == whole
    ensures !act.Keep? && left > 0 ==> done + [act] + Cut(rest, left - 1) == whole
  {
    assert ([act] + rest)[1..] == rest;
    var tail := Cut([act] + rest, left)[1..];
    assert Cut([act] + rest, left) == [act] + tail;
    assert done + ([act] + tail) == done + [act] + tail;
    assert done + [act] + [] == done + [act];
  }

  lemma ChunksSnoc(chunks: seq<Chunk>, i: nat)
    requires i < |chunks|
    ensures TextOf(chunks[..i + 1]) == TextOf(chunks[..i]) + ChunkText(chunks[i])
    ensures FragmentsOf(chunks[..i + 1]) == FragmentsOf(chunks[..i]) + ChunkFragments(chunks[i])
    ensures chunks[i].NoDelta? ==>
              TextOf(chunks[..i + 1]) == TextOf(chunks[..i]) && FragmentsOf(chunks[..i + 1]) == FragmentsOf(chunks[..i])
  {
    assert chunks[..i + 1] == chunks[..i] + [chunks[i]];
    TextConcat(chunks[..i], [chunks[i]]);
    FragmentsConcat(chunks[..i], [chunks[i]]);
    assert [chunks[i]][1..] == [] && FragmentsOf(chunks[..i]) + [] == FragmentsOf(chunks[..i]);
  }

  lemma {:induction false} TextConcat(a: seq<Chunk>, b: seq<Chunk>)
    ensures TextOf(a + b) == TextOf(a) + TextOf(b)
  {
    if a == [] {
      assert a + b == b;
    } else {
      assert (a + b)[0] == a[0] && (a + b)[1..] == a[1..] + b;
      TextConcat(a[1..], b);
      Associate(ChunkText(a[0]), TextOf(a[1..]), TextOf(b));
    }
  }

  lemma {:induction false} FragmentsConcat(a: seq<Chunk>, b: seq<Chunk>)
    ensures FragmentsOf(a + b) == FragmentsOf(a) + FragmentsOf(b)
  {
    if a == [] {
      assert a + b == b;
    } else {
      assert (a + b)[0] == a[0] && (a + b)[1..] == a[1..] + b;
      FragmentsConcat(a[1..], b);
      Associate(ChunkFragments(a[0]), FragmentsOf(a[1..]), FragmentsOf(b));
    }
  }

  lemma Associate<T>(a: seq<T>, b: seq<T>, c: seq<T>)
    ensures a + (b + c) == a + b + c
  {
  }

  /** Merges the fragments of one delta into the slots. */
  method MergeAll(slots: Slots, ghost seen: seq<Fragment>, fs: seq<Fragment>) returns (merged: Slots)
    requires slots == Merge(seen)
    ensures merged == Merge(seen + fs)
  {
    merged := slots;
    assert seen + fs[..0] == seen;
    for i := 0 to |fs|
      invariant merged == Merge(seen + fs[..i])
    {
      MergeOne(seen + fs[..i], fs[i]);
      assert seen + fs[..i + 1] == seen + fs[..i] + [fs[i]];
      merged := merged[fs[i].index := Extended(SlotAt(merged, fs[i].index), fs[i])];
    }
    assert fs[..|fs|] == fs;
  }

  lemma MergeOne(seen: seq<Fragment>, f: Fragment)
    ensures Merge(seen + [f]) == Merge(seen)[f.index := Extended(SlotAt(Merge(seen), f.index), f)]
  {
    assert (seen + [f])[..|seen|] == seen;
  }
}
