/**
  What a streamed answer keeps, wherever it fails or the client goes away.
 */
module ChatStreamLaws {
  import opened Wrappers
  import opened Messages
  import opened Turns
  import opened Fragments
  import opened Chat
  import opened ChatStream

  // ---------------------------------------------------------------- prefixes

  lemma PrefixYields(a: Script, b: Script)
    requires a <= b
    ensures Events(a) <= Events(b) && Kept(a) <= Kept(b)
  {
    assert b == a + b[|a|..];
    EventsConcat(a, b[|a|..]);
    KeptConcat(a, b[|a|..]);
  }

  lemma PrefixNotBad(s: Scan, a: Dialogue, b: Dialogue)
    requires a <= b && ScanFrom(s, b) != Bad
    ensures ScanFrom(s, a) != Bad
  {
    assert b == a + b[|a|..];
    ScanConcat(s, a, b[|a|..]);
    BadStays(b[|a|..]);
  }

  // ---------------------------------------------------------------- the stored turn

  lemma {:induction false} ChunksKeepNothing(chunks: seq<Chunk>, rest: Script)
    ensures Kept(ChunkActs(chunks, rest)) == Kept(rest)
    ensures Events(ChunkActs(chunks, rest)) == Tokens(chunks) + Events(rest)
  {
    if chunks != [] {
      var later := ChunkActs(chunks[1..], rest);
      ChunksKeepNothing(chunks[1..], rest);
      var text := ChunkText(chunks[0]);
      if text != "" {
        assert ([Emit(Token(text))] + later)[1..] == later;
      }
      assert ChunkActs(chunks, rest)[1..] == if text == "" then later else [Emit(Token(text))] + later;
    }
  }

  /** The token events of a stream: its non-empty texts. */
  function Tokens(chunks: seq<Chunk>): seq<Event> {
    if chunks == [] then []
    else if ChunkText(chunks[0]) == "" then Tokens(chunks[1..])
    else [Token(ChunkText(chunks[0]))] + Tokens(chunks[1..])
  }

  lemma {:induction false} TokensSpell(chunks: seq<Chunk>)
    ensures Deltas(Tokens(chunks)) == TextOf(chunks)
    ensures forall i :: 0 <= i < |Tokens(chunks)| ==> Tokens(chunks)[i].Token?
  {
    if chunks != [] { TokensSpell(chunks[1..]); }
  }

  function AwaitingFrom(calls: seq<Call>, i: nat): Scan {
    if i >= |calls| then Ready else Awaiting(calls, i)
  }

  lemma {:induction false} ToolActsKeepOrder(tools: Tools, round: nat, calls: seq<Call>, i: nat, rest: Script)
    requires i <= |calls| && ScanFrom(Ready, Kept(rest)) != Bad
    ensures ScanFrom(AwaitingFrom(calls, i), Kept(ToolActs(tools, round, calls, i, rest))) != Bad
    decreases |calls| - i
  {
    if i < |calls| {
      ToolActsKeepOrder(tools, round, calls, i + 1, rest);
      CallYields(tools, round, calls, i, rest);
    }
  }

  lemma AwaitYields(rest: Script)
    ensures Events([Await] + rest) == Events(rest) && Kept([Await] + rest) == Kept(rest)
  {
    assert ([Await] + rest)[1..] == rest;
  }

  lemma EmitYields(e: Event, rest: Script)
    ensures Events([Emit(e)] + rest) == [e] + Events(rest) && Kept([Emit(e)] + rest) == Kept(rest)
  {
    assert ([Emit(e)] + rest)[1..] == rest;
  }

  lemma KeepYields(m: Message, rest: Script)
    ensures Events([Keep(m)] + rest) == Events(rest) && Kept([Keep(m)] + rest) == [m] + Kept(rest)
  {
    assert ([Keep(m)] + rest)[1..] == rest;
  }

  /** A call status and the wait for the tool. */
  lemma CalledYields(name: Option<string>, rest: Script)
    ensures Events([Emit(ToolCalled(name))] + ([Await] + rest)) == [ToolCalled(name)] + Events(rest)
    ensures Kept([Emit(ToolCalled(name))] + ([Await] + rest)) == Kept(rest)
  {
    EmitYields(ToolCalled(name), [Await] + rest);
    AwaitYields(rest);
  }

  /** A result status and the row kept. */
  lemma AnsweredYields(name: Option<string>, m: Message, rest: Script)
    ensures Events([Emit(ToolAnswered(name))] + ([Keep(m)] + rest)) == [ToolAnswered(name)] + Events(rest)
    ensures Kept([Emit(ToolAnswered(name))] + ([Keep(m)] + rest)) == [m] + Kept(rest)
  {
    EmitYields(ToolAnswered(name), [Keep(m)] + rest);
    KeepYields(m, rest);
  }

  lemma ErrorYields()
    ensures Events([Emit(Error)]) == [Error] && Kept([Emit(Error)]) == []
  {
    EmitYields(Error, []);
    assert [Emit(Error)] + [] == [Emit(Error)];
  }

  /** The events and messages of one call, followed by those of the rest. */
  lemma CallYields(tools: Tools, round: nat, calls: seq<Call>, i: nat, rest: Script)
    requires i < |calls|
    ensures var acts, later := ToolActs(tools, round, calls, i, rest), ToolActs(tools, round, calls, i + 1, rest);
            var name := calls[i].name;
            match tools(round, i)
            case ToolRaises => Kept(acts) == [] && Events(acts) == [ToolCalled(name), Error]
            case ToolOk(content) =>
              && Kept(acts) == [ToolMessage(calls[i], content)] + Kept(later)
              && Events(acts) == [ToolCalled(name), ToolAnswered(name)] + Events(later)
  {
    var later, name := ToolActs(tools, round, calls, i + 1, rest), calls[i].name;
    match tools(round, i) {
      case ToolRaises =>
        CalledYields(name, [Emit(Error)]);
        ErrorYields();
      case ToolOk(content) =>
        var m := ToolMessage(calls[i], content);
        CalledYields(name, [Emit(ToolAnswered(name))] + ([Keep(m)] + later));
        AnsweredYields(name, m, later);
        assert [ToolCalled(name)] + ([ToolAnswered(name)] + Events(later))
            == [ToolCalled(name), ToolAnswered(name)] + Events(later);
    }
  }

  /** A round whose stream opened yields its tokens and then what follows the stream. */
  lemma OpenedYields(model: StreamingModel, tools: Tools, limit: nat, round: nat, streamed: string)
    requires round < limit && model(round).Stream?
    ensures var chunks := model(round).chunks;
            var acts := Acts(model, tools, limit, round, streamed);
            var after := RoundActs(model, tools, limit, round, streamed + TextOf(chunks));
            Events(acts) == Tokens(chunks) + Events(after) && Kept(acts) == Kept(after)
  {
    var chunks := model(round).chunks;
    var after := RoundActs(model, tools, limit, round, streamed + TextOf(chunks));
    AwaitYields(after);
    ChunksKeepNothing(chunks, [Await] + after);
    AwaitYields(ChunkActs(chunks, [Await] + after));
  }

  lemma {:induction false} RunKeepsOrder(model: StreamingModel, tools: Tools, limit: nat, round: nat, streamed: string)
    ensures ScanFrom(Ready, Kept(Acts(model, tools, limit, round, streamed))) != Bad
    decreases limit - round, 1
  {
    if round >= limit {
      EndYields(Exhausted(streamed));
    } else if model(round).Stream? {
      OpenedYields(model, tools, limit, round, streamed);
      RoundKeepsOrder(model, tools, limit, round, streamed + TextOf(model(round).chunks));
    } else {
      assert [Await, Emit(Error)] == [Await] + [Emit(Error)];
      AwaitYields([Emit(Error)]);
      EndYields(Failed);
    }
  }

  lemma {:induction false} RoundKeepsOrder(model: StreamingModel, tools: Tools, limit: nat, round: nat,
        streamed: string)
    requires round < limit && model(round).Stream?
    ensures ScanFrom(Ready, Kept(RoundActs(model, tools, limit, round, streamed))) != Bad
    decreases limit - round, 0
  {
    if model(round).breaks {
      EndYields(Failed);
    } else if FragmentsOf(model(round).chunks) == [] {
      EndYields(Answered(OrFallback(streamed)));
    } else {
      var m, next := RoundMessage(model(round).chunks), Acts(model, tools, limit, round + 1, streamed);
      RunKeepsOrder(model, tools, limit, round + 1, streamed);
      ToolActsKeepOrder(tools, round, m.toolCalls.value, 0, next);
      KeepYields(m, ToolActs(tools, round, m.toolCalls.value, 0, next));
    }
  }

  /** Whatever the model, the tools and the client do, what is persisted is a begun turn: a user
      message followed by a prefix of what a complete turn may hold. */
  lemma StreamedTurnIsBegun(model: StreamingModel, tools: Tools, limit: nat, cut: nat, user: Message)
    requires IsUser(user)
    ensures Begun([user] + Kept(Cut(WholeRun(model, tools, limit), cut)))
  {
    var whole := WholeRun(model, tools, limit);
    RunKeepsOrder(model, tools, limit, 0, "");
    CutIsPrefix(whole, cut);
    PrefixYields(Cut(whole, cut), whole);
    PrefixNotBad(Ready, Kept(Cut(whole, cut)), Kept(whole));
    ScanConcat(Start, [user], Kept(Cut(whole, cut)));
    NeverStart([user] + Kept(Cut(whole, cut)));
  }

  // ---------------------------------------------------------------- how a run ends

  /** An exhausted run knows the text streamed before its fallback. */
  datatype Ending = Answered(reply: string) | Exhausted(preamble: string) | Failed

  function EndActs(e: Ending): Script {
    match e
    case Answered(reply) => FinalActs(reply)
    case Exhausted(_) => EXHAUSTED
    case Failed => [Emit(Error)]
  }

  lemma EndYields(e: Ending)
    ensures Kept(EndActs(e)) == KeptAtEnd(e) && Events(EndActs(e)) == EventsAtEnd(e)
    ensures (e.Answered? ==> e.reply != "") ==> ScanFrom(Ready, Kept(EndActs(e))) != Bad
  {
    match e {
      case Answered(reply) => AnswerYields(reply);
      case Exhausted(_) => ExhaustedYields();
      case Failed =>
        EmitYields(Error, []);
        assert EndActs(e) == [Emit(Error)] + [];
    }
  }

  function KeptAtEnd(e: Ending): Dialogue {
    match e
    case Answered(reply) => [ReplyMessage(reply)]
    case Exhausted(_) => [ReplyMessage(FALLBACK)]
    case Failed => []
  }

  function EventsAtEnd(e: Ending): seq<Event> {
    match e
    case Answered(reply) => [Done(reply), Terminator]
    case Exhausted(_) => [Token(FALLBACK), Done(FALLBACK), Terminator]
    case Failed => [Error]
  }

  lemma DoneYields(reply: string)
    ensures Events([Emit(Done(reply)), Emit(Terminator)]) == [Done(reply), Terminator]
    ensures Kept([Emit(Done(reply)), Emit(Terminator)]) == []
  {
    EmitYields(Terminator, []);
    assert [Emit(Terminator)] + [] == [Emit(Terminator)];
    EmitYields(Done(reply), [Emit(Terminator)]);
    assert [Emit(Done(reply))] + [Emit(Terminator)] == [Emit(Done(reply)), Emit(Terminator)];
  }

  lemma AnswerYields(reply: string)
    ensures Kept(FinalActs(reply)) == [ReplyMessage(reply)] && Events(FinalActs(reply)) == [Done(reply), Terminator]
  {
    DoneYields(reply);
    KeepYields(ReplyMessage(reply), [Emit(Done(reply)), Emit(Terminator)]);
    assert FinalActs(reply) == [Keep(ReplyMessage(reply))] + [Emit(Done(reply)), Emit(Terminator)];
  }

  lemma ExhaustedYields()
    ensures Kept(EXHAUSTED) == [ReplyMessage(FALLBACK)]
    ensures Events(EXHAUSTED) == [Token(FALLBACK), Done(FALLBACK), Terminator]
  {
    var done: Script := [Emit(Done(FALLBACK)), Emit(Terminator)];
    DoneYields(FALLBACK);
    EmitYields(Token(FALLBACK), done);
    KeepYields(ReplyMessage(FALLBACK), [Emit(Token(FALLBACK))] + done);
    assert EXHAUSTED == [Keep(ReplyMessage(FALLBACK))] + ([Emit(Token(FALLBACK))] + done);
  }

  /** How a run ends when nobody cuts it: with a final answer, after the last allowed round of tool
      calls, or with an error. */
  function EndingOf(model: StreamingModel, tools: Tools, limit: nat, round: nat, streamed: string): Ending
    decreases limit - round, 1
  {
    if round >= limit then Exhausted(streamed)
    else if model(round).OpenFails? then Failed
    else RoundEnding(model, tools, limit, round, streamed + TextOf(model(round).chunks))
  }

  /** How it ends once the stream of a round has ended or broken. */
  function RoundEnding(model: StreamingModel, tools: Tools, limit: nat, round: nat, text: string): Ending
    requires round < limit && model(round).Stream?
    decreases limit - round, 0
  {
    var chunks := model(round).chunks;
    if model(round).breaks then Failed
    else if FragmentsOf(chunks) == [] then Answered(OrFallback(text))
    else if ToolRows(tools, round, RoundMessage(chunks).toolCalls.value, 0).None? then Failed
    else EndingOf(model, tools, limit, round + 1, text)
  }

  /** Not the end of a stream and not an error. */
  predicate QuietAct(a: Act) {
    a.Emit? ==> !a.event.Done? && !a.event.Error? && !a.event.Terminator?
  }

  function DeltaIn(a: Act): string {
    if a.Emit? then DeltaOf(a.event) else ""
  }

  /** A final answer is everything sent by then, and so is the preamble of an exhausted run. */
  ghost predicate Settles(e: Ending, sent: string) {
    && (e.Answered? ==> e.reply == if sent == "" then FALLBACK else sent)
    && (e.Exhausted? ==> e.preamble == sent)
  }

  /** The script is quiet up to the ending `e`, which settles everything emitted by then: `sent`
      before the script and the rest in it. */
  ghost predicate Ends(script: Script, e: Ending, sent: string) {
    || (script == EndActs(e) && Settles(e, sent))
    || (script != [] && QuietAct(script[0]) && Ends(script[1..], e, sent + DeltaIn(script[0])))
  }

  lemma EndsCons(a: Act, rest: Script, e: Ending, sent: string)
    requires QuietAct(a) && Ends(rest, e, sent + DeltaIn(a))
    ensures Ends([a] + rest, e, sent)
  {
    assert ([a] + rest)[1..] == rest;
  }

  /** An act without text. */
  lemma EndsSilent(a: Act, rest: Script, e: Ending, sent: string)
    requires QuietAct(a) && DeltaIn(a) == "" && Ends(rest, e, sent)
    ensures Ends([a] + rest, e, sent)
  {
    assert sent + "" == sent;
    EndsCons(a, rest, e, sent);
  }

  lemma {:induction false} EndsChunks(chunks: seq<Chunk>, rest: Script, e: Ending, sent: string)
    requires Ends(rest, e, sent + TextOf(chunks))
    ensures Ends(ChunkActs(chunks, rest), e, sent)
  {
    if chunks == [] {
      assert sent + "" == sent;
    } else {
      var text := ChunkText(chunks[0]);
      assert sent + TextOf(chunks) == sent + text + TextOf(chunks[1..]);
      EndsChunks(chunks[1..], rest, e, sent + text);
      var later := ChunkActs(chunks[1..], rest);
      if text == "" {
        assert sent + text == sent;
        EndsSilent(Await, later, e, sent);
      } else {
        EndsCons(Emit(Token(text)), later, e, sent);
        EndsSilent(Await, [Emit(Token(text))] + later, e, sent);
      }
    }
  }

  lemma {:induction false} EndsTools(tools: Tools, round: nat, calls: seq<Call>, i: nat, rest: Script, e: Ending,
        sent: string)
    requires i <= |calls|
    requires if ToolRows(tools, round, calls, i).Some? then Ends(rest, e, sent) else e == Failed
    ensures Ends(ToolActs(tools, round, calls, i, rest), e, sent)
    decreases |calls| - i
  {
    if i < |calls| {
      var later := ToolActs(tools, round, calls, i + 1, rest);
      var answered := match tools(round, i)
        case ToolRaises => [Emit(Error)]
        case ToolOk(content) => [Emit(ToolAnswered(calls[i].name))] + ([Keep(ToolMessage(calls[i], content))] + later);
      match tools(round, i) {
        case ToolRaises =>
        case ToolOk(content) =>
          EndsTools(tools, round, calls, i + 1, rest, e, sent);
          EndsSilent(Keep(ToolMessage(calls[i], content)), later, e, sent);
          EndsSilent(Emit(ToolAnswered(calls[i].name)), [Keep(ToolMessage(calls[i], content))] + later, e, sent);
      }
      EndsSilent(Await, answered, e, sent);
      EndsSilent(Emit(ToolCalled(calls[i].name)), [Await] + answered, e, sent);
    }
  }

  lemma {:induction false} EndsRun(model: StreamingModel, tools: Tools, limit: nat, round: nat, streamed: string)
    ensures Ends(Acts(model, tools, limit, round, streamed), EndingOf(model, tools, limit, round, streamed), streamed)
    decreases limit - round, 1
  {
    var e := EndingOf(model, tools, limit, round, streamed);
    if round >= limit {
      assert EXHAUSTED == EndActs(e);
    } else if model(round).OpenFails? {
      assert [Await, Emit(Error)] == [Await] + EndActs(Failed);
      EndsSilent(Await, EndActs(Failed), e, streamed);
    } else {
      var chunks := model(round).chunks;
      var text := streamed + TextOf(chunks);
      var after := RoundActs(model, tools, limit, round, text);
      EndsRound(model, tools, limit, round, text);
      EndsSilent(Await, after, e, text);
      EndsChunks(chunks, [Await] + after, e, streamed);
      EndsSilent(Await, ChunkActs(chunks, [Await] + after), e, streamed);
    }
  }

  lemma {:induction false} EndsRound(model: StreamingModel, tools: Tools, limit: nat, round: nat, text: string)
    requires round < limit && model(round).Stream?
    ensures Ends(RoundActs(model, tools, limit, round, text), RoundEnding(model, tools, limit, round, text), text)
    decreases limit - round, 0
  {
    if !model(round).breaks && FragmentsOf(model(round).chunks) != [] {
      var m, next := RoundMessage(model(round).chunks), Acts(model, tools, limit, round + 1, text);
      var e := RoundEnding(model, tools, limit, round, text);
      EndsRun(model, tools, limit, round + 1, text);
      EndsTools(tools, round, m.toolCalls.value, 0, next, e, text);
      EndsSilent(Keep(m), ToolActs(tools, round, m.toolCalls.value, 0, next), e, text);
    }
  }

  // ---------------------------------------------------------------- what the client sees

  /** What is known once `done` has gone out, `sent` being all text sent by then. */
  ghost predicate Agrees(e: Ending, sent: string, x: string) {
    match e
    case Answered(reply) => x == reply && x == if sent == "" then FALLBACK else sent
    case Exhausted(preamble) => x == FALLBACK && sent == preamble + FALLBACK
    case Failed => false
  }

  /** The endings of a stream in a list of events: `done` and `error`. */
  function Closings(events: seq<Event>): nat {
    if events == [] then 0
    else (if events[0].Done? || events[0].Error? then 1 else 0) + Closings(events[1..])
  }

  lemma ClosingsCons(e: Event, rest: seq<Event>)
    ensures Closings([e] + rest) == (if e.Done? || e.Error? then 1 else 0) + Closings(rest)
    ensures Deltas([e] + rest) == DeltaOf(e) + Deltas(rest)
  {
    assert ([e] + rest)[1..] == rest;
  }

  /** The last two acts of an answer, possibly cut. */
  lemma CutDone(c: Script, reply: string)
    requires c <= [Emit(Done(reply)), Emit(Terminator)]
    ensures Closings(Events(c)) <= 1 && Deltas(Events(c)) == "" && Kept(c) == []
    ensures forall x :: Done(x) in Events(c) ==> x == reply
  {
    if c != [] {
      var d := c[1..];
      assert c == [Emit(Done(reply))] + d;
      EmitYields(Done(reply), d);
      ClosingsCons(Done(reply), Events(d));
      if d != [] {
        assert d == [Emit(Terminator)] + [];
        EmitYields(Terminator, []);
        ClosingsCons(Terminator, []);
        assert Events(d) == [Terminator];
      }
    }
  }

  /** If the client was told `x`, that agrees with the ending, and `x` is the last message kept. */
  ghost predicate Told(c: Script, e: Ending, sent: string, x: string) {
    Done(x) in Events(c) ==>
      Agrees(e, sent + Deltas(Events(c)), x) && Kept(c) != [] && Kept(c)[|Kept(c)| - 1] == ReplyMessage(x)
  }

  lemma {:induction false} AnswerCut(c: Script, sent: string, reply: string, x: string)
    requires c <= FinalActs(reply) && c != [] && reply == if sent == "" then FALLBACK else sent
    ensures Closings(Events(c)) <= 1 && Told(c, Answered(reply), sent, x)
  {
    var d := c[1..];
    assert c == [Keep(ReplyMessage(reply))] + d;
    assert d <= [Emit(Done(reply)), Emit(Terminator)];
    CutDone(d, reply);
    KeepYields(ReplyMessage(reply), d);
    assert Events(c) == Events(d) && Kept(c) == [ReplyMessage(reply)];
    assert sent + Deltas(Events(c)) == sent;
  }

  lemma {:induction false} ExhaustedCut(c: Script, sent: string, x: string)
    requires c <= EXHAUSTED && c != []
    ensures Closings(Events(c)) <= 1 && Told(c, Exhausted(sent), sent, x)
  {
    var d := c[1..];
    assert c == [Keep(ReplyMessage(FALLBACK))] + d;
    KeepYields(ReplyMessage(FALLBACK), d);
    if d != [] {
      assert d == [Emit(Token(FALLBACK))] + d[1..];
      EmitYields(Token(FALLBACK), d[1..]);
      ClosingsCons(Token(FALLBACK), Events(d[1..]));
      CutDone(d[1..], FALLBACK);
      assert FALLBACK + "" == FALLBACK;
    }
  }

  /** A cut ending. */
  lemma {:induction false} CutEnding(e: Ending, c: Script, sent: string, x: string)
    requires c <= EndActs(e) && Settles(e, sent)
    ensures Closings(Events(c)) <= 1 && Told(c, e, sent, x)
  {
    if c != [] {
      match e {
        case Answered(reply) => AnswerCut(c, sent, reply, x);
        case Exhausted(_) => ExhaustedCut(c, sent, x);
        case Failed =>
          assert c == [Emit(Error)] + [];
          EmitYields(Error, []);
          ClosingsCons(Error, []);
          assert [Error] + [] == [Error];
      }
    }
  }

  /** What a quiet act in front adds to the events and the messages. */
  lemma {:induction false} QuietYields(a: Act, d: Script)
    requires QuietAct(a)
    ensures Closings(Events([a] + d)) == Closings(Events(d))
              && Deltas(Events([a] + d)) == DeltaIn(a) + Deltas(Events(d))
    ensures forall x :: Done(x) in Events([a] + d) ==> Done(x) in Events(d)
    ensures Kept([a] + d) == KeptOf(a) + Kept(d)
  {
    match a {
      case Emit(event) =>
        EmitYields(event, d);
        ClosingsCons(event, Events(d));
      case Await => AwaitYields(d);
      case Keep(m) => KeepYields(m, d);
    }
  }

  /** A quiet act in front changes nothing but the text sent. */
  lemma {:induction false} ToldCons(a: Act, d: Script, e: Ending, sent: string, x: string)
    requires QuietAct(a) && Told(d, e, sent + DeltaIn(a), x)
    ensures Told([a] + d, e, sent, x) && Closings(Events([a] + d)) == Closings(Events(d))
  {
    QuietYields(a, d);
    Associate(sent, DeltaIn(a), Deltas(Events(d)));
  }

  lemma {:induction false} CutRun(script: Script, c: Script, e: Ending, sent: string, x: string)
    requires Ends(script, e, sent) && c <= script
    ensures Closings(Events(c)) <= 1 && Told(c, e, sent, x)
  {
    if script == EndActs(e) && Settles(e, sent) {
      CutEnding(e, c, sent, x);
    } else if c != [] {
      CutRun(script[1..], c[1..], e, sent + DeltaIn(c[0]), x);
      ToldCons(c[0], c[1..], e, sent, x);
      assert c == [c[0]] + c[1..];
    }
  }

  /** What the client is told in a cut run, from any round on. */
  lemma ToldInRun(model: StreamingModel, tools: Tools, limit: nat, round: nat, streamed: string, c: Script, x: string)
    requires c <= Acts(model, tools, limit, round, streamed)
    ensures Closings(Events(c)) <= 1 && Told(c, EndingOf(model, tools, limit, round, streamed), streamed, x)
  {
    EndsRun(model, tools, limit, round, streamed);
    CutRun(Acts(model, tools, limit, round, streamed), c, EndingOf(model, tools, limit, round, streamed), streamed, x);
  }

  lemma ToldFromStart(c: Script, e: Ending, x: string)
    requires Told(c, e, "", x) && Done(x) in Events(c)
    ensures Agrees(e, Deltas(Events(c)), x) && Kept(c) != [] && Kept(c)[|Kept(c)| - 1] == ReplyMessage(x)
    ensures e.Exhausted? ==> Deltas(Events(c)) == e.preamble + FALLBACK
  {
    assert "" + Deltas(Events(c)) == Deltas(Events(c));
  }

  /** The reply the client is told in `done` is the one persisted, at the end of a complete turn,
      and is the concatenation of every token sent, or the fallback when none was; a run that
      used up its rounds has sent the text of all of them and then the fallback. */
  lemma ReplyAgreement(model: StreamingModel, tools: Tools, limit: nat, cut: nat, user: Message, x: string)
    requires IsUser(user)
    requires Done(x) in Events(Cut(WholeRun(model, tools, limit), cut))
    ensures var c := Cut(WholeRun(model, tools, limit), cut);
            var turn := [user] + Kept(c);
            && FullTurn(turn) && turn[|turn| - 1] == Message(Assistant, Some(x), None, None, false)
            && match EndingOf(model, tools, limit, 0, "")
               case Answered(_) => x == if Deltas(Events(c)) == "" then FALLBACK else Deltas(Events(c))
               case Exhausted(_) => x == FALLBACK && Deltas(Events(c)) == TextOfRounds(model, limit, 0) + FALLBACK
               case Failed => false
  {
    var c := Cut(WholeRun(model, tools, limit), cut);
    CutIsPrefix(WholeRun(model, tools, limit), cut);
    ToldInRun(model, tools, limit, 0, "", c, x);
    ToldFromStart(c, EndingOf(model, tools, limit, 0, ""), x);
    StreamedTurnIsBegun(model, tools, limit, cut, user);
    ClosedByReply(user, Kept(c), x);
    PreambleIsAllText(model, tools, limit, 0, "");
    assert "" + TextOfRounds(model, limit, 0) == TextOfRounds(model, limit, 0);
  }

  /** The text of the rounds from `round` on. */
  function TextOfRounds(model: StreamingModel, limit: nat, round: nat): string
    decreases limit - round
  {
    if round >= limit || model(round).OpenFails? then ""
    else TextOf(model(round).chunks) + TextOfRounds(model, limit, round + 1)
  }

  lemma {:induction false} PreambleIsAllText(model: StreamingModel, tools: Tools, limit: nat, round: nat,
        streamed: string)
    ensures var e := EndingOf(model, tools, limit, round, streamed);
            e.Exhausted? ==> e.preamble == streamed + TextOfRounds(model, limit, round)
    decreases limit - round
  {
    if round < limit && model(round).Stream? {
      var text := TextOf(model(round).chunks);
      PreambleIsAllText(model, tools, limit, round + 1, streamed + text);
      Associate(streamed, text, TextOfRounds(model, limit, round + 1));
    } else {
      assert streamed + "" == streamed;
    }
  }

  /** A begun turn that ends with a reply is complete. */
  lemma ClosedByReply(user: Message, kept: Dialogue, x: string)
    requires Begun([user] + kept) && kept != [] && kept[|kept| - 1] == ReplyMessage(x)
    ensures FullTurn([user] + kept) && ([user] + kept)[|kept|] == ReplyMessage(x)
  {
    var before := [user] + kept[..|kept| - 1];
    assert [user] + kept == before + [ReplyMessage(x)];
    ScanSnoc(Start, before, ReplyMessage(x));
    NeverStart(before);
    FullTurnIff([user] + kept);
  }

  /** At most one of `done` and `error` is ever sent. */
  lemma AtMostOneClosing(model: StreamingModel, tools: Tools, limit: nat, cut: nat)
    ensures Closings(Events(Cut(WholeRun(model, tools, limit), cut))) <= 1
  {
    CutIsPrefix(WholeRun(model, tools, limit), cut);
    ToldInRun(model, tools, limit, 0, "", Cut(WholeRun(model, tools, limit), cut), "");
  }

  // ---------------------------------------------------------------- what a whole run is made of

  /** The calls that round `j` spells out. */
  function CallsAsked(model: StreamingModel, j: nat): seq<Call>
    requires model(j).Stream?
  {
    CallsOf(Merge(FragmentsOf(model(j).chunks)))
  }

  /** Round `j` streams to its end, asks for tools, and every tool it calls answers. */
  ghost predicate StreamGoesOn(model: StreamingModel, tools: Tools, j: nat) {
    && model(j).Stream? && !model(j).breaks && FragmentsOf(model(j).chunks) != []
    && forall k: nat :: k < |CallsAsked(model, j)| ==> tools(j, k).ToolOk?
  }

  /** What a round that goes on persists: its text, if any, with its calls, and a row per call in order with
      its id and the tool's answer. */
  ghost predicate IsStreamGroup(model: StreamingModel, tools: Tools, j: nat, group: Dialogue)
    requires StreamGoesOn(model, tools, j)
  {
    var text, calls := TextOf(model(j).chunks), CallsAsked(model, j);
    && |group| == 1 + |calls|
    && group[0] == Message(Assistant, if text == "" then None else Some(text), Some(calls), None, false)
    && forall k: nat :: k < |calls| ==>
         group[1 + k] == Message(Tool, Some(tools(j, k).content), None, calls[k].id, false)
  }

  /** The statuses of a round: for every call in order, that it was made and that it was answered. */
  function StatusAt(calls: seq<Call>, t: nat): Event
    requires t < 2 * |calls|
  {
    if t % 2 == 0 then ToolCalled(calls[t / 2].name) else ToolAnswered(calls[t / 2].name)
  }

  /** What a round that goes on sends: its non-empty texts, and a pair of statuses per call in order. */
  ghost predicate IsStreamReport(model: StreamingModel, j: nat, report: seq<Event>)
    requires model(j).Stream?
  {
    var texts, calls := Tokens(model(j).chunks), CallsAsked(model, j);
    && |report| == |texts| + 2 * |calls| && texts <= report
    && forall t: nat :: t < 2 * |calls| ==> report[|texts| + t] == StatusAt(calls, t)
  }

  lemma {:induction false} ToolsYield(tools: Tools, round: nat, calls: seq<Call>, i: nat, rest: Script)
    returns (rows: Dialogue, statuses: seq<Event>)
    requires i <= |calls| && forall k: nat :: i <= k < |calls| ==> tools(round, k).ToolOk?
    ensures Kept(ToolActs(tools, round, calls, i, rest)) == rows + Kept(rest)
    ensures Events(ToolActs(tools, round, calls, i, rest)) == statuses + Events(rest)
    ensures |rows| == |calls| - i && |statuses| == 2 * (|calls| - i)
    ensures forall k: nat :: i <= k < |calls| ==>
              rows[k - i] == Message(Tool, Some(tools(round, k).content), None, calls[k].id, false)
    ensures forall t: nat :: 2 * i <= t < 2 * |calls| ==> statuses[t - 2 * i] == StatusAt(calls, t)
    decreases |calls| - i
  {
    rows, statuses := [], [];
    if i < |calls| {
      var later, more := ToolsYield(tools, round, calls, i + 1, rest);
      CallYields(tools, round, calls, i, rest);
      var pair := [StatusAt(calls, 2 * i), StatusAt(calls, 2 * i + 1)];
      rows, statuses := [ToolMessage(calls[i], tools(round, i).content)] + later, pair + more;
      Associate([ToolMessage(calls[i], tools(round, i).content)], later, Kept(rest));
      Associate(pair, more, Events(rest));
    }
  }

  /** A round that goes on yields its group and its report, and then what the next rounds yield. */
  lemma StreamRoundGoesOn(model: StreamingModel, tools: Tools, limit: nat, j: nat, streamed: string)
    returns (group: Dialogue, report: seq<Event>)
    requires j < limit && StreamGoesOn(model, tools, j)
    ensures IsStreamGroup(model, tools, j, group) && IsStreamReport(model, j, report)
    ensures var acts := Acts(model, tools, limit, j, streamed);
            var next := Acts(model, tools, limit, j + 1, streamed + TextOf(model(j).chunks));
            Kept(acts) == group + Kept(next) && Events(acts) == report + Events(next)
  {
    var text, calls := streamed + TextOf(model(j).chunks), CallsAsked(model, j);
    var m, next := RoundMessage(model(j).chunks), Acts(model, tools, limit, j + 1, text);
    var rows, statuses := ToolsYield(tools, j, calls, 0, next);
    KeepYields(m, ToolActs(tools, j, calls, 0, next));
    OpenedYields(model, tools, limit, j, streamed);
    group, report := [m] + rows, Tokens(model(j).chunks) + statuses;
    Associate([m], rows, Kept(next));
    Associate(Tokens(model(j).chunks), statuses, Events(next));
  }

  function AllOf(reports: seq<seq<Event>>): seq<Event> {
    if reports == [] then [] else AllOf(reports[..|reports| - 1]) + reports[|reports| - 1]
  }

  /** The rounds before `r` go on, and this is what they persist and send. */
  ghost predicate GoesOnUntil(model: StreamingModel, tools: Tools, r: nat, groups: seq<Dialogue>,
                              reports: seq<seq<Event>>)
  {
    && |groups| == |reports| == r
    && forall j: nat :: j < r ==>
         && StreamGoesOn(model, tools, j) && IsStreamGroup(model, tools, j, groups[j])
         && IsStreamReport(model, j, reports[j])
  }

  /** The run consists of the first `r` rounds and what is done from then on. */
  ghost predicate SplitAt(model: StreamingModel, tools: Tools, limit: nat, r: nat, groups: seq<Dialogue>,
                          reports: seq<seq<Event>>)
  {
    var whole, later := WholeRun(model, tools, limit), Acts(model, tools, limit, r, TextOfRounds(model, r, 0));
    Kept(whole) == Flatten(groups) + Kept(later) && Events(whole) == AllOf(reports) + Events(later)
  }

  lemma OneMoreRound(model: StreamingModel, tools: Tools, limit: nat, r: nat, groups: seq<Dialogue>,
        reports: seq<seq<Event>>)
    returns (group: Dialogue, report: seq<Event>)
    requires r < limit && StreamGoesOn(model, tools, r) && SplitAt(model, tools, limit, r, groups, reports)
    requires forall k: nat :: k < r ==> StreamGoesOn(model, tools, k)
    ensures IsStreamGroup(model, tools, r, group) && IsStreamReport(model, r, report)
    ensures SplitAt(model, tools, limit, r + 1, groups + [group], reports + [report])
  {
    var streamed := TextOfRounds(model, r, 0);
    group, report := StreamRoundGoesOn(model, tools, limit, r, streamed);
    TextGrows(model, tools, r, 0);
    var next := Acts(model, tools, limit, r + 1, streamed + TextOf(model(r).chunks));
    Associate(Flatten(groups), group, Kept(next));
    Associate(AllOf(reports), report, Events(next));
    FlattenSnoc(groups, group);
    assert (reports + [report])[..|reports|] == reports;
  }

  /** What the last round persists and sends. If all `limit` rounds went on, the fallback is sent as text and
      closes the turn. If round `r` streams to its end without tool calls, everything streamed closes the turn,
      or the fallback if that is nothing. In any other case the last event is `error`. */
  ghost predicate IsLastRound(model: StreamingModel, limit: nat, r: nat, kept: Dialogue, events: seq<Event>) {
    if r >= limit then
      && kept == [Message(Assistant, Some(FALLBACK), None, None, false)]
      && events == [Token(FALLBACK), Done(FALLBACK), Terminator]
    else if model(r).Stream? && !model(r).breaks && FragmentsOf(model(r).chunks) == [] then
      var reply := if TextOfRounds(model, r + 1, 0) == "" then FALLBACK else TextOfRounds(model, r + 1, 0);
      && kept == [Message(Assistant, Some(reply), None, None, false)]
      && events == Tokens(model(r).chunks) + [Done(reply), Terminator]
    else
      events != [] && events[|events| - 1] == Error
  }

  lemma GoesOnLonger(model: StreamingModel, tools: Tools, r: nat, groups: seq<Dialogue>, reports: seq<seq<Event>>,
        group: Dialogue, report: seq<Event>)
    requires GoesOnUntil(model, tools, r, groups, reports) && StreamGoesOn(model, tools, r)
    requires IsStreamGroup(model, tools, r, group) && IsStreamReport(model, r, report)
    ensures GoesOnUntil(model, tools, r + 1, groups + [group], reports + [report])
  {
  }

  lemma {:induction false} RoundsGoOn(model: StreamingModel, tools: Tools, limit: nat)
    returns (r: nat, groups: seq<Dialogue>, reports: seq<seq<Event>>)
    ensures r <= limit && GoesOnUntil(model, tools, r, groups, reports)
    ensures r < limit ==> !StreamGoesOn(model, tools, r)
    ensures SplitAt(model, tools, limit, r, groups, reports)
  {
    r, groups, reports := 0, [], [];
    assert GoesOnUntil(model, tools, r, groups, reports) && SplitAt(model, tools, limit, r, groups, reports);
    while r < limit && StreamGoesOn(model, tools, r)
      invariant r <= limit && GoesOnUntil(model, tools, r, groups, reports)
      invariant SplitAt(model, tools, limit, r, groups, reports)
    {
      var group, report := OneMoreRound(model, tools, limit, r, groups, reports);
      GoesOnLonger(model, tools, r, groups, reports, group, report);
      r, groups, reports := r + 1, groups + [group], reports + [report];
    }
  }

  /** What a stream that nobody cuts persists and sends, read off the model and the tools: the groups and
      reports of the rounds before `r`, which go on, and what the last round adds. */
  lemma StreamOutcome(model: StreamingModel, tools: Tools, limit: nat)
    returns (r: nat, groups: seq<Dialogue>, reports: seq<seq<Event>>, kept: Dialogue, events: seq<Event>)
    ensures r <= limit && GoesOnUntil(model, tools, r, groups, reports)
    ensures (r < limit ==> !StreamGoesOn(model, tools, r)) && IsLastRound(model, limit, r, kept, events)
    ensures Kept(WholeRun(model, tools, limit)) == Flatten(groups) + kept
    ensures Events(WholeRun(model, tools, limit)) == AllOf(reports) + events
  {
    r, groups, reports := RoundsGoOn(model, tools, limit);
    var last := Acts(model, tools, limit, r, TextOfRounds(model, r, 0));
    kept, events := Kept(last), Events(last);
    LastRound(model, tools, limit, r);
  }

  /** A round that does not go on ends the run. */
  lemma LastRound(model: StreamingModel, tools: Tools, limit: nat, r: nat)
    requires r <= limit && (r < limit ==> !StreamGoesOn(model, tools, r))
    requires forall k: nat :: k < r ==> StreamGoesOn(model, tools, k)
    ensures var acts := Acts(model, tools, limit, r, TextOfRounds(model, r, 0));
            IsLastRound(model, limit, r, Kept(acts), Events(acts))
  {
    var streamed := TextOfRounds(model, r, 0);
    if r >= limit {
      EndYields(Exhausted(streamed));
    } else if model(r).OpenFails? {
      assert [Await, Emit(Error)] == [Await] + [Emit(Error)];
      AwaitYields([Emit(Error)]);
      ErrorYields();
    } else {
      OpenedYields(model, tools, limit, r, streamed);
      TextGrows(model, tools, r, 0);
      var text := streamed + TextOf(model(r).chunks);
      if model(r).breaks {
        ErrorYields();
      } else if FragmentsOf(model(r).chunks) == [] {
        AnswerYields(if text == "" then FALLBACK else text);
      } else {
        var m, next := RoundMessage(model(r).chunks), Acts(model, tools, limit, r + 1, text);
        ToolsFail(tools, r, CallsAsked(model, r), 0, next);
        KeepYields(m, ToolActs(tools, r, CallsAsked(model, r), 0, next));
      }
    }
  }

  /** A tool that raises ends the run with an error. */
  lemma {:induction false} ToolsFail(tools: Tools, round: nat, calls: seq<Call>, i: nat, rest: Script)
    requires i <= |calls| && exists k: nat :: i <= k < |calls| && tools(round, k).ToolRaises?
    ensures var events := Events(ToolActs(tools, round, calls, i, rest));
            events != [] && events[|events| - 1] == Error
    decreases |calls| - i
  {
    CallYields(tools, round, calls, i, rest);
    if tools(round, i).ToolOk? { ToolsFail(tools, round, calls, i + 1, rest); }
  }

  /** One more round adds its text. */
  lemma {:induction false} TextGrows(model: StreamingModel, tools: Tools, r: nat, j: nat)
    requires j <= r && forall k: nat :: j <= k < r ==> StreamGoesOn(model, tools, k)
    ensures model(r).Stream? ==>
              TextOfRounds(model, r + 1, j) == TextOfRounds(model, r, j) + TextOf(model(r).chunks)
    decreases r - j
  {
    if j < r {
      TextGrows(model, tools, r, j + 1);
      assert StreamGoesOn(model, tools, j);
      if model(r).Stream? {
        Associate(TextOf(model(j).chunks), TextOfRounds(model, r, j + 1), TextOf(model(r).chunks));
      }
    } else if model(r).Stream? {
      assert TextOf(model(r).chunks) + "" == "" + TextOf(model(r).chunks);
    }
  }

  // ---------------------------------------------------------------- tool statuses

  /** Every call status is followed by its own result, unless the run failed or was cut there; and
      every result follows its call. */
  ghost predicate Paired(events: seq<Event>) {
    && (forall i :: 0 <= i < |events| && events[i].ToolCalled? ==>
          i + 1 == |events| || events[i + 1] == ToolAnswered(events[i].name) || events[i + 1] == Error)
    && (forall i :: 0 <= i < |events| && events[i].ToolAnswered? ==>
          i > 0 && events[i - 1] == ToolCalled(events[i].name))
  }

  lemma PairedCons(e: Event, rest: seq<Event>)
    requires Paired(rest) && !e.ToolCalled? && !e.ToolAnswered?
    ensures Paired([e] + rest)
  {
    forall i | 0 <= i < |rest| ensures ([e] + rest)[i + 1] == rest[i] {}
  }

  lemma PairedCall(name: Option<string>, rest: seq<Event>)
    requires Paired(rest)
    ensures Paired([ToolCalled(name), ToolAnswered(name)] + rest)
  {
    var all := [ToolCalled(name), ToolAnswered(name)] + rest;
    forall i | 0 <= i < |rest| ensures all[i + 2] == rest[i] {}
  }

  lemma PairedPrefix(a: seq<Event>, b: seq<Event>)
    requires Paired(b) && a <= b
    ensures Paired(a)
  {
  }

  lemma {:induction false} TokensPaired(chunks: seq<Chunk>, rest: seq<Event>)
    requires Paired(rest)
    ensures Paired(Tokens(chunks) + rest)
  {
    if chunks == [] {
      assert [] + rest == rest;
    } else {
      TokensPaired(chunks[1..], rest);
      var text := ChunkText(chunks[0]);
      if text != "" {
        PairedCons(Token(text), Tokens(chunks[1..]) + rest);
        assert Tokens(chunks) + rest == [Token(text)] + (Tokens(chunks[1..]) + rest);
      }
    }
  }

  lemma {:induction false} ToolsPaired(tools: Tools, round: nat, calls: seq<Call>, i: nat, rest: Script)
    requires i <= |calls| && Paired(Events(rest))
    ensures Paired(Events(ToolActs(tools, round, calls, i, rest)))
    decreases |calls| - i
  {
    if i < |calls| {
      CallYields(tools, round, calls, i, rest);
      ToolsPaired(tools, round, calls, i + 1, rest);
      var later := Events(ToolActs(tools, round, calls, i + 1, rest));
      match tools(round, i) {
        case ToolRaises => assert Paired([ToolCalled(calls[i].name), Error]);
        case ToolOk(_) => PairedCall(calls[i].name, later);
      }
    }
  }

  lemma {:induction false} RunPaired(model: StreamingModel, tools: Tools, limit: nat, round: nat, streamed: string)
    ensures Paired(Events(Acts(model, tools, limit, round, streamed)))
    decreases limit - round, 1
  {
    if round >= limit {
      EndYields(Exhausted(streamed));
    } else if model(round).OpenFails? {
      EndYields(Failed);
      assert [Await, Emit(Error)] == [Await] + [Emit(Error)];
      AwaitYields([Emit(Error)]);
    } else {
      var text := streamed + TextOf(model(round).chunks);
      RoundPaired(model, tools, limit, round, text);
      OpenedYields(model, tools, limit, round, streamed);
      TokensPaired(model(round).chunks, Events(RoundActs(model, tools, limit, round, text)));
    }
  }

  lemma {:induction false} RoundPaired(model: StreamingModel, tools: Tools, limit: nat, round: nat, text: string)
    requires round < limit && model(round).Stream?
    ensures Paired(Events(RoundActs(model, tools, limit, round, text)))
    decreases limit - round, 0
  {
    EndYields(Failed);
    EndYields(Answered(OrFallback(text)));
    if !model(round).breaks && FragmentsOf(model(round).chunks) != [] {
      var m, next := RoundMessage(model(round).chunks), Acts(model, tools, limit, round + 1, text);
      RunPaired(model, tools, limit, round + 1, text);
      ToolsPaired(tools, round, m.toolCalls.value, 0, next);
      KeepYields(m, ToolActs(tools, round, m.toolCalls.value, 0, next));
    }
  }

  /** In every stream, however it fails or is cut, tool statuses come in pairs. */
  lemma {:induction false} ToolStatusesArePaired(model: StreamingModel, tools: Tools, limit: nat, cut: nat)
    ensures Paired(Events(Cut(WholeRun(model, tools, limit), cut)))
  {
    var whole := WholeRun(model, tools, limit);
    RunPaired(model, tools, limit, 0, "");
    CutIsPrefix(whole, cut);
    PrefixYields(Cut(whole, cut), whole);
    PairedPrefix(Events(Cut(whole, cut)), Events(whole));
  }
}
