/**
  The tool-calling loop of the parrot service, without streaming (services/parrot/llm.py,
  lines 85-174). The model and the tools are arbitrary functions of the round and the call.
 */
module Chat {
  import opened Wrappers
  import opened Messages
  import opened Turns

  const MAX_TOOL_ROUNDS: nat := 5

  type Text = s: string | s != "" witness "?"

  /** The reply given when the model has none. Nothing depends on its wording, so the model leaves
      it open: every law holds for whatever non-empty text is chosen. */
  const FALLBACK: Text

  datatype ModelCall = ModelCall(id: string, name: string, arguments: string)

  /** One completion: the call may raise; else the first choice. */
  datatype Completion =
    | CallFails
    | Choice(finishedForTools: bool, content: Option<string>, toolCalls: Option<seq<ModelCall>>)

  datatype ToolOutcome = ToolOk(content: string) | ToolRaises

  type Model = nat -> Completion

  type Tools = (nat, nat) -> ToolOutcome

  datatype ChatResult = Raised | Replied(reply: string, newMessages: Dialogue)

  /** The profanity filter's verdict on the guest's message. */
  datatype Masked = Masked(content: string, censored: bool)

  function UserMessage(m: Masked): Message {
    Message(User, Some(m.content), None, None, m.censored)
  }

  function SystemMessage(prompt: string): Message {
    Message(Other("system"), Some(prompt), None, None, false)
  }

  function ReplyMessage(reply: string): Message {
    Message(Assistant, Some(reply), None, None, false)
  }

  function ToolMessage(c: Call, content: string): Message {
    Message(Tool, Some(content), None, c.id, false)
  }

  /** The prompt and history the model sees before this request, and the messages to persist. */
  function Assemble(m: Masked, prompt: string, history: Dialogue): (r: (Dialogue, Dialogue))
    ensures r.0 == [SystemMessage(prompt)] + history + r.1 && r.1 == [UserMessage(m)]
  {
    ([SystemMessage(prompt)] + history + [UserMessage(m)], [UserMessage(m)])
  }

  function NormalizeCalls(calls: seq<ModelCall>): seq<Call> {
    seq(|calls|, i requires 0 <= i < |calls| => Call(Some(calls[i].id), Some(calls[i].name), Some(calls[i].arguments)))
  }

  function CallsMessage(content: Option<string>, calls: seq<Call>): Message {
    Message(Assistant, content, Some(calls), None, false)
  }

  function OrFallback(text: string): Text {
    if text == "" then FALLBACK else text
  }

  // ---------------------------------------------------------------- what a run produces

  /** The answers to `calls` from call `i` on, unless a tool raises. */
  function ToolRows(tools: Tools, round: nat, calls: seq<Call>, i: nat): Option<Dialogue>
    requires i <= |calls|
    decreases |calls| - i
  {
    if i == |calls| then Some([])
    else
      match tools(round, i)
      case ToolRaises => None
      case ToolOk(content) =>
        match ToolRows(tools, round, calls, i + 1)
        case None => None
        case Some(rows) => Some([ToolMessage(calls[i], content)] + rows)
  }

  predicate AsksForTools(c: Completion)
    requires c.Choice?
  {
    c.finishedForTools || (c.toolCalls.Some? && c.toolCalls.value != [])
  }

  /** The run from round `round` on, with `newMessages` so far. */
  function ChatFrom(model: Model, tools: Tools, round: nat, newMessages: Dialogue): ChatResult
    decreases MAX_TOOL_ROUNDS - round
  {
    if round >= MAX_TOOL_ROUNDS then Replied(FALLBACK, newMessages + [ReplyMessage(FALLBACK)])
    else
      match model(round)
      case CallFails => Raised
      case Choice(_, content, toolCalls) =>
        if !AsksForTools(model(round)) then
          var reply := OrFallback(content.GetOr(""));
          Replied(reply, newMessages + [ReplyMessage(reply)])
        else if toolCalls.None? then Raised
        else
          var calls := NormalizeCalls(toolCalls.value);
          match ToolRows(tools, round, calls, 0)
          case None => Raised
          case Some(rows) => ChatFrom(model, tools, round + 1, newMessages + [CallsMessage(content, calls)] + rows)
  }

  /** What the model is sent from round `round` on: what came `before` this request and everything new
      so far, in every round that is reached. */
  function Prompts(model: Model, tools: Tools, round: nat, before: Dialogue, newMessages: Dialogue): seq<Dialogue>
    decreases MAX_TOOL_ROUNDS - round
  {
    if round >= MAX_TOOL_ROUNDS then []
    else
      [before + newMessages] +
      match model(round)
      case CallFails => []
      case Choice(_, content, toolCalls) =>
        if !AsksForTools(model(round)) || toolCalls.None? then []
        else
          var calls := NormalizeCalls(toolCalls.value);
          match ToolRows(tools, round, calls, 0)
          case None => []
          case Some(rows) =>
            Prompts(model, tools, round + 1, before, newMessages + [CallsMessage(content, calls)] + rows)
  }

  lemma {:induction false} ToolRowsAnswer(tools: Tools, round: nat, calls: seq<Call>, i: nat)
    requires i <= |calls| && ToolRows(tools, round, calls, i).Some?
    ensures Answers(calls[i..], ToolRows(tools, round, calls, i).value)
    decreases |calls| - i
  {
    if i < |calls| {
      ToolRowsAnswer(tools, round, calls, i + 1);
      var rows := ToolRows(tools, round, calls, i).value;
      forall k | 0 <= k < |rows| ensures IsAnswer(rows[k], calls[i..][k]) {
        if k > 0 { assert IsAnswer(rows[1..][k - 1], calls[i + 1..][k - 1]); }
      }
    }
  }

  lemma GroupKeepsReady(tools: Tools, round: nat, before: Dialogue, content: Option<string>, calls: seq<Call>)
    requires ScanFrom(Start, before) == Ready && ToolRows(tools, round, calls, 0).Some?
    ensures ScanFrom(Start, before + [CallsMessage(content, calls)] + ToolRows(tools, round, calls, 0).value) == Ready
  {
    var rows := ToolRows(tools, round, calls, 0).value;
    ToolRowsAnswer(tools, round, calls, 0);
    assert calls[0..] == calls;
    ScanSnoc(Start, before, CallsMessage(content, calls));
    ScanConcat(Start, before + [CallsMessage(content, calls)], rows);
    if calls != [] { AnswersScan(calls, 0, rows); }
  }

  lemma {:induction false} ChatCloses(model: Model, tools: Tools, round: nat, newMessages: Dialogue)
    returns (body: Dialogue)
    requires ScanFrom(Start, newMessages) == Ready
    requires ChatFrom(model, tools, round, newMessages).Replied?
    ensures var r := ChatFrom(model, tools, round, newMessages);
            && r.newMessages == body + [ReplyMessage(r.reply)] && r.reply != ""
            && newMessages <= body && ScanFrom(Start, body) == Ready
    decreases MAX_TOOL_ROUNDS - round
  {
    body := newMessages;
    if round < MAX_TOOL_ROUNDS && AsksForTools(model(round)) {
      var content, calls := model(round).content, NormalizeCalls(model(round).toolCalls.value);
      var next := newMessages + [CallsMessage(content, calls)] + ToolRows(tools, round, calls, 0).value;
      GroupKeepsReady(tools, round, newMessages, content, calls);
      body := ChatCloses(model, tools, round + 1, next);
    }
  }

  lemma RepliedTurn(model: Model, tools: Tools, round: nat, newMessages: Dialogue)
    requires newMessages != [] && ScanFrom(Start, newMessages) == Ready
    requires ChatFrom(model, tools, round, newMessages).Replied?
    ensures var r := ChatFrom(model, tools, round, newMessages);
            && FullTurn(r.newMessages) && r.newMessages[0] == newMessages[0]
            && r.reply != "" && r.newMessages[|r.newMessages| - 1] == ReplyMessage(r.reply)
  {
    var body := ChatCloses(model, tools, round, newMessages);
    var r := ChatFrom(model, tools, round, newMessages);
    ScanSnoc(Start, body, ReplyMessage(r.reply));
    FullTurnIff(r.newMessages);
  }

  /** Whatever the model and the tools do, an answered request adds one complete turn that starts
      with the guest's message and ends with the non-empty reply the guest gets. */
  lemma ChatAddsOneTurn(model: Model, tools: Tools, user: Message)
    requires IsUser(user) && ChatFrom(model, tools, 0, [user]).Replied?
    ensures var r := ChatFrom(model, tools, 0, [user]);
            && FullTurn(r.newMessages) && r.newMessages[0] == user && r.reply != ""
            && r.newMessages[|r.newMessages| - 1] == Message(Assistant, Some(r.reply), None, None, false)
  {
    assert ScanFrom(Start, [user]) == Ready;
    RepliedTurn(model, tools, 0, [user]);
  }

  // ---------------------------------------------------------------- what the answer is made of

  /** Round `j` asks for tools, names its calls, and every tool it calls answers. */
  ghost predicate GoesOn(model: Model, tools: Tools, j: nat) {
    && model(j).Choice? && model(j).toolCalls.Some?
    && (model(j).finishedForTools || model(j).toolCalls.value != [])
    && forall k: nat :: k < |model(j).toolCalls.value| ==> tools(j, k).ToolOk?
  }

  /** Round `j` is the final answer: its completion is there and asks for no tools. */
  ghost predicate IsFinal(model: Model, j: nat) {
    && model(j).Choice? && !model(j).finishedForTools
    && (model(j).toolCalls.Some? ==> model(j).toolCalls.value == [])
  }

  /** What a round that goes on adds: the completion with its calls as the model sent them, and for each
      call in order a row with its id and the tool's answer. */
  ghost predicate IsGroup(model: Model, tools: Tools, j: nat, group: Dialogue)
    requires GoesOn(model, tools, j)
  {
    var calls := model(j).toolCalls.value;
    && |group| == 1 + |calls|
    && group[0].role == Assistant && group[0].content == model(j).content
    && group[0].toolCalls.Some? && |group[0].toolCalls.value| == |calls|
    && forall k: nat :: k < |calls| ==>
         && group[0].toolCalls.value[k] == Call(Some(calls[k].id), Some(calls[k].name), Some(calls[k].arguments))
         && group[1 + k] == Message(Tool, Some(tools(j, k).content), None, Some(calls[k].id), false)
  }

  lemma {:induction false} ToolRowsAre(tools: Tools, round: nat, calls: seq<Call>, i: nat)
    requires i <= |calls|
    ensures var rows := ToolRows(tools, round, calls, i);
            && (rows.Some? <==> forall k: nat :: i <= k < |calls| ==> tools(round, k).ToolOk?)
            && (rows.Some? ==>
                  && |rows.value| == |calls| - i
                  && forall k: nat :: i <= k < |calls| ==>
                       rows.value[k - i] == Message(Tool, Some(tools(round, k).content), None, calls[k].id, false))
    decreases |calls| - i
  {
    if i < |calls| { ToolRowsAre(tools, round, calls, i + 1); }
  }

  /** A round that goes on leads to the next one with its group added. */
  lemma RoundGoesOn(model: Model, tools: Tools, j: nat, newMessages: Dialogue) returns (group: Dialogue)
    requires j < MAX_TOOL_ROUNDS && GoesOn(model, tools, j)
    ensures IsGroup(model, tools, j, group)
    ensures ChatFrom(model, tools, j, newMessages) == ChatFrom(model, tools, j + 1, newMessages + group)
  {
    var calls := NormalizeCalls(model(j).toolCalls.value);
    ToolRowsAre(tools, j, calls, 0);
    var rows := ToolRows(tools, j, calls, 0).value;
    group := [CallsMessage(model(j).content, calls)] + rows;
    assert newMessages + [CallsMessage(model(j).content, calls)] + rows == newMessages + group;
  }

  /** The rounds before `r` go on, adding `groups`, and the rest of the run starts from there. */
  ghost predicate GoesOnUntil(model: Model, tools: Tools, user: Message, r: nat, groups: seq<Dialogue>) {
    && |groups| == r
    && (forall j: nat :: j < r ==> GoesOn(model, tools, j) && IsGroup(model, tools, j, groups[j]))
    && ChatFrom(model, tools, 0, [user]) == ChatFrom(model, tools, r, [user] + Flatten(groups))
  }

  lemma OneMoreRound(model: Model, tools: Tools, user: Message, r: nat, groups: seq<Dialogue>)
    returns (group: Dialogue)
    requires GoesOnUntil(model, tools, user, r, groups) && r < MAX_TOOL_ROUNDS && GoesOn(model, tools, r)
    ensures GoesOnUntil(model, tools, user, r + 1, groups + [group])
  {
    group := RoundGoesOn(model, tools, r, [user] + Flatten(groups));
    FlattenSnoc(groups, group);
    assert [user] + Flatten(groups) + group == [user] + (Flatten(groups) + group);
  }

  lemma {:induction false} RoundsGoOn(model: Model, tools: Tools, user: Message)
    returns (r: nat, groups: seq<Dialogue>)
    ensures r <= MAX_TOOL_ROUNDS && GoesOnUntil(model, tools, user, r, groups)
    ensures r < MAX_TOOL_ROUNDS ==> !GoesOn(model, tools, r)
  {
    r, groups := 0, [];
    assert [user] + Flatten(groups) == [user];
    while r < MAX_TOOL_ROUNDS && GoesOn(model, tools, r)
      invariant r <= MAX_TOOL_ROUNDS && GoesOnUntil(model, tools, user, r, groups)
    {
      var group := OneMoreRound(model, tools, user, r, groups);
      r, groups := r + 1, groups + [group];
    }
  }

  /** How a request ends, read off the model and the tools. The rounds before `r` go on and round `r`
      does not. If `r` is the last round allowed, or the final answer, the request is answered: with that
      answer's text if it has one and with the fallback otherwise. In any other case it raises. */
  lemma ChatOutcome(model: Model, tools: Tools, user: Message) returns (r: nat, groups: seq<Dialogue>)
    ensures r <= MAX_TOOL_ROUNDS && |groups| == r
    ensures forall j: nat :: j < r ==> GoesOn(model, tools, j) && IsGroup(model, tools, j, groups[j])
    ensures r < MAX_TOOL_ROUNDS ==> !GoesOn(model, tools, r)
    ensures var result := ChatFrom(model, tools, 0, [user]);
            if r < MAX_TOOL_ROUNDS && !IsFinal(model, r) then result == Raised
            else
              && result.Replied?
              && result.newMessages ==
                 [user] + Flatten(groups) + [Message(Assistant, Some(result.reply), None, None, false)]
              && if r < MAX_TOOL_ROUNDS && model(r).content.Some? && model(r).content.value != ""
                 then result.reply == model(r).content.value else result.reply == FALLBACK
  {
    r, groups := RoundsGoOn(model, tools, user);
    if r < MAX_TOOL_ROUNDS && model(r).Choice? && model(r).toolCalls.Some? {
      ToolRowsAre(tools, r, NormalizeCalls(model(r).toolCalls.value), 0);
    }
  }

  // ---------------------------------------------------------------- the loop itself

  function After(done: Dialogue, rest: Option<Dialogue>): Option<Dialogue> {
    if rest.None? then None else Some(done + rest.value)
  }

  lemma AfterNothing(rest: Option<Dialogue>)
    ensures After([], rest) == rest
  {
    assert rest.Some? ==> [] + rest.value == rest.value;
  }

  lemma AfterOne(done: Dialogue, m: Message, rest: Option<Dialogue>)
    ensures After(done, After([m], rest)) == After(done + [m], rest)
  {
    assert rest.Some? ==> done + ([m] + rest.value) == done + [m] + rest.value;
  }

  /** Runs the calls of one round in order; `rows` is `None` when a tool raised. */
  method RunTools(tools: Tools, round: nat, calls: seq<Call>) returns (rows: Option<Dialogue>)
    ensures rows == ToolRows(tools, round, calls, 0)
  {
    var done: Dialogue := [];
    AfterNothing(ToolRows(tools, round, calls, 0));
    for i := 0 to |calls|
      invariant ToolRows(tools, round, calls, 0) == After(done, ToolRows(tools, round, calls, i))
    {
      match tools(round, i)
      case ToolRaises => return None;
      case ToolOk(content) =>
        AfterOne(done, ToolMessage(calls[i], content), ToolRows(tools, round, calls, i + 1));
        done := done + [ToolMessage(calls[i], content)];
    }
    assert done + [] == done;
    return Some(done);
  }

  lemma {:induction false} PromptsBetween(model: Model, tools: Tools, round: nat, before: Dialogue,
        newMessages: Dialogue)
    ensures var prompts := Prompts(model, tools, round, before, newMessages);
            var result := ChatFrom(model, tools, round, newMessages);
            && |prompts| + round <= (if round < MAX_TOOL_ROUNDS then MAX_TOOL_ROUNDS else round)
            && (forall i :: 0 <= i < |prompts| ==> before + newMessages <= prompts[i])
            && (result.Replied? ==>
                  && newMessages <= result.newMessages
                  && forall i :: 0 <= i < |prompts| ==> prompts[i] <= before + result.newMessages)
    decreases MAX_TOOL_ROUNDS - round
  {
    if round < MAX_TOOL_ROUNDS && model(round).Choice? && AsksForTools(model(round)) && model(round).toolCalls.Some? {
      var calls := NormalizeCalls(model(round).toolCalls.value);
      var rows := ToolRows(tools, round, calls, 0);
      if rows.Some? {
        var next := newMessages + [CallsMessage(model(round).content, calls)] + rows.value;
        PromptsBetween(model, tools, round + 1, before, next);
        assert newMessages <= next && before + newMessages <= before + next;
      }
    }
  }

  lemma OneMorePrompt(sent: seq<Dialogue>, prompt: Dialogue, later: seq<Dialogue>)
    ensures sent + ([prompt] + later) == sent + [prompt] + later
    ensures sent + ([prompt] + []) == sent + [prompt]
  {
  }

  /** `chat`. In every round the model is sent the system prompt, the history and everything new
      so far; `sent` records what it was sent, also when the request fails. */
  method RunChat(m: Masked, prompt: string, history: Dialogue, model: Model, tools: Tools)
    returns (result: ChatResult, sent: seq<Dialogue>)
    ensures result == ChatFrom(model, tools, 0, [UserMessage(m)])
    ensures sent == Prompts(model, tools, 0, [SystemMessage(prompt)] + history, [UserMessage(m)])
    ensures |sent| <= MAX_TOOL_ROUNDS
    ensures result.Replied? ==>
              var before := [Message(Other("system"), Some(prompt), None, None, false)] + history;
              forall i :: 0 <= i < |sent| ==>
                && before + [Message(User, Some(m.content), None, None, m.censored)] <= sent[i]
                && sent[i] <= before + result.newMessages
  {
    var (messages, newMessages) := Assemble(m, prompt, history);
    sent := [];
    ghost var before := [SystemMessage(prompt)] + history;
    ghost var whole, all := ChatFrom(model, tools, 0, newMessages), Prompts(model, tools, 0, before, newMessages);
    assert [] + all == all;
    PromptsBetween(model, tools, 0, before, newMessages);
    for round := 0 to MAX_TOOL_ROUNDS
      invariant messages == before + newMessages
      invariant whole == ChatFrom(model, tools, round, newMessages)
      invariant all == sent + Prompts(model, tools, round, before, newMessages)
    {
      ghost var earlier := sent;
      sent := sent + [messages];
      OneMorePrompt(earlier, messages, []);
      var completion := model(round);
      if completion.CallFails? { return Raised, sent; }
      if AsksForTools(completion) {
        if completion.toolCalls.None? { return Raised, sent; }
        var calls := NormalizeCalls(completion.toolCalls.value);
        var rows := RunTools(tools, round, calls);
        if rows.None? { return Raised, sent; }
        messages := messages + [CallsMessage(completion.content, calls)] + rows.value;
        newMessages := newMessages + [CallsMessage(completion.content, calls)] + rows.value;
        OneMorePrompt(earlier, sent[|earlier|], Prompts(model, tools, round + 1, before, newMessages));
      } else {
        var reply := completion.content.GetOr("");
        if reply == "" { reply := FALLBACK; }
        newMessages := newMessages + [ReplyMessage(reply)];
        return Replied(reply, newMessages), sent;
      }
    }
    newMessages := newMessages + [ReplyMessage(FALLBACK)];
    return Replied(FALLBACK, newMessages), sent;
  }
}
