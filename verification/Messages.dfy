/** The messages the parrot service exchanges with the model and stores per guest. */
module Messages {
  import opened Wrappers

  datatype Role = User | Assistant | Tool | Other(name: string)

  /** One entry of an assistant message's `tool_calls`; each part may be absent. */
  datatype Call = Call(id: Option<string>, name: Option<string>, arguments: Option<string>)

  /** `toolCalls == None` means that the key is absent from the message. */
  datatype Message = Message(
    role: Role,
    content: Option<string>,
    toolCalls: Option<seq<Call>>,
    toolCallId: Option<string>,
    censored: bool)

  type Dialogue = seq<Message>

  /** A message a guest sees: it counts towards the cap on a conversation. */
  predicate IsContent(m: Message) {
    (m.role == User || m.role == Assistant) && m.toolCalls.None?
  }

  /** The tool calls of a message; an absent list and an empty one are alike here. */
  function CallsIn(m: Message): seq<Call> {
    m.toolCalls.GetOr([])
  }

  function ContentCount(ms: Dialogue): nat {
    if ms == [] then 0 else (if IsContent(ms[0]) then 1 else 0) + ContentCount(ms[1..])
  }

  lemma {:induction false} ContentCountConcat(a: Dialogue, b: Dialogue)
    ensures ContentCount(a + b) == ContentCount(a) + ContentCount(b)
  {
    if a == [] {
      assert a + b == b;
    } else {
      ContentCountConcat(a[1..], b);
      assert (a + b)[1..] == a[1..] + b;
    }
  }

  /** User messages carry no tool calls; the service never builds one that does. */
  ghost predicate UsersClean(ms: Dialogue) {
    forall i :: 0 <= i < |ms| && ms[i].role == User ==> ms[i].toolCalls.None?
  }

  function Flatten(batches: seq<Dialogue>): Dialogue {
    if batches == [] then [] else Flatten(batches[..|batches| - 1]) + batches[|batches| - 1]
  }
}
