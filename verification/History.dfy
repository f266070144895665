/**
  The conversation store of the parrot service (services/parrot/history.py): whole turns are
  trimmed from the front until at most `maxMessages` content messages are left, and idle or
  surplus conversations are dropped.
 */
module History {
  import opened Messages
  import opened Sets

  /** `ms` from its first user message on. */
  function SkipToUser(ms: Dialogue): (r: Dialogue)
    ensures |r| <= |ms|
  {
    if ms == [] || ms[0].role == User then ms else SkipToUser(ms[1..])
  }

  /** What one round of trimming leaves: everything from the next user message on. */
  function DropTurn(ms: Dialogue): (r: Dialogue)
    requires ms != []
    ensures |r| < |ms|
  {
    SkipToUser(ms[1..])
  }

  /** One-shot trimming by the true number of content messages. */
  function Trim(ms: Dialogue, cap: int): (r: Dialogue)
    ensures |r| <= |ms|
    decreases |ms|
  {
    if ContentCount(ms) > cap && ms != [] then Trim(DropTurn(ms), cap) else ms
  }

  /** How much the running count goes down for the messages before the first user message. */
  function Uncounted(ms: Dialogue): nat {
    if ms == [] || ms[0].role == User then 0
    else (if IsContent(ms[0]) then 1 else 0) + Uncounted(ms[1..])
  }

  /** Trimming as the store does it, by a running count that starts at `count` and goes down by
      one for every user message dropped. */
  function TrimFrom(ms: Dialogue, count: int, cap: int): Dialogue
    decreases |ms|
  {
    if count > cap && ms != [] then
      if ms[0].role == User
      then TrimFrom(DropTurn(ms), count - 1 - Uncounted(ms[1..]), cap)
      else TrimFrom(DropTurn(ms), count - Uncounted(ms), cap)
    else ms
  }

  lemma {:induction false} SkipCount(ms: Dialogue)
    ensures ContentCount(ms) == Uncounted(ms) + ContentCount(SkipToUser(ms))
    ensures UsersClean(ms) ==> UsersClean(SkipToUser(ms))
  {
    if ms != [] && ms[0].role != User { SkipCount(ms[1..]); }
  }

  /** The running count is always the true one when user messages carry no tool calls. */
  lemma {:induction false} RunningCountIsTrue(ms: Dialogue, cap: int)
    requires UsersClean(ms)
    ensures TrimFrom(ms, ContentCount(ms), cap) == Trim(ms, cap)
    decreases |ms|
  {
    if ContentCount(ms) > cap && ms != [] {
      SkipCount(ms[1..]);
      RunningCountIsTrue(DropTurn(ms), cap);
    }
  }

  // ---------------------------------------------------------------- the store

  datatype Conversation = Conversation(messages: Dialogue, lastAccessed: real)

  function MessagesOf(cs: map<string, Conversation>, guest: string): Dialogue {
    if guest in cs then cs[guest].messages else []
  }

  function Visible(ms: Dialogue): (v: Dialogue) {
    if ms == [] then [] else (if IsContent(ms[0]) then [ms[0]] else []) + Visible(ms[1..])
  }

  lemma {:induction false} VisibleSnoc(ms: Dialogue, m: Message)
    ensures Visible(ms + [m]) == Visible(ms) + if IsContent(m) then [m] else []
  {
    if ms == [] {
      assert ms + [m] == [m] && [m][1..] == [];
    } else {
      VisibleSnoc(ms[1..], m);
      var head, last: Dialogue := if IsContent(ms[0]) then [ms[0]] else [], if IsContent(m) then [m] else [];
      assert (ms + [m])[0] == ms[0] && (ms + [m])[1..] == ms[1..] + [m];
      assert Visible(ms + [m]) == head + Visible(ms[1..] + [m]);
      assert head + (Visible(ms[1..]) + last) == head + Visible(ms[1..]) + last;
    }
  }

  class ConversationStore {
    const maxMessages: int
    const ttl: real
    const maxConversations: int
    var conversations: map<string, Conversation>

    constructor (maxMessages: int, ttl: real, maxConversations: int)
      ensures conversations == map[] && this.maxMessages == maxMessages
      ensures this.ttl == ttl && this.maxConversations == maxConversations
    {
      this.maxMessages := maxMessages;
      this.ttl := ttl;
      this.maxConversations := maxConversations;
      conversations := map[];
    }

    method TrimMessages(ms: Dialogue) returns (msgs: Dialogue)
      ensures msgs == TrimFrom(ms, ContentCount(ms), maxMessages)
    {
      msgs := ms;
      var count: int := CountContent(ms);
      while count > maxMessages && msgs != []
        invariant TrimFrom(msgs, count, maxMessages) == TrimFrom(ms, ContentCount(ms), maxMessages)
        decreases |msgs|
      {
        ghost var before, n := msgs, count;
        if msgs[0].role == User {
          msgs := msgs[1..];
          count := count - 1;
        }
        ghost var start, m := msgs, count;
        while msgs != [] && msgs[0].role != User
          invariant |msgs| <= |start|
          invariant SkipToUser(msgs) == SkipToUser(start)
          invariant count - Uncounted(msgs) == m - Uncounted(start)
          decreases |msgs|
        {
          if msgs[0].role == Assistant && msgs[0].toolCalls.None? {
            count := count - 1;
          }
          msgs := msgs[1..];
        }
      }
    }

    method CountContent(ms: Dialogue) returns (n: nat)
      ensures n == ContentCount(ms)
    {
      n := 0;
      for i := 0 to |ms|
        invariant n + ContentCount(ms[i..]) == ContentCount(ms)
      {
        assert ms[i..][1..] == ms[i + 1..];
        if IsContent(ms[i]) { n := n + 1; }
      }
    }

    method Append(guest: string, messages: Dialogue, now: real)
      modifies this`conversations
      ensures var all := MessagesOf(old(conversations), guest) + messages;
              conversations ==
                old(conversations)[guest := Conversation(TrimFrom(all, ContentCount(all), maxMessages), now)]
    {
      if guest !in conversations {
        conversations := conversations[guest := Conversation([], now)];
      }
      var all := conversations[guest].messages + messages;
      var kept := TrimMessages(all);
      conversations := conversations[guest := Conversation(kept, now)];
    }

    /** Reading for a request keeps the conversation alive. */
    method GetMessages(guest: string, now: real) returns (messages: Dialogue)
      modifies this`conversations
      ensures messages == MessagesOf(old(conversations), guest)
      ensures conversations ==
                if guest in old(conversations)
                then old(conversations)[guest := Conversation(messages, now)]
                else old(conversations)
    {
      if guest !in conversations { return []; }
      messages := conversations[guest].messages;
      conversations := conversations[guest := Conversation(messages, now)];
    }

    method GetVisible(guest: string) returns (visible: Dialogue)
      ensures visible == Visible(MessagesOf(conversations, guest))
    {
      visible := [];
      if guest !in conversations { return; }
      var ms := conversations[guest].messages;
      for i := 0 to |ms|
        invariant visible + Visible(ms[i..]) == Visible(ms)
      {
        assert ms[i..][0] == ms[i] && ms[i..][1..] == ms[i + 1..];
        ghost var rest := Visible(ms[i + 1..]);
        assert Visible(ms[i..]) == (if IsContent(ms[i]) then [ms[i]] else []) + rest;
        assert visible + ([ms[i]] + rest) == visible + [ms[i]] + rest && [] + rest == rest;
        if IsContent(ms[i]) { visible := visible + [ms[i]]; }
      }
    }

    /** Expired conversations go, then the least recently accessed ones until the ceiling is met;
        every other conversation stays as it is. */
    method Cleanup(now: real)
      modifies this`conversations
      ensures forall g :: g in conversations ==> g in old(conversations) && conversations[g] == old(conversations)[g]
      ensures forall g :: g in conversations ==> now - old(conversations)[g].lastAccessed <= ttl
      ensures |conversations| <= if maxConversations < 0 then 0 else maxConversations
      ensures forall g, h ::
                (g in old(conversations) && g !in conversations && now - old(conversations)[g].lastAccessed <= ttl
                 && h in conversations) ==> old(conversations)[g].lastAccessed <= conversations[h].lastAccessed
      ensures |conversations| >= maxConversations ||
              forall g :: g in old(conversations) && now - old(conversations)[g].lastAccessed <= ttl ==>
                g in conversations
    {
      var expired := set g | g in conversations && now - conversations[g].lastAccessed > ttl;
      conversations := conversations - expired;
      ghost var live := conversations;
      while |conversations| > maxConversations && |conversations| > 0
        invariant forall g :: g in conversations ==> g in live && conversations[g] == live[g]
        invariant conversations == live || |conversations| >= maxConversations
        invariant forall g, h :: g in live && g !in conversations && h in conversations ==>
                                   live[g].lastAccessed <= live[h].lastAccessed
        decreases |conversations|
      {
        var oldest := Oldest();
        MapWithout(conversations, oldest);
        conversations := conversations - {oldest};
      }
    }

    method Oldest() returns (g: string)
      requires |conversations| > 0
      ensures g in conversations
      ensures forall h :: h in conversations ==> conversations[g].lastAccessed <= conversations[h].lastAccessed
    {
      var rest := conversations.Keys;
      assert rest != {} by { assert |rest| == |conversations|; }
      g :| g in rest;
      rest := rest - {g};
      while rest != {}
        invariant g in conversations && rest <= conversations.Keys
        invariant forall h :: h in conversations && h !in rest ==>
                                conversations[g].lastAccessed <= conversations[h].lastAccessed
        decreases |rest|
      {
        var h :| h in rest;
        rest := rest - {h};
        if conversations[h].lastAccessed < conversations[g].lastAccessed { g := h; }
      }
    }
  }
}
