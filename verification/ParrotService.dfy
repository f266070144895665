/**
  The chat endpoints over the conversation store (services/parrot/routes.py, lines 27-64;
  services/parrot/llm.py, lines 281-283). A request reads the history in one step and stores its
  turn in another; other requests and the sweep may come in between.
 */
module ParrotService {
  import opened Wrappers
  import opened Messages
  import opened Turns
  import opened History
  import opened Chat
  import opened ChatStream
  import ChatStreamLaws
  import opened Transcript
  import opened ParrotLaws

  class Parrot {
    const store: ConversationStore
    /** The turns stored for each guest since the conversation was created. */
    ghost var turns: map<string, seq<Dialogue>>

    constructor (store: ConversationStore)
      requires store.conversations == map[]
      ensures Valid() && this.store == store && turns == map[]
    {
      this.store := store;
      turns := map[];
    }

    /** Every stored conversation is what one trim leaves of all its turns. */
    ghost predicate Valid()
      reads this, store
    {
      && turns.Keys == store.conversations.Keys
      && forall g :: g in turns ==> StoredAs(store.conversations[g].messages, turns[g], store.maxMessages)
    }

    ghost function TurnsOf(guest: string): seq<Dialogue>
      reads this
    {
      if guest in turns then turns[guest] else []
    }

    /** So the transcript of a stored conversation names every tool row after the call it answers, if
        no group of calls in it has one id under two names. */
    lemma TranscriptNamesRight(guest: string, i: nat)
      requires Valid() && guest in turns
      requires var ms := store.conversations[guest].messages;
               i < |ms| && ms[i].role == Tool && AllConsistent(ms)
      ensures var ms := store.conversations[guest].messages;
              var s := Expected(ms, i);
              && s.Awaiting? && s.next < |s.calls| && IsAnswer(ms[i], s.calls[s.next])
              && s.next < i && ms[i - s.next - 1].toolCalls == Some(s.calls)
              && Normalize(ms[i], GroupAfter(ms[..i + 1])).name == s.calls[s.next].name
    {
      KeptIsTalk(turns[guest], store.maxMessages);
      RowsNamedRight(store.conversations[guest].messages, i);
    }

    /** The first step of a request. */
    method ReadHistory(guest: string, now: real) returns (history: Dialogue)
      requires Valid()
      modifies store
      ensures Valid() && turns == old(turns)
      ensures history == if guest == "" then [] else Trim(Flatten(TurnsOf(guest)), store.maxMessages)
      ensures Talk(history)
    {
      if guest == "" { return []; }
      history := store.GetMessages(guest, now);
      StoredAsNothing(store.maxMessages);
      KeptIsTalk(TurnsOf(guest), store.maxMessages);
    }

    /** Stores one begun turn. */
    method Persist(guest: string, turn: Dialogue, now: real)
      requires Valid() && Begun(turn)
      modifies this, store
      ensures Valid()
      ensures turns == if guest == "" then old(turns) else old(turns)[guest := old(TurnsOf(guest)) + [turn]]
    {
      if guest == "" { return; }
      ghost var others, all := turns, MessagesOf(store.conversations, guest) + turn;
      ghost var kept, mine := TrimFrom(all, ContentCount(all), store.maxMessages), TurnsOf(guest) + [turn];
      StoredAsNothing(store.maxMessages);
      OneMoreTurn(MessagesOf(store.conversations, guest), TurnsOf(guest), turn, all, store.maxMessages);
      store.Append(guest, turn, now);
      assert store.conversations[guest].messages == kept && StoredAs(kept, mine, store.maxMessages);
      turns := turns[guest := mine];
      assert forall g :: g in others && g != guest ==> store.conversations[g] == old(store.conversations)[g];
    }

    /** The rest of `POST /chat`: a failure stores nothing, an answer stores one complete turn that
        ends with the reply. */
    method CompleteChat(guest: string, m: Masked, prompt: string, history: Dialogue, model: Model, tools: Tools,
          now: real)
      returns (reply: Option<string>)
      requires Valid()
      modifies this, store
      ensures Valid()
      ensures reply.None? ==> turns == old(turns) && store.conversations == old(store.conversations)
      ensures reply.Some? ==> reply.value != "" && exists turn ::
                && FullTurn(turn) && turn[0] == Message(User, Some(m.content), None, None, m.censored)
                && turn[|turn| - 1] == Message(Assistant, Some(reply.value), None, None, false)
                && turns == if guest == "" then old(turns) else old(turns)[guest := old(TurnsOf(guest)) + [turn]]
    {
      var result, sent := RunChat(m, prompt, history, model, tools);
      if result.Raised? { return None; }
      ChatAddsOneTurn(model, tools, UserMessage(m));
      FullTurnIff(result.newMessages);
      Persist(guest, result.newMessages, now);
      return Some(result.reply);
    }

    /** The generator of `POST /chat/stream`, closed at its suspension number `cut` if it has that
        many: one turn is stored, whatever happens, and it is the one the events tell of. */
    method CompleteStream(guest: string, m: Masked, model: StreamingModel, tools: Tools, rounds: nat, cut: nat,
          now: real)
      returns (events: seq<Event>)
      requires Valid()
      modifies this, store
      ensures Valid()
      ensures var run := Cut(WholeRun(model, tools, rounds), cut);
              var turn := [Message(User, Some(m.content), None, None, m.censored)] + Kept(run);
              && events == Events(run) && Begun(turn)
              && turns == if guest == "" then old(turns) else old(turns)[guest := old(TurnsOf(guest)) + [turn]]
    {
      var generator := new Generator(cut, WholeRun(model, tools, rounds));
      generator.Run(model, tools, rounds);
      generator.Over();
      ChatStreamLaws.StreamedTurnIsBegun(model, tools, rounds, cut, UserMessage(m));
      Persist(guest, [UserMessage(m)] + generator.kept, now);
      events := generator.events;
    }

    /** The periodic sweep forgets expired conversations, and of the others the least recently accessed
        ones down to the ceiling; it touches no other. */
    method Sweep(now: real)
      requires Valid()
      modifies this, store
      ensures Valid()
      ensures forall g :: g in turns ==> g in old(turns) && turns[g] == old(turns)[g]
      ensures forall g :: g in turns ==> now - old(store.conversations)[g].lastAccessed <= store.ttl
      ensures |turns| <= if store.maxConversations < 0 then 0 else store.maxConversations
      ensures forall g, h ::
                (g in old(turns) && g !in turns && now - old(store.conversations)[g].lastAccessed <= store.ttl
                 && h in turns) ==> old(store.conversations)[g].lastAccessed <= old(store.conversations)[h].lastAccessed
      ensures |turns| >= store.maxConversations ||
              forall g :: g in old(turns) && now - old(store.conversations)[g].lastAccessed <= store.ttl ==> g in turns
    {
      store.Cleanup(now);
      turns := map g | g in turns && g in store.conversations :: turns[g];
      assert turns.Keys == store.conversations.Keys;
      assert |turns| == |turns.Keys| && |store.conversations| == |store.conversations.Keys|;
    }
  }
}
