/**
  The shape of a stored dialogue: turns of a user message, groups of tool calls each answered
  by one tool row per call in order, and a reply (services/parrot/llm.py).
 */
module Turns {
  import opened Wrappers
  import opened Messages

  predicate IsUser(m: Message) {
    m.role == User && m.toolCalls.None? && m.content.Some?
  }

  predicate IsReply(m: Message) {
    m.role == Assistant && m.toolCalls.None? && m.content.Some? && m.content.value != ""
  }

  predicate IsCalls(m: Message) {
    m.role == Assistant && m.toolCalls.Some?
  }

  predicate IsAnswer(m: Message, c: Call) {
    m.role == Tool && m.toolCalls.None? && m.toolCallId == c.id
  }

  // ---------------------------------------------------------------- reading from left to right

  /** What a reader expects next; `Awaiting(calls, next)` means the answer to `calls[next]`. */
  datatype Scan = Start | Ready | Awaiting(calls: seq<Call>, next: nat) | Closed | Bad

  function Step(s: Scan, m: Message): Scan {
    match s
    case Start => if IsUser(m) then Ready else Bad
    case Ready =>
      if IsCalls(m) then if m.toolCalls.value == [] then Ready else Awaiting(m.toolCalls.value, 0)
      else if IsReply(m) then Closed
      else Bad
    case Awaiting(calls, next) =>
      if next < |calls| && IsAnswer(m, calls[next])
      then if next + 1 == |calls| then Ready else Awaiting(calls, next + 1)
      else Bad
    case Closed => Bad
    case Bad => Bad
  }

  function ScanFrom(s: Scan, ms: Dialogue): Scan
    decreases |ms|
  {
    if ms == [] then s else ScanFrom(Step(s, ms[0]), ms[1..])
  }

  lemma {:induction false} ScanConcat(s: Scan, a: Dialogue, b: Dialogue)
    ensures ScanFrom(s, a + b) == ScanFrom(ScanFrom(s, a), b)
    decreases |a|
  {
    if a == [] {
      assert a + b == b;
    } else {
      assert (a + b)[1..] == a[1..] + b;
      ScanConcat(Step(s, a[0]), a[1..], b);
    }
  }

  lemma ScanSnoc(s: Scan, ms: Dialogue, m: Message)
    ensures ScanFrom(s, ms + [m]) == Step(ScanFrom(s, ms), m)
  {
    ScanConcat(s, ms, [m]);
  }

  lemma {:induction false} BadStays(ms: Dialogue)
    ensures ScanFrom(Bad, ms) == Bad
  {
    if ms != [] { BadStays(ms[1..]); }
  }

  /** A begun turn: a user message and what may follow it in the same turn. */
  predicate Begun(t: Dialogue) {
    !ScanFrom(Start, t).Start? && !ScanFrom(Start, t).Bad?
  }

  // ---------------------------------------------------------------- the grammar

  predicate Answers(calls: seq<Call>, rows: Dialogue) {
    |rows| == |calls| && forall i :: 0 <= i < |rows| ==> IsAnswer(rows[i], calls[i])
  }

  predicate Groups(ms: Dialogue) {
    ms == [] ||
    (IsCalls(ms[0]) &&
     var n := |ms[0].toolCalls.value| + 1;
     n <= |ms| && Answers(ms[0].toolCalls.value, ms[1..n]) && Groups(ms[n..]))
  }

  /** A complete turn: user, groups, reply. */
  predicate FullTurn(t: Dialogue) {
    |t| >= 2 && IsUser(t[0]) && IsReply(t[|t| - 1]) && Groups(t[1..|t| - 1])
  }

  lemma {:induction false} AnswersScan(calls: seq<Call>, next: nat, rows: Dialogue)
    requires next < |calls| && Answers(calls[next..], rows)
    ensures ScanFrom(Awaiting(calls, next), rows) == Ready
    decreases |rows|
  {
    assert IsAnswer(rows[0], calls[next..][0]);
    if next + 1 < |calls| {
      forall i | 0 <= i < |rows[1..]| ensures IsAnswer(rows[1..][i], calls[next + 1..][i]) {
        assert IsAnswer(rows[i + 1], calls[next..][i + 1]);
      }
      AnswersScan(calls, next + 1, rows[1..]);
    } else {
      assert rows[1..] == [];
    }
  }

  lemma {:induction false} ScanAnswers(calls: seq<Call>, next: nat, ms: Dialogue)
    requires next < |calls| && ScanFrom(Awaiting(calls, next), ms) == Ready
    ensures |calls| - next <= |ms|
    ensures Answers(calls[next..], ms[..|calls| - next])
    ensures ScanFrom(Ready, ms[|calls| - next..]) == Ready
    decreases |ms|
  {
    assert ms != [];
    if !IsAnswer(ms[0], calls[next]) {
      BadStays(ms[1..]);
    } else if next + 1 < |calls| {
      ScanAnswers(calls, next + 1, ms[1..]);
      forall i | 0 <= i < |calls| - next ensures IsAnswer(ms[i], calls[next..][i]) {
        if i > 0 { assert IsAnswer(ms[1..][..|calls| - next - 1][i - 1], calls[next + 1..][i - 1]); }
      }
      assert ms[1..][|calls| - next - 1..] == ms[|calls| - next..];
    }
  }

  lemma {:induction false} GroupsScan(ms: Dialogue)
    ensures Groups(ms) <==> ScanFrom(Ready, ms) == Ready
    decreases |ms|
  {
    if ms != [] {
      var s := Step(Ready, ms[0]);
      if !IsCalls(ms[0]) {
        if ms[1..] != [] && s == Closed { BadStays(ms[1..][1..]); }
        BadStays(ms[1..]);
      } else if ms[0].toolCalls.value == [] {
        GroupsScan(ms[1..]);
        assert ms[1..1] == [];
      } else {
        var calls := ms[0].toolCalls.value;
        var n := |calls| + 1;
        assert calls[0..] == calls;
        if Groups(ms) {
          AnswersScan(calls, 0, ms[1..n]);
          ScanConcat(s, ms[1..n], ms[n..]);
          assert ms[1..n] + ms[n..] == ms[1..];
          GroupsScan(ms[n..]);
        }
        if ScanFrom(Ready, ms) == Ready {
          ScanAnswers(calls, 0, ms[1..]);
          assert ms[1..][..|calls|] == ms[1..n] && ms[1..][|calls|..] == ms[n..];
          GroupsScan(ms[n..]);
        }
      }
    }
  }

  /** The two descriptions of a complete turn agree. */
  lemma FullTurnIff(t: Dialogue)
    ensures FullTurn(t) <==> ScanFrom(Start, t) == Closed
  {
    if t != [] && IsUser(t[0]) {
      var body := t[1..];
      if body != [] {
        var inner, last := body[..|body| - 1], body[|body| - 1];
        assert body == inner + [last] && inner == t[1..|t| - 1];
        ScanSnoc(Ready, inner, last);
        GroupsScan(inner);
      }
    } else if t != [] {
      BadStays(t[1..]);
    }
  }

  /** A begun turn is exactly a non-empty prefix of a complete one. */
  lemma BegunIff(t: Dialogue)
    ensures Begun(t) <==> t != [] && exists rest :: FullTurn(t + rest)
  {
    if Begun(t) {
      var s := ScanFrom(Start, t);
      var rest := Completion(s);
      CompletionCloses(Start, t);
      ScanConcat(Start, t, rest);
      FullTurnIff(t + rest);
    }
    if t != [] && exists rest :: FullTurn(t + rest) {
      var rest :| FullTurn(t + rest);
      FullTurnIff(t + rest);
      ScanConcat(Start, t, rest);
      BadStays(rest);
      NeverStart(t);
    }
  }

  lemma {:induction false} NeverStart(t: Dialogue)
    requires t != []
    ensures ScanFrom(Start, t) != Start
  {
    ScanSnoc(Start, t[..|t| - 1], t[|t| - 1]);
    assert t[..|t| - 1] + [t[|t| - 1]] == t;
  }

  const SOME_REPLY: Message := Message(Assistant, Some("."), None, None, false)

  /** Messages that complete a begun turn. */
  function Completion(s: Scan): Dialogue {
    match s
    case Ready => [SOME_REPLY]
    case Awaiting(calls, next) =>
      (if next <= |calls| then seq(|calls| - next, i requires 0 <= i < |calls| - next =>
                                 Message(Tool, None, None, calls[next + i].id, false))
       else [])
      + [SOME_REPLY]
    case _ => []
  }

  ghost predicate InRange(s: Scan) {
    s.Awaiting? ==> s.next < |s.calls|
  }

  lemma {:induction false} ScanInRange(s: Scan, t: Dialogue)
    requires InRange(s)
    ensures InRange(ScanFrom(s, t))
    decreases |t|
  {
    if t != [] { ScanInRange(Step(s, t[0]), t[1..]); }
  }

  lemma CompletionCloses(s: Scan, t: Dialogue)
    requires s == Start && !ScanFrom(s, t).Start? && !ScanFrom(s, t).Bad?
    ensures ScanFrom(ScanFrom(s, t), Completion(ScanFrom(s, t))) == Closed
  {
    var e := ScanFrom(s, t);
    ScanInRange(s, t);
    assert ScanFrom(Ready, [SOME_REPLY]) == Closed;
    if e.Awaiting? {
      var rows := Completion(e)[..|e.calls| - e.next];
      assert Completion(e) == rows + [SOME_REPLY];
      assert Answers(e.calls[e.next..], rows);
      AnswersScan(e.calls, e.next, rows);
      ScanConcat(e, rows, [SOME_REPLY]);
    }
  }

  // ---------------------------------------------------------------- how much a turn shows

  lemma {:induction false} ShownByScan(s: Scan, ms: Dialogue)
    requires ScanFrom(s, ms) != Bad && s != Start
    ensures ContentCount(ms) == if ScanFrom(s, ms) == Closed && s != Closed then 1 else 0
    ensures forall i :: 0 <= i < |ms| ==> ms[i].role != User
    decreases |ms|
  {
    if ms != [] {
      if Step(s, ms[0]) == Bad { BadStays(ms[1..]); }
      if Step(s, ms[0]) == Closed && ms[1..] != [] { BadStays(ms[1..][1..]); }
      ShownByScan(Step(s, ms[0]), ms[1..]);
    }
  }

  /** A begun turn counts one content message, a complete one two; only its first is a user
      message. */
  lemma TurnShowsAtMostTwo(t: Dialogue)
    requires Begun(t)
    ensures t != [] && IsUser(t[0]) && forall i :: 1 <= i < |t| ==> t[i].role != User
    ensures ContentCount(t) == if FullTurn(t) then 2 else 1
  {
    FullTurnIff(t);
    if !IsUser(t[0]) { BadStays(t[1..]); }
    ShownByScan(Ready, t[1..]);
    forall i | 1 <= i < |t| ensures t[i].role != User { assert t[i] == t[1..][i - 1]; }
  }

  // ---------------------------------------------------------------- conversations

  /** A user message may start a new turn at any point. */
  function TalkStep(s: Scan, m: Message): Scan {
    if IsUser(m) && s != Bad then Ready else Step(s, m)
  }

  function TalkFrom(s: Scan, ms: Dialogue): Scan
    decreases |ms|
  {
    if ms == [] then s else TalkFrom(TalkStep(s, ms[0]), ms[1..])
  }

  /** A well-formed conversation. */
  predicate Talk(ms: Dialogue) {
    TalkFrom(Start, ms) != Bad
  }

  lemma {:induction false} TalkConcat(s: Scan, a: Dialogue, b: Dialogue)
    ensures TalkFrom(s, a + b) == TalkFrom(TalkFrom(s, a), b)
    decreases |a|
  {
    if a == [] {
      assert a + b == b;
    } else {
      assert (a + b)[1..] == a[1..] + b;
      TalkConcat(TalkStep(s, a[0]), a[1..], b);
    }
  }

  lemma {:induction false} BadTalk(ms: Dialogue)
    ensures TalkFrom(Bad, ms) == Bad
  {
    if ms != [] { BadTalk(ms[1..]); }
  }

  lemma {:induction false} TurnInTalk(s: Scan, t: Dialogue)
    requires ScanFrom(s, t) != Bad
    ensures s != Start && (forall i :: 0 <= i < |t| ==> t[i].role != User) ==> TalkFrom(s, t) == ScanFrom(s, t)
    decreases |t|
  {
    if t != [] {
      if Step(s, t[0]) == Bad { BadStays(t[1..]); }
      TurnInTalk(Step(s, t[0]), t[1..]);
      if s != Start && (forall i :: 0 <= i < |t| ==> t[i].role != User) {
        assert t[0].role != User;
        assert forall i :: 0 <= i < |t[1..]| ==> t[1..][i] == t[i + 1];
      }
    }
  }

  /** Appending a begun turn keeps a conversation well formed. */
  lemma TalkTakesTurn(ms: Dialogue, t: Dialogue)
    requires Talk(ms) && Begun(t)
    ensures Talk(ms + t)
  {
    TurnShowsAtMostTwo(t);
    TalkConcat(Start, ms, t);
    forall i | 0 <= i < |t[1..]| ensures t[1..][i].role != User { assert t[1..][i] == t[i + 1]; }
    TurnInTalk(Ready, t[1..]);
  }

  lemma {:induction false} TalkOfTurns(turns: seq<Dialogue>)
    requires forall i :: 0 <= i < |turns| ==> Begun(turns[i])
    ensures Talk(Flatten(turns))
  {
    if turns != [] {
      TalkOfTurns(turns[..|turns| - 1]);
      TalkTakesTurn(Flatten(turns[..|turns| - 1]), turns[|turns| - 1]);
    }
  }

  lemma FlattenSnoc(ts: seq<Dialogue>, t: Dialogue)
    ensures Flatten(ts + [t]) == Flatten(ts) + t
  {
    assert (ts + [t])[..|ts|] == ts;
  }

  lemma FlattenGrows(ts: seq<Dialogue>, m: Message)
    requires ts != []
    ensures var n := |ts| - 1; Flatten(ts[..n] + [ts[n] + [m]]) == Flatten(ts) + [m]
  {
    var n := |ts| - 1;
    FlattenSnoc(ts[..n], ts[n] + [m]);
    assert Flatten(ts[..n]) + (ts[n] + [m]) == Flatten(ts[..n]) + ts[n] + [m];
  }

  lemma BegunGrows(t: Dialogue, m: Message)
    requires Begun(t) && Step(ScanFrom(Start, t), m) != Bad
    ensures Begun(t + [m]) && ScanFrom(Start, t + [m]) == Step(ScanFrom(Start, t), m)
  {
    ScanSnoc(Start, t, m);
    NeverStart(t + [m]);
  }

  /** Conversely a well-formed conversation is a concatenation of begun turns. */
  lemma {:induction false} TurnsOfTalk(ms: Dialogue) returns (turns: seq<Dialogue>)
    requires Talk(ms)
    ensures Flatten(turns) == ms && forall i :: 0 <= i < |turns| ==> Begun(turns[i])
    ensures turns != [] ==> TalkFrom(Start, ms) == ScanFrom(Start, turns[|turns| - 1])
    ensures turns == [] ==> ms == []
  {
    if ms == [] { return []; }
    var before, m := ms[..|ms| - 1], ms[|ms| - 1];
    assert ms == before + [m];
    TalkSnoc(before, m);
    var ts := TurnsOfTalk(before);
    if IsUser(m) {
      turns := ts + [[m]];
      FlattenSnoc(ts, [m]);
      assert ScanFrom(Start, [m]) == Ready;
    } else {
      turns := ts[..|ts| - 1] + [ts[|ts| - 1] + [m]];
      FlattenGrows(ts, m);
      BegunGrows(ts[|ts| - 1], m);
    }
  }

  lemma TalkSnoc(ms: Dialogue, m: Message)
    ensures TalkFrom(Start, ms + [m]) == TalkStep(TalkFrom(Start, ms), m)
    ensures TalkFrom(Start, ms + [m]) != Bad ==> TalkFrom(Start, ms) != Bad
  {
    TalkConcat(Start, ms, [m]);
    assert [m][1..] == [];
  }
}
