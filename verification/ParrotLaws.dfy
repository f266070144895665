/** What the parrot service stores of whole turns: the meeting point of its dialogues and its store. */
module ParrotLaws {
  import opened Messages
  import opened Turns
  import opened History
  import opened HistoryLaws

  ghost predicate AllBegun(turns: seq<Dialogue>) {
    forall i :: 0 <= i < |turns| ==> Begun(turns[i])
  }

  lemma {:induction false} FlattenCons(turns: seq<Dialogue>)
    requires turns != []
    ensures Flatten(turns) == turns[0] + Flatten(turns[1..])
  {
    var before, n := turns[..|turns| - 1], |turns| - 1;
    if n == 0 {
      assert Flatten(before) == [] && turns[1..] == [];
      assert [] + turns[0] == turns[0] + [];
    } else {
      FlattenCons(before);
      assert before[1..] == turns[1..][..n - 1];
      assert turns[0] + (Flatten(before[1..]) + turns[n]) == turns[0] + Flatten(before[1..]) + turns[n];
    }
  }

  lemma FlattenStarts(turns: seq<Dialogue>)
    requires AllBegun(turns)
    ensures StartsTurn(Flatten(turns)) && (turns != [] ==> Flatten(turns) != [])
  {
    if turns != [] {
      FlattenCons(turns);
      TurnShowsAtMostTwo(turns[0]);
    }
  }

  lemma {:induction false} NoUserSkipsAll(ms: Dialogue)
    requires forall i :: 0 <= i < |ms| ==> ms[i].role != User
    ensures SkipToUser(ms) == []
  {
    if ms != [] { NoUserSkipsAll(ms[1..]); }
  }

  lemma SkipsToTheRest(t: Dialogue, rest: Dialogue)
    requires t != [] && (forall i :: 1 <= i < |t| ==> t[i].role != User) && StartsTurn(rest)
    ensures DropTurn(t + rest) == rest
  {
    NoUserSkipsAll(t[1..]);
    SkipConcat(t[1..], rest);
    assert (t + rest)[1..] == t[1..] + rest;
  }

  /** One round of trimming drops exactly the oldest turn. */
  lemma DropsOneTurn(turns: seq<Dialogue>)
    requires AllBegun(turns) && turns != []
    ensures Flatten(turns) != [] && DropTurn(Flatten(turns)) == Flatten(turns[1..])
  {
    FlattenCons(turns);
    FlattenStarts(turns[1..]);
    TurnShowsAtMostTwo(turns[0]);
    SkipsToTheRest(turns[0], Flatten(turns[1..]));
  }

  /** What is kept of a sequence of turns is the longest run of newest whole turns within the cap. */
  lemma {:induction false} KeepsNewestTurns(turns: seq<Dialogue>, cap: int) returns (k: nat)
    requires AllBegun(turns)
    ensures k <= |turns| && Trim(Flatten(turns), cap) == Flatten(turns[k..])
    ensures ContentCount(Flatten(turns[k..])) <= cap || k == |turns|
    ensures forall j :: 0 <= j < k ==> ContentCount(Flatten(turns[j..])) > cap
  {
    k := 0;
    assert turns[0..] == turns;
    if turns != [] && ContentCount(Flatten(turns)) > cap {
      DropsOneTurn(turns);
      var n := KeepsNewestTurns(turns[1..], cap);
      k := n + 1;
      assert turns[1..][n..] == turns[k..];
      forall j | 0 < j < k ensures ContentCount(Flatten(turns[j..])) > cap {
        assert turns[1..][j - 1..] == turns[j..];
      }
    }
  }

  /** With a cap of two or more the newest turn is always kept. */
  lemma NewestTurnIsKept(turns: seq<Dialogue>, cap: int)
    requires AllBegun(turns) && turns != [] && cap >= 2
    ensures exists k :: 0 <= k < |turns| && Trim(Flatten(turns), cap) == Flatten(turns[k..])
  {
    var k := KeepsNewestTurns(turns, cap);
    var n := |turns| - 1;
    TurnShowsAtMostTwo(turns[n]);
    assert turns[n..] == [turns[n]] && [turns[n]][..0] == [];
    assert Flatten([turns[n]]) == turns[n];
  }

  /** What is kept is again a well-formed conversation, and clean. */
  lemma KeptIsTalk(turns: seq<Dialogue>, cap: int)
    requires AllBegun(turns)
    ensures Talk(Trim(Flatten(turns), cap)) && UsersClean(Trim(Flatten(turns), cap))
    ensures cap >= 0 ==> ContentCount(Trim(Flatten(turns), cap)) <= cap
  {
    var k := KeepsNewestTurns(turns, cap);
    TalkOfTurns(turns[k..]);
    TalkIsClean(Start, Flatten(turns[k..]));
  }

  lemma {:induction false} TalkIsClean(s: Scan, ms: Dialogue)
    requires TalkFrom(s, ms) != Bad
    ensures UsersClean(ms)
    decreases |ms|
  {
    if ms != [] {
      if TalkStep(s, ms[0]) == Bad { BadTalk(ms[1..]); }
      TalkIsClean(TalkStep(s, ms[0]), ms[1..]);
      forall i | 0 <= i < |ms| && ms[i].role == User ensures ms[i].toolCalls.None? {
        if i > 0 { assert ms[i] == ms[1..][i - 1]; }
      }
    }
  }

  /** `ms` is what one trim leaves of all of `turns`, each of them begun. */
  ghost predicate StoredAs(ms: Dialogue, turns: seq<Dialogue>, cap: int) {
    AllBegun(turns) && ms == Trim(Flatten(turns), cap)
  }

  lemma StoredAsNothing(cap: int)
    ensures StoredAs([], [], cap)
  {
  }

  /** Storing one more turn and trimming as the store does is trimming all turns at once. */
  lemma {:induction false} OneMoreTurn(ms: Dialogue, turns: seq<Dialogue>, turn: Dialogue, all: Dialogue, cap: int)
    requires StoredAs(ms, turns, cap) && Begun(turn) && all == ms + turn
    ensures StoredAs(TrimFrom(all, ContentCount(all), cap), turns + [turn], cap)
  {
    KeptIsTalk(turns, cap);
    TalkTakesTurn(ms, turn);
    TalkIsClean(Start, all);
    RunningCountIsTrue(all, cap);
    TurnShowsAtMostTwo(turn);
    TrimThenAppendIff(Flatten(turns), turn, cap);
    assert (turns + [turn])[..|turns|] == turns;
  }
}
