/** What trimming keeps over any sequence of appends. */
module HistoryLaws {
  import opened Wrappers
  import opened Messages
  import opened History

  /** Where a conversation may be cut: nowhere, before a user message, or after everything. */
  predicate Boundary(ms: Dialogue, j: nat)
    requires j <= |ms|
  {
    j == 0 || j == |ms| || ms[j].role == User
  }

  lemma {:induction false} SkipFacts(ms: Dialogue) returns (k: nat)
    ensures k <= |ms| && SkipToUser(ms) == ms[k..]
    ensures k == |ms| || ms[k].role == User
    ensures forall j :: 0 <= j < k ==> ms[j].role != User
  {
    k := 0;
    if ms != [] && ms[0].role != User {
      k := SkipFacts(ms[1..]);
      forall j | 0 <= j < k + 1 ensures ms[j].role != User {
        if j > 0 { assert ms[j] == ms[1..][j - 1]; }
      }
      k := k + 1;
    }
  }

  /** What trimming keeps is the longest suffix that starts at a boundary and is within the cap. */
  lemma {:induction false} TrimIsLongest(ms: Dialogue, cap: int) returns (k: nat)
    ensures k <= |ms| && Trim(ms, cap) == ms[k..] && Boundary(ms, k)
    ensures ContentCount(ms[k..]) <= cap || k == |ms|
    ensures forall j :: 0 <= j < k && Boundary(ms, j) ==> ContentCount(ms[j..]) > cap
    decreases |ms|
  {
    k := 0;
    assert ms[0..] == ms;
    if ContentCount(ms) > cap && ms != [] {
      var s := SkipFacts(ms[1..]);
      var rest := DropTurn(ms);
      assert rest == ms[s + 1..];
      var r := TrimIsLongest(rest, cap);
      k := s + 1 + r;
      assert rest[r..] == ms[k..];
      forall j | 0 < j <= s ensures ms[j].role != User { assert ms[j] == ms[1..][j - 1]; }
      forall j | 0 <= j < k && Boundary(ms, j) ensures ContentCount(ms[j..]) > cap {
        if j > s {
          assert ms[j..] == rest[j - s - 1..];
          assert Boundary(rest, j - s - 1);
        }
      }
    }
  }

  /** The documented cap: no more than `cap` content messages are kept. */
  lemma TrimWithinCap(ms: Dialogue, cap: nat)
    ensures ContentCount(Trim(ms, cap)) <= cap
  {
    var k := TrimIsLongest(ms, cap);
  }

  // ---------------------------------------------------------------- when the running count misleads

  predicate IsDirty(m: Message) {
    m.role == User && m.toolCalls.Some?
  }

  /** User messages with tool calls: each lowers the running count without being content. */
  function DirtyUsers(ms: Dialogue): nat {
    if ms == [] then 0 else (if IsDirty(ms[0]) then 1 else 0) + DirtyUsers(ms[1..])
  }

  lemma {:induction false} DirtyConcat(a: Dialogue, b: Dialogue)
    ensures DirtyUsers(a + b) == DirtyUsers(a) + DirtyUsers(b)
  {
    if a == [] {
      assert a + b == b;
    } else {
      assert (a + b)[1..] == a[1..] + b;
      DirtyConcat(a[1..], b);
    }
  }

  lemma {:induction false} NoUsersNoneDirty(ms: Dialogue)
    requires forall i :: 0 <= i < |ms| ==> ms[i].role != User
    ensures DirtyUsers(ms) == 0
  {
    if ms != [] { NoUsersNoneDirty(ms[1..]); }
  }

  /** Trimming stops at `j` with too much left, because the count has run `d` and the dirty users
      before `j` too low. */
  ghost predicate StopsEarly(ms: Dialogue, d: nat, cap: int, j: nat) {
    && j < |ms| && Boundary(ms, j)
    && cap < ContentCount(ms[j..]) <= cap + d + DirtyUsers(ms[..j])
  }

  lemma SuffixCounts(ms: Dialogue, j: nat)
    requires j <= |ms|
    ensures ContentCount(ms[j..]) <= ContentCount(ms)
  {
    ContentCountConcat(ms[..j], ms[j..]);
    assert ms == ms[..j] + ms[j..];
  }

  /** Dropping a turn moves every later stop to the rest. */
  lemma StopsInRest(ms: Dialogue, d: nat, cap: int, s: nat, j: nat)
    requires ms != [] && s < |ms| && 0 < j < |ms|
    requires (forall i :: 0 < i <= s ==> ms[i].role != User) && (s + 1 == |ms| || ms[s + 1].role == User)
    ensures var e := d + if IsDirty(ms[0]) then 1 else 0;
            StopsEarly(ms, d, cap, j) <==> j > s && StopsEarly(ms[s + 1..], e, cap, j - s - 1)
  {
    if j > s {
      var rest := ms[s + 1..];
      assert ms[j..] == rest[j - s - 1..] && ms[..j] == [ms[0]] + ms[1..s + 1] + rest[..j - s - 1];
      NoUsersNoneDirty(ms[1..s + 1]);
      DirtyConcat([ms[0]] + ms[1..s + 1], rest[..j - s - 1]);
      DirtyConcat([ms[0]], ms[1..s + 1]);
      assert DirtyUsers([ms[0]]) == if IsDirty(ms[0]) then 1 else 0;
      assert ms[j] == rest[j - s - 1];
    }
  }

  ghost predicate Misled(ms: Dialogue, d: nat, cap: int) {
    exists j: nat :: StopsEarly(ms, d, cap, j)
  }

  lemma NotEarlyAtStart(ms: Dialogue, d: nat, cap: int)
    requires ContentCount(ms) - d > cap
    ensures !StopsEarly(ms, d, cap, 0)
  {
    if ms != [] { assert ms[0..] == ms && ms[..0] == []; }
  }

  lemma MisledInRest(ms: Dialogue, d: nat, cap: int, s: nat)
    requires s < |ms| && ContentCount(ms) - d > cap
    requires (forall i :: 0 < i <= s ==> ms[i].role != User) && (s + 1 == |ms| || ms[s + 1].role == User)
    ensures Misled(ms, d, cap) <==> Misled(ms[s + 1..], d + if IsDirty(ms[0]) then 1 else 0, cap)
  {
    if Misled(ms, d, cap) { StopMoves(ms, d, cap, s); }
    if Misled(ms[s + 1..], d + if IsDirty(ms[0]) then 1 else 0, cap) { StopComesBack(ms, d, cap, s); }
  }

  lemma StopMoves(ms: Dialogue, d: nat, cap: int, s: nat)
    requires s < |ms| && ContentCount(ms) - d > cap && Misled(ms, d, cap)
    requires (forall i :: 0 < i <= s ==> ms[i].role != User) && (s + 1 == |ms| || ms[s + 1].role == User)
    ensures Misled(ms[s + 1..], d + if IsDirty(ms[0]) then 1 else 0, cap)
  {
    NotEarlyAtStart(ms, d, cap);
    var j: nat :| StopsEarly(ms, d, cap, j);
    StopsInRest(ms, d, cap, s, j);
  }

  lemma StopComesBack(ms: Dialogue, d: nat, cap: int, s: nat)
    requires s < |ms| && Misled(ms[s + 1..], d + if IsDirty(ms[0]) then 1 else 0, cap)
    requires (forall i :: 0 < i <= s ==> ms[i].role != User) && (s + 1 == |ms| || ms[s + 1].role == User)
    ensures Misled(ms, d, cap)
  {
    var j: nat :| StopsEarly(ms[s + 1..], d + if IsDirty(ms[0]) then 1 else 0, cap, j);
    StopsInRest(ms, d, cap, s, j + s + 1);
    assert StopsEarly(ms, d, cap, j + s + 1);
  }

  lemma {:induction false} MisledAfterDrop(ms: Dialogue, d: nat, cap: int)
    requires ms != [] && ContentCount(ms) - d > cap
    ensures Misled(ms, d, cap) <==> Misled(DropTurn(ms), d + if IsDirty(ms[0]) then 1 else 0, cap)
  {
    var s := SkipFacts(ms[1..]);
    assert DropTurn(ms) == ms[s + 1..];
    forall i | 0 < i <= s ensures ms[i].role != User { assert ms[i] == ms[1..][i - 1]; }
    MisledInRest(ms, d, cap, s);
  }

  lemma NotMisledWithinCap(ms: Dialogue, d: nat, cap: int)
    requires ms == [] || ContentCount(ms) <= cap
    ensures !Misled(ms, d, cap)
  {
    forall j | 0 <= j < |ms| ensures !StopsEarly(ms, d, cap, j) { SuffixCounts(ms, j); }
  }

  /** Dropping a turn lets the count run one lower if its user message was dirty. */
  lemma DropKeepsLag(ms: Dialogue, d: nat, cap: int)
    requires ms != [] && ContentCount(ms) - d > cap
    ensures var e := d + if IsDirty(ms[0]) then 1 else 0;
            TrimFrom(ms, ContentCount(ms) - d, cap) == TrimFrom(DropTurn(ms), ContentCount(DropTurn(ms)) - e, cap)
  {
    SkipCount(ms[1..]);
  }

  lemma {:induction false} RunningCountFrom(ms: Dialogue, d: nat, cap: int)
    ensures TrimFrom(ms, ContentCount(ms) - d, cap) == Trim(ms, cap) <==> !Misled(ms, d, cap)
    decreases |ms|
  {
    if ms == [] || ContentCount(ms) <= cap {
      NotMisledWithinCap(ms, d, cap);
    } else if ContentCount(ms) - d <= cap {
      assert ms[0..] == ms && StopsEarly(ms, d, cap, 0);
      assert |Trim(ms, cap)| < |ms|;
    } else {
      DropKeepsLag(ms, d, cap);
      RunningCountFrom(DropTurn(ms), d + if IsDirty(ms[0]) then 1 else 0, cap);
      MisledAfterDrop(ms, d, cap);
    }
  }

  /** The running count trims like the true one if and only if at no place where the conversation may
      be cut the messages left exceed the cap by no more than the dirty users before it. */
  lemma RunningCountIff(ms: Dialogue, cap: int)
    ensures TrimFrom(ms, ContentCount(ms), cap) == Trim(ms, cap) <==> !Misled(ms, 0, cap)
  {
    RunningCountFrom(ms, 0, cap);
  }

  /** A user message that carries tool calls can leave more than the cap in the store. */
  lemma DirtyUserExceedsCap(u: Message, m: Message, r: Message)
    requires IsDirty(u) && m.role == User && IsContent(m) && IsContent(r) && r.role == Assistant
    ensures var kept := TrimFrom([u, m, r], ContentCount([u, m, r]), 1);
            kept == [m, r] && ContentCount(kept) == 2
  {
    var ms := [u, m, r];
    assert ms[1..] == [m, r] && [m, r][1..] == [r] && [r][1..] == [];
    assert ContentCount([r]) == 1 && ContentCount([m, r]) == 2 && ContentCount(ms) == 2;
    assert SkipToUser([m, r]) == [m, r] && Uncounted([m, r]) == 0;
  }

  // ---------------------------------------------------------------- trimming as it goes

  /** A batch to append: nothing, or messages that start a turn. */
  predicate StartsTurn(b: Dialogue) {
    b == [] || b[0].role == User
  }

  lemma {:induction false} SkipConcat(a: Dialogue, b: Dialogue)
    ensures SkipToUser(a + b) == if SkipToUser(a) == [] then SkipToUser(b) else SkipToUser(a) + b
  {
    if a == [] {
      assert a + b == b;
    } else if a[0].role != User {
      SkipConcat(a[1..], b);
      assert (a + b)[1..] == a[1..] + b;
    }
  }

  /** The one way in which trimming before an append can show: the conversation was emptied, and
      what is appended neither starts a turn nor exceeds the cap by itself. */
  predicate Diverges(ms: Dialogue, b: Dialogue, cap: int) {
    ms != [] && Trim(ms, cap) == [] && !StartsTurn(b) && ContentCount(b) <= cap
  }

  /** Trimming, appending and trimming again equals appending and trimming once, exactly unless
      the append diverges. */
  lemma {:induction false} TrimThenAppendIff(ms: Dialogue, b: Dialogue, cap: int)
    ensures Trim(Trim(ms, cap) + b, cap) == Trim(ms + b, cap) <==> !Diverges(ms, b, cap)
    decreases |ms|
  {
    ContentCountConcat(ms, b);
    if ContentCount(ms) > cap && ms != [] {
      var rest := DropTurn(ms);
      SkipConcat(ms[1..], b);
      assert (ms + b)[1..] == ms[1..] + b;
      if rest == [] {
        assert [] + b == b;
        if b != [] && b[0].role != User {
          assert SkipToUser(b) == DropTurn(b);
          assert |Trim(SkipToUser(b), cap)| < |b|;
        }
      } else {
        TrimThenAppendIff(rest, b, cap);
      }
    }
  }

  /** The stored messages after a sequence of appends to a new conversation. */
  function Stored(batches: seq<Dialogue>, cap: int): Dialogue {
    if batches == [] then []
    else
      var all := Stored(batches[..|batches| - 1], cap) + batches[|batches| - 1];
      TrimFrom(all, ContentCount(all), cap)
  }

  /** Incremental trimming is one-shot trimming of everything ever appended. */
  lemma {:induction false} IncrementalIsOneShot(batches: seq<Dialogue>, cap: int)
    requires forall i :: 0 <= i < |batches| ==> StartsTurn(batches[i]) && UsersClean(batches[i])
    ensures Stored(batches, cap) == Trim(Flatten(batches), cap)
    ensures UsersClean(Flatten(batches)) && StartsTurn(Flatten(batches))
  {
    if batches != [] {
      var before, b := batches[..|batches| - 1], batches[|batches| - 1];
      IncrementalIsOneShot(before, cap);
      var k := TrimIsLongest(Flatten(before), cap);
      var all := Stored(before, cap) + b;
      assert UsersClean(all);
      RunningCountIsTrue(all, cap);
      TrimThenAppendIff(Flatten(before), b, cap);
    }
  }

  /** A turn within the cap survives the append that brings it. */
  lemma NewestTurnSurvives(ms: Dialogue, turn: Dialogue, cap: int)
    requires turn != [] && turn[0].role == User && ContentCount(turn) <= cap
    ensures exists k :: 0 <= k <= |ms| && Trim(ms + turn, cap) == ms[k..] + turn
  {
    var all := ms + turn;
    var k := TrimIsLongest(all, cap);
    assert all[|ms|..] == turn && Boundary(all, |ms|);
    assert all[k..] == ms[k..] + turn;
  }

  lemma StoredSnoc(batches: seq<Dialogue>, b: Dialogue, cap: int)
    ensures var all := Stored(batches, cap) + b; Stored(batches + [b], cap) == TrimFrom(all, ContentCount(all), cap)
    ensures Flatten(batches + [b]) == Flatten(batches) + b
  {
    assert (batches + [b])[..|batches|] == batches;
  }

  /** Without the condition on batches the two differ: an emptied conversation keeps a reply
      appended on its own, which one-shot trimming drops. */
  lemma LoneReplyDiffers()
    ensures exists a: Dialogue, b: Dialogue :: Diverges(a, b, 1) && Stored([a, b], 1) != Trim(Flatten([a, b]), 1)
  {
    var u := Message(User, Some("hi"), None, None, false);
    var r := Message(Assistant, Some("hello"), None, None, false);
    var a, b := [u, r], [r];
    assert a[1..] == [r] && [r][1..] == [];
    assert ContentCount(a) == 2 && Trim(a, 1) == [];
    assert Diverges(a, b, 1);
    RunningCountIsTrue(a, 1);
    RunningCountIsTrue(b, 1);
    TrimThenAppendIff(a, b, 1);
    StoredSnoc([], a, 1);
    StoredSnoc([a], b, 1);
    assert [] + [a] == [a] && [a] + [b] == [a, b] && [] + a == a && [] + b == b;
    assert Stored([a], 1) == [];
    assert Stored([a, b], 1) == Trim(b, 1);
  }

  // ---------------------------------------------------------------- what a guest sees

  /** The messages of `ms` at the ascending places `at` are exactly the user and assistant messages
      without tool calls. */
  ghost predicate ContentAt(ms: Dialogue, at: seq<nat>) {
    && (forall j, k :: 0 <= j < k < |at| ==> at[j] < at[k])
    && (forall k :: 0 <= k < |at| ==> at[k] < |ms|)
    && forall i: nat :: i < |ms| ==>
         (i in at <==> (ms[i].role == User || ms[i].role == Assistant) && ms[i].toolCalls.None?)
  }

  lemma ContentAtSnoc(ms: Dialogue, m: Message, at: seq<nat>)
    requires ContentAt(ms, at)
    ensures ContentAt(ms + [m], at + if IsContent(m) then [|ms|] else [])
  {
    var more := at + if IsContent(m) then [|ms|] else [];
    forall i: nat | i <= |ms| ensures i in more <==> i in at || (i == |ms| && IsContent(m)) {}
    assert |ms| !in at;
  }

  /** A guest sees exactly those messages, in the order in which they came; they are what the cap counts. */
  lemma {:induction false} VisibleAre(ms: Dialogue) returns (at: seq<nat>)
    ensures ContentAt(ms, at) && |at| == |Visible(ms)| == ContentCount(ms)
    ensures forall k :: 0 <= k < |at| ==> Visible(ms)[k] == ms[at[k]]
  {
    at := [];
    if ms != [] {
      var before, m := ms[..|ms| - 1], ms[|ms| - 1];
      assert ms == before + [m];
      var earlier := VisibleAre(before);
      VisibleSnoc(before, m);
      ContentCountConcat(before, [m]);
      ContentAtSnoc(before, m, earlier);
      at := earlier + if IsContent(m) then [|before|] else [];
    }
  }
}
