/**
  Metrics and transcripts derived from stored conversations (services/parrot/admin.py).
 */
module Admin {
  import opened Wrappers
  import opened Messages
  import opened History
  import opened Chat

  // ---------------------------------------------------------------- error markers

  datatype Json = Scalar(text: string) | Array(items: seq<Json>) | Object(members: seq<(string, Json)>)

  const ERROR_KEY: string := "error"

  /** Is there an object with an `error` key anywhere in the value? */
  predicate HasErrorMarker(v: Json) {
    match v
    case Scalar(_) => false
    case Array(items) => exists i :: 0 <= i < |items| && HasErrorMarker(items[i])
    case Object(members) =>
      || (exists i :: 0 <= i < |members| && members[i].0 == ERROR_KEY)
      || (exists i :: 0 <= i < |members| && HasErrorMarker(members[i].1))
  }

  /** The value at the end of a path of positions. */
  function At(v: Json, path: seq<nat>): Option<Json> {
    if path == [] then Some(v)
    else
      match v
      case Scalar(_) => None
      case Array(items) => if path[0] < |items| then At(items[path[0]], path[1..]) else None
      case Object(members) => if path[0] < |members| then At(members[path[0]].1, path[1..]) else None
  }

  predicate Marked(v: Option<Json>) {
    v.Some? && v.value.Object? && exists i :: 0 <= i < |v.value.members| && v.value.members[i].0 == ERROR_KEY
  }

  /** Nesting depth does not hide a marker: one is found exactly when some path leads to it. */
  lemma MarkerIff(v: Json)
    ensures HasErrorMarker(v) <==> exists path :: LeadsToMarker(v, path)
  {
    if HasErrorMarker(v) {
      var path := MarkerPath(v);
      assert LeadsToMarker(v, path);
    }
    forall path | LeadsToMarker(v, path) ensures HasErrorMarker(v) { PathMarks(v, path); }
  }

  predicate LeadsToMarker(v: Json, path: seq<nat>) {
    Marked(At(v, path))
  }

  lemma {:induction false} MarkerPath(v: Json) returns (path: seq<nat>)
    requires HasErrorMarker(v)
    ensures Marked(At(v, path))
    decreases v
  {
    path := [];
    match v
    case Array(items) =>
      var i: nat :| i < |items| && HasErrorMarker(items[i]);
      var rest := MarkerPath(items[i]);
      path := [i] + rest;
      assert path[1..] == rest;
    case Object(members) =>
      if !Marked(Some(v)) {
        var i: nat :| i < |members| && HasErrorMarker(members[i].1);
        var rest := MarkerPath(members[i].1);
        path := [i] + rest;
        assert path[1..] == rest;
      }
  }

  lemma {:induction false} PathMarks(v: Json, path: seq<nat>)
    requires Marked(At(v, path))
    ensures HasErrorMarker(v)
    decreases |path|
  {
    if path != [] {
      match v
      case Array(items) => PathMarks(items[path[0]], path[1..]);
      case Object(members) => PathMarks(members[path[0]].1, path[1..]);
    }
  }

  /** What the message texts mean: the profanity mask and the JSON parser. */
  datatype Reader = Reader(masked: Option<string> -> bool, parse: string -> Option<Json>)

  predicate ToolResultIsError(r: Reader, content: Option<string>) {
    content.Some? && r.parse(content.value).Some? && HasErrorMarker(r.parse(content.value).value)
  }

  // ---------------------------------------------------------------- counts

  /** A dictionary of positive counts, name by name. */
  type Counts = multiset<string>

  /** The additive part of a summary. */
  datatype Summary = Summary(
    turns: nat,
    censored: nat,
    totalMessages: nat,
    assistantTurns: nat,
    callsByName: Counts,
    calls: nat,
    toolErrors: nat,
    fallbacks: nat)

  const NOTHING: Summary := Summary(0, 0, 0, 0, multiset{}, 0, 0, 0)

  /** Pointwise sum. */
  function Plus(a: Summary, b: Summary): Summary {
    Summary(a.turns + b.turns, a.censored + b.censored, a.totalMessages + b.totalMessages,
            a.assistantTurns + b.assistantTurns, a.callsByName + b.callsByName, a.calls + b.calls,
            a.toolErrors + b.toolErrors, a.fallbacks + b.fallbacks)
  }

  function ToolName(c: Call): string {
    if c.name.None? || c.name.value == "" then "unknown" else c.name.value
  }

  function NamesOf(calls: seq<Call>): (c: Counts)
    ensures |c| == |calls|
  {
    if calls == [] then multiset{}
    else NamesOf(calls[..|calls| - 1]) + multiset{ToolName(calls[|calls| - 1])}
  }

  /** What one message adds. */
  function Tally(r: Reader, m: Message): Summary {
    match m.role
    case User =>
      NOTHING.(turns := 1, totalMessages := 1, censored := if m.censored || r.masked(m.content) then 1 else 0)
    case Assistant =>
      if CallsIn(m) != [] then
        NOTHING.(totalMessages := 1, callsByName := NamesOf(CallsIn(m)), calls := |CallsIn(m)|)
      else
        NOTHING.(totalMessages := 1, assistantTurns := 1, fallbacks := if m.content == Some(FALLBACK) then 1 else 0)
    case Tool => NOTHING.(totalMessages := 1, toolErrors := if ToolResultIsError(r, m.content) then 1 else 0)
    case Other(_) => NOTHING.(totalMessages := 1)
  }

  function Summarize(r: Reader, ms: Dialogue): Summary {
    if ms == [] then NOTHING else Plus(Summarize(r, ms[..|ms| - 1]), Tally(r, ms[|ms| - 1]))
  }

  // ---------------------------------------------------------------- the loops

  method CountNames(into: Counts, calls: seq<Call>) returns (c: Counts)
    ensures c == into + NamesOf(calls)
  {
    c := into;
    for i := 0 to |calls|
      invariant c == into + NamesOf(calls[..i])
    {
      assert calls[..i + 1][..i] == calls[..i];
      c := c + multiset{ToolName(calls[i])};
    }
    assert calls[..|calls|] == calls;
  }

  lemma SummaryStep(r: Reader, ms: Dialogue, i: nat)
    requires i < |ms|
    ensures Summarize(r, ms[..i + 1]) == Plus(Summarize(r, ms[..i]), Tally(r, ms[i]))
  {
    assert ms[..i + 1][..i] == ms[..i];
  }

  /** `summarize_conversation` as it counts. */
  method SummarizeConversation(r: Reader, ms: Dialogue) returns (s: Summary)
    ensures s == Summarize(r, ms)
  {
    var turns: nat, censored: nat, assistantTurns: nat := 0, 0, 0;
    var calls: nat, toolErrors: nat, fallbacks: nat := 0, 0, 0;
    var byName: Counts := multiset{};
    for i := 0 to |ms|
      invariant Summary(turns, censored, i, assistantTurns, byName, calls, toolErrors, fallbacks)
                == Summarize(r, ms[..i])
    {
      var m := ms[i];
      SummaryStep(r, ms, i);
      assert byName + multiset{} == byName;
      match m.role {
        case User =>
          turns := turns + 1;
          if m.censored || r.masked(m.content) { censored := censored + 1; }
        case Assistant =>
          if CallsIn(m) != [] {
            byName := CountNames(byName, CallsIn(m));
            calls := calls + |CallsIn(m)|;
          } else {
            assistantTurns := assistantTurns + 1;
            if m.content == Some(FALLBACK) { fallbacks := fallbacks + 1; }
          }
        case Tool =>
          if ToolResultIsError(r, m.content) { toolErrors := toolErrors + 1; }
        case Other(_) =>
      }
    }
    assert ms[..|ms|] == ms;
    s := Summary(turns, censored, |ms|, assistantTurns, byName, calls, toolErrors, fallbacks);
  }

  // ---------------------------------------------------------------- summaries add up

  lemma PlusAssociates(a: Summary, b: Summary, c: Summary)
    ensures Plus(Plus(a, b), c) == Plus(a, Plus(b, c))
    ensures Plus(Plus(a, b), c) == Plus(Plus(a, c), b)
    ensures Plus(a, NOTHING) == a
  {
  }

  lemma SummarySnoc(r: Reader, ms: Dialogue, m: Message)
    ensures Summarize(r, ms + [m]) == Plus(Summarize(r, ms), Tally(r, m))
  {
    assert (ms + [m])[..|ms|] == ms;
  }

  lemma ConcatSnoc<T>(a: seq<T>, b: seq<T>)
    requires b != []
    ensures a + b == (a + b[..|b| - 1]) + [b[|b| - 1]] && b == b[..|b| - 1] + [b[|b| - 1]]
  {
  }

  /** Summarising a concatenation is the pointwise sum of the summaries. */
  lemma {:induction false} SummaryOfConcat(r: Reader, a: Dialogue, b: Dialogue)
    ensures Summarize(r, a + b) == Plus(Summarize(r, a), Summarize(r, b))
  {
    var sa := Summarize(r, a);
    if b == [] {
      assert a + b == a;
      PlusAssociates(sa, NOTHING, NOTHING);
    } else {
      var b', m := b[..|b| - 1], b[|b| - 1];
      var sb, t := Summarize(r, b'), Tally(r, m);
      SummaryOfConcat(r, a, b');
      ConcatSnoc(a, b);
      SummarySnoc(r, a + b', m);
      SummarySnoc(r, b', m);
      assert Summarize(r, a + b) == Plus(Plus(sa, sb), t);
      assert Summarize(r, b) == Plus(sb, t);
      PlusAssociates(sa, sb, t);
    }
  }

  /** The totals do not depend on the order of the conversations. */
  lemma {:induction false} OrderIsIrrelevant(r: Reader, a: seq<Dialogue>, b: seq<Dialogue>)
    requires multiset(a) == multiset(b)
    ensures Summarize(r, Flatten(a)) == Summarize(r, Flatten(b))
  {
    assert |multiset(a)| == |a| && |multiset(b)| == |b|;
    if a != [] {
      var before, last := a[..|a| - 1], a[|a| - 1];
      assert a == before + [last];
      assert last in multiset(b);
      var i :| 0 <= i < |b| && b[i] == last;
      var rest := b[..i] + b[i + 1..];
      assert b == b[..i] + [last] + b[i + 1..];
      assert multiset(b) == multiset(b[..i]) + multiset{last} + multiset(b[i + 1..]);
      assert multiset(rest) == multiset(b[..i]) + multiset(b[i + 1..]);
      assert multiset(rest) + multiset{last} == multiset(before) + multiset{last};
      SameRest(multiset(rest), multiset(before), last);
      OrderIsIrrelevant(r, before, rest);
      MovedToEnd(r, b[..i], last, b[i + 1..]);
      SummaryOfConcat(r, Flatten(before), last);
      SummaryOfConcat(r, Flatten(rest), last);
    }
  }

  lemma SameRest<T>(x: multiset<T>, y: multiset<T>, t: T)
    requires x + multiset{t} == y + multiset{t}
    ensures x == y
  {
    assert x == x + multiset{t} - multiset{t} && y == y + multiset{t} - multiset{t};
  }

  lemma {:induction false} FlattenConcat(a: seq<Dialogue>, b: seq<Dialogue>)
    ensures Flatten(a + b) == Flatten(a) + Flatten(b)
  {
    if b == [] {
      assert a + b == a;
    } else {
      assert (a + b)[..|a + b| - 1] == a + b[..|b| - 1];
      FlattenConcat(a, b[..|b| - 1]);
    }
  }

  lemma MovedToEnd(r: Reader, a: seq<Dialogue>, m: Dialogue, b: seq<Dialogue>)
    ensures Summarize(r, Flatten(a + [m] + b)) == Summarize(r, Flatten(a + b) + m)
  {
    FlattenConcat(a + [m], b);
    FlattenConcat(a, [m]);
    FlattenConcat(a, b);
    assert [m][..0] == [] && Flatten([m]) == m;
    var x, y := Flatten(a), Flatten(b);
    SummaryOfConcat(r, x + m, y);
    SummaryOfConcat(r, x, m);
    SummaryOfConcat(r, x + y, m);
    SummaryOfConcat(r, x, y);
    PlusAssociates(Summarize(r, x), Summarize(r, m), Summarize(r, y));
  }

  datatype Metrics = Metrics(
    conversations: nat,
    totals: Summary,
    withFallback: nat,
    withToolError: nat,
    withCensored: nat)

  function CountWhere(r: Reader, convs: seq<Dialogue>, p: Summary -> bool): nat {
    if convs == [] then 0
    else CountWhere(r, convs[..|convs| - 1], p) + if p(Summarize(r, convs[|convs| - 1])) then 1 else 0
  }

  /** `build_metrics` over the conversations in the store's order: the totals are the summary of
      all of them run together. */
  method BuildMetrics(r: Reader, convs: seq<Dialogue>) returns (m: Metrics)
    ensures m.conversations == |convs|
    ensures m.totals == Summarize(r, Flatten(convs))
    ensures m.withFallback == CountWhere(r, convs, (s: Summary) => s.fallbacks > 0)
    ensures m.withToolError == CountWhere(r, convs, (s: Summary) => s.toolErrors > 0)
    ensures m.withCensored == CountWhere(r, convs, (s: Summary) => s.censored > 0)
  {
    var totals, fallback, error, censored := NOTHING, 0, 0, 0;
    for i := 0 to |convs|
      invariant totals == Summarize(r, Flatten(convs[..i]))
      invariant fallback == CountWhere(r, convs[..i], (s: Summary) => s.fallbacks > 0)
      invariant error == CountWhere(r, convs[..i], (s: Summary) => s.toolErrors > 0)
      invariant censored == CountWhere(r, convs[..i], (s: Summary) => s.censored > 0)
    {
      var s := SummarizeConversation(r, convs[i]);
      assert convs[..i + 1][..i] == convs[..i];
      SummaryOfConcat(r, Flatten(convs[..i]), convs[i]);
      totals := Plus(totals, s);
      if s.fallbacks > 0 { fallback := fallback + 1; }
      if s.toolErrors > 0 { error := error + 1; }
      if s.censored > 0 { censored := censored + 1; }
    }
    assert convs[..|convs|] == convs;
    m := Metrics(|convs|, totals, fallback, error, censored);
  }

  // ---------------------------------------------------------------- what the counts mean

  lemma TallyAddsUp(r: Reader, m: Message)
    ensures |Tally(r, m).callsByName| == Tally(r, m).calls
  {
  }

  /** The per-name counts add up to the total number of tool calls. */
  lemma {:induction false} CallsAddUp(r: Reader, ms: Dialogue)
    ensures |Summarize(r, ms).callsByName| == Summarize(r, ms).calls
  {
    if ms != [] {
      var before, m := ms[..|ms| - 1], ms[|ms| - 1];
      CallsAddUp(r, before);
      TallyAddsUp(r, m);
      assert Summarize(r, ms) == Plus(Summarize(r, before), Tally(r, m));
    }
  }

  /** Messages counted as turns but hidden from the guest: a `tool_calls` key on a user message,
      or an empty one on an assistant message. */
  function Hidden(ms: Dialogue): nat {
    if ms == [] then 0
    else
      var m := ms[|ms| - 1];
      Hidden(ms[..|ms| - 1]) +
      if m.toolCalls.Some? && (m.role == User || (m.role == Assistant && m.toolCalls.value == [])) then 1 else 0
  }

  /** User and assistant turns together are the visible messages plus the hidden ones: they agree
      exactly when no user message has tool calls and no tool-call list is empty. */
  lemma {:induction false} TurnsAreVisible(r: Reader, ms: Dialogue)
    ensures Summarize(r, ms).turns + Summarize(r, ms).assistantTurns == |Visible(ms)| + Hidden(ms)
  {
    if ms != [] {
      TurnsAreVisible(r, ms[..|ms| - 1]);
      VisibleSnoc(ms[..|ms| - 1], ms[|ms| - 1]);
      assert ms == ms[..|ms| - 1] + [ms[|ms| - 1]];
    }
  }

  // ---------------------------------------------------------------- each count is a number of messages

  function Where<T>(xs: seq<T>, p: T -> bool): set<nat> {
    set i: nat | i < |xs| && p(xs[i])
  }

  lemma WhereSnoc<T>(xs: seq<T>, x: T, p: T -> bool)
    ensures |Where(xs + [x], p)| == |Where(xs, p)| + if p(x) then 1 else 0
  {
    var all := xs + [x];
    assert all[|xs|] == x && forall i :: 0 <= i < |xs| ==> all[i] == xs[i];
    assert Where(all, p) == Where(xs, p) + if p(x) then {|xs|} else {};
  }

  /** The censored ones among the guest's messages. */
  predicate IsCensored(r: Reader, m: Message) {
    m.role == User && (m.censored || r.masked(m.content))
  }

  /** An assistant message that makes no calls. */
  predicate IsAnswerTurn(m: Message) {
    m.role == Assistant && (m.toolCalls.None? || m.toolCalls.value == [])
  }

  /** A tool row whose text parses to a value with an error marker. */
  predicate IsErrorRow(r: Reader, m: Message) {
    m.role == Tool && m.content.Some? &&
    match r.parse(m.content.value)
    case Some(v) => HasErrorMarker(v)
    case None => false
  }

  lemma {:induction false} GuestCounts(r: Reader, ms: Dialogue)
    ensures Summarize(r, ms).turns == |Where(ms, (m: Message) => m.role == User)|
    ensures Summarize(r, ms).censored == |Where(ms, (m: Message) => IsCensored(r, m))|
    ensures Summarize(r, ms).totalMessages == |ms|
  {
    if ms == [] {
      assert forall p: Message -> bool :: Where(ms, p) == {};
    } else {
      var before, m := ms[..|ms| - 1], ms[|ms| - 1];
      assert ms == before + [m];
      GuestCounts(r, before);
      SummarySnoc(r, before, m);
      WhereSnoc(before, m, (m: Message) => m.role == User);
      WhereSnoc(before, m, (m: Message) => IsCensored(r, m));
    }
  }

  lemma {:induction false} AnswerCounts(r: Reader, ms: Dialogue)
    ensures Summarize(r, ms).assistantTurns == |Where(ms, (m: Message) => IsAnswerTurn(m))|
    ensures Summarize(r, ms).fallbacks ==
            |Where(ms, (m: Message) => IsAnswerTurn(m) && m.content == Some(FALLBACK))|
  {
    if ms == [] {
      assert forall p: Message -> bool :: Where(ms, p) == {};
    } else {
      var before, m := ms[..|ms| - 1], ms[|ms| - 1];
      assert ms == before + [m];
      AnswerCounts(r, before);
      SummarySnoc(r, before, m);
      WhereSnoc(before, m, (m: Message) => IsAnswerTurn(m));
      WhereSnoc(before, m, (m: Message) => IsAnswerTurn(m) && m.content == Some(FALLBACK));
    }
  }

  lemma {:induction false} ErrorCounts(r: Reader, ms: Dialogue)
    ensures Summarize(r, ms).toolErrors == |Where(ms, (m: Message) => IsErrorRow(r, m))|
  {
    if ms == [] {
      assert forall p: Message -> bool :: Where(ms, p) == {};
    } else {
      var before, m := ms[..|ms| - 1], ms[|ms| - 1];
      assert ms == before + [m];
      ErrorCounts(r, before);
      SummarySnoc(r, before, m);
      WhereSnoc(before, m, (m: Message) => IsErrorRow(r, m));
    }
  }

  /** Every count of a summary is the number of messages it is named for. */
  lemma SummaryCounts(r: Reader, ms: Dialogue)
    ensures var s := Summarize(r, ms);
            && s.totalMessages == |ms|
            && s.turns == |Where(ms, (m: Message) => m.role == User)|
            && s.censored == |Where(ms, (m: Message) => IsCensored(r, m))|
            && s.assistantTurns == |Where(ms, (m: Message) => IsAnswerTurn(m))|
            && s.fallbacks == |Where(ms, (m: Message) => IsAnswerTurn(m) && m.content == Some(FALLBACK))|
            && s.toolErrors == |Where(ms, (m: Message) => IsErrorRow(r, m))|
  {
    GuestCounts(r, ms);
    AnswerCounts(r, ms);
    ErrorCounts(r, ms);
  }

  /** The call goes by `name`; one without a name goes by "unknown". */
  predicate GoesBy(c: Call, name: string) {
    if c.name.Some? && c.name.value != "" then c.name.value == name else name == "unknown"
  }

  function CallsBy(calls: seq<Call>, name: string): set<nat> {
    set k: nat | k < |calls| && GoesBy(calls[k], name)
  }

  lemma CallsBySnoc(calls: seq<Call>, c: Call, name: string)
    ensures |CallsBy(calls + [c], name)| == |CallsBy(calls, name)| + if GoesBy(c, name) then 1 else 0
  {
    var all, n := calls + [c], |calls|;
    assert all[n] == c && forall k :: 0 <= k < n ==> all[k] == calls[k];
    assert CallsBy(all, name) == CallsBy(calls, name) + if GoesBy(c, name) then {n} else {};
  }

  lemma {:induction false} NamesCount(calls: seq<Call>, name: string)
    ensures NamesOf(calls)[name] == |CallsBy(calls, name)|
  {
    if calls == [] {
      assert CallsBy(calls, name) == {};
    } else {
      var before, c := calls[..|calls| - 1], calls[|calls| - 1];
      NamesCount(before, name);
      CallsBySnoc(before, c, name);
      assert calls == before + [c];
      assert GoesBy(c, name) <==> ToolName(c) == name;
    }
  }

  /** The calls of all assistant messages in order. */
  function CallsMade(ms: Dialogue): seq<Call> {
    if ms == [] then []
    else
      CallsMade(ms[..|ms| - 1]) + CallsMadeBy(ms[|ms| - 1])
  }

  function CallsMadeBy(m: Message): seq<Call> {
    if m.role == Assistant then CallsIn(m) else []
  }

  lemma TallyCalls(r: Reader, m: Message)
    ensures Tally(r, m).callsByName == NamesOf(CallsMadeBy(m)) && Tally(r, m).calls == |CallsMadeBy(m)|
  {
  }

  lemma {:induction false} NamesConcat(a: seq<Call>, b: seq<Call>)
    ensures NamesOf(a + b) == NamesOf(a) + NamesOf(b)
  {
    if b == [] {
      assert a + b == a;
    } else {
      var before, c := b[..|b| - 1], b[|b| - 1];
      NamesConcat(a, before);
      assert (a + b)[..|a + b| - 1] == a + before && (a + b)[|a + b| - 1] == c;
    }
  }

  lemma {:induction false} NamesMade(r: Reader, ms: Dialogue)
    ensures Summarize(r, ms).callsByName == NamesOf(CallsMade(ms)) && Summarize(r, ms).calls == |CallsMade(ms)|
  {
    if ms != [] {
      var before, m := ms[..|ms| - 1], ms[|ms| - 1];
      NamesMade(r, before);
      TallyCalls(r, m);
      assert ms == before + [m];
      SummarySnoc(r, before, m);
      NamesConcat(CallsMade(before), CallsMadeBy(m));
    }
  }

  /** The count under a name is the number of calls that go by it. */
  lemma CallsCounted(r: Reader, ms: Dialogue, name: string)
    ensures Summarize(r, ms).callsByName[name] == |CallsBy(CallsMade(ms), name)|
    ensures Summarize(r, ms).calls == |CallsMade(ms)|
  {
    NamesMade(r, ms);
    NamesCount(CallsMade(ms), name);
  }

  function Summaries(r: Reader, convs: seq<Dialogue>): seq<Summary> {
    seq(|convs|, k requires 0 <= k < |convs| => Summarize(r, convs[k]))
  }

  /** And a count of conversations is the number of those whose summary meets its condition. */
  lemma {:induction false} CountWhereIs(r: Reader, convs: seq<Dialogue>, p: Summary -> bool)
    ensures CountWhere(r, convs, p) == |Where(Summaries(r, convs), p)|
  {
    if convs == [] {
      assert Where(Summaries(r, convs), p) == {};
    } else {
      var before, conv := convs[..|convs| - 1], convs[|convs| - 1];
      CountWhereIs(r, before, p);
      WhereSnoc(Summaries(r, before), Summarize(r, conv), p);
      assert Summaries(r, convs) == Summaries(r, before) + [Summarize(r, conv)];
    }
  }
}
