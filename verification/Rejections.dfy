/** The review queue: one newest-first pass over the log's decision and review
    lines (internal/moderation/rejections.go), proved equal to what each entry
    says of the whole log. */
module Rejections {
  import opened Wrappers
  import opened ReviewLog

  // A query result row's field. line is its value when it parses.
  datatype Field = Field(name: string, line: Option<LogLine>)

  datatype Rejection = Rejection(
    time: int, key: string, reason: string, confidence: real, manual: bool, review: Option<Review>)

  // The log lines a row's fields hold, in order.
  function RowLines(row: seq<Field>): seq<LogLine> {
    if row == [] then []
    else
      var f := row[|row| - 1];
      RowLines(row[..|row| - 1]) + if f.name == "@message" && f.line.Some? then [f.line.value] else []
  }

  function Lines(results: seq<seq<Field>>): seq<LogLine> {
    if results == [] then []
    else Lines(results[..|results| - 1]) + RowLines(results[|results| - 1])
  }

  lemma {:induction false} RowLinesConcat(a: seq<Field>, b: seq<Field>)
    ensures RowLines(a + b) == RowLines(a) + RowLines(b)
  {
    if b == [] {
      assert a + b == a;
    } else {
      var before := b[..|b| - 1];
      RowLinesConcat(a, before);
      assert (a + b)[..|a + b| - 1] == a + before;
    }
  }

  /** The lines of a result are its rows', one row after another, and a row's are its
      parsed @message fields', in order. */
  lemma {:induction false} LinesInOrder(results: seq<seq<Field>>, row: seq<Field>, f: Field, rest: seq<Field>)
    ensures Lines(results + [row]) == Lines(results) + RowLines(row)
    ensures RowLines([f] + rest)
      == (if f.name == "@message" && f.line.Some? then [f.line.value] else []) + RowLines(rest)
  {
    assert (results + [row])[..|results|] == results;
    RowLinesConcat([f], rest);
    assert [f][..0] == [];
    assert RowLines([f]) == if f.name == "@message" && f.line.Some? then [f.line.value] else [];
  }

  // ---- what the queue should hold ----

  predicate IsReview(l: LogLine, key: string) {
    l.ReviewLine? && l.review.key == key
  }

  predicate IsTakedown(l: LogLine, key: string) {
    IsReview(l, key) && l.review.action == Rejected
  }

  predicate IsDecision(l: LogLine, key: string) {
    l.DecisionLine? && l.key == key
  }

  // lines are newest first: review is the newest one of key among the first n.
  ghost predicate NewestReview(lines: seq<LogLine>, key: string, n: nat, review: Option<Review>)
    requires n <= |lines|
  {
    match review
    case None => forall i :: 0 <= i < n ==> !IsReview(lines[i], key)
    case Some(rv) =>
      exists i :: 0 <= i < n && IsReview(lines[i], key) && lines[i].review == rv
        && forall j :: 0 <= j < i ==> !IsReview(lines[j], key)
  }

  ghost predicate NewestDecision(lines: seq<LogLine>, key: string, i: nat) {
    && i < |lines| && IsDecision(lines[i], key)
    && forall j :: 0 <= j < i ==> !IsDecision(lines[j], key)
  }

  ghost predicate EarliestTakedown(lines: seq<LogLine>, key: string, i: nat) {
    && i < |lines| && IsTakedown(lines[i], key)
    && forall j :: i < j < |lines| ==> !IsTakedown(lines[j], key)
  }

  // The confidence of the label the reason names, the last if there are several.
  function Confidence(labels: seq<Label>, reason: string): real {
    if labels == [] then 0.0
    else if labels[|labels| - 1].name == reason then labels[|labels| - 1].confidence
    else Confidence(labels[..|labels| - 1], reason)
  }

  // The label after which none is named by the reason.
  predicate LastNamed(labels: seq<Label>, reason: string, i: nat) {
    i < |labels| && labels[i].name == reason && forall j :: i < j < |labels| ==> labels[j].name != reason
  }

  lemma {:induction false} LastNamedDecides(labels: seq<Label>, reason: string, i: nat)
    requires LastNamed(labels, reason, i)
    ensures Confidence(labels, reason) == labels[i].confidence
  {
    if i < |labels| - 1 {
      LastNamedDecides(labels[..|labels| - 1], reason, i);
    }
  }

  lemma {:induction false} NoneNamed(labels: seq<Label>, reason: string)
    requires forall l :: l in labels ==> l.name != reason
    ensures Confidence(labels, reason) == 0.0
  {
    if labels != [] {
      NoneNamed(labels[..|labels| - 1], reason);
    }
  }

  /** The reason's confidence is that of the last label it names, or 0 if it names none. */
  lemma ConfidenceIsTheReasons(labels: seq<Label>, reason: string)
    ensures forall i: nat :: LastNamed(labels, reason, i) ==> Confidence(labels, reason) == labels[i].confidence
    ensures (forall l :: l in labels ==> l.name != reason) ==> Confidence(labels, reason) == 0.0
  {
    forall i: nat | LastNamed(labels, reason, i)
      ensures Confidence(labels, reason) == labels[i].confidence
    {
      LastNamedDecides(labels, reason, i);
    }
    if forall l :: l in labels ==> l.name != reason {
      NoneNamed(labels, reason);
    }
  }

  function FromDecision(l: LogLine, review: Option<Review>): Rejection
    requires l.DecisionLine?
  {
    Rejection(l.time, l.key, l.reason, Confidence(l.labels, l.reason), false, review)
  }

  function FromTakedown(td: Review, review: Option<Review>): Rejection {
    Rejection(td.time, td.key, td.reason, 0.0, true, review)
  }

  // The function's rejection: the key's newest decision, and the newest review
  // logged after it.
  ghost predicate DecidedEntry(lines: seq<LogLine>, r: Rejection) {
    exists i: nat ::
      && NewestDecision(lines, r.key, i) && NewestReview(lines, r.key, i, r.review)
      && r.time == lines[i].time && r.reason == lines[i].reason && !r.manual
      && r.confidence == Confidence(lines[i].labels, lines[i].reason)
  }

  // A takedown of a key the function never rejected: the earliest one, and the
  // key's newest review, which it always has.
  ghost predicate TakedownEntry(lines: seq<LogLine>, r: Rejection) {
    && (forall i :: 0 <= i < |lines| ==> !IsDecision(lines[i], r.key))
    && r.review.Some? && NewestReview(lines, r.key, |lines|, r.review)
    && exists i: nat ::
         && EarliestTakedown(lines, r.key, i)
         && r.time == lines[i].review.time && r.reason == lines[i].review.reason
         && r.manual && r.confidence == 0.0
  }

  ghost predicate Entry(lines: seq<LogLine>, r: Rejection) {
    DecidedEntry(lines, r) || TakedownEntry(lines, r)
  }

  ghost predicate DistinctKeys(rs: seq<Rejection>) {
    forall i, j :: 0 <= i < j < |rs| ==> rs[i].key != rs[j].key
  }

  ghost predicate NewestFirst(rs: seq<Rejection>) {
    forall i, j :: 0 <= i < j < |rs| ==> rs[i].time >= rs[j].time
  }

  // Of two entries of one time: decisions come before takedowns, and in the order
  // of their lines.
  ghost predicate InLogOrder(lines: seq<LogLine>, a: Rejection, b: Rejection) {
    if a.manual then b.manual
    else b.manual || forall i: nat, j: nat ::
      NewestDecision(lines, a.key, i) && NewestDecision(lines, b.key, j) ==> i < j
  }

  ghost predicate AllInLogOrder(lines: seq<LogLine>, rs: seq<Rejection>) {
    forall i, j :: 0 <= i < j < |rs| ==> InLogOrder(lines, rs[i], rs[j])
  }

  ghost predicate TiesInLogOrder(lines: seq<LogLine>, rs: seq<Rejection>) {
    forall i, j :: 0 <= i < j < |rs| && rs[i].time == rs[j].time ==> InLogOrder(lines, rs[i], rs[j])
  }

  // ---- what the pass has computed after some lines ----

  function LatestReview(lines: seq<LogLine>, key: string): Option<Review> {
    if lines == [] then None
    else
      var before, l := LatestReview(lines[..|lines| - 1], key), lines[|lines| - 1];
      if before.None? && IsReview(l, key) then Some(l.review) else before
  }

  function FirstTakedown(lines: seq<LogLine>, key: string): Option<Review> {
    if lines == [] then None
    else
      var l := lines[|lines| - 1];
      if IsTakedown(l, key) then Some(l.review) else FirstTakedown(lines[..|lines| - 1], key)
  }

  function Decided(lines: seq<LogLine>): set<string> {
    set l | l in lines && l.DecisionLine? :: l.key
  }

  function Decisions(lines: seq<LogLine>): seq<Rejection> {
    if lines == [] then []
    else
      var before, l := lines[..|lines| - 1], lines[|lines| - 1];
      Decisions(before) +
      if l.DecisionLine? && l.key !in Decided(before) then [FromDecision(l, LatestReview(before, l.key))] else []
  }

  lemma {:induction false} LatestReviewIsNewest(lines: seq<LogLine>, key: string)
    ensures NewestReview(lines, key, |lines|, LatestReview(lines, key))
    ensures LatestReview(lines, key).Some? ==> LatestReview(lines, key).value.key == key
  {
    if lines != [] {
      var before := lines[..|lines| - 1];
      LatestReviewIsNewest(before, key);
      assert forall i :: 0 <= i < |before| ==> before[i] == lines[i];
    }
  }

  lemma {:induction false} FirstTakedownIsEarliest(lines: seq<LogLine>, key: string)
    ensures match FirstTakedown(lines, key)
      case None => forall i :: 0 <= i < |lines| ==> !IsTakedown(lines[i], key)
      case Some(td) => exists i: nat :: EarliestTakedown(lines, key, i) && lines[i].review == td
  {
    if lines != [] {
      var before, n := lines[..|lines| - 1], |lines| - 1;
      FirstTakedownIsEarliest(before, key);
      if IsTakedown(lines[n], key) {
        assert EarliestTakedown(lines, key, n);
      } else if FirstTakedown(before, key).Some? {
        var i: nat :| EarliestTakedown(before, key, i) && before[i].review == FirstTakedown(before, key).value;
        assert EarliestTakedown(lines, key, i);
      }
    }
  }

  // A newest review is determined by the lines.
  lemma NewestReviewUnique(lines: seq<LogLine>, key: string, n: nat, a: Option<Review>, b: Option<Review>)
    requires n <= |lines|
    requires NewestReview(lines, key, n, a) && NewestReview(lines, key, n, b)
    ensures a == b
  {
  }

  // Later lines don't change the first n's newest review.
  lemma NewestReviewOfPrefix(lines: seq<LogLine>, l: LogLine, key: string, n: nat, review: Option<Review>)
    requires n <= |lines|
    ensures NewestReview(lines, key, n, review) <==> NewestReview(lines + [l], key, n, review)
  {
    assert forall i :: 0 <= i < n ==> lines[i] == (lines + [l])[i];
  }

  lemma DecidedEntrySnoc(lines: seq<LogLine>, l: LogLine, r: Rejection)
    ensures DecidedEntry(lines + [l], r) <==>
      || DecidedEntry(lines, r)
      || (l.DecisionLine? && l.key !in Decided(lines) && r == FromDecision(l, LatestReview(lines, l.key)))
  {
    var all, n := lines + [l], |lines|;
    assert forall i :: 0 <= i < n ==> lines[i] == all[i];
    LatestReviewIsNewest(lines, r.key);
    if DecidedEntry(lines, r) {
      var i: nat :| NewestDecision(lines, r.key, i)
        && NewestReview(lines, r.key, i, r.review) && r == FromDecision(lines[i], r.review);
      NewestReviewOfPrefix(lines, l, r.key, i, r.review);
      assert NewestDecision(all, r.key, i);
    }
    if l.DecisionLine? && l.key !in Decided(lines) && r == FromDecision(l, LatestReview(lines, l.key)) {
      NewestReviewOfPrefix(lines, l, r.key, n, r.review);
      assert NewestDecision(all, r.key, n);
    }
    if DecidedEntry(all, r) {
      var i: nat :| NewestDecision(all, r.key, i)
        && NewestReview(all, r.key, i, r.review) && r == FromDecision(all[i], r.review);
      NewestReviewOfPrefix(lines, l, r.key, i, r.review);
      if i < n {
        assert NewestDecision(lines, r.key, i);
      } else {
        NewestReviewUnique(lines, r.key, n, r.review, LatestReview(lines, r.key));
      }
    }
  }

  lemma {:induction false} DecisionsAreDecided(lines: seq<LogLine>)
    ensures forall r :: r in Decisions(lines) <==> DecidedEntry(lines, r)
    ensures DistinctKeys(Decisions(lines))
    ensures forall r :: r in Decisions(lines) ==> r.key in Decided(lines)
  {
    if lines != [] {
      var before, l := lines[..|lines| - 1], lines[|lines| - 1];
      DecisionsAreDecided(before);
      assert lines == before + [l];
      forall r
        ensures r in Decisions(lines) <==> DecidedEntry(lines, r)
      {
        DecidedEntrySnoc(before, l, r);
      }
    }
  }

  // A key's newest decision stays so as older lines are read.
  lemma NewestDecisionStays(lines: seq<LogLine>, l: LogLine, key: string, i: nat)
    requires key in Decided(lines)
    ensures NewestDecision(lines + [l], key, i) <==> NewestDecision(lines, key, i)
  {
    var all := lines + [l];
    assert forall k :: 0 <= k < |lines| ==> lines[k] == all[k];
    var line :| line in lines && line.DecisionLine? && line.key == key;
    var k :| 0 <= k < |lines| && lines[k] == line;
    assert IsDecision(all[k], key);
  }

  lemma InLogOrderStays(lines: seq<LogLine>, l: LogLine, a: Rejection, b: Rejection)
    requires InLogOrder(lines, a, b) && a.key in Decided(lines) && b.key in Decided(lines)
    ensures InLogOrder(lines + [l], a, b)
  {
    forall i: nat, j: nat | NewestDecision(lines + [l], a.key, i) && NewestDecision(lines + [l], b.key, j)
      ensures a.manual || b.manual || i < j
    {
      NewestDecisionStays(lines, l, a.key, i);
      NewestDecisionStays(lines, l, b.key, j);
    }
  }

  lemma NewDecisionIsLast(lines: seq<LogLine>, l: LogLine, a: Rejection, b: Rejection)
    requires a.key in Decided(lines) && b.key !in Decided(lines) && !a.manual
    ensures InLogOrder(lines + [l], a, b)
  {
    var all := lines + [l];
    forall j | 0 <= j < |lines|
      ensures !IsDecision(all[j], b.key)
    {
      assert all[j] == lines[j] && lines[j] in lines;
    }
    forall i: nat, j: nat | NewestDecision(all, a.key, i) && NewestDecision(all, b.key, j)
      ensures i < j
    {
      NewestDecisionStays(lines, l, a.key, i);
    }
  }

  lemma {:induction false} DecisionsInLogOrder(lines: seq<LogLine>)
    ensures AllInLogOrder(lines, Decisions(lines))
    ensures forall r :: r in Decisions(lines) ==> !r.manual && r.key in Decided(lines)
  {
    if lines != [] {
      var before, l := lines[..|lines| - 1], lines[|lines| - 1];
      assert lines == before + [l];
      DecisionsInLogOrder(before);
      var rs := Decisions(lines);
      forall i, j | 0 <= i < j < |rs|
        ensures InLogOrder(lines, rs[i], rs[j])
      {
        if j < |Decisions(before)| {
          assert rs[i] in Decisions(before) && rs[j] in Decisions(before);
          InLogOrderStays(before, l, rs[i], rs[j]);
        } else {
          assert rs[i] in Decisions(before);
          NewDecisionIsLast(before, l, rs[i], rs[j]);
        }
      }
    }
  }

  // ---- sorting ----

  function InsertByTime(rs: seq<Rejection>, r: Rejection): seq<Rejection> {
    if rs == [] || rs[|rs| - 1].time >= r.time then rs + [r]
    else InsertByTime(rs[..|rs| - 1], r) + [rs[|rs| - 1]]
  }

  // The stable sort by time, newest first.
  function SortByTime(rs: seq<Rejection>): seq<Rejection> {
    if rs == [] then [] else InsertByTime(SortByTime(rs[..|rs| - 1]), rs[|rs| - 1])
  }

  lemma {:induction false} InsertByTimeKeeps(rs: seq<Rejection>, r: Rejection)
    ensures forall x :: x in InsertByTime(rs, r) <==> x in rs || x == r
  {
    if rs != [] && rs[|rs| - 1].time < r.time {
      InsertByTimeKeeps(rs[..|rs| - 1], r);
      assert rs == rs[..|rs| - 1] + [rs[|rs| - 1]];
    }
  }

  lemma {:induction false} InsertByTimeSorts(rs: seq<Rejection>, r: Rejection)
    requires NewestFirst(rs)
    ensures NewestFirst(InsertByTime(rs, r))
  {
    if rs != [] && rs[|rs| - 1].time < r.time {
      var before, last := rs[..|rs| - 1], rs[|rs| - 1];
      InsertByTimeSorts(before, r);
      InsertByTimeKeeps(before, r);
      forall i | 0 <= i < |InsertByTime(before, r)|
        ensures InsertByTime(before, r)[i].time >= last.time
      {
        assert InsertByTime(before, r)[i] in InsertByTime(before, r);
      }
    }
  }

  lemma {:induction false} SortByTimeSorts(rs: seq<Rejection>)
    ensures NewestFirst(SortByTime(rs))
  {
    if rs != [] {
      SortByTimeSorts(rs[..|rs| - 1]);
      InsertByTimeSorts(SortByTime(rs[..|rs| - 1]), rs[|rs| - 1]);
    }
  }

  lemma {:induction false} InsertByTimeKeepsKeysDistinct(rs: seq<Rejection>, r: Rejection)
    requires DistinctKeys(rs) && forall i :: 0 <= i < |rs| ==> rs[i].key != r.key
    ensures DistinctKeys(InsertByTime(rs, r))
  {
    if rs != [] && rs[|rs| - 1].time < r.time {
      var before, last := rs[..|rs| - 1], rs[|rs| - 1];
      InsertByTimeKeepsKeysDistinct(before, r);
      InsertByTimeKeeps(before, r);
      forall i | 0 <= i < |InsertByTime(before, r)|
        ensures InsertByTime(before, r)[i].key != last.key
      {
        assert InsertByTime(before, r)[i] in InsertByTime(before, r);
      }
    }
  }

  lemma {:induction false} SortByTimeKeepsKeysDistinct(rs: seq<Rejection>)
    requires DistinctKeys(rs)
    ensures DistinctKeys(SortByTime(rs))
    ensures forall x :: x in SortByTime(rs) <==> x in rs
  {
    if rs != [] {
      var before, last := rs[..|rs| - 1], rs[|rs| - 1];
      assert rs == before + [last];
      SortByTimeKeepsKeysDistinct(before);
      forall i | 0 <= i < |SortByTime(before)|
        ensures SortByTime(before)[i].key != last.key
      {
        assert SortByTime(before)[i] in SortByTime(before);
      }
      InsertByTimeKeeps(SortByTime(before), last);
      InsertByTimeKeepsKeysDistinct(SortByTime(before), last);
    }
  }

  lemma {:induction false} InsertByTimeIsStable(lines: seq<LogLine>, rs: seq<Rejection>, r: Rejection)
    requires TiesInLogOrder(lines, rs) && forall x :: x in rs ==> InLogOrder(lines, x, r)
    ensures TiesInLogOrder(lines, InsertByTime(rs, r))
  {
    if rs != [] && rs[|rs| - 1].time < r.time {
      var before, last := rs[..|rs| - 1], rs[|rs| - 1];
      InsertByTimeIsStable(lines, before, r);
      InsertByTimeKeeps(before, r);
      forall i | 0 <= i < |InsertByTime(before, r)| && InsertByTime(before, r)[i].time == last.time
        ensures InLogOrder(lines, InsertByTime(before, r)[i], last)
      {
        var x := InsertByTime(before, r)[i];
        assert x in InsertByTime(before, r);
        var k :| 0 <= k < |before| && before[k] == x;
        assert rs[k] == x;
      }
    }
  }

  lemma {:induction false} SortByTimeIsStable(lines: seq<LogLine>, rs: seq<Rejection>)
    requires AllInLogOrder(lines, rs)
    ensures TiesInLogOrder(lines, SortByTime(rs))
    ensures forall x :: x in SortByTime(rs) <==> x in rs
  {
    if rs != [] {
      var before, last := rs[..|rs| - 1], rs[|rs| - 1];
      assert rs == before + [last];
      SortByTimeIsStable(lines, before);
      forall x | x in SortByTime(before)
        ensures InLogOrder(lines, x, last)
      {
        var k :| 0 <= k < |before| && before[k] == x;
        assert rs[k] == x;
      }
      InsertByTimeKeeps(SortByTime(before), last);
      InsertByTimeIsStable(lines, SortByTime(before), last);
    }
  }

  // slices.DeleteFunc: the entries no review has settled.
  function Awaiting(rs: seq<Rejection>): seq<Rejection> {
    if rs == [] then []
    else if rs[0].review.None? then [rs[0]] + Awaiting(rs[1..])
    else Awaiting(rs[1..])
  }

  lemma {:induction false} AwaitingKeepsUnreviewed(rs: seq<Rejection>)
    requires DistinctKeys(rs)
    ensures DistinctKeys(Awaiting(rs))
    ensures forall r :: r in Awaiting(rs) <==> r in rs && r.review.None?
  {
    if rs != [] {
      AwaitingKeepsUnreviewed(rs[1..]);
      assert rs == [rs[0]] + rs[1..];
      forall i | 0 <= i < |Awaiting(rs[1..])|
        ensures Awaiting(rs[1..])[i].key != rs[0].key
      {
        assert Awaiting(rs[1..])[i] in rs[1..];
      }
    }
  }

  lemma {:induction false} AwaitingKeepsLogOrder(lines: seq<LogLine>, rs: seq<Rejection>)
    requires AllInLogOrder(lines, rs)
    ensures AllInLogOrder(lines, Awaiting(rs))
    ensures forall x :: x in Awaiting(rs) ==> x in rs
  {
    if rs != [] {
      AwaitingKeepsLogOrder(lines, rs[1..]);
      forall i | 0 <= i < |Awaiting(rs[1..])|
        ensures InLogOrder(lines, rs[0], Awaiting(rs[1..])[i])
      {
        assert Awaiting(rs[1..])[i] in rs[1..];
        var k :| 0 <= k < |rs[1..]| && rs[1..][k] == Awaiting(rs[1..])[i];
        assert rs[k + 1] == Awaiting(rs[1..])[i];
      }
    }
  }

  function Get<V>(m: map<string, V>, key: string): Option<V> {
    if key in m then Some(m[key]) else None
  }

  // The maps and the list the pass keeps, after the lines it has read.
  ghost predicate Folded(lines: seq<LogLine>, reviews: map<string, Review>, takedowns: map<string, Review>,
    listed: set<string>, out: seq<Rejection>)
  {
    && (forall key :: Get(reviews, key) == LatestReview(lines, key))
    && (forall key :: Get(takedowns, key) == FirstTakedown(lines, key))
    && listed == Decided(lines)
    && out == Decisions(lines)
  }

  method ReasonConfidence(labels: seq<Label>, reason: string) returns (confidence: real)
    ensures confidence == Confidence(labels, reason)
  {
    confidence := 0.0;
    for i := 0 to |labels|
      invariant confidence == Confidence(labels[..i], reason)
    {
      assert labels[..i + 1][..i] == labels[..i];
      if labels[i].name == reason {
        confidence := labels[i].confidence;
      }
    }
    assert labels[..|labels|] == labels;
  }

  // The pass's body for one line.
  method FoldLine(ghost lines: seq<LogLine>, line: LogLine, reviews0: map<string, Review>,
      takedowns0: map<string, Review>, listed0: set<string>, out0: seq<Rejection>)
      returns (reviews: map<string, Review>, takedowns: map<string, Review>, listed: set<string>, out: seq<Rejection>)
    requires Folded(lines, reviews0, takedowns0, listed0, out0)
    ensures Folded(lines + [line], reviews, takedowns, listed, out)
  {
    reviews, takedowns, listed, out := reviews0, takedowns0, listed0, out0;
    ghost var all := lines + [line];
    assert all[..|lines|] == lines;
    if line.ReviewLine? {
      var rv := line.review;
      if rv.key !in reviews {
        assert Get(reviews, rv.key) == LatestReview(lines, rv.key);
        reviews := reviews[rv.key := rv];
      }
      if rv.action == Rejected {
        takedowns := takedowns[rv.key := rv];
      }
      assert Decided(all) == Decided(lines);
    } else if line.key in listed {
      assert Decided(all) == Decided(lines);
    } else {
      assert Decided(all) == Decided(lines) + {line.key};
      listed := listed + {line.key};
      var confidence := ReasonConfidence(line.labels, line.reason);
      out := out + [Rejection(line.time, line.key, line.reason, confidence, false, Get(reviews, line.key))];
    }
  }

  method FoldRow(ghost seen: seq<LogLine>, row: seq<Field>, reviews0: map<string, Review>,
      takedowns0: map<string, Review>, listed0: set<string>, out0: seq<Rejection>)
      returns (reviews: map<string, Review>, takedowns: map<string, Review>, listed: set<string>, out: seq<Rejection>)
    requires Folded(seen, reviews0, takedowns0, listed0, out0)
    ensures Folded(seen + RowLines(row), reviews, takedowns, listed, out)
  {
    reviews, takedowns, listed, out := reviews0, takedowns0, listed0, out0;
    ghost var lines := seen;
    for j := 0 to |row|
      invariant lines == seen + RowLines(row[..j])
      invariant Folded(lines, reviews, takedowns, listed, out)
    {
      assert row[..j + 1][..j] == row[..j];
      if row[j].name == "@message" && row[j].line.Some? {
        reviews, takedowns, listed, out := FoldLine(lines, row[j].line.value, reviews, takedowns, listed, out);
        lines := lines + [row[j].line.value];
      }
    }
    assert row[..|row|] == row;
  }

  // The pass over every row.
  method FoldResults(results: seq<seq<Field>>)
      returns (reviews: map<string, Review>, takedowns: map<string, Review>, listed: set<string>, out: seq<Rejection>)
    ensures Folded(Lines(results), reviews, takedowns, listed, out)
  {
    reviews, takedowns, listed, out := map[], map[], {}, [];
    for i := 0 to |results|
      invariant Folded(Lines(results[..i]), reviews, takedowns, listed, out)
    {
      assert results[..i + 1][..i] == results[..i];
      reviews, takedowns, listed, out := FoldRow(Lines(results[..i]), results[i], reviews, takedowns, listed, out);
    }
    assert results[..|results|] == results;
  }

  lemma TakedownEntryIsFirst(lines: seq<LogLine>, r: Rejection)
    ensures TakedownEntry(lines, r) <==>
      && r.key !in Decided(lines) && FirstTakedown(lines, r.key).Some?
      && r == FromTakedown(FirstTakedown(lines, r.key).value, LatestReview(lines, r.key))
  {
    LatestReviewIsNewest(lines, r.key);
    FirstTakedownIsEarliest(lines, r.key);
    if TakedownEntry(lines, r) {
      NewestReviewUnique(lines, r.key, |lines|, r.review, LatestReview(lines, r.key));
    }
  }

  // The takedowns of keys with no decision line, in the map's own order.
  method AddTakedowns(ghost lines: seq<LogLine>, reviews: map<string, Review>, takedowns: map<string, Review>,
      listed: set<string>, decided: seq<Rejection>) returns (out: seq<Rejection>)
    requires Folded(lines, reviews, takedowns, listed, decided)
    ensures forall r :: r in out <==> Entry(lines, r)
    ensures DistinctKeys(out) && AllInLogOrder(lines, out)
  {
    DecisionsAreDecided(lines);
    DecisionsInLogOrder(lines);
    forall r: Rejection
      ensures TakedownEntry(lines, r) <==>
        r.key !in listed && r.key in takedowns && r == FromTakedown(takedowns[r.key], Get(reviews, r.key))
    {
      TakedownEntryIsFirst(lines, r);
      assert Get(takedowns, r.key) == FirstTakedown(lines, r.key);
    }
    forall key | key in takedowns
      ensures takedowns[key].key == key
    {
      assert Get(takedowns, key) == FirstTakedown(lines, key);
      FirstTakedownIsEarliest(lines, key);
    }
    out := decided;
    var keys := takedowns.Keys;
    while keys != {}
      invariant keys <= takedowns.Keys
      invariant DistinctKeys(out) && AllInLogOrder(lines, out)
      invariant forall r :: r in out <==> r in decided || (TakedownEntry(lines, r) && r.key !in keys)
      decreases |keys|
    {
      var key :| key in keys;
      if key !in listed {
        var td := takedowns[key];
        out := out + [Rejection(td.time, key, td.reason, 0.0, true, Get(reviews, key))];
      }
      keys := keys - {key};
    }
  }

  /** parseRejections: one entry per key that has a decision or a takedown. */
  method ParseRejections(results: seq<seq<Field>>, all: bool) returns (rs: seq<Rejection>)
    ensures forall r :: r in rs <==> Entry(Lines(results), r) && (all || r.review.None?)
    ensures DistinctKeys(rs)
    ensures NewestFirst(rs) && TiesInLogOrder(Lines(results), rs)
  {
    var reviews, takedowns, listed, out := FoldResults(results);
    rs := AddTakedowns(Lines(results), reviews, takedowns, listed, out);
    if !all {
      AwaitingKeepsLogOrder(Lines(results), rs);
      AwaitingKeepsUnreviewed(rs);
      rs := Awaiting(rs);
    }
    SortByTimeSorts(rs);
    SortByTimeKeepsKeysDistinct(rs);
    SortByTimeIsStable(Lines(results), rs);
    rs := SortByTime(rs);
  }
}
