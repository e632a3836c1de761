/** The review queue over runs of the moderation protocol: which of the key's
    rejections `Rejections.ParseRejections` lists as awaiting review. */
module ReviewQueue {
  import opened Wrappers
  import opened ImageStatuses
  import opened ModerationProtocol
  import opened ModerationSafety
  import opened Reruns
  import opened Rejections
  import ReviewLog

  function KeyLines(lines: seq<ReviewLog.LogLine>, key: string): seq<ReviewLog.LogLine> {
    if lines == [] then []
    else (if lines[0].Key() == key then [lines[0]] else []) + KeyLines(lines[1..], key)
  }

  function Reverse(log: seq<ReviewLog.LogLine>): (r: seq<ReviewLog.LogLine>)
    ensures |r| == |log|
    ensures forall i :: 0 <= i < |r| ==> r[i] == log[|log| - 1 - i]
  {
    if log == [] then [] else [log[|log| - 1]] + Reverse(log[..|log| - 1])
  }

  // A query's newest-first result, whatever it says of other keys: the clock is
  // monotone, so a key's lines come in the reverse of the order it was logged in.
  predicate ResultFor(lines: seq<ReviewLog.LogLine>, w: World) {
    KeyLines(lines, w.key) == Reverse(w.log)
  }

  ghost predicate AwaitsReview(lines: seq<ReviewLog.LogLine>, key: string) {
    exists r :: Entry(lines, r) && r.key == key && r.review.None?
  }

  lemma {:induction false} KeyLinesHead(lines: seq<ReviewLog.LogLine>, key: string) returns (p: nat)
    requires KeyLines(lines, key) != []
    ensures p < |lines| && lines[p] == KeyLines(lines, key)[0] && lines[p].Key() == key
    ensures forall j :: 0 <= j < p ==> lines[j].Key() != key
  {
    if lines[0].Key() == key {
      p := 0;
    } else {
      p := KeyLinesHead(lines[1..], key);
      p := p + 1;
    }
  }

  lemma {:induction false} KeyLinesEmpty(lines: seq<ReviewLog.LogLine>, key: string)
    requires KeyLines(lines, key) == []
    ensures forall j :: 0 <= j < |lines| ==> lines[j].Key() != key
  {
    if lines != [] {
      KeyLinesEmpty(lines[1..], key);
    }
  }

  // A key awaits review iff its newest line is a decision.
  lemma AwaitsIffNewestIsDecision(lines: seq<ReviewLog.LogLine>, key: string)
    ensures AwaitsReview(lines, key) <==> KeyLines(lines, key) != [] && KeyLines(lines, key)[0].DecisionLine?
  {
    if KeyLines(lines, key) == [] {
      KeyLinesEmpty(lines, key);
    } else {
      var p := KeyLinesHead(lines, key);
      if lines[p].DecisionLine? {
        assert NewestDecision(lines, key, p) && NewestReview(lines, key, p, None);
        assert Entry(lines, FromDecision(lines[p], None));
      } else {
        assert IsReview(lines[p], key);
      }
    }
  }

  lemma OpStepGrowsLog(w: World, pc: OpPc, r: Reply)
    ensures w.log <= OpStep(w, pc, r).0.log
    ensures w.key == OpStep(w, pc, r).0.key
  {
  }

  lemma StepGrowsLog(s: System, l: Label, v: Verdict)
    ensures s.w.log <= Step(s, l, v).w.log
    ensures s.w.key == Step(s, l, v).w.key
  {
    if l.CommandSteps? {
      OpStepGrowsLog(s.w, s.op, l.reply);
    }
  }

  lemma {:induction false} RunGrowsLog(s0: System, labels: seq<Label>, v: Verdict, i: nat, j: nat)
    requires i <= j <= |labels|
    ensures At(s0, labels, v, i).w.log <= At(s0, labels, v, j).w.log
    decreases j
  {
    if i < j {
      RunGrowsLog(s0, labels, v, i, j - 1);
      AtNext(s0, labels, v, j - 1);
      StepGrowsLog(At(s0, labels, v, j - 1), labels[j - 1], v);
    }
  }

  predicate HasDecision(log: seq<ReviewLog.LogLine>) {
    exists i :: 0 <= i < |log| && log[i].DecisionLine?
  }

  // The decision lines are the function's, each of this key's one verdict.
  predicate DecisionsOf(w: World, v: Verdict) {
    forall i :: 0 <= i < |w.log| && w.log[i].DecisionLine? ==>
      v.Refuse? && w.log[i] == ReviewLog.DecisionLine(i, w.key, v.reason, v.labels)
  }

  // A delivery past detection has logged the rejection it is about to make.
  predicate LogInv(s: System, v: Verdict) {
    && DecisionsOf(s.w, v)
    && (s.delivery.DeliveryTag? || (s.delivery.DeliveryWrite? && s.delivery.to.Rejected?) ==> HasDecision(s.w.log))
  }

  // A decided image that the verdict refuses was logged.
  predicate RefusedIsLogged(w: World, v: Verdict) {
    v.Refuse? && w.slot.Held? && !w.Holds(Pending) ==> HasDecision(w.log)
  }

  lemma DecisionStays(log: seq<ReviewLog.LogLine>, log': seq<ReviewLog.LogLine>)
    requires log <= log' && HasDecision(log)
    ensures HasDecision(log')
  {
    var i :| 0 <= i < |log| && log[i].DecisionLine?;
    assert log'[i] == log[i];
  }

  lemma OpStepKeepsDecisions(w: World, pc: OpPc, r: Reply, v: Verdict)
    requires DecisionsOf(w, v)
    ensures DecisionsOf(OpStep(w, pc, r).0, v)
    ensures OpStep(w, pc, r).0.slot.Held? ==> w.slot.Held? && (OpStep(w, pc, r).0.Holds(Pending) <==> w.Holds(Pending))
  {
  }

  lemma StepKeepsLogInv(s: System, l: Label, v: Verdict)
    requires LogInv(s, v)
    ensures LogInv(Step(s, l, v), v)
  {
    StepGrowsLog(s, l, v);
    if HasDecision(s.w.log) {
      DecisionStays(s.w.log, Step(s, l, v).w.log);
    }
    if l.CommandSteps? {
      OpStepKeepsDecisions(s.w, s.op, l.reply, v);
    }
  }

  lemma StepKeepsRefusedLogged(s: System, l: Label, v: Verdict)
    requires Inv(s, v) && LogInv(s, v) && RefusedIsLogged(s.w, v)
    ensures RefusedIsLogged(Step(s, l, v).w, v)
  {
    StepGrowsLog(s, l, v);
    if HasDecision(s.w.log) {
      DecisionStays(s.w.log, Step(s, l, v).w.log);
    }
    if l.CommandSteps? {
      OpStepKeepsDecisions(s.w, s.op, l.reply, v);
    }
  }

  lemma {:induction false} RunKeepsLogInv(s0: System, labels: seq<Label>, v: Verdict)
    requires Initial(s0)
    ensures Inv(Exec(s0, labels, v), v) && LogInv(Exec(s0, labels, v), v)
    ensures !s0.w.issued ==> RefusedIsLogged(Exec(s0, labels, v).w, v)
  {
    InitialInv(s0, v);
    RunKeepsInv(s0, labels, v);
    if labels != [] {
      var before, l := labels[..|labels| - 1], labels[|labels| - 1];
      RunKeepsLogInv(s0, before, v);
      StepKeepsLogInv(Exec(s0, before, v), l, v);
      if !s0.w.issued {
        StepKeepsRefusedLogged(Exec(s0, before, v), l, v);
      }
    }
  }

  lemma InvAwaits(s: System, v: Verdict, lines: seq<ReviewLog.LogLine>)
    requires Inv(s, v) && ResultFor(lines, s.w)
    ensures AwaitsReview(lines, s.w.key) <==> HasDecision(s.w.log) && !HasReview(s.w.log)
  {
    var log := s.w.log;
    AwaitsIffNewestIsDecision(lines, s.w.key);
    if log != [] && log[|log| - 1].DecisionLine? {
      assert forall i :: 0 <= i < |log| - 1 ==> !log[i].ReviewLine?;
    }
  }

  /** In every reachable state the queue lists the key as awaiting review exactly
      when a rejection of it was logged, which is always the one the verdict makes,
      and no review was. */
  lemma AwaitsWhileUnreviewed(s0: System, labels: seq<Label>, v: Verdict, lines: seq<ReviewLog.LogLine>)
    requires Initial(s0) && ResultFor(lines, Exec(s0, labels, v).w)
    ensures var w := Exec(s0, labels, v).w;
      && DecisionsOf(w, v)
      && (AwaitsReview(lines, w.key) <==> HasDecision(w.log) && !HasReview(w.log))
  {
    RunKeepsLogInv(s0, labels, v);
    InvAwaits(Exec(s0, labels, v), v, lines);
  }

  // The queue's entry for the verdict's rejection.
  ghost predicate Queued(lines: seq<ReviewLog.LogLine>, key: string, v: Verdict) {
    v.Refuse? && exists r ::
      && Entry(lines, r) && r.key == key && r.review.None?
      && !r.manual && r.reason == v.reason && r.confidence == Confidence(v.labels, v.reason)
  }

  lemma AwaitingIsQueued(lines: seq<ReviewLog.LogLine>, w: World, v: Verdict)
    requires DecisionsOf(w, v) && ResultFor(lines, w)
    ensures AwaitsReview(lines, w.key) <==> Queued(lines, w.key, v)
  {
    AwaitsIffNewestIsDecision(lines, w.key);
    if AwaitsReview(lines, w.key) {
      var p := KeyLinesHead(lines, w.key);
      assert lines[p] == w.log[|w.log| - 1];
      assert NewestDecision(lines, w.key, p) && NewestReview(lines, w.key, p, None);
      assert Entry(lines, FromDecision(lines[p], None));
    }
  }

  // Only a delivery that logged the rejection makes a pending image rejected.
  lemma LoggedBeforeRejected(s: System, l: Label, v: Verdict)
    requires Inv(s, v) && LogInv(s, v) && s.w.Holds(Pending) && Step(s, l, v).w.Holds(Rejected)
    ensures HasDecision(s.w.log)
  {
    if l.CommandSteps? {
      OpStepKeepsDecisions(s.w, s.op, l.reply, v);
    }
  }

  /** Once a delivery rejected the image at step k, the log has its decision, and the
      queue lists it, with the verdict's reason, until an operator reviews it. */
  lemma RejectedAwaitsReview(
      s0: System, labels: seq<Label>, v: Verdict, k: nat, j: nat, lines: seq<ReviewLog.LogLine>)
    requires Initial(s0) && k < j <= |labels| && ResultFor(lines, At(s0, labels, v, j).w)
    requires At(s0, labels, v, k).w.Holds(Pending) && At(s0, labels, v, k + 1).w.Holds(Rejected)
    ensures var w := At(s0, labels, v, j).w;
      && v.Refuse? && (exists i :: 0 <= i < |w.log| && w.log[i] == ReviewLog.DecisionLine(i, w.key, v.reason, v.labels))
      && (Queued(lines, w.key, v) <==> !HasReview(w.log))
  {
    AtNext(s0, labels, v, k);
    RunKeepsLogInv(s0, labels[..k], v);
    LoggedBeforeRejected(At(s0, labels, v, k), labels[k], v);
    RunGrowsLog(s0, labels, v, k, j);
    DecisionStays(At(s0, labels, v, k).w.log, At(s0, labels, v, j).w.log);
    AwaitsWhileUnreviewed(s0, labels[..j], v, lines);
    AwaitingIsQueued(lines, At(s0, labels, v, j).w, v);
  }

  /** In a run from a key not yet issued the queue lists every decided image the
      verdict refuses until it is reviewed, and none that it accepts. */
  lemma RefusedAwaitsReview(s0: System, labels: seq<Label>, v: Verdict, lines: seq<ReviewLog.LogLine>)
    requires Initial(s0) && !s0.w.issued && ResultFor(lines, Exec(s0, labels, v).w)
    ensures var w := Exec(s0, labels, v).w;
      && (v.Refuse? && w.slot.Held? && !w.Holds(Pending) ==> (Queued(lines, w.key, v) <==> !HasReview(w.log)))
      && (v.Accept? ==> !AwaitsReview(lines, w.key))
  {
    RunKeepsLogInv(s0, labels, v);
    AwaitsWhileUnreviewed(s0, labels, v, lines);
    AwaitingIsQueued(lines, Exec(s0, labels, v).w, v);
  }

  /** Once an Uphold or an Approve returned nil at step i, the key is off the
      queue for good. */
  lemma SettledForGood(
      s0: System, labels: seq<Label>, v: Verdict, i: nat, j: nat, lines: seq<ReviewLog.LogLine>)
    requires Initial(s0) && i < j <= |labels| && ResultFor(lines, At(s0, labels, v, j).w)
    requires At(s0, labels, v, i).op.UpholdRecord? || At(s0, labels, v, i).op.ApproveRecord?
    requires labels[i] == CommandSteps(Served)
    ensures At(s0, labels, v, i + 1).op.OpDone? && At(s0, labels, v, i + 1).op.outcome.Nil?
    ensures !AwaitsReview(lines, At(s0, labels, v, j).w.key)
  {
    AtNext(s0, labels, v, i);
    RunGrowsLog(s0, labels, v, i + 1, j);
    var n := |At(s0, labels, v, i).w.log|;
    assert At(s0, labels, v, i + 1).w.log[n].ReviewLine?;
    assert At(s0, labels, v, j).w.log[n].ReviewLine?;
    AwaitsWhileUnreviewed(s0, labels[..j], v, lines);
  }

  /** Reject on a rejected image that is tagged, wherever it stops, leaves the
      queue as it was: it logs nothing, */
  lemma RejectLeavesQueue(w: World, reason: string, script: seq<Reply>, lines: seq<ReviewLog.LogLine>)
    requires w.Holds(Rejected) && w.Tagged() && ResultFor(lines, w)
    ensures ResultFor(lines, Run(w, Reject(reason), script).0)
  {
    if Blank(reason) {
      RejectRefuses(w, reason, script);
    } else {
      RejectRuns(w, w, reason, RejectSet(reason), script);
    }
  }

  /** but on one left untagged, even by a stopped Approve of a rejection nobody
      reviewed, it takes the key off the queue. */
  lemma RejectSettlesAGap(w: World, reason: string, script: seq<Reply>, lines: seq<ReviewLog.LogLine>)
    requires w.Holds(Rejected) && w.Untagged()
    requires Run(w, Reject(reason), script).1.Nil? && ResultFor(lines, Run(w, Reject(reason), script).0)
    ensures !AwaitsReview(lines, w.key)
  {
    if Blank(reason) {
      RejectRefuses(w, reason, script);
    } else {
      RejectRuns(w, w, reason, RejectSet(reason), script);
      AwaitsIffNewestIsDecision(lines, w.key);
    }
  }
}
