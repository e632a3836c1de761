/** Running an interrupted command again, alone, until it returns nil. */
module Reruns {
  import opened Wrappers
  import opened ImageStatuses
  import opened ModerationProtocol
  import ReviewLog

  // The state any number of interrupted runs of a command leave, one after
  // another, each with its own script of replies.
  function Attempts(w: World, c: Command, scripts: seq<seq<Reply>>): World {
    if scripts == [] then w
    else Run(Attempts(w, c, scripts[..|scripts| - 1]), c, scripts[|scripts| - 1]).0
  }

  function AllServed(n: nat): seq<Reply> {
    seq(n, _ => Served)
  }

  // Every call is served: no command makes more than seven.
  const SERVED := AllServed(7)

  // ---- what a command refuses, and why ----

  lemma UpholdSaysWhy(w: World)
    ensures w.slot.Absent? ==> Run(w, Uphold, SERVED).1 == Failed(NotCurrent)
    ensures w.slot.Held? && !w.Holds(Rejected) ==>
      Run(w, Uphold, SERVED).1 == Failed(WrongStatus(w.slot.status.Effective()))
  {
    var (_, pc) := OpStep(w, UpholdRead, Served);
    assert Run(w, Uphold, SERVED) == RunOp(w, pc, SERVED[1..]);
  }

  /** Approve names a key no item holds, a pending image, and a file that is gone. */
  lemma ApproveSaysWhy(w: World)
    ensures w.slot.Absent? ==> Run(w, Approve, SERVED).1 == Failed(NotCurrent)
    ensures w.Holds(Pending) ==> Run(w, Approve, SERVED).1 == Failed(WrongStatus(Pending))
    ensures (w.Holds(Rejected) || w.Holds(Approved)) && w.file.None? ==> Run(w, Approve, SERVED).1 == Failed(ImageGone)
  {
    var (_, pc) := OpStep(w, ApproveRead, Served);
    assert Run(w, Approve, SERVED) == RunOp(w, pc, SERVED[1..]);
    if pc.Running() {
      var (_, pc') := OpStep(w, pc, Served);
      assert RunOp(w, pc, SERVED[1..]) == RunOp(w, pc', SERVED[1..][1..]);
    }
  }

  /** Reject names a blank reason, a key no item holds, and a pending image. */
  lemma RejectSaysWhy(w: World, reason: string)
    ensures Blank(reason) ==> Run(w, Reject(reason), SERVED).1 == Failed(BlankReason)
    ensures !Blank(reason) && w.slot.Absent? ==> Run(w, Reject(reason), SERVED).1 == Failed(NotCurrent)
    ensures !Blank(reason) && w.Holds(Pending) ==> Run(w, Reject(reason), SERVED).1 == Failed(WrongStatus(Pending))
  {
    if !Blank(reason) && !w.Holds(Approved) {
      var (_, pc) := OpStep(w, RejectReread(reason), Served);
      assert Run(w, Reject(reason), SERVED) == RunOp(w, RejectReread(reason), SERVED[1..]);
      assert RunOp(w, RejectReread(reason), SERVED[1..]) == RunOp(w, pc, SERVED[1..][1..]);
    }
  }

  // ---- Uphold ----

  /** Uphold changes nothing unless the image is rejected, and then at most records
      one review; nil means it did. */
  lemma UpholdRecords(w: World, script: seq<Reply>)
    ensures var (w', outcome) := Run(w, Uphold, script);
      var upheld := w.(log := w.log + [ReviewLog.ReviewLine(ReviewLog.Review(|w.log|, w.key, ReviewLog.Upheld, ""))]);
      && (!w.Holds(Rejected) ==> w' == w && outcome.Failed?)
      && (outcome.Nil? ==> w' == upheld && !outcome.already && !outcome.detail)
      && (outcome.Failed? ==> w' == w || w' == upheld)
    ensures w.Holds(Rejected) ==> Run(w, Uphold, SERVED).1.Nil?
  {
    hide Run, RunOp;
    UpholdReads(w, script);
    UpholdEnds(w, if script == [] then [] else script[1..]);
    UpholdReads(w, SERVED);
    UpholdEnds(w, SERVED[1..]);
  }

  lemma UpholdReads(w: World, script: seq<Reply>)
    ensures var r := if script == [] then FailsBefore else script[0];
      if r.Fails() || !w.Holds(Rejected) then Run(w, Uphold, script).0 == w && Run(w, Uphold, script).1.Failed?
      else Run(w, Uphold, script) == RunOp(w, UpholdRecord, script[1..])
  {
    var r := if script == [] then FailsBefore else script[0];
    var (_, pc) := OpStep(w, UpholdRead, r);
    assert Run(w, Uphold, script) == RunOp(w, pc, if script == [] then [] else script[1..]);
  }

  lemma UpholdEnds(w: World, script: seq<Reply>)
    ensures var (w', outcome) := RunOp(w, UpholdRecord, script);
      var r := if script == [] then FailsBefore else script[0];
      && w' == (if r.FailsBefore? then w else Record(w, ReviewLog.Upheld, ""))
      && outcome == if r.Fails() then Failed(CallFailed) else Nil(false, false)
  {
  }

  // ---- Approve ----

  // What Approve can act on: a decided current image whose file is there.
  predicate Approvable(w: World) {
    (w.Holds(Rejected) || w.Holds(Approved)) && w.file.Some?
  }

  function ApprovedSlot(w: World): Slot {
    if w.Holds(Rejected) then Held(Approved, None) else w.slot
  }

  // What Approve does to an image it can act on, one write after another.
  function ApproveFile(w: World): World {
    w.(file := Some(OtherTags(w.file.OrElse([]))))
  }

  function ApproveSlot(w: World): World {
    ApproveFile(w).(slot := ApprovedSlot(w))
  }

  // The state of the slot, the file and the CDN a completed Approve leaves.
  predicate ApproveDone(w0: World, w: World) {
    w == ApproveSlot(w0).(log := w.log)
  }

  lemma {:induction false} OtherTagsKeepsTheRest(tags: seq<Tag>)
    ensures OtherTags(OtherTags(tags)) == OtherTags(tags)
    ensures |OtherTags(tags)| <= |tags|
    ensures |OtherTags(tags)| == |tags| ==> OtherTags(tags) == tags
  {
    if tags != [] {
      OtherTagsKeepsTheRest(tags[1..]);
      OtherTagsHaveNoModerationKey(tags[1..]);
    }
  }

  predicate HasModerationTag(w: World) {
    w.file.Some? && exists t :: t in w.file.value && t.key == TAG_KEY
  }

  // Where an Approve that started at w0 stands at pc.
  predicate ApproveAt(w0: World, w: World, pc: OpPc) {
    && Approvable(w0)
    && match pc
       case ApproveRead => w == w0
       case ApproveHead(s) => w == w0 && w.Holds(s) && s in {Rejected, Approved}
       case ApproveGetTags(s) => w == w0 && w.Holds(s) && s in {Rejected, Approved}
       case ApprovePutTags(s, kept) =>
         && w == w0 && w.Holds(s) && s in {Rejected, Approved} && HasModerationTag(w0)
         && kept == OtherTags(w0.file.value)
       case ApproveSet(untagged) =>
         w0.Holds(Rejected) && w == ApproveFile(w0) && untagged == HasModerationTag(w0)
       case ApproveRecord(already, untagged) =>
         w == ApproveSlot(w0) && already == w0.Holds(Approved) && untagged == HasModerationTag(w0)
       case OpDone(Failed(_)) =>
         w in {w0, ApproveFile(w0), ApproveSlot(w0), Record(ApproveSlot(w0), ReviewLog.Approved, "")}
       case OpDone(Nil(already, untagged)) =>
         && w == Record(ApproveSlot(w0), ReviewLog.Approved, "")
         && already == w0.Holds(Approved) && untagged == HasModerationTag(w0)
       case _ => false
  }

  lemma ApproveReadsNext(w0: World, w: World, pc: OpPc, r: Reply)
    requires ApproveAt(w0, w, pc) && (pc.ApproveRead? || pc.ApproveHead? || pc.ApproveGetTags?)
    ensures var (w', pc') := ApproveStep(w, pc, r); ApproveAt(w0, w', pc')
  {
    OtherTagsKeepsTheRest(w0.file.value);
    OtherTagsHaveNoModerationKey(w0.file.value);
  }

  lemma ApproveWritesNext(w0: World, w: World, pc: OpPc, r: Reply)
    requires ApproveAt(w0, w, pc) && (pc.ApprovePutTags? || pc.ApproveSet? || pc.ApproveRecord?)
    ensures var (w', pc') := ApproveStep(w, pc, r); ApproveAt(w0, w', pc')
  {
    OtherTagsKeepsTheRest(w0.file.value);
    OtherTagsHaveNoModerationKey(w0.file.value);
  }

  lemma ApproveAtNext(w0: World, w: World, pc: OpPc, r: Reply)
    requires ApproveAt(w0, w, pc) && pc.Running()
    ensures var (w', pc') := OpStep(w, pc, r); ApproveAt(w0, w', pc')
  {
    if pc.ApproveRead? || pc.ApproveHead? || pc.ApproveGetTags? {
      ApproveReadsNext(w0, w, pc, r);
    } else {
      ApproveWritesNext(w0, w, pc, r);
    }
  }

  lemma {:induction false} ApproveRuns(w0: World, w: World, pc: OpPc, script: seq<Reply>)
    requires ApproveAt(w0, w, pc)
    ensures var (w', outcome) := RunOp(w, pc, script); ApproveAt(w0, w', OpDone(outcome))
    decreases pc.Rank()
  {
    if pc.Running() {
      var r := if script == [] then FailsBefore else script[0];
      ApproveAtNext(w0, w, pc, r);
      var (w', pc') := OpStep(w, pc, r);
      ApproveRuns(w0, w', pc', if script == [] then [] else script[1..]);
    }
  }

  /** Approve does nothing to what it can't act on. */
  lemma ApproveRefuses(w: World, script: seq<Reply>)
    requires !Approvable(w)
    ensures Run(w, Approve, script).0 == w && Run(w, Approve, script).1.Failed?
  {
  }

  /** Nor to one whose file is past its expiry date. */
  lemma ApproveRefusesExpired(w: World, script: seq<Reply>)
    requires |script| >= 2 && script[1].ServedExpired?
    ensures Run(w, Approve, script).0 == w && Run(w, Approve, script).1.Failed?
  {
    var (_, pc) := OpStep(w, ApproveRead, script[0]);
    assert Run(w, Approve, script) == RunOp(w, pc, script[1..]);
  }

  lemma {:induction false} ApproveServed(w0: World, w: World, pc: OpPc, n: nat)
    requires ApproveAt(w0, w, pc) && pc.Rank() <= n
    requires pc.Running() || pc.outcome.Nil?
    ensures RunOp(w, pc, AllServed(n)).1.Nil?
    decreases pc.Rank()
  {
    if pc.Running() {
      ApproveAtNext(w0, w, pc, Served);
      var (w', pc') := OpStep(w, pc, Served);
      assert AllServed(n)[1..] == AllServed(n - 1);
      ApproveServed(w0, w', pc', n - 1);
    }
  }

  // Where an Approve ended, interrupted or not, completing it means what it did.
  lemma ApproveKeepsGoal(w0: World, w: World, outcome: Outcome)
    requires ApproveAt(w0, w, OpDone(outcome))
    ensures Approvable(w) && forall w' :: ApproveDone(w, w') ==> ApproveDone(w0, w')
  {
    OtherTagsKeepsTheRest(w0.file.value);
  }

  // Interrupted Approves leave the completed state where it was.
  lemma {:induction false} AttemptsKeepApproveGoal(w: World, scripts: seq<seq<Reply>>)
    requires Approvable(w)
    ensures var w' := Attempts(w, Approve, scripts);
      && Approvable(w')
      && (forall w'' :: ApproveDone(w', w'') ==> ApproveDone(w, w''))
  {
    if scripts != [] {
      var before := Attempts(w, Approve, scripts[..|scripts| - 1]);
      AttemptsKeepApproveGoal(w, scripts[..|scripts| - 1]);
      var (w', outcome) := Run(before, Approve, scripts[|scripts| - 1]);
      ApproveRuns(before, before, ApproveRead, scripts[|scripts| - 1]);
      ApproveKeepsGoal(before, w', outcome);
    }
  }

  function ReviewOf(w: World, action: ReviewLog.Action, reason: string): ReviewLog.LogLine {
    ReviewLog.ReviewLine(ReviewLog.Review(|w.log|, w.key, action, reason))
  }

  /** One Approve, wherever it ends, made a first few of its three writes, in order:
      the tag, the status, the review. Nil means all of them, and says what there
      was to do. */
  lemma ApproveWrites(w: World, script: seq<Reply>)
    requires Approvable(w)
    ensures var (w', outcome) := Run(w, Approve, script);
      var untagged := w.(file := Some(OtherTags(w.file.value)));
      var approved := untagged.(slot := if w.Holds(Rejected) then Held(Approved, None) else w.slot);
      var recorded := approved.(log := w.log + [ReviewOf(w, ReviewLog.Approved, "")]);
      && w' in {w, untagged, approved, recorded}
      && (outcome.Nil? ==> w' == recorded && outcome.already == w.Holds(Approved))
      && (outcome.Nil? ==> (outcome.detail <==> exists t :: t in w.file.value && t.key == TAG_KEY))
  {
    ApproveRuns(w, w, ApproveRead, script);
  }

  /** However often Approve is interrupted, wherever, the rerun that returns nil
      leaves the image approved and without a moderation tag, its other tags and the
      CDN as they were, as one clean run does, and records the review. */
  lemma ApproveRerun(w: World, scripts: seq<seq<Reply>>, last: seq<Reply>)
    requires Run(Attempts(w, Approve, scripts), Approve, last).1.Nil?
    ensures var w1 := Attempts(w, Approve, scripts);
      var (w2, clean) := (Run(w1, Approve, last).0, Run(w, Approve, SERVED));
      && clean.1.Nil?
      && w2 == clean.0.(log := w2.log)
      && w.file.Some? && w2 == w.(slot := w2.slot, file := Some(OtherTags(w.file.value)), log := w2.log)
      && w2.slot == (if w.Holds(Rejected) then Held(Approved, None) else w.slot)
      && w2.Holds(Approved) && w2.Untagged()
      && w2.log == w1.log + [ReviewOf(w1, ReviewLog.Approved, "")]
  {
    var w1 := Attempts(w, Approve, scripts);
    if !Approvable(w) {
      AttemptsOfRefused(w, scripts);
      ApproveRefuses(w, last);
    } else {
      ApproveRerunDone(w, scripts, last);
      CleanApproveDone(w);
      OtherTagsHaveNoModerationKey(w.file.value);
    }
  }

  lemma CleanApproveDone(w: World)
    requires Approvable(w)
    ensures var (w', outcome) := Run(w, Approve, SERVED); outcome.Nil? && ApproveDone(w, w')
  {
    ApproveServed(w, w, ApproveRead, 7);
    ApproveRuns(w, w, ApproveRead, SERVED);
  }

  lemma ApproveRerunDone(w: World, scripts: seq<seq<Reply>>, last: seq<Reply>)
    requires Approvable(w) && Run(Attempts(w, Approve, scripts), Approve, last).1.Nil?
    ensures var w1 := Attempts(w, Approve, scripts);
      var w2 := Run(w1, Approve, last).0;
      ApproveDone(w, w2) && w2.log == w1.log + [ReviewOf(w1, ReviewLog.Approved, "")]
  {
    var w1 := Attempts(w, Approve, scripts);
    AttemptsKeepApproveGoal(w, scripts);
    ApproveRuns(w1, w1, ApproveRead, last);
  }

  lemma {:induction false} AttemptsOfRefused(w: World, scripts: seq<seq<Reply>>)
    requires !Approvable(w)
    ensures Attempts(w, Approve, scripts) == w
  {
    if scripts != [] {
      AttemptsOfRefused(w, scripts[..|scripts| - 1]);
      ApproveRefuses(w, scripts[|scripts| - 1]);
    }
  }

  // ---- Reject ----

  predicate Rejectable(w: World) {
    w.Holds(Rejected) || w.Holds(Approved)
  }

  function RejectedSlot(w: World, reason: string): Slot {
    if w.Holds(Approved) then Held(Rejected, Some(reason)) else w.slot
  }

  function RejectedFile(w: World): Option<seq<Tag>> {
    if w.Untagged() then Some(OtherTags(w.file.value) + [REJECTED_TAG]) else w.file
  }

  // The state of the slot, the file and the CDN a completed Reject leaves.
  predicate RejectDone(w0: World, w: World, reason: string) {
    w == w0.(slot := RejectedSlot(w0, reason), file := RejectedFile(w0), cached := false, log := w.log)
  }

  // Whether a Reject has something of its own to do, and so a takedown to record.
  predicate TakesDown(w: World) {
    w.Holds(Approved) || w.Untagged()
  }

  function RejectLog(w: World, reason: string): seq<ReviewLog.LogLine> {
    if TakesDown(w) then Record(w, ReviewLog.Rejected, reason).log else w.log
  }

  // Where a Reject that started at w0 stands at pc.
  predicate RejectAt(w0: World, w: World, reason: string, pc: OpPc) {
    && Rejectable(w0)
    && w == w0.(slot := w.slot, file := w.file, cached := w.cached, log := w.log)
    && match pc
       case RejectSet(why) => why == reason && w == w0
       case RejectReread(why) => why == reason && w == w0 && w0.Holds(Rejected)
       case RejectGetTags(why, already) =>
         && why == reason && already == w0.Holds(Rejected)
         && w == w0.(slot := RejectedSlot(w0, reason))
       case RejectPutTags(why, already, tags) =>
         && why == reason && already == w0.Holds(Rejected) && w0.Untagged()
         && tags == OtherTags(w0.file.value) + [REJECTED_TAG]
         && w == w0.(slot := RejectedSlot(w0, reason))
       case RejectRecord(why, gone) =>
         && why == reason && TakesDown(w0) && gone == w0.file.None?
         && w == w0.(slot := RejectedSlot(w0, reason), file := RejectedFile(w0))
       case RejectInvalidate(already, gone) =>
         && already == !TakesDown(w0) && gone == w0.file.None?
         && w == w0.(slot := RejectedSlot(w0, reason), file := RejectedFile(w0), log := RejectLog(w0, reason))
       case OpDone(Failed(_)) =>
         var tagged := w0.(slot := RejectedSlot(w0, reason), file := RejectedFile(w0));
         || w == w0 || w == w0.(slot := RejectedSlot(w0, reason)) || w == tagged
         || w == tagged.(log := RejectLog(w0, reason))
         || w == tagged.(log := RejectLog(w0, reason), cached := false)
       case OpDone(Nil(already, gone)) =>
         && already == !TakesDown(w0) && gone == w0.file.None?
         && RejectDone(w0, w, reason) && w.log == RejectLog(w0, reason)
       case _ => false
  }

  lemma RejectAtNext(w0: World, w: World, reason: string, pc: OpPc, r: Reply)
    requires RejectAt(w0, w, reason, pc) && pc.Running()
    ensures var (w', pc') := OpStep(w, pc, r); RejectAt(w0, w', reason, pc')
  {
  }

  lemma {:induction false} RejectRuns(w0: World, w: World, reason: string, pc: OpPc, script: seq<Reply>)
    requires RejectAt(w0, w, reason, pc)
    ensures var (w', outcome) := RunOp(w, pc, script); RejectAt(w0, w', reason, OpDone(outcome))
    decreases pc.Rank()
  {
    if pc.Running() {
      var r := if script == [] then FailsBefore else script[0];
      RejectAtNext(w0, w, reason, pc, r);
      var (w', pc') := OpStep(w, pc, r);
      RejectRuns(w0, w', reason, pc', if script == [] then [] else script[1..]);
    }
  }

  lemma RejectRefuses(w: World, reason: string, script: seq<Reply>)
    requires !Rejectable(w) || Blank(reason)
    ensures Run(w, Reject(reason), script).0 == w && Run(w, Reject(reason), script).1.Failed?
  {
    if !Blank(reason) {
      var (_, pc) := OpStep(w, RejectSet(reason), if script == [] then FailsBefore else script[0]);
      var rest := if script == [] then [] else script[1..];
      assert Run(w, Reject(reason), script) == RunOp(w, pc, rest);
      if pc.RejectReread? {
        var (_, last) := OpStep(w, pc, if rest == [] then FailsBefore else rest[0]);
        assert RunOp(w, pc, rest) == RunOp(w, last, if rest == [] then [] else rest[1..]) == (w, last.outcome);
      }
    }
  }

  lemma {:induction false} AttemptsOfRefusedReject(w: World, reason: string, scripts: seq<seq<Reply>>)
    requires !Rejectable(w) || Blank(reason)
    ensures Attempts(w, Reject(reason), scripts) == w
  {
    if scripts != [] {
      AttemptsOfRefusedReject(w, reason, scripts[..|scripts| - 1]);
      RejectRefuses(w, reason, scripts[|scripts| - 1]);
    }
  }

  lemma {:induction false} RejectServed(w0: World, w: World, reason: string, pc: OpPc, n: nat)
    requires RejectAt(w0, w, reason, pc) && pc.Rank() <= n
    requires pc.Running() || pc.outcome.Nil?
    ensures RunOp(w, pc, AllServed(n)).1.Nil?
    decreases pc.Rank()
  {
    if pc.Running() {
      RejectAtNext(w0, w, reason, pc, Served);
      var (w', pc') := OpStep(w, pc, Served);
      assert AllServed(n)[1..] == AllServed(n - 1);
      RejectServed(w0, w', reason, pc', n - 1);
    }
  }

  lemma RejectKeepsGoal(w0: World, w: World, reason: string, outcome: Outcome)
    requires RejectAt(w0, w, reason, OpDone(outcome))
    ensures Rejectable(w) && forall w' :: RejectDone(w, w', reason) ==> RejectDone(w0, w', reason)
  {
  }

  lemma {:induction false} AttemptsKeepRejectGoal(w: World, reason: string, scripts: seq<seq<Reply>>)
    requires Rejectable(w) && !Blank(reason)
    ensures var w' := Attempts(w, Reject(reason), scripts);
      && Rejectable(w')
      && (forall w'' :: RejectDone(w', w'', reason) ==> RejectDone(w, w'', reason))
  {
    if scripts != [] {
      var before := Attempts(w, Reject(reason), scripts[..|scripts| - 1]);
      AttemptsKeepRejectGoal(w, reason, scripts[..|scripts| - 1]);
      var (w', outcome) := Run(before, Reject(reason), scripts[|scripts| - 1]);
      RejectRuns(before, before, reason, RejectSet(reason), scripts[|scripts| - 1]);
      RejectKeepsGoal(before, w', reason, outcome);
    }
  }

  /** One Reject, wherever it ends, made a first few of its four writes, in order:
      the status, the tag, the review, the invalidation. On an image rejected and
      tagged already the invalidation is all of them. */
  lemma RejectWrites(w: World, reason: string, script: seq<Reply>)
    requires Rejectable(w) && !Blank(reason)
    ensures var (w', outcome) := Run(w, Reject(reason), script);
      var rejected := w.(slot := if w.Holds(Approved) then Held(Rejected, Some(reason)) else w.slot);
      var tagged :=
        if w.Untagged() then rejected.(file := Some(OtherTags(w.file.value) + [REJECTED_TAG])) else rejected;
      var recorded :=
        if w.Holds(Approved) || w.Untagged() then tagged.(log := w.log + [ReviewOf(w, ReviewLog.Rejected, reason)])
        else tagged;
      && w' in {w, rejected, tagged, recorded, recorded.(cached := false)}
      && (outcome.Nil? ==> w' == recorded.(cached := false))
      && (outcome.Nil? ==> outcome == Nil(!w.Holds(Approved) && !w.Untagged(), w.file.None?))
  {
    RejectRuns(w, w, reason, RejectSet(reason), script);
  }

  /** The same of Reject, except for the review: the rerun records the takedown
      only if it moved the status or added the tag itself. */
  lemma RejectRerun(w: World, reason: string, scripts: seq<seq<Reply>>, last: seq<Reply>)
    requires Run(Attempts(w, Reject(reason), scripts), Reject(reason), last).1.Nil?
    ensures var w1 := Attempts(w, Reject(reason), scripts);
      var (w2, outcome) := Run(w1, Reject(reason), last);
      var clean := Run(w, Reject(reason), SERVED);
      && clean.1.Nil?
      && w2 == clean.0.(log := w2.log)
      && w2 == w.(slot := w2.slot, file := w2.file, cached := false, log := w2.log)
      && w2.slot == (if w.Holds(Approved) then Held(Rejected, Some(reason)) else w.slot)
      && w2.file == (if w.Untagged() then Some(OtherTags(w.file.value) + [REJECTED_TAG]) else w.file)
      && w2.Holds(Rejected) && !w2.Untagged()
      && w2.log == w1.log +
          (if w1.Holds(Approved) || w1.Untagged() then [ReviewOf(w1, ReviewLog.Rejected, reason)] else [])
      && outcome == Nil(!w1.Holds(Approved) && !w1.Untagged(), w.file.None?)
  {
    var w1 := Attempts(w, Reject(reason), scripts);
    if !Rejectable(w) || Blank(reason) {
      AttemptsOfRefusedReject(w, reason, scripts);
      RejectRefuses(w, reason, last);
    } else {
      AttemptsKeepRejectGoal(w, reason, scripts);
      RejectRuns(w1, w1, reason, RejectSet(reason), last);
      RejectServed(w, w, reason, RejectSet(reason), 7);
      RejectRuns(w, w, reason, RejectSet(reason), SERVED);
    }
  }

  /** An image stored before moderation existed counts as approved: it can be taken
      down. */
  lemma LegacyImageCanBeTakenDown(w: World, reason: string)
    requires w.slot == Held(Unset, None) && w.Untagged() && !Blank(reason)
    ensures var (w', outcome) := Run(w, Reject(reason), SERVED);
      outcome.Nil? && w'.slot == Held(Rejected, Some(reason)) && w'.Tagged() && !w'.cached
  {
    RejectServed(w, w, reason, RejectSet(reason), 7);
    RejectWrites(w, reason, SERVED);
  }

  // A Reject stopped after its third call: the status and the tag are written.
  lemma StoppedAfterTag(w: World, reason: string)
    requires w.Holds(Approved) && w.Untagged() && !Blank(reason)
    ensures Run(w, Reject(reason), AllServed(3)).0 == w.(slot := RejectedSlot(w, reason), file := RejectedFile(w))
  {
    var w1 := w.(slot := RejectedSlot(w, reason), file := RejectedFile(w));
    assert AllServed(3)[1..] == AllServed(2) && AllServed(2)[1..] == AllServed(1) && AllServed(1)[1..] == [];
    assert RunOp(w.(slot := RejectedSlot(w, reason)), RejectGetTags(reason, false), AllServed(2))
        == RunOp(w1, RejectRecord(reason, false), []) == (w1, Failed(CallFailed));
  }

  /** So a takedown whose review failed to record is never recorded: a Reject
      stopped there is completed by a rerun that logs nothing. */
  lemma TakedownReviewCanBeLost(w: World, reason: string)
    requires w.Holds(Approved) && w.Untagged() && !Blank(reason)
    ensures var w1 := Run(w, Reject(reason), AllServed(3)).0;
      var (w2, outcome) := Run(w1, Reject(reason), SERVED);
      outcome.Nil? && outcome.already && w2.log == w.log
  {
    var w1 := w.(slot := RejectedSlot(w, reason), file := RejectedFile(w));
    StoppedAfterTag(w, reason);
    RejectServed(w1, w1, reason, RejectSet(reason), 7);
    RejectRuns(w1, w1, reason, RejectSet(reason), SERVED);
  }
}
