/** What every run of the moderation protocol keeps, whatever calls fail,
    wherever a command or a delivery stops, and however its actors interleave. */
module ModerationSafety {
  import opened Wrappers
  import opened ImageStatuses
  import opened ModerationProtocol
  import ReviewLog

  // ---- the inductive invariant ----

  // A command that read a decided status, so that the image was uploaded and
  // won't be pending again.
  predicate PastCheck(op: OpPc) {
    && op.Running()
    && !op.UpholdRead? && !op.ApproveRead? && !op.RejectSet? && !op.RejectReread?
  }

  predicate HasReview(log: seq<ReviewLog.LogLine>) {
    exists i :: 0 <= i < |log| && log[i].ReviewLine?
  }

  // Every decision of the key was logged before every review of it.
  predicate ReviewsLast(log: seq<ReviewLog.LogLine>) {
    forall i, j :: 0 <= i < j < |log| && log[i].ReviewLine? ==> log[j].ReviewLine?
  }

  predicate WorldInv(w: World, v: Verdict) {
    && (!w.issued ==> w.slot.Absent? && !w.uploaded && w.log == [])
    && (!w.uploaded ==> w.file.None? && (w.slot.Held? ==> w.slot.status.Pending?))
    && (w.Holds(Pending) && w.Tagged() ==> v.Refuse?)
    && (w.Holds(Approved) ==> !w.Tagged())
    && ReviewsLast(w.log)
  }

  predicate DeliveryInv(w: World, d: DeliveryPc, v: Verdict) {
    && (!d.DeliveryIdle? ==> w.uploaded)
    && (d.DeliveryDetect? || d.DeliveryTag? || d.DeliveryWrite? ==> w.slot.Held? ==> w.slot.status.Pending?)
    && (d.DeliveryTag? ==> v.Refuse? && d.reason == v.reason)
    && (d.DeliveryWrite? ==>
          || (d.to == Approved && v.Accept?)
          || (d.to == Rejected && v.Refuse? && (w.slot.Held? && w.file.Some? ==> w.Tagged())))
  }

  predicate OpInv(w: World, op: OpPc) {
    && (PastCheck(op) ==> w.uploaded && !w.Holds(Pending))
    && match op
       case ApproveHead(s) => w.slot.Held? ==> w.Holds(s)
       case ApproveGetTags(s) => w.slot.Held? ==> w.Holds(s)
       case ApprovePutTags(s, kept) => REJECTED_TAG !in kept && (w.slot.Held? ==> w.Holds(s))
       case ApproveSet(_) => w.slot.Held? ==> w.Holds(Rejected) && !w.Tagged()
       case ApproveReread(_) => w.slot.Absent?
       case ApproveRecord(_, _) => w.slot.Held? ==> w.Holds(Approved)
       case RejectGetTags(_, _) => w.slot.Held? ==> w.Holds(Rejected)
       case RejectPutTags(_, _, tags) => REJECTED_TAG in tags && (w.slot.Held? ==> w.Holds(Rejected))
       case RejectRecord(_, _) => !w.Untagged() && (w.slot.Held? ==> w.Holds(Rejected))
       case RejectInvalidate(_, _) => !w.Untagged() && (w.slot.Held? ==> w.Holds(Rejected))
       case _ => true
  }

  // While a decision may still be logged, nothing about the key was reviewed.
  predicate Undecided(s: System) {
    s.w.Holds(Pending) || s.delivery.DeliveryDetect?
  }

  predicate Inv(s: System, v: Verdict) {
    && WorldInv(s.w, v)
    && DeliveryInv(s.w, s.delivery, v)
    && OpInv(s.w, s.op)
    && (Undecided(s) ==> !HasReview(s.w.log) && !PastCheck(s.op))
  }

  lemma InitialInv(s: System, v: Verdict)
    requires Initial(s)
    ensures Inv(s, v)
  {
  }

  lemma EnvironmentKeepsInv(s: System, l: Label, v: Verdict)
    requires Inv(s, v)
    ensures Inv(s.(w := Environment(s.w, l)), v)
  {
  }

  lemma DeliveryKeepsInv(s: System, r: Reply, v: Verdict)
    requires Inv(s, v)
    ensures var (w, pc) := DeliveryStep(s.w, s.delivery, r, v); Inv(s.(w := w, delivery := pc), v)
  {
  }

  lemma RejectKeepsInv(s: System, r: Reply, v: Verdict)
    requires Inv(s, v)
    requires s.op.Rejecting() && !s.op.RejectRecord?
    ensures var (w, pc) := OpStep(s.w, s.op, r); Inv(s.(w := w, op := pc), v)
  {
  }

  lemma ApproveKeepsInv(s: System, r: Reply, v: Verdict)
    requires Inv(s, v)
    requires s.op.Approving() && !s.op.ApproveRecord?
    ensures var (w, pc) := OpStep(s.w, s.op, r); Inv(s.(w := w, op := pc), v)
  {
    if s.op.ApproveGetTags? && s.w.file.Some? {
      OtherTagsHaveNoModerationKey(s.w.file.value);
      assert REJECTED_TAG !in OtherTags(s.w.file.value);
    }
  }

  lemma RecordKeepsInv(s: System, r: Reply, v: Verdict)
    requires Inv(s, v)
    requires s.op.UpholdRead? || s.op.UpholdRecord? || s.op.ApproveRecord? || s.op.RejectRecord?
    ensures var (w, pc) := OpStep(s.w, s.op, r); Inv(s.(w := w, op := pc), v)
  {
  }

  lemma CommandKeepsInv(s: System, r: Reply, v: Verdict)
    requires Inv(s, v)
    ensures var (w, pc) := OpStep(s.w, s.op, r); Inv(s.(w := w, op := pc), v)
  {
    match s.op
    case OpIdle =>
    case OpDone(_) =>
    case UpholdRead => RecordKeepsInv(s, r, v);
    case UpholdRecord => RecordKeepsInv(s, r, v);
    case ApproveRecord(_, _) => RecordKeepsInv(s, r, v);
    case RejectRecord(_, _) => RecordKeepsInv(s, r, v);
    case ApproveRead => ApproveKeepsInv(s, r, v);
    case ApproveHead(_) => ApproveKeepsInv(s, r, v);
    case ApproveGetTags(_) => ApproveKeepsInv(s, r, v);
    case ApprovePutTags(_, _) => ApproveKeepsInv(s, r, v);
    case ApproveSet(_) => ApproveKeepsInv(s, r, v);
    case ApproveReread(_) => ApproveKeepsInv(s, r, v);
    case _ => RejectKeepsInv(s, r, v);
  }

  lemma StepKeepsInv(s: System, l: Label, v: Verdict)
    requires Inv(s, v)
    ensures Inv(Step(s, l, v), v)
  {
    match l
    case DeliverySteps(r) => DeliveryKeepsInv(s, r, v);
    case CommandSteps(r) => CommandKeepsInv(s, r, v);
    case DeliveryStarts =>
    case DeliveryStops =>
    case CommandStarts(_) =>
    case CommandStops =>
    case _ => EnvironmentKeepsInv(s, l, v);
  }

  lemma {:induction false} RunKeepsInv(s: System, labels: seq<Label>, v: Verdict)
    requires Inv(s, v)
    ensures Inv(Exec(s, labels, v), v)
  {
    if labels != [] {
      RunKeepsInv(s, labels[..|labels| - 1], v);
      StepKeepsInv(Exec(s, labels[..|labels| - 1], v), labels[|labels| - 1], v);
    }
  }

  // ---- an approved image never expires ----

  /** In every reachable state a current approved image isn't tagged, so the
      lifecycle rule leaves its file alone. */
  lemma ApprovedNeverExpires(s0: System, labels: seq<Label>, v: Verdict)
    requires Initial(s0)
    ensures var s := Exec(s0, labels, v);
      s.w.Holds(Approved) ==> !s.w.Tagged() && Step(s, LifecycleRuns, v) == s
  {
    InitialInv(s0, v);
    RunKeepsInv(s0, labels, v);
  }

  lemma StepKeepsDecided(s: System, l: Label, v: Verdict)
    requires s.w.issued && !s.w.Holds(Pending)
    requires s.delivery.DeliveryWrite? ==> !s.delivery.to.Pending?
    ensures Step(s, l, v).w.issued && !Step(s, l, v).w.Holds(Pending)
  {
  }

  /** Once an image was decided its key is never pending again. */
  lemma {:induction false} NeverPendingAgain(s0: System, labels: seq<Label>, v: Verdict, i: nat, j: nat)
    requires Initial(s0) && i <= j <= |labels|
    requires At(s0, labels, v, i).w.issued && !At(s0, labels, v, i).w.Holds(Pending)
    ensures At(s0, labels, v, j).w.issued && !At(s0, labels, v, j).w.Holds(Pending)
    decreases j
  {
    if i < j {
      NeverPendingAgain(s0, labels, v, i, j - 1);
      AtNext(s0, labels, v, j - 1);
      InitialInv(s0, v);
      RunKeepsInv(s0, labels[..j - 1], v);
      StepKeepsDecided(At(s0, labels, v, j - 1), labels[j - 1], v);
    }
  }

  lemma CleanUntag(w: World)
    requires w.Holds(Rejected) && w.file == Some([REJECTED_TAG])
    ensures RunOp(w, ApproveHead(Rejected), [Served, Served, Served, Served, Served])
      == RunOp(w.(file := Some([])), ApproveSet(true), [Served, Served])
  {
    assert OtherTags([REJECTED_TAG]) == [];
    assert RunOp(w, ApprovePutTags(Rejected, []), [Served, Served, Served])
        == RunOp(w.(file := Some([])), ApproveSet(true), [Served, Served]);
    assert RunOp(w, ApproveGetTags(Rejected), [Served, Served, Served, Served])
        == RunOp(w, ApprovePutTags(Rejected, []), [Served, Served, Served]);
  }

  // An uninterrupted Approve of a rejected, tagged image.
  lemma CleanApprove(w: World)
    requires w.Holds(Rejected) && w.file == Some([REJECTED_TAG])
    ensures Run(w, Approve, [Served, Served, Served, Served, Served, Served])
      == (Record(w.(file := Some([]), slot := Held(Approved, None)), ReviewLog.Approved, ""), Nil(false, true))
  {
    CleanUntag(w);
    var done := w.(file := Some([]), slot := Held(Approved, None));
    assert RunOp(done, ApproveRecord(false, true), [Served])
        == (Record(done, ReviewLog.Approved, ""), Nil(false, true));
    assert RunOp(w.(file := Some([])), ApproveSet(true), [Served, Served])
        == RunOp(done, ApproveRecord(false, true), [Served]);
  }

  /** Without the one-delivery hypothesis the first claim is false: a delivery
      that read the image as pending, and tags it only after a second delivery
      rejected it and an operator approved it, tags an approved image. */
  lemma LateDuplicateDeliveryTagsApproved(w: World, v: Verdict)
    requires w.slot == Held(Pending, None) && w.file == Some([]) && v.Refuse?
    ensures
      var (w1, late) := DeliveryStep(w, DeliveryDetect, Served, v);
      var (w2, second) := DeliveryStep(w1, DeliveryDetect, Served, v);
      var (w3, third) := DeliveryStep(w2, second, Served, v);
      var (w4, _) := DeliveryStep(w3, third, Served, v);
      var (w5, outcome) := Run(w4, Approve, [Served, Served, Served, Served, Served, Served]);
      var (w6, _) := DeliveryStep(w5, late, Served, v);
      outcome == Nil(false, true) && w5.Holds(Approved) && !w5.Tagged() && w6.Holds(Approved) && w6.Tagged()
  {
    CleanApprove(w.(slot := Held(Rejected, Some(v.reason)), file := Some([REJECTED_TAG]),
      log := LogDecision(LogDecision(w, v), v).log));
  }

  // ---- rejected but not expiring ----

  // A current image rejected for good measure but not tagged: its file stays.
  predicate InGap(s: System) {
    s.w.Holds(Rejected) && s.w.Untagged()
  }

  // Reject's status write on an approved image, and Approve's tag removal on a
  // rejected one: the two writes after which the other half is still to come.
  predicate OpensGap(s: System, l: Label) {
    && l.CommandSteps?
    && (|| (s.op.RejectSet? && s.w.Holds(Approved))
        || (s.op.ApprovePutTags? && s.w.Holds(Rejected) && s.w.Tagged()))
  }

  // The calls those two commands make between their two writes.
  predicate InWindow(op: OpPc) {
    op.RejectGetTags? || op.RejectPutTags? || op.ApproveSet?
  }

  predicate EndedInFailure(op: OpPc) {
    op.OpDone? && op.outcome.Failed?
  }

  lemma OnlyCommandsOpenGaps(s: System, l: Label, v: Verdict)
    requires Inv(s, v) && !InGap(s) && InGap(Step(s, l, v))
    ensures OpensGap(s, l)
    ensures var op := Step(s, l, v).op; InWindow(op) || EndedInFailure(op)
  {
  }

  lemma WindowEndsInFailure(s: System, l: Label, v: Verdict)
    requires Inv(s, v) && InWindow(s.op) && InGap(s) && InGap(Step(s, l, v))
    ensures var op := Step(s, l, v).op; InWindow(op) || EndedInFailure(op)
  {
  }

  // Step `start` of the run opened a gap that is open still, and its command is
  // still between its two writes, or ended in failure there as step `stop - 1`.
  predicate GapLeftBy(run: seq<System>, labels: seq<Label>, start: nat, stop: nat)
    requires |run| == |labels| + 1
  {
    && start < stop <= |run| && start < |labels|
    && OpensGap(run[start], labels[start])
    && (forall j :: start < j < |run| ==> InGap(run[j]))
    && (forall j :: start < j < stop ==> InWindow(run[j].op))
    && (stop < |run| ==> EndedInFailure(run[stop].op))
  }

  lemma GapStaysOpen(run: seq<System>, labels: seq<Label>, l: Label, s': System, start: nat, stop: nat)
      returns (stop': nat)
    requires |run| == |labels| + 1 && GapLeftBy(run, labels, start, stop)
    requires InGap(s')
    requires InWindow(run[|labels|].op) ==> InWindow(s'.op) || EndedInFailure(s'.op)
    ensures GapLeftBy(run + [s'], labels + [l], start, stop')
  {
    stop' := if stop == |run| && InWindow(s'.op) then stop + 1 else stop;
  }

  /** Every reachable image that is rejected but untagged, with its file there,
      got so by a step of a Reject or an Approve that is still between its two
      writes, or that failed or was stopped there. */
  lemma {:induction false} GapIsAStoppedCommand(s0: System, labels: seq<Label>, v: Verdict)
      returns (start: nat, stop: nat)
    requires Initial(s0)
    requires InGap(Exec(s0, labels, v))
    ensures GapLeftBy(States(s0, labels, v), labels, start, stop)
  {
    if labels == [] {
      assert false;
    } else {
      var before, l := labels[..|labels| - 1], labels[|labels| - 1];
      var s := Exec(s0, before, v);
      assert labels == before + [l];
      StatesSnoc(s0, before, l, v);
      InitialInv(s0, v);
      RunKeepsInv(s0, before, v);
      if InGap(s) {
        start, stop := GapIsAStoppedCommand(s0, before, v);
        if InWindow(s.op) {
          WindowEndsInFailure(s, l, v);
        }
        stop := GapStaysOpen(States(s0, before, v), before, l, Step(s, l, v), start, stop);
      } else {
        OnlyCommandsOpenGaps(s, l, v);
        start := |before|;
        stop := if InWindow(Step(s, l, v).op) then |labels| + 1 else |labels|;
      }
    }
  }

  predicate ByCommand(l: Label) {
    l.CommandStarts? || l.CommandSteps? || l.CommandStops?
  }

  /** The moderation function, the owner and the lifecycle rule alone never
      make one. */
  lemma ModeratorNeverOpensGaps(s0: System, labels: seq<Label>, v: Verdict)
    requires Initial(s0)
    requires forall i :: 0 <= i < |labels| ==> !ByCommand(labels[i])
    ensures !InGap(Exec(s0, labels, v))
  {
    if InGap(Exec(s0, labels, v)) {
      var start, stop := GapIsAStoppedCommand(s0, labels, v);
    }
  }

  /** A Reject or an Approve that returns nil leaves no gap behind. */
  lemma NilClosesTheGap(s0: System, labels: seq<Label>, v: Verdict, r: Reply)
    requires Initial(s0)
    requires var s := Exec(s0, labels, v); s.op.Running() && !s.op.UpholdRecord?
    requires var op := Step(Exec(s0, labels, v), CommandSteps(r), v).op; op.OpDone? && op.outcome.Nil?
    ensures !InGap(Step(Exec(s0, labels, v), CommandSteps(r), v))
  {
    InitialInv(s0, v);
    RunKeepsInv(s0, labels, v);
  }

  /** Both causes happen. A Reject stopped after its status write leaves one, */
  lemma StoppedRejectLeavesAGap(s: System, reason: string, v: Verdict)
    requires s.w.Holds(Approved) && s.w.Untagged() && !s.op.Running() && !Blank(reason)
    ensures InGap(Exec(s, [CommandStarts(Reject(reason)), CommandSteps(Served), CommandStops], v))
  {
    var labels := [CommandStarts(Reject(reason))];
    StatesSnoc(s, [], CommandStarts(Reject(reason)), v);
    StatesSnoc(s, labels, CommandSteps(Served), v);
    StatesSnoc(s, labels + [CommandSteps(Served)], CommandStops, v);
    assert labels + [CommandSteps(Served)] + [CommandStops]
        == [CommandStarts(Reject(reason)), CommandSteps(Served), CommandStops];
  }

  lemma ExecFour(s: System, a: Label, b: Label, c: Label, d: Label, v: Verdict)
    ensures Exec(s, [a, b, c, d], v) == Step(Step(Step(Step(s, a, v), b, v), c, v), d, v)
  {
    StatesSnoc(s, [], a, v);
    StatesSnoc(s, [a], b, v);
    StatesSnoc(s, [a, b], c, v);
    StatesSnoc(s, [a, b, c], d, v);
    assert [] + [a] == [a] && [a] + [b] == [a, b] && [a, b] + [c] == [a, b, c] && [a, b, c] + [d] == [a, b, c, d];
  }

  lemma ApproveGetsToUntag(s: System, v: Verdict)
    requires s.w.Holds(Rejected) && s.w.Tagged() && !s.op.Running()
    ensures var served := CommandSteps(Served);
      Exec(s, [CommandStarts(Approve), served, served, served], v)
        == s.(op := ApprovePutTags(Rejected, OtherTags(s.w.file.value)))
  {
    var served := CommandSteps(Served);
    OtherTagsHaveNoModerationKey(s.w.file.value);
    ExecFour(s, CommandStarts(Approve), served, served, served, v);
    assert Step(s.(op := ApproveRead), served, v) == s.(op := ApproveHead(Rejected));
    assert Step(s.(op := ApproveHead(Rejected)), served, v) == s.(op := ApproveGetTags(Rejected));
  }

  lemma ExecTwoMore(s: System, labels: seq<Label>, a: Label, b: Label, v: Verdict)
    ensures Exec(s, labels + [a, b], v) == Step(Step(Exec(s, labels, v), a, v), b, v)
  {
    StatesSnoc(s, labels, a, v);
    StatesSnoc(s, labels + [a], b, v);
    assert labels + [a] + [b] == labels + [a, b];
  }

  lemma UntaggingLeavesAGap(s: System, v: Verdict)
    requires s.w.Holds(Rejected) && s.w.Tagged()
    ensures var s' := s.(op := ApprovePutTags(Rejected, OtherTags(s.w.file.value)));
      InGap(Step(Step(s', CommandSteps(Served), v), CommandStops, v))
  {
    OtherTagsHaveNoModerationKey(s.w.file.value);
  }

  /** and so does an Approve stopped after it removed the tag, which the comment
      on Reject leaves out. */
  lemma StoppedApproveLeavesAGap(s: System, v: Verdict)
    requires s.w.Holds(Rejected) && s.w.Tagged() && !s.op.Running()
    ensures InGap(Exec(s, [CommandStarts(Approve), CommandSteps(Served), CommandSteps(Served), CommandSteps(Served),
      CommandSteps(Served), CommandStops], v))
  {
    var served, kept := CommandSteps(Served), OtherTags(s.w.file.value);
    var labels := [CommandStarts(Approve), served, served, served];
    ApproveGetsToUntag(s, v);
    UntaggingLeavesAGap(s, v);
    ExecTwoMore(s, labels, served, CommandStops, v);
    assert labels + [served, CommandStops] == [CommandStarts(Approve), served, served, served, served, CommandStops];
  }

  // ---- a takedown is final at the CDN ----

  // The CDN has no copy, and S3 won't serve it one.
  predicate Dark(w: World) {
    w.uploaded && !w.cached && !w.Untagged()
  }

  lemma StepKeepsDark(s: System, l: Label, v: Verdict)
    requires Inv(s, v) && Dark(s.w) && !s.op.Approving()
    ensures Dark(Step(s, l, v).w)
    ensures l == CommandStarts(Approve) || !Step(s, l, v).op.Approving()
  {
  }

  /** Once a Reject returned nil at step i of a run, the CDN serves no copy of
      the file for as long as no Approve is started. */
  lemma {:induction false} TakedownStaysDark(s0: System, labels: seq<Label>, v: Verdict, i: nat, j: nat)
    requires Initial(s0) && i < j <= |labels|
    requires At(s0, labels, v, i).op.RejectInvalidate? && labels[i] == CommandSteps(Served)
    requires forall k :: i < k < j ==> labels[k] != CommandStarts(Approve)
    ensures Dark(At(s0, labels, v, j).w)
    ensures !At(s0, labels, v, j).op.Approving()
    decreases j
  {
    InitialInv(s0, v);
    RunKeepsInv(s0, labels[..j - 1], v);
    AtNext(s0, labels, v, j - 1);
    if i + 1 < j {
      TakedownStaysDark(s0, labels, v, i, j - 1);
      StepKeepsDark(At(s0, labels, v, j - 1), labels[j - 1], v);
    }
  }
}
