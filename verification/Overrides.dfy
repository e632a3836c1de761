/** The operator commands and the moderation function as they are written:
    methods that make store calls in order and return at the first failure. Each
    is proved to be a run of its program in `ModerationProtocol`, for every
    script of replies, so what `ModerationSafety` and `Reruns` prove of those
    programs holds of them. */
module Overrides {
  import opened Wrappers
  import opened ImageStatuses
  import opened ModerationProtocol
  import ReviewLog

  function First(script: seq<Reply>): Reply {
    if script == [] then FailsBefore else script[0]
  }

  function Rest(script: seq<Reply>): seq<Reply> {
    if script == [] then [] else script[1..]
  }

  // Both program points have the same run ahead of them.
  ghost predicate Leads(w: World, pc: OpPc, script: seq<Reply>, w': World, pc': OpPc, script': seq<Reply>) {
    pc != OpIdle && pc' != OpIdle && RunOp(w, pc, script) == RunOp(w', pc', script')
  }

  // The stores' state about one key, and the replies they have left to give.
  class Stores {
    const key: string
    var slot: Slot
    var file: Option<seq<Tag>>
    var log: seq<ReviewLog.LogLine>
    var cached: bool
    var script: seq<Reply>

    constructor (key: string, slot: Slot, file: Option<seq<Tag>>, script: seq<Reply>)
      ensures State() == World(key, slot, file, true, true, [], false) && this.script == script
    {
      this.key, this.slot, this.file, this.log, this.cached, this.script := key, slot, file, [], false, script;
    }

    function State(): World
      reads this
    {
      World(key, slot, file, true, true, log, cached)
    }

    // The reply to the next call.
    method Reply() returns (r: Reply)
      modifies this`script
      ensures r == First(old(script)) && script == Rest(old(script))
    {
      r := First(script);
      script := Rest(script);
    }

    // ---- the images' repositories ----

    method Status() returns (res: Result<Slot, OpError>)
      modifies this`script
      ensures script == Rest(old(script))
      ensures res == if First(old(script)).Fails() then Err(CallFailed) else Ok(slot)
    {
      var r := Reply();
      res := if r.Fails() then Err(CallFailed) else Ok(slot);
    }

    method SetStatus(from: ImageStatus, to: ImageStatus, reason: Option<string>) returns (res: Result<bool, OpError>)
      modifies this`script, this`slot
      ensures script == Rest(old(script))
      ensures var r, after := First(old(script)), ModerationProtocol.SetStatus(old(State()), from, to, reason);
        && State() == (if r.FailsBefore? then old(State()) else after.0)
        && res == if r.Fails() then Err(CallFailed) else Ok(after.1)
    {
      var r := Reply();
      var ok := slot.Held? && slot.status.Effective() == from;
      if ok && !r.FailsBefore? {
        slot := Held(to, reason);
      }
      res := if r.Fails() then Err(CallFailed) else Ok(ok);
    }

    // ---- S3 ----

    method HeadObject() returns (res: Result<bool, OpError>)
      modifies this`script
      ensures script == Rest(old(script))
      ensures res == var r := First(old(script));
        if r.Fails() then Err(CallFailed) else if file.None? then Err(ImageGone) else Ok(r.ServedExpired?)
    {
      var r := Reply();
      res := if r.Fails() then Err(CallFailed) else if file.None? then Err(ImageGone) else Ok(r.ServedExpired?);
    }

    method GetObjectTagging() returns (res: Result<seq<Tag>, OpError>)
      modifies this`script
      ensures script == Rest(old(script))
      ensures res ==
        if First(old(script)).Fails() then Err(CallFailed) else if file.None? then Err(ImageGone) else Ok(file.value)
    {
      var r := Reply();
      res := if r.Fails() then Err(CallFailed) else if file.None? then Err(ImageGone) else Ok(file.value);
    }

    // PutObjectTagging, or DeleteObjectTagging when tags is empty.
    method PutObjectTagging(tags: seq<Tag>) returns (res: Result<bool, OpError>)
      modifies this`script, this`file
      ensures script == Rest(old(script))
      ensures var r := First(old(script));
        && State() == (if r.FailsBefore? then old(State()) else PutTags(old(State()), tags))
        && res == if r.Fails() then Err(CallFailed) else if old(file).None? then Err(ImageGone) else Ok(true)
    {
      var r := Reply();
      var gone := file.None?;
      if !gone && !r.FailsBefore? {
        file := Some(tags);
      }
      res := if r.Fails() then Err(CallFailed) else if gone then Err(ImageGone) else Ok(true);
    }

    // ---- the review log and the CDN ----

    method Record(action: ReviewLog.Action, reason: string) returns (res: Result<bool, OpError>)
      modifies this`script, this`log
      ensures script == Rest(old(script))
      ensures var r := First(old(script));
        && State() == (if r.FailsBefore? then old(State()) else ModerationProtocol.Record(old(State()), action, reason))
        && res == if r.Fails() then Err(CallFailed) else Ok(true)
    {
      var r := Reply();
      if !r.FailsBefore? {
        log := log + [ReviewLog.ReviewLine(ReviewLog.Review(|log|, key, action, reason))];
      }
      res := if r.Fails() then Err(CallFailed) else Ok(true);
    }

    method Invalidate() returns (res: Result<bool, OpError>)
      modifies this`script, this`cached
      ensures script == Rest(old(script))
      ensures var r := First(old(script));
        && State() == (if r.FailsBefore? then old(State()) else ModerationProtocol.Invalidate(old(State())))
        && res == if r.Fails() then Err(CallFailed) else Ok(true)
    {
      var r := Reply();
      if !r.FailsBefore? {
        cached := false;
      }
      res := if r.Fails() then Err(CallFailed) else Ok(true);
    }

    // ---- Overrides ----

    method CurrentStatus(from: ImageStatus, to: ImageStatus) returns (res: Result<ImageStatus, OpError>)
      modifies this`script
      ensures script == Rest(old(script))
      ensures res == if First(old(script)).Fails() then Err(CallFailed)
        else ModerationProtocol.CurrentStatus(State(), from, to)
    {
      var read := Status();
      if read.Err? {
        return Err(read.error);
      }
      match read.value
      case Absent => return Err(NotCurrent);
      case Held(stored, _) =>
        var status := stored.Effective();
        if status != from && status != to {
          return Err(WrongStatus(status));
        }
        return Ok(status);
    }

    // override: already reports an image that was already at to.
    method Override(from: ImageStatus, to: ImageStatus, reason: Option<string>) returns (res: Result<bool, OpError>)
      requires
        if to == Approved then from == Rejected && reason.None?
        else from == Approved && to == Rejected && reason.Some?
      modifies this`script, this`slot
      ensures forall untagged :: to == Approved ==>
        Leads(old(State()), ApproveSet(untagged), old(script), State(),
          if res.Err? then Abort(res.error) else ApproveRecord(res.value, untagged), script)
      ensures to == Rejected ==>
        Leads(old(State()), RejectSet(reason.value), old(script), State(),
          if res.Err? then Abort(res.error) else RejectGetTags(reason.value, res.value), script)
    {
      var written := SetStatus(from, to, reason);
      if written.Err? {
        return Err(written.error);
      }
      if written.value {
        return Ok(false);
      }
      var status := CurrentStatus(from, to);
      if status.Err? {
        return Err(status.error);
      }
      if status.value != to {
        return Err(Changed);
      }
      return Ok(true);
    }

    // checkNotExpired: the error, if any.
    method CheckNotExpired(ghost status: ImageStatus) returns (error: Option<OpError>)
      modifies this`script
      ensures Leads(old(State()), ApproveHead(status), old(script), State(),
        if error.Some? then Abort(error.value) else ApproveGetTags(status), script)
    {
      var head := HeadObject();
      if head.Err? {
        return Some(head.error);
      }
      return if head.value then Some(ImageGone) else None;
    }

    // untagRejected: whether it took a tag off.
    method UntagRejected(ghost status: ImageStatus) returns (res: Result<bool, OpError>)
      modifies this`script, this`file
      ensures Leads(old(State()), ApproveGetTags(status), old(script), State(),
        if res.Err? then Abort(res.error) else AfterUntag(status, res.value), script)
    {
      var tags := GetObjectTagging();
      if tags.Err? {
        return Err(tags.error);
      }
      var kept := OtherTags(tags.value);
      if |kept| == |tags.value| {
        return Ok(false);
      }
      var put := PutObjectTagging(kept);
      if put.Err? {
        return Err(put.error);
      }
      return Ok(true);
    }

    // addRejectedTag: whether it added the tag, and whether the file is gone.
    method AddRejectedTag(ghost reason: string, ghost already: bool) returns (res: Result<(bool, bool), OpError>)
      modifies this`script, this`file
      ensures Leads(old(State()), RejectGetTags(reason, already), old(script), State(),
        if res.Err? then Abort(res.error) else AfterTag(reason, already, res.value.0, res.value.1), script)
    {
      var tags := GetObjectTagging();
      if tags.Err? {
        return if tags.error == ImageGone then Ok((false, true)) else Err(tags.error);
      }
      if REJECTED_TAG in tags.value {
        return Ok((false, false));
      }
      assert Leads(old(State()), RejectGetTags(reason, already), old(script), State(),
        RejectPutTags(reason, already, OtherTags(tags.value) + [REJECTED_TAG]), script);
      var put := PutObjectTagging(OtherTags(tags.value) + [REJECTED_TAG]);
      if put.Err? {
        return if put.error == ImageGone then Ok((false, true)) else Err(put.error);
      }
      return Ok((true, false));
    }

    /** Uphold records that a rejection stands; it changes nothing else. */
    method Uphold() returns (outcome: Outcome)
      modifies this
      ensures (State(), outcome) == Run(old(State()), ModerationProtocol.Uphold, old(script))
    {
      var status := CurrentStatus(Rejected, Rejected);
      if status.Err? {
        return Failed(status.error);
      }
      var recorded := Record(ReviewLog.Upheld, "");
      return if recorded.Err? then Failed(recorded.error) else Nil(false, false);
    }

    // Approve's end: the status, unless it was written before, and the review.
    method FinishApprove(status: ImageStatus, untagged: bool) returns (outcome: Outcome)
      modifies this`script, this`slot, this`log
      ensures (State(), outcome) == RunOp(old(State()), AfterUntag(status, untagged), old(script))
    {
      var already := status == Approved;
      if !already {
        var overridden := Override(Rejected, Approved, None);
        if overridden.Err? {
          return Failed(overridden.error);
        }
        already := overridden.value;
      }
      var recorded := Record(ReviewLog.Approved, "");
      return if recorded.Err? then Failed(recorded.error) else Nil(already, untagged);
    }

    /** Approve removes the tag before it writes the status. */
    method Approve() returns (outcome: Outcome)
      modifies this
      ensures (State(), outcome) == Run(old(State()), ModerationProtocol.Approve, old(script))
    {
      var status := CurrentStatus(Rejected, Approved);
      if status.Err? {
        return Failed(status.error);
      }
      var expired := CheckNotExpired(status.value);
      if expired.Some? {
        return Failed(expired.value);
      }
      var untagged := UntagRejected(status.value);
      if untagged.Err? {
        return Failed(untagged.error);
      }
      outcome := FinishApprove(status.value, untagged.value);
    }

    // Reject's end: the review, unless the takedown was finished before, and
    // the invalidation.
    method FinishReject(reason: string, finished: bool, gone: bool) returns (outcome: Outcome)
      modifies this`script, this`log, this`cached
      ensures (State(), outcome) == RunOp(old(State()),
        if finished then RejectInvalidate(true, gone) else RejectRecord(reason, gone), old(script))
    {
      if !finished {
        var recorded := Record(ReviewLog.Rejected, reason);
        if recorded.Err? {
          return Failed(recorded.error);
        }
      }
      var invalidated := Invalidate();
      return if invalidated.Err? then Failed(invalidated.error) else Nil(finished, gone);
    }

    /** Reject writes the status, then the tag, then the review, and
        invalidates the CDN's copies last. */
    method Reject(reason: string) returns (outcome: Outcome)
      modifies this
      ensures (State(), outcome) == Run(old(State()), ModerationProtocol.Reject(reason), old(script))
    {
      if Blank(reason) {
        return Failed(BlankReason);
      }
      var already := Override(Approved, Rejected, Some(reason));
      if already.Err? {
        return Failed(already.error);
      }
      var tagged := AddRejectedTag(reason, already.value);
      if tagged.Err? {
        return Failed(tagged.error);
      }
      var (added, gone) := tagged.value;
      outcome := FinishReject(reason, already.value && !added, gone);
    }

    // The verdict's effects: the rejected tag, then the conditional status write.
    method ApplyVerdict(v: Verdict) returns (ok: bool)
      modifies this`script, this`slot, this`file
      ensures (State(), ok) == RunDelivery(old(State()), DecidedPc(v), old(script), v)
    {
      if v.Refuse? {
        var tagged := PutObjectTagging([REJECTED_TAG]);
        if tagged.Err? {
          return false;
        }
      }
      assert RunDelivery(old(State()), DecidedPc(v), old(script), v)
          == RunDelivery(State(),
               if v.Accept? then DecidedPc(v) else DeliveryWrite(ImageStatus.Rejected, Some(v.reason)), script, v);
      WriteEnds(State(), if v.Accept? then ImageStatus.Approved else ImageStatus.Rejected,
        if v.Accept? then None else Some(v.reason), script, v);
      var written := SetStatus(Pending,
        if v.Accept? then ImageStatus.Approved else ImageStatus.Rejected, if v.Accept? then None else Some(v.reason));
      return written.Ok?;
    }

    // Detection, with the decision it logs: whether it gave a verdict.
    method Detect(v: Verdict) returns (ok: bool)
      modifies this`script, this`log
      ensures State() == DeliveryStep(old(State()), DeliveryDetect, First(old(script)), v).0
      ensures script == Rest(old(script))
      ensures (if ok then DecidedPc(v) else DeliveryIdle)
        == DeliveryStep(old(State()), DeliveryDetect, First(old(script)), v).1
      ensures ok == !Errs(old(State()), DeliveryDetect, First(old(script)))
    {
      var r := Reply();
      if file.None? || r.FailsBefore? {
        return false;
      }
      if v.Refuse? {
        log := log + [ReviewLog.DecisionLine(|log|, key, v.reason, v.labels)];
      }
      return !r.Fails();
    }

    /** Moderator.moderate, given what detection would say of the file. ok is
        false for an error, which makes Lambda redeliver the event. */
    method Moderate(v: Verdict) returns (ok: bool)
      modifies this
      ensures (State(), ok) == RunDelivery(old(State()), DeliveryRead, old(script), v)
    {
      var status := Status();
      if status.Err? {
        return false;
      }
      if status.value.Absent? || status.value.status.Effective() != Pending {
        return true;
      }
      ok := Detect(v);
      if ok {
        ok := ApplyVerdict(v);
      }
    }
  }

  // Where a delivery stands once the file was judged.
  function DecidedPc(v: Verdict): DeliveryPc {
    if v.Accept? then DeliveryWrite(ImageStatus.Approved, None) else DeliveryTag(v.reason)
  }

  // The call a delivery makes next is an error: it failed, or the file it needs is gone.
  predicate Errs(w: World, pc: DeliveryPc, r: Reply) {
    r.Fails() || (w.file.None? && (pc.DeliveryDetect? || pc.DeliveryTag?))
  }

  // A delivery with no other actor, and whether it ends without an error.
  function RunDelivery(w: World, pc: DeliveryPc, script: seq<Reply>, v: Verdict): (World, bool)
    decreases match pc
      case DeliveryIdle => 0
      case DeliveryWrite(_, _) => 1
      case DeliveryTag(_) => 2
      case DeliveryDetect => 3
      case DeliveryRead => 4
  {
    if pc.DeliveryIdle? then (w, true)
    else
      var (w', pc') := DeliveryStep(w, pc, First(script), v);
      if Errs(w, pc, First(script)) then (w', false) else RunDelivery(w', pc', Rest(script), v)
  }

  lemma WriteEnds(w: World, to: ImageStatus, because: Option<string>, script: seq<Reply>, v: Verdict)
    ensures RunDelivery(w, DeliveryWrite(to, because), script, v)
      == (if First(script).FailsBefore? then w else ModerationProtocol.SetStatus(w, Pending, to, because).0,
          !First(script).Fails())
  {
  }

  // What a delivery of a pending image does, one write after another: it logs a
  // rejection, tags the file, and writes the status.
  function Marked(w: World, v: Verdict): World {
    if v.Accept? then w else LogDecision(w, v).(file := Some([REJECTED_TAG]))
  }

  function Judged(w: World, v: Verdict): World {
    Marked(w, v).(slot :=
      if v.Accept? then Held(ImageStatus.Approved, None) else Held(ImageStatus.Rejected, Some(v.reason)))
  }

  // From the verdict on.
  lemma AppliedVerdict(w: World, script: seq<Reply>, v: Verdict)
    requires w.Holds(Pending) && w.file.Some?
    ensures var (w', ok) := RunDelivery(LogDecision(w, v), DecidedPc(v), script, v);
      w' == Judged(w, v) || (!ok && w' in {LogDecision(w, v), Marked(w, v)})
  {
    var w0 := LogDecision(w, v);
    if v.Accept? {
      WriteEnds(w0, ImageStatus.Approved, None, script, v);
    } else {
      var (w1, pc1) := DeliveryStep(w0, DeliveryTag(v.reason), First(script), v);
      if !Errs(w0, DeliveryTag(v.reason), First(script)) {
        WriteEnds(w1, ImageStatus.Rejected, Some(v.reason), Rest(script), v);
      }
    }
  }

  /** A delivery leaves an image that isn't pending alone. Of a pending one it makes a
      first few of its writes, in order: a rejection is logged with its reason and
      labels, then the file is tagged, and only then the status moves; an
      acceptance only moves it. Nil means all of them, so there is nothing to deliver
      again; after an error short of the last the image is pending still, for the
      redelivery to start over. */
  lemma DeliveryDecides(w: World, script: seq<Reply>, v: Verdict)
    ensures var (w', ok) := RunDelivery(w, DeliveryRead, script, v);
      if !w.Holds(Pending) then w' == w
      else if v.Accept? then
        var approved := w.(slot := Held(ImageStatus.Approved, None));
        w' == approved || (!ok && w' == w)
      else
        var logged := w.(log := w.log + [ReviewLog.DecisionLine(|w.log|, w.key, v.reason, v.labels)]);
        var tagged := logged.(file := Some([REJECTED_TAG]));
        var rejected := tagged.(slot := Held(ImageStatus.Rejected, Some(v.reason)));
        w' == rejected || (!ok && w' in {w, logged, tagged})
  {
    if w.Holds(Pending) && !First(script).Fails() {
      var r := First(Rest(script));
      assert RunDelivery(w, DeliveryRead, script, v) == RunDelivery(w, DeliveryDetect, Rest(script), v);
      if !Errs(w, DeliveryDetect, r) {
        assert RunDelivery(w, DeliveryDetect, Rest(script), v)
            == RunDelivery(LogDecision(w, v), DecidedPc(v), Rest(Rest(script)), v);
        AppliedVerdict(w, Rest(Rest(script)), v);
      }
    }
  }

  /** And one whose calls are all served returns nil, unless the image it should judge
      has no file. */
  lemma ServedDeliveryEnds(w: World, script: seq<Reply>, v: Verdict)
    requires |script| >= 4 && forall i :: 0 <= i < |script| ==> script[i].Served?
    ensures RunDelivery(w, DeliveryRead, script, v).1 <==> !w.Holds(Pending) || w.file.Some?
  {
    if w.Holds(Pending) {
      assert RunDelivery(w, DeliveryRead, script, v) == RunDelivery(w, DeliveryDetect, script[1..], v);
      if w.file.Some? {
        assert RunDelivery(w, DeliveryDetect, script[1..], v)
            == RunDelivery(LogDecision(w, v), DecidedPc(v), script[1..][1..], v);
        ServedVerdict(LogDecision(w, v), script[1..][1..], v);
      }
    }
  }

  lemma ServedVerdict(w: World, script: seq<Reply>, v: Verdict)
    requires |script| >= 2 && script[0].Served? && script[1].Served? && w.file.Some?
    ensures RunDelivery(w, DecidedPc(v), script, v).1
  {
    if v.Accept? {
      WriteEnds(w, ImageStatus.Approved, None, script, v);
    } else {
      WriteEnds(PutTags(w, [REJECTED_TAG]), ImageStatus.Rejected, Some(v.reason), script[1..], v);
    }
  }
}
