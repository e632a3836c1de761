/** One image's moderation as a protocol of small steps, one store call each.

    `World` is what the stores hold about one object key. The operator commands
    (internal/moderation/override.go) and the moderation function
    (internal/moderation/moderation.go) are programs with a program counter;
    every call they make may be served, fail before it takes effect, or fail
    after. `Step` interleaves them with the owner, the bucket's lifecycle rule
    and the CDN.

    Two hypotheses are built in: the verdict is a function of the key, since an
    upload URL writes its key once, and at most one delivery and one operator
    command run per key at a time. `ModerationSafety` shows what fails without
    the second. */
module ModerationProtocol {
  import opened Wrappers
  import opened ImageStatuses
  import ReviewLog

  datatype Tag = Tag(key: string, value: string)

  const TAG_KEY := "moderation"
  const REJECTED_TAG := Tag(TAG_KEY, "rejected")

  // The tags whose key isn't the moderation key, in order.
  function OtherTags(tags: seq<Tag>): seq<Tag> {
    if tags == [] then []
    else if tags[0].key == TAG_KEY then OtherTags(tags[1..])
    else [tags[0]] + OtherTags(tags[1..])
  }

  lemma {:induction false} OtherTagsHaveNoModerationKey(tags: seq<Tag>)
    ensures forall t :: t in OtherTags(tags) <==> t in tags && t.key != TAG_KEY
    ensures forall t :: multiset(OtherTags(tags))[t] == if t.key == TAG_KEY then 0 else multiset(tags)[t]
    ensures |OtherTags(tags)| <= |tags|
    ensures |OtherTags(tags)| == |tags| <==> forall t :: t in tags ==> t.key != TAG_KEY
  {
    if tags != [] {
      OtherTagsHaveNoModerationKey(tags[1..]);
      assert tags == [tags[0]] + tags[1..];
    }
  }

  // Absent: the slot the key addresses doesn't hold it (any more).
  datatype Slot = Absent | Held(status: ImageStatus, reason: Option<string>)

  datatype World = World(
    key: string,
    slot: Slot,
    file: Option<seq<Tag>>,         // the object's tags, None while there is no object
    issued: bool,                // the slot has held the key
    uploaded: bool,                 // the single-use upload URL was used
    log: seq<ReviewLog.LogLine>,    // oldest first
    cached: bool)                   // the CDN holds a copy
  {
    predicate Holds(s: ImageStatus) {
      slot.Held? && slot.status.Effective() == s
    }

    predicate Tagged() {
      file.Some? && REJECTED_TAG in file.value
    }

    predicate Untagged() {
      file.Some? && REJECTED_TAG !in file.value
    }
  }

  // Served also stands for a file S3 reports no passed expiry date for;
  // ServedExpired is the same answer with one that has passed.
  datatype Reply = Served | ServedExpired | FailsBefore | FailsAfter {
    predicate Fails() {
      FailsBefore? || FailsAfter?
    }
  }

  // ---- the store calls ----

  // Images.SetStatus: the conditional write each repository provides.
  function SetStatus(w: World, from: ImageStatus, to: ImageStatus, reason: Option<string>): (World, bool) {
    if w.Holds(from) then (w.(slot := Held(to, reason)), true) else (w, false)
  }

  function PutTags(w: World, tags: seq<Tag>): World {
    if w.file.Some? then w.(file := Some(tags)) else w
  }

  function Record(w: World, action: ReviewLog.Action, reason: string): World {
    w.(log := w.log + [ReviewLog.ReviewLine(ReviewLog.Review(|w.log|, w.key, action, reason))])
  }

  function Invalidate(w: World): World {
    w.(cached := false)
  }

  // ---- the operator commands ----

  datatype Command = Uphold | Approve | Reject(reason: string)

  datatype OpError = CallFailed | NotCurrent | WrongStatus(status: ImageStatus) | ImageGone | Changed | BlankReason

  // detail is Approve's untagged and Reject's gone.
  datatype Outcome = Nil(already: bool, detail: bool) | Failed(error: OpError)

  datatype OpPc =
    | OpIdle
    | UpholdRead
    | UpholdRecord
    | ApproveRead
    | ApproveHead(status: ImageStatus)
    | ApproveGetTags(status: ImageStatus)
    | ApprovePutTags(status: ImageStatus, kept: seq<Tag>)
    | ApproveSet(untagged: bool)
    | ApproveReread(untagged: bool)
    | ApproveRecord(already: bool, untagged: bool)
    | RejectSet(reason: string)
    | RejectReread(reason: string)
    | RejectGetTags(reason: string, already: bool)
    | RejectPutTags(reason: string, already: bool, tags: seq<Tag>)
    | RejectRecord(reason: string, gone: bool)
    | RejectInvalidate(already: bool, gone: bool)
    | OpDone(outcome: Outcome)
  {
    predicate Running() {
      !OpIdle? && !OpDone?
    }

    predicate Approving() {
      || ApproveRead? || ApproveHead? || ApproveGetTags? || ApprovePutTags?
      || ApproveSet? || ApproveReread? || ApproveRecord?
    }

    predicate Rejecting() {
      RejectSet? || RejectReread? || RejectGetTags? || RejectPutTags? || RejectRecord? || RejectInvalidate?
    }

    // Bounds the calls a command has left to make.
    function Rank(): nat {
      match this
      case UpholdRead => 2
      case UpholdRecord => 1
      case ApproveRead => 7
      case ApproveHead(_) => 6
      case ApproveGetTags(_) => 5
      case ApprovePutTags(_, _) => 4
      case ApproveSet(_) => 3
      case ApproveReread(_) => 2
      case ApproveRecord(_, _) => 1
      case RejectSet(_) => 6
      case RejectReread(_) => 5
      case RejectGetTags(_, _) => 4
      case RejectPutTags(_, _, _) => 3
      case RejectRecord(_, _) => 2
      case RejectInvalidate(_, _) => 1
      case _ => 0
    }
  }

  function Abort(e: OpError): OpPc {
    OpDone(Failed(e))
  }

  predicate IsSpace(c: char) {
    c == ' ' || c == '\t' || c == '\n' || c == '\r' || c == '\U{000B}' || c == '\U{000C}'
  }

  predicate Blank(s: string) {
    forall c :: c in s ==> IsSpace(c)
  }

  function Start(c: Command): OpPc {
    match c
    case Uphold => UpholdRead
    case Approve => ApproveRead
    case Reject(reason) => if Blank(reason) then Abort(BlankReason) else RejectSet(reason)
  }

  // Overrides.currentStatus: fails unless the slot holds the key at from or to.
  function CurrentStatus(w: World, from: ImageStatus, to: ImageStatus): Result<ImageStatus, OpError> {
    if w.slot.Absent? then Err(NotCurrent)
    else
      var s := w.slot.status.Effective();
      if s != from && s != to then Err(WrongStatus(s)) else Ok(s)
  }

  // A read: no effect, and any failure aborts.
  function Read(w: World, r: Reply, next: OpPc): (World, OpPc) {
    (w, if r.Fails() then Abort(CallFailed) else next)
  }

  // A write: takes effect unless it fails before, and any failure aborts.
  function Write(w: World, r: Reply, after: World, next: OpPc): (World, OpPc) {
    (if r.FailsBefore? then w else after, if r.Fails() then Abort(CallFailed) else next)
  }

  function AfterUntag(status: ImageStatus, untagged: bool): OpPc {
    if status == Approved then ApproveRecord(true, untagged) else ApproveSet(untagged)
  }

  function AfterTag(reason: string, already: bool, added: bool, gone: bool): OpPc {
    if already && !added then RejectInvalidate(true, gone) else RejectRecord(reason, gone)
  }

  function ApproveStep(w: World, pc: OpPc, r: Reply): (next: (World, OpPc))
    requires pc.Approving()
    ensures next.1.Rank() < pc.Rank()
  {
    match pc
    case ApproveRead =>
      Read(w, r, match CurrentStatus(w, Rejected, Approved) case Err(e) => Abort(e) case Ok(s) => ApproveHead(s))
    case ApproveHead(s) =>
      Read(w, r, if w.file.None? || r.ServedExpired? then Abort(ImageGone) else ApproveGetTags(s))
    case ApproveGetTags(s) =>
      Read(w, r,
        if w.file.None? then Abort(ImageGone)
        else
          var kept := OtherTags(w.file.value);
          if |kept| == |w.file.value| then AfterUntag(s, false) else ApprovePutTags(s, kept))
    case ApprovePutTags(s, kept) =>
      Write(w, r, PutTags(w, kept), if w.file.None? then Abort(ImageGone) else AfterUntag(s, true))
    case ApproveSet(untagged) =>
      var (after, ok) := SetStatus(w, Rejected, Approved, None);
      Write(w, r, after, if ok then ApproveRecord(false, untagged) else ApproveReread(untagged))
    case ApproveReread(untagged) =>
      Read(w, r,
        match CurrentStatus(w, Rejected, Approved)
        case Err(e) => Abort(e)
        case Ok(s) => if s != Approved then Abort(Changed) else ApproveRecord(true, untagged))
    case ApproveRecord(already, untagged) =>
      Write(w, r, Record(w, ReviewLog.Approved, ""), OpDone(Nil(already, untagged)))
  }

  function RejectStep(w: World, pc: OpPc, r: Reply): (next: (World, OpPc))
    requires pc.Rejecting()
    ensures next.1.Rank() < pc.Rank()
  {
    match pc
    case RejectSet(reason) =>
      var (after, ok) := SetStatus(w, Approved, Rejected, Some(reason));
      Write(w, r, after, if ok then RejectGetTags(reason, false) else RejectReread(reason))
    case RejectReread(reason) =>
      Read(w, r,
        match CurrentStatus(w, Approved, Rejected)
        case Err(e) => Abort(e)
        case Ok(s) => if s != Rejected then Abort(Changed) else RejectGetTags(reason, true))
    case RejectGetTags(reason, already) =>
      Read(w, r,
        if w.file.None? then AfterTag(reason, already, false, true)
        else if w.Tagged() then AfterTag(reason, already, false, false)
        else RejectPutTags(reason, already, OtherTags(w.file.value) + [REJECTED_TAG]))
    case RejectPutTags(reason, already, tags) =>
      Write(w, r, PutTags(w, tags), AfterTag(reason, already, w.file.Some?, w.file.None?))
    case RejectRecord(reason, gone) =>
      Write(w, r, Record(w, ReviewLog.Rejected, reason), RejectInvalidate(false, gone))
    case RejectInvalidate(already, gone) =>
      Write(w, r, Invalidate(w), OpDone(Nil(already, gone)))
  }

  function OpStep(w: World, pc: OpPc, r: Reply): (next: (World, OpPc))
    ensures pc.Running() ==> next.1.Rank() < pc.Rank()
  {
    if pc.Approving() then ApproveStep(w, pc, r)
    else if pc.Rejecting() then RejectStep(w, pc, r)
    else
      match pc
      case UpholdRead =>
        Read(w, r, match CurrentStatus(w, Rejected, Rejected) case Err(e) => Abort(e) case Ok(_) => UpholdRecord)
      case UpholdRecord =>
        Write(w, r, Record(w, ReviewLog.Upheld, ""), OpDone(Nil(false, false)))
      case _ => (w, pc)
  }

  // ---- the moderation function ----

  datatype Verdict = Accept | Refuse(reason: string, labels: seq<ReviewLog.Label>)

  datatype DeliveryPc =
    | DeliveryIdle
    | DeliveryRead
    | DeliveryDetect
    | DeliveryTag(reason: string)
    | DeliveryWrite(to: ImageStatus, because: Option<string>)

  function LogDecision(w: World, v: Verdict): World {
    if v.Accept? then w
    else w.(log := w.log + [ReviewLog.DecisionLine(|w.log|, w.key, v.reason, v.labels)])
  }

  // Moderator.moderate. A failed call ends the delivery; Lambda redelivers it
  // from the start. A file that is gone fails the read and the tagging.
  function DeliveryStep(w: World, pc: DeliveryPc, r: Reply, v: Verdict): (World, DeliveryPc) {
    match pc
    case DeliveryIdle => (w, pc)
    case DeliveryRead =>
      (w, if r.Fails() || !w.Holds(Pending) then DeliveryIdle else DeliveryDetect)
    case DeliveryDetect =>
      if w.file.None? || r.FailsBefore? then (w, DeliveryIdle)
      else
        (LogDecision(w, v),
         if r.Fails() then DeliveryIdle
         else if v.Accept? then DeliveryWrite(Approved, None)
         else DeliveryTag(v.reason))
    case DeliveryTag(reason) =>
      if w.file.None? || r.FailsBefore? then (w, DeliveryIdle)
      else (PutTags(w, [REJECTED_TAG]), if r.Fails() then DeliveryIdle else DeliveryWrite(Rejected, Some(reason)))
    case DeliveryWrite(to, because) =>
      (if r.FailsBefore? then w else SetStatus(w, Pending, to, because).0, DeliveryIdle)
  }

  // ---- the whole system ----

  datatype System = System(w: World, delivery: DeliveryPc, op: OpPc)

  datatype Label =
    | OwnerAllocates
    | OwnerUploads
    | OwnerDeletesFile
    | OwnerClearsSlot
    | LifecycleRuns
    | CdnFetches
    | DeliveryStarts
    | DeliverySteps(reply: Reply)
    | DeliveryStops
    | CommandStarts(command: Command)
    | CommandSteps(reply: Reply)
    | CommandStops

  // The owner replacing or deleting the image is OwnerDeletesFile and
  // OwnerClearsSlot, in either order: a slot never gets a key back.
  function Environment(w: World, l: Label): World {
    match l
    case OwnerAllocates => if w.issued then w else w.(slot := Held(Pending, None), issued := true)
    case OwnerUploads => if w.issued && !w.uploaded then w.(file := Some([]), uploaded := true) else w
    case OwnerDeletesFile => w.(file := None)
    case OwnerClearsSlot => w.(slot := Absent)
    case LifecycleRuns => if w.Tagged() then w.(file := None) else w
    case CdnFetches => if w.Untagged() then w.(cached := true) else w
    case _ => w
  }

  // A step that isn't enabled changes nothing.
  function Step(s: System, l: Label, v: Verdict): System {
    match l
    case DeliveryStarts =>
      if s.delivery.DeliveryIdle? && s.w.uploaded then s.(delivery := DeliveryRead) else s
    case DeliverySteps(r) =>
      var (w, pc) := DeliveryStep(s.w, s.delivery, r, v);
      s.(w := w, delivery := pc)
    case DeliveryStops => s.(delivery := DeliveryIdle)
    case CommandStarts(c) => if s.op.Running() then s else s.(op := Start(c))
    case CommandSteps(r) =>
      var (w, pc) := OpStep(s.w, s.op, r);
      s.(w := w, op := pc)
    case CommandStops => if s.op.Running() then s.(op := Abort(CallFailed)) else s
    case _ => s.(w := Environment(s.w, l))
  }

  // A key not issued yet, or an image stored before moderation existed.
  predicate Initial(s: System) {
    && s.delivery.DeliveryIdle?
    && s.op.OpIdle?
    && s.w.log == []
    && (|| (!s.w.issued && !s.w.uploaded && s.w.slot.Absent? && s.w.file.None? && !s.w.cached)
        || (s.w.issued && s.w.uploaded && s.w.slot == Held(Unset, None)
            && (s.w.file.Some? ==> forall t :: t in s.w.file.value ==> t.key != TAG_KEY)))
  }

  // The state the steps labels lead to from s, in order.
  function Exec(s: System, labels: seq<Label>, v: Verdict): System {
    if labels == [] then s
    else Step(Exec(s, labels[..|labels| - 1], v), labels[|labels| - 1], v)
  }

  // The state of a run after its first i steps.
  function At(s: System, labels: seq<Label>, v: Verdict, i: nat): System
    requires i <= |labels|
  {
    Exec(s, labels[..i], v)
  }

  // Every state of a run, the first one included.
  function States(s: System, labels: seq<Label>, v: Verdict): (run: seq<System>)
    ensures |run| == |labels| + 1
  {
    seq(|labels| + 1, i requires 0 <= i <= |labels| => At(s, labels, v, i))
  }

  lemma StatesSnoc(s: System, labels: seq<Label>, l: Label, v: Verdict)
    ensures Exec(s, labels + [l], v) == Step(Exec(s, labels, v), l, v)
    ensures States(s, labels + [l], v) == States(s, labels, v) + [Step(Exec(s, labels, v), l, v)]
    ensures States(s, labels, v)[|labels|] == Exec(s, labels, v)
  {
    var all := labels + [l];
    assert all[..|labels|] == labels && all[..|all|] == all && labels[..|labels|] == labels;
    forall i | 0 <= i <= |labels|
      ensures all[..i] == labels[..i]
    {
    }
  }

  lemma AtNext(s: System, labels: seq<Label>, v: Verdict, i: nat)
    requires i < |labels|
    ensures At(s, labels, v, i + 1) == Step(At(s, labels, v, i), labels[i], v)
  {
    assert labels[..i + 1][..i] == labels[..i];
  }

  // ---- a command run alone ----

  // A command with no other actor: each call takes the next reply, and a
  // script that runs out is a process that was killed.
  function RunOp(w: World, pc: OpPc, script: seq<Reply>): (World, Outcome)
    requires pc != OpIdle
    decreases pc.Rank()
  {
    if pc.OpDone? then (w, pc.outcome)
    else
      var (w', pc') := OpStep(w, pc, if script == [] then FailsBefore else script[0]);
      RunOp(w', pc', if script == [] then [] else script[1..])
  }

  function Run(w: World, c: Command, script: seq<Reply>): (World, Outcome) {
    RunOp(w, Start(c), script)
  }
}
