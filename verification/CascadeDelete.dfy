/** The delete calls of internal/cascadedelete over stores whose every call may
    fail before or after taking effect. The goroutines of one delete become
    workers that a scheduler steps in any order, one store call a step. */
module CascadeDelete {
  import opened Wrappers
  import opened Repository
  import opened BuildRefs
  import opened CascadeState

  datatype OnDelete = Block | Cascade | Unknown

  // Refused is the error for an unknown on_delete value, Blocked a
  // *BlockedError, Broken any other error.
  datatype Reply = Deleted(ids: seq<Id>) | Blocked(ids: seq<Id>) | Refused | Broken

  /** One build's goroutine: it gets the build, tries every image, and deletes
      the build if none failed. */
  datatype Worker =
    | Getting(id: Id)
    | Deleting(id: Id, left: set<Key>, failed: bool)
    | Finished(id: Id, failed: bool)

  // What a worker knows, in a delete of t that started at c0.
  predicate Sound(w: Worker, c0: Collection, c: Collection, t: Target) {
    w.id in Users(c0, t)
    && match w
       case Getting(_) => true
       case Deleting(id, left, failed) =>
         left <= c0.builds[id].images.Values && (failed || c0.builds[id].images.Values - left !! c.objects)
       case Finished(id, failed) => failed || id !in c.builds
  }

  predicate AllSound(ws: seq<Worker>, c0: Collection, c: Collection, t: Target) {
    forall i :: 0 <= i < |ws| ==> Sound(ws[i], c0, c, t)
  }

  predicate HasFailed(w: Worker) {
    !w.Getting? && w.failed
  }

  predicate NoneFailed(ws: seq<Worker>) {
    forall i :: 0 <= i < |ws| ==> !HasFailed(ws[i])
  }

  // The steps a worker has left.
  function Work(w: Worker, c0: Collection): nat {
    match w
    case Getting(id) => if id in c0.builds then |c0.builds[id].images.Values| + 2 else 1
    case Deleting(_, left, _) => |left| + 1
    case Finished(_, _) => 0
  }

  function TotalWork(ws: seq<Worker>, c0: Collection): nat {
    if ws == [] then 0 else Work(ws[0], c0) + TotalWork(ws[1..], c0)
  }

  lemma {:induction false} StepReducesWork(ws: seq<Worker>, i: nat, w: Worker, c0: Collection)
    requires i < |ws| && Work(w, c0) < Work(ws[i], c0)
    ensures TotalWork(ws[i := w], c0) < TotalWork(ws, c0)
  {
    if i > 0 {
      StepReducesWork(ws[1..], i - 1, w, c0);
      assert ws[i := w][1..] == ws[1..][i - 1 := w];
    } else {
      assert ws[i := w][1..] == ws[1..];
    }
  }

  // The workers are those of the builds found, wherever each has got to.
  predicate SameBuilds(ws: seq<Worker>, workers: seq<Worker>) {
    |ws| == |workers| && forall i :: 0 <= i < |ws| ==> ws[i].id == workers[i].id
  }

  // Workers that ended without an error deleted their builds.
  lemma EndedWorkers(ws: seq<Worker>, workers: seq<Worker>, c0: Collection, c: Collection, t: Target)
    requires AllSound(ws, c0, c, t) && SameBuilds(ws, workers) && NoneFailed(ws)
    requires forall i :: 0 <= i < |ws| ==> ws[i].Finished?
    ensures forall i :: 0 <= i < |workers| ==> workers[i].id !in c.builds
  {
    forall i | 0 <= i < |workers|
      ensures workers[i].id !in c.builds
    {
      assert Sound(ws[i], c0, c, t) && ws[i].id == workers[i].id;
    }
  }

  lemma AllTheSame(workers: seq<Worker>)
    ensures SameBuilds(workers, workers)
  {
  }

  lemma SoundAt(ws: seq<Worker>, i: nat, c0: Collection, c: Collection, t: Target)
    requires AllSound(ws, c0, c, t) && i < |ws|
    ensures Sound(ws[i], c0, c, t)
  {
  }

  lemma FailedOrNot(ws: seq<Worker>)
    requires forall i :: 0 <= i < |ws| ==> ws[i].Finished?
    ensures NoneFailed(ws) <==> forall i :: 0 <= i < |ws| ==> !ws[i].failed
  {
  }

  // One worker stepped.
  lemma StepKeepsOthers(ws: seq<Worker>, workers: seq<Worker>, i: nat, w: Worker, before: nat, after: nat)
    requires SameBuilds(ws, workers) && i < |ws| && w.id == ws[i].id && before <= after
    requires HasFailed(w) ==> HasFailed(ws[i]) || after > before
    ensures SameBuilds(ws[i := w], workers)
    ensures NoneFailed(ws) ==> NoneFailed(ws[i := w]) || after > before
  {
  }

  // One worker's deletes don't disturb the others.
  lemma OthersSound(ws: seq<Worker>, i: nat, w: Worker, c0: Collection, c: Collection, c': Collection, t: Target)
    requires AllSound(ws, c0, c, t) && i < |ws| && Sound(w, c0, c', t)
    requires c'.builds.Keys <= c.builds.Keys && c'.objects <= c.objects
    ensures AllSound(ws[i := w], c0, c', t)
  {
    forall j | 0 <= j < |ws| && j != i
      ensures Sound(ws[j], c0, c', t)
    {
      assert Sound(ws[j], c0, c, t);
    }
  }

  lemma AllGone(objects0: set<Key>, objects: set<Key>, a: set<Key>, i: set<Key>)
    requires objects <= objects0 && objects0 - objects <= a + i && a !! objects && i !! objects
    ensures objects == objects0 - a - i
  {
    forall key
      ensures key in objects <==> key in objects0 - a - i
    {
      assert key in objects0 - objects ==> key in a + i;
    }
  }

  /** Once the builds, the item and their images are gone, the delete is done. */
  lemma PartialDone(c0: Collection, c: Collection, t: Target)
    requires Partial(c0, c, t) && Users(c, t) == {}
    requires SameItems(Without(c0, t), c) && ItemImages(c0, t) !! c.objects
    ensures c == Outcome(c0, t)
  {
    PartialBuilds(c0, c, t);
    forall key | key in BuildImages(c0, Users(c0, t))
      ensures key !in c.objects
    {
      var id :| id in Users(c0, t) && key in c0.builds[id].images.Values;
      assert id !in c.builds;
    }
    AllGone(c0.objects, c.objects, BuildImages(c0, Users(c0, t)), ItemImages(c0, t));
  }

  // Nothing done yet is a state of the delete.
  lemma PartialAtStart(c: Collection, t: Target)
    ensures Partial(c, c, t)
  {
  }

  // ---- the effects of one call keep a delete on its way ----

  lemma PartialLosesObject(c0: Collection, c: Collection, t: Target, key: Key)
    requires Partial(c0, c, t)
    requires key in BuildImages(c0, Users(c0, t)) || (Users(c, t) == {} && key in ItemImages(c0, t))
    ensures Partial(c0, c.(objects := c.objects - {key}), t)
  {
    hide Uses, ItemImages, Without, BuildImages;
    assert Users(c.(objects := c.objects - {key}), t) == Users(c, t);
  }

  lemma PartialLosesBuild(c0: Collection, c: Collection, t: Target, id: Id)
    requires Partial(c0, c, t) && id in Users(c0, t) && c0.builds[id].images.Values !! c.objects
    requires c0.objects - c.objects <= BuildImages(c0, Users(c0, t)) && SameItems(c0, c)
    ensures Partial(c0, c.(builds := c.builds - {id}), t)
  {
  }

  // A worker with no image left to try, and none failed.
  lemma TriedThemAll(w: Worker, c0: Collection, c: Collection, t: Target)
    requires Sound(w, c0, c, t) && w.Deleting? && w.left == {} && !w.failed
    ensures c0.builds[w.id].images.Values !! c.objects
  {
    assert c0.builds[w.id].images.Values - w.left == c0.builds[w.id].images.Values;
  }

  lemma PartialLosesItem(c0: Collection, c: Collection, t: Target)
    requires Partial(c0, c, t) && SameItems(c0, c) && Users(c, t) == {} && ItemImages(c0, t) !! c.objects
    ensures Partial(c0, Without(c, t), t)
  {
    WithoutOfSameItems(c0, c, t);
    assert Users(Without(c, t), t) == {};
  }

  class Stores {
    var keyboards: map<Id, Keyboard>
    var switches: map<Id, Switch>
    var keycapSets: map<Id, KeycapSet>
    var builds: map<Id, Build>
    var objects: set<Key>
    // The state after each call that writes, and the number of calls that failed.
    ghost var trace: seq<Collection>
    ghost var failures: nat

    function State(): Collection
      reads this`keyboards, this`switches, this`keycapSets, this`builds, this`objects
    {
      Collection(keyboards, switches, keycapSets, builds, objects)
    }

    // Every state since the first `from` is on the way of deleting t from c0.
    ghost predicate Within(from: nat, c0: Collection, t: Target)
      reads this`keyboards, this`switches, this`keycapSets, this`builds, this`objects, this`trace
    {
      && from <= |trace|
      && Partial(c0, State(), t)
      && forall i :: from <= i < |trace| ==> Partial(c0, trace[i], t)
    }

    // ---- the stores' calls ----

    method GetBuild(id: Id) returns (r: Answer<Build>)
      modifies this`failures
      ensures failures == old(failures) + if r.Failed? then 1 else 0
      ensures r.Found? ==> id in builds && r.item == builds[id]
      ensures r.Missing? ==> id !in builds
    {
      var ok: bool := *;
      r := if !ok then Answer.Failed else if id in builds then Found(builds[id]) else Missing;
      failures := failures + if ok then 0 else 1;
    }

    // FindBuildsReferencing*: the ids of every build that uses t.
    method FindBuilds(t: Target) returns (r: Result<seq<Id>, LookupFailed>)
      modifies this`failures
      ensures failures == old(failures) + if r.Err? then 1 else 0
      ensures r.Ok? ==> forall id :: id in r.value <==> id in Users(State(), t)
    {
      var ok: bool := *;
      if !ok {
        failures := failures + 1;
        return Err(LookupFailed);
      }
      var ids, left := [], Users(State(), t);
      while left != {}
        modifies {}
        invariant left <= Users(State(), t)
        invariant forall id :: id in ids <==> id in Users(State(), t) - left
        decreases |left|
      {
        var id :| id in left;
        ids, left := ids + [id], left - {id};
      }
      return Ok(ids);
    }

    method DeleteObject(key: Key) returns (ok: bool)
      modifies this`objects, this`trace, this`failures
      ensures failures == old(failures) + if ok then 0 else 1
      ensures objects == old(objects) - {key} || (!ok && objects == old(objects))
      ensures trace == old(trace) + [State()]
    {
      ok := *;
      var reached: bool := *;
      if ok || reached {
        objects := objects - {key};
      }
      failures := failures + if ok then 0 else 1;
      trace := trace + [State()];
    }

    method DeleteBuild(id: Id) returns (ok: bool)
      modifies this`builds, this`trace, this`failures
      ensures failures == old(failures) + if ok then 0 else 1
      ensures builds == old(builds) - {id} || (!ok && builds == old(builds))
      ensures trace == old(trace) + [State()]
    {
      ok := *;
      var reached: bool := *;
      if ok || reached {
        builds := builds - {id};
      }
      failures := failures + if ok then 0 else 1;
      trace := trace + [State()];
    }

    // The item's own delete: the repository's Delete, DeleteKit, DeletePlate or
    // DeletePCB. Deleting a kit or part of a missing set or keyboard is an error.
    method DeleteRecord(t: Target) returns (ok: bool)
      modifies this`keyboards, this`switches, this`keycapSets, this`trace, this`failures
      ensures failures >= old(failures) && (!ok ==> failures > old(failures) || !old(HasParent(State(), t)))
      ensures State() == Without(old(State()), t) || (!ok && State() == old(State()))
      ensures ok ==> old(HasParent(State(), t))
      ensures trace == old(trace) + [State()]
    {
      ok := *;
      failures := failures + if ok then 0 else 1;
      var reached: bool := *;
      if ok || reached {
        ok := ok && HasParent(State(), t);
        var c := Without(State(), t);
        keyboards, switches, keycapSets := c.keyboards, c.switches, c.keycapSets;
      }
      trace := trace + [State()];
    }

    // ---- the builds ----

    // The builds are being deleted, and nothing else yet.
    ghost predicate Cascading(from: nat, c0: Collection, t: Target)
      reads this`keyboards, this`switches, this`keycapSets, this`builds, this`objects, this`trace
    {
      Within(from, c0, t) && SameItems(c0, State()) && c0.objects - objects <= BuildImages(c0, Users(c0, t))
    }

    method TryImage(w: Worker, ghost from: nat, ghost c0: Collection, t: Target) returns (w': Worker)
      requires w.Deleting? && w.left != {} && Cascading(from, c0, t) && Sound(w, c0, State(), t)
      modifies this`objects, this`trace, this`failures
      ensures old(trace) <= trace && Cascading(from, c0, t) && objects <= old(objects)
      ensures w'.id == w.id && Sound(w', c0, State(), t) && Work(w', c0) < Work(w, c0)
      ensures failures >= old(failures) && (HasFailed(w') ==> HasFailed(w) || failures > old(failures))
    {
      var key :| key in w.left;
      assert key in BuildImages(c0, Users(c0, t));
      PartialLosesObject(c0, State(), t, key);
      var ok := DeleteObject(key);
      w' := Deleting(w.id, w.left - {key}, w.failed || !ok);
    }

    method TryBuild(w: Worker, ghost from: nat, ghost c0: Collection, t: Target) returns (w': Worker)
      requires w.Deleting? && w.left == {} && Cascading(from, c0, t) && Sound(w, c0, State(), t)
      modifies this`builds, this`trace, this`failures
      ensures old(trace) <= trace && Cascading(from, c0, t) && builds.Keys <= old(builds.Keys)
      ensures w'.id == w.id && Sound(w', c0, State(), t) && Work(w', c0) < Work(w, c0)
      ensures failures >= old(failures) && (HasFailed(w') ==> HasFailed(w) || failures > old(failures))
    {
      if w.failed {
        return Finished(w.id, true);
      }
      TriedThemAll(w, c0, State(), t);
      PartialLosesBuild(c0, State(), t, w.id);
      var ok := DeleteBuild(w.id);
      w' := Finished(w.id, !ok);
    }

    // One store call of one worker.
    method Step(w: Worker, ghost from: nat, ghost c0: Collection, t: Target) returns (w': Worker)
      requires !w.Finished? && Cascading(from, c0, t) && Sound(w, c0, State(), t)
      modifies this`builds, this`objects, this`trace, this`failures
      ensures old(trace) <= trace && Cascading(from, c0, t)
      ensures builds.Keys <= old(builds.Keys) && objects <= old(objects)
      ensures w'.id == w.id && Sound(w', c0, State(), t) && Work(w', c0) < Work(w, c0)
      ensures failures >= old(failures) && (HasFailed(w') ==> HasFailed(w) || failures > old(failures))
    {
      if w.Deleting? && w.left != {} {
        w' := TryImage(w, from, c0, t);
      } else if w.Deleting? {
        w' := TryBuild(w, from, c0, t);
      } else {
        var r := GetBuild(w.id);
        match r {
          case Missing => w' := Finished(w.id, false);
          case Failed => w' := Finished(w.id, true);
          case Found(b) => w' := Deleting(w.id, b.images.Values, false);
        }
      }
    }

    // Runs the workers to their ends, however they interleave, and joins their errors.
    method RunWorkers(workers: seq<Worker>, ghost from: nat, ghost c0: Collection, t: Target) returns (ok: bool)
      requires Cascading(from, c0, t) && AllSound(workers, c0, State(), t)
      requires NoneFailed(workers)
      modifies this`builds, this`objects, this`trace, this`failures
      ensures old(trace) <= trace && Cascading(from, c0, t)
      ensures ok ==> forall i :: 0 <= i < |workers| ==> workers[i].id !in builds
      ensures workers == [] ==> ok && State() == old(State())
      ensures failures >= old(failures) && (!ok ==> failures > old(failures))
    {
      hide Cascading, Sound, AllSound, Work, TotalWork, SameBuilds, NoneFailed, HasFailed;
      var ws := workers;
      AllTheSame(workers);
      while exists i :: 0 <= i < |ws| && !ws[i].Finished?
        invariant old(trace) <= trace && Cascading(from, c0, t) && AllSound(ws, c0, State(), t)
        invariant SameBuilds(ws, workers) && |ws| == |workers|
        invariant workers == [] ==> State() == old(State())
        invariant failures >= old(failures)
        invariant NoneFailed(ws) || failures > old(failures)
        decreases TotalWork(ws, c0)
      {
        var i :| 0 <= i < |ws| && !ws[i].Finished?;
        ghost var before, failed := State(), failures;
        SoundAt(ws, i, c0, before, t);
        var w := Step(ws[i], from, c0, t);
        OthersSound(ws, i, w, c0, before, State(), t);
        StepReducesWork(ws, i, w, c0);
        StepKeepsOthers(ws, workers, i, w, failed, failures);
        ws := ws[i := w];
      }
      ok := forall i :: 0 <= i < |ws| ==> !ws[i].failed;
      FailedOrNot(ws);
      if ok {
        EndedWorkers(ws, workers, c0, State(), t);
      }
    }

    // ---- the item ----

    // deleteKeyboardImages and its like: every image is tried, in any order.
    method DeleteImages(keys: set<Key>, ghost from: nat, ghost c0: Collection, t: Target) returns (ok: bool)
      requires Within(from, c0, t) && Users(State(), t) == {} && keys <= ItemImages(c0, t)
      modifies this`objects, this`trace, this`failures
      ensures old(trace) <= trace && Within(from, c0, t)
      ensures ok ==> keys !! objects
      ensures failures >= old(failures) && (!ok ==> failures > old(failures))
    {
      var left := keys;
      ok := true;
      while left != {}
        invariant left <= keys && old(trace) <= trace && Within(from, c0, t)
        invariant ok ==> keys - left !! objects
        invariant failures >= old(failures) && (!ok ==> failures > old(failures))
        decreases |left|
      {
        var key :| key in left;
        PartialLosesObject(c0, State(), t, key);
        var deleted := DeleteObject(key);
        ok := ok && deleted;
        left := left - {key};
      }
    }

    // The item's images, or Missing when there is no such item. A kit's set must exist.
    method GetImages(t: Target) returns (r: Answer<set<Key>>)
      requires !t.PlateTarget? && !t.PcbTarget?
      modifies this`failures
      ensures failures >= old(failures) && (r.Failed? ==> failures > old(failures) || !HasParent(State(), t))
      ensures !r.Failed? ==> HasParent(State(), t)
      ensures r.Found? ==> r.item == ItemImages(State(), t)
      ensures r.Missing? ==> SameItems(Without(State(), t), State()) && ItemImages(State(), t) == {}
    {
      var ok: bool := *;
      if !ok {
        failures := failures + 1;
        return Answer.Failed;
      }
      match t {
        case KeyboardTarget(id) =>
          if id !in keyboards {
            return Missing;
          }
        case SwitchTarget(id) =>
          if id !in switches {
            return Missing;
          }
        case KeycapSetTarget(id) =>
          if id !in keycapSets {
            return Missing;
          }
        case KitTarget(id, kit) =>
          if id !in keycapSets {
            return Answer.Failed;
          }
          if kit !in keycapSets[id].kits {
            assert keycapSets[id].kits - {kit} == keycapSets[id].kits;
            return Missing;
          }
        case _ =>
      }
      return Found(ItemImages(State(), t));
    }

    // The last step of every delete.
    method RemoveItem(ghost from: nat, ghost c0: Collection, t: Target) returns (ok: bool)
      requires Within(from, c0, t) && SameItems(c0, State()) && Users(State(), t) == {}
      requires ItemImages(c0, t) !! objects
      modifies this`keyboards, this`switches, this`keycapSets, this`trace, this`failures
      ensures old(trace) <= trace && Within(from, c0, t)
      ensures ok ==> State() == Outcome(c0, t) && HasParent(c0, t)
      ensures failures >= old(failures) && (!ok ==> failures > old(failures) || !HasParent(c0, t))
    {
      ghost var c := State();
      PartialLosesItem(c0, c, t);
      ok := DeleteRecord(t);
      if ok {
        WithoutOfSameItems(c0, c, t);
        PartialDone(c0, State(), t);
      }
    }

    // deleteKeyboard, deleteSwitch, deleteSet and deleteKit.
    method DeleteItem(ghost from: nat, ghost c0: Collection, t: Target) returns (ok: bool)
      requires !t.PlateTarget? && !t.PcbTarget?
      requires Within(from, c0, t) && SameItems(c0, State()) && Users(State(), t) == {}
      modifies this`objects, this`keyboards, this`switches, this`keycapSets, this`trace, this`failures
      ensures old(trace) <= trace && Within(from, c0, t)
      ensures ok ==> State() == Outcome(c0, t) && HasParent(c0, t)
      ensures failures >= old(failures) && (!ok ==> failures > old(failures) || !HasParent(c0, t))
    {
      WithoutOfSameItems(c0, State(), t);
      var r := GetImages(t);
      match r {
        case Failed => return false;
        case Missing =>
          PartialDone(c0, State(), t);
          return true;
        case Found(keys) =>
          ok := DeleteImages(keys, from, c0, t);
          if ok {
            ok := RemoveItem(from, c0, t);
          }
      }
    }

    /** DeleteKeyboard, DeleteSwitch, DeleteKeycapSet and DeleteKeycapKit: block
        mode changes nothing while builds use the item and returns exactly those
        builds' ids; a completed delete took the item, exactly those builds and
        exactly their images, and left everything else as it was; every state in
        between, failed or not, is on the way there; and only a failed call, or a
        kit's missing set, keeps a delete from completing. */
    method Delete(t: Target, onDelete: OnDelete) returns (r: Reply)
      requires !t.PlateTarget? && !t.PcbTarget?
      modifies this
      ensures old(trace) <= trace && Within(|old(trace)|, old(State()), t)
      ensures r.Refused? <==> onDelete.Unknown?
      ensures r.Refused? || r.Blocked? ==> State() == old(State())
      ensures onDelete.Block? && old(Users(State(), t)) != {} ==> !r.Deleted? && State() == old(State())
      ensures r.Blocked? ==> onDelete.Block? && r.ids != []
      ensures r.Blocked? ==> forall id :: id in r.ids <==> id in old(Users(State(), t))
      ensures r.Deleted? ==> State() == Outcome(old(State()), t) && Completed(old(State()), State(), t)
      ensures r.Deleted? && t.KitTarget? ==> t.keycapSet in old(keycapSets)
      ensures r.Deleted? ==> forall id :: id in r.ids <==> id in old(Users(State(), t))
      ensures failures >= old(failures)
      ensures r.Broken? ==> failures > old(failures) || (t.KitTarget? && t.keycapSet !in old(keycapSets))
    {
      hide Completed, Without, ItemImages, BuildImages, Partial;
      PartialAtStart(State(), t);
      ghost var c0, from := State(), |trace|;
      if onDelete.Unknown? {
        return Refused;
      }
      var found := FindBuilds(t);
      if found.Err? {
        return Broken;
      }
      var ids := found.value;
      if onDelete.Block? {
        if |ids| > 0 {
          return Blocked(ids);
        }
        assert forall id :: id in Users(State(), t) ==> id in ids;
        var ok := DeleteItem(from, c0, t);
        OutcomeCompletes(c0, t);
        return if ok then Deleted([]) else Broken;
      }
      var ok := RunWorkers(seq(|ids|, i requires 0 <= i < |ids| => Getting(ids[i])), from, c0, t);
      if !ok {
        return Broken;
      }
      NoUsersLeft(ids, seq(|ids|, i requires 0 <= i < |ids| => Getting(ids[i])), c0, State(), t);
      ok := DeleteItem(from, c0, t);
      OutcomeCompletes(c0, t);
      return if ok then Deleted(ids) else Broken;
    }

    // Whether a build on the part's keyboard uses the part: deleteKeyboardPart's
    // uses, which looks at the part alone.
    predicate UsesPart(b: Build, t: Target)
      requires t.PlateTarget? || t.PcbTarget?
    {
      if t.PlateTarget? then b.plate == Some(t.plate) else b.pcb == Some(t.pcb)
    }

    // Fetches every build on the part's keyboard and keeps those using the part,
    // each with its worker.
    method FindPartBuilds(t: Target) returns (ok: bool, ids: seq<Id>, workers: seq<Worker>)
      requires t.PlateTarget? || t.PcbTarget?
      modifies this`failures
      ensures AllSound(workers, State(), State(), t)
      ensures |workers| == |ids| && forall j :: 0 <= j < |ids| ==> workers[j].id == ids[j]
      ensures ok ==> forall id :: id in ids <==> id in Users(State(), t)
      ensures failures >= old(failures) && (!ok ==> failures > old(failures))
      ensures NoneFailed(workers)
    {
      ids, workers := [], [];
      var found := FindBuilds(KeyboardTarget(t.keyboard));
      if found.Err? {
        return false, [], [];
      }
      ok := true;
      for i := 0 to |found.value|
        modifies this`failures
        invariant failures >= old(failures) && (!ok ==> failures > old(failures))
        invariant NoneFailed(workers)
        invariant AllSound(workers, State(), State(), t)
        invariant |workers| == |ids| && forall j :: 0 <= j < |ids| ==> workers[j].id == ids[j]
        invariant forall id :: id in ids ==> id in Users(State(), t)
        invariant ok ==> forall j :: 0 <= j < i && found.value[j] in Users(State(), t) ==> found.value[j] in ids
      {
        var id := found.value[i];
        assert id in found.value;
        var answer := GetBuild(id);
        ok := ok && !answer.Failed?;
        if answer.Found? && UsesPart(answer.item, t) {
          ids := ids + [id];
          workers := workers + [Deleting(id, answer.item.images.Values, false)];
        }
      }
      forall id | ok && id in Users(State(), t)
        ensures id in ids
      {
        assert id in Users(State(), KeyboardTarget(t.keyboard));
        var j :| 0 <= j < |found.value| && found.value[j] == id;
      }
    }

    /** deleteKeyboardPart: the same for a plate or a PCB, whose builds are found
        by fetching every build on the keyboard. */
    method DeletePart(t: Target, onDelete: OnDelete) returns (r: Reply)
      requires t.PlateTarget? || t.PcbTarget?
      modifies this
      ensures old(trace) <= trace && Within(|old(trace)|, old(State()), t)
      ensures r.Refused? <==> onDelete.Unknown?
      ensures r.Refused? || r.Blocked? ==> State() == old(State())
      ensures onDelete.Block? && old(Users(State(), t)) != {} ==> !r.Deleted? && State() == old(State())
      ensures r.Blocked? ==> onDelete.Block? && r.ids != []
      ensures r.Blocked? ==> forall id :: id in r.ids <==> id in old(Users(State(), t))
      ensures r.Deleted? ==> State() == Outcome(old(State()), t) && Completed(old(State()), State(), t)
      ensures r.Deleted? ==> t.keyboard in old(keyboards)
      ensures r.Deleted? ==> forall id :: id in r.ids <==> id in old(Users(State(), t))
      ensures failures >= old(failures)
      ensures r.Broken? ==> failures > old(failures) || t.keyboard !in old(keyboards)
    {
      PartialAtStart(State(), t);
      ghost var c0, from := State(), |trace|;
      if onDelete.Unknown? {
        return Refused;
      }
      var ok, ids, workers := FindPartBuilds(t);
      if !ok {
        return Broken;
      }
      if onDelete.Block? && |ids| > 0 {
        return Blocked(ids);
      }
      assert forall id :: id in ids <==> id in Users(c0, t);
      ok := RunWorkers(workers, from, c0, t);
      if !ok {
        return Broken;
      }
      NoUsersLeft(ids, workers, c0, State(), t);
      ok := RemoveItem(from, c0, t);
      OutcomeCompletes(c0, t);
      return if !ok then Broken else Deleted(if onDelete.Cascade? then ids else []);
    }

    /** Retrying a cascade, from wherever each run stopped, ends where one clean
        run would have, and never leaves its way. */
    method Retry(t: Target, attempts: nat) returns (done: bool)
      modifies this
      ensures old(trace) <= trace && Within(|old(trace)|, old(State()), t)
      ensures done ==> State() == Outcome(old(State()), t) && Completed(old(State()), State(), t)
    {
      ghost var c0, from := State(), |trace|;
      PartialAtStart(c0, t);
      OutcomeCompletes(c0, t);
      done := false;
      for k := 0 to attempts
        invariant old(trace) <= trace && Within(from, c0, t)
        invariant done ==> State() == Outcome(c0, t)
      {
        if !done {
          ghost var c1, before := State(), |trace|;
          var r;
          if t.PlateTarget? || t.PcbTarget? {
            r := DeletePart(t, Cascade);
          } else {
            r := Delete(t, Cascade);
          }
          StillWithin(from, before, c0, c1, t);
          PartialSameOutcome(c0, c1, t);
          done := r.Deleted?;
        }
      }
    }

    lemma StillWithin(from: nat, before: nat, c0: Collection, c1: Collection, t: Target)
      requires from <= before && Within(before, c1, t) && Partial(c0, c1, t)
      requires forall i :: from <= i < before ==> Partial(c0, trace[i], t)
      ensures Within(from, c0, t)
    {
      PartialTransitive(c0, c1, State(), t);
      forall i | before <= i < |trace|
        ensures Partial(c0, trace[i], t)
      {
        PartialTransitive(c0, c1, trace[i], t);
      }
    }
  }

  lemma NoUsersLeft(ids: seq<Id>, workers: seq<Worker>, c0: Collection, c: Collection, t: Target)
    requires forall id :: id in ids <==> id in Users(c0, t)
    requires |workers| == |ids| && forall i :: 0 <= i < |ids| ==> workers[i].id == ids[i]
    requires forall i :: 0 <= i < |workers| ==> workers[i].id !in c.builds
    requires Partial(c0, c, t)
    ensures Users(c, t) == {}
  {
    forall id | id in Users(c0, t)
      ensures id !in c.builds
    {
      var i :| 0 <= i < |ids| && ids[i] == id;
      assert workers[i].id == id;
    }
  }
}
