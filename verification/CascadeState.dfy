/** What deleting an item with its builds does to a collection, stopped anywhere
    (internal/cascadedelete). `CascadeDelete` proves that the code's runs stay
    within `Partial`; here is what that gives. */
module CascadeState {
  import opened Wrappers
  import opened Repository
  import opened BuildRefs

  datatype Target =
    | KeyboardTarget(keyboard: Id)
    | SwitchTarget(switch: Id)
    | KeycapSetTarget(keycapSet: Id)
    | KitTarget(keycapSet: Id, kit: Id)
    | PlateTarget(keyboard: Id, plate: Id)
    | PcbTarget(keyboard: Id, pcb: Id)

  // The build refers to the target: what FindBuildsReferencing* looks for.
  predicate Uses(b: Build, t: Target) {
    match t
    case KeyboardTarget(id) => b.keyboard == id
    case SwitchTarget(id) => exists i :: 0 <= i < |b.switches| && b.switches[i].switch == id
    case KeycapSetTarget(id) => exists i :: 0 <= i < |b.kits| && b.kits[i].keycapSet == id
    case KitTarget(set_, kit) => exists i :: 0 <= i < |b.kits| && b.kits[i] == KitEntry(set_, kit)
    case PlateTarget(id, plate) => b.keyboard == id && b.plate == Some(plate)
    case PcbTarget(id, pcb) => b.keyboard == id && b.pcb == Some(pcb)
  }

  function Users(c: Collection, t: Target): set<Id> {
    set id | id in c.builds && Uses(c.builds[id], t)
  }

  // The kit's set, or the part's keyboard, exists: without it the delete is an error.
  predicate HasParent(c: Collection, t: Target) {
    match t
    case KitTarget(id, _) => id in c.keycapSets
    case PlateTarget(id, _) => id in c.keyboards
    case PcbTarget(id, _) => id in c.keyboards
    case _ => true
  }

  // The image keys the item itself points to.
  function ItemImages(c: Collection, t: Target): set<Key> {
    match t
    case KeyboardTarget(id) => if id in c.keyboards then c.keyboards[id].images.Values else {}
    case SwitchTarget(id) => if id in c.switches && c.switches[id].image.Some? then {c.switches[id].image.value} else {}
    case KeycapSetTarget(id) => if id in c.keycapSets then KitImages(c.keycapSets[id]) else {}
    case KitTarget(id, kit) =>
      if id in c.keycapSets && kit in c.keycapSets[id].kits && c.keycapSets[id].kits[kit].image.Some?
      then {c.keycapSets[id].kits[kit].image.value} else {}
    case PlateTarget(_, _) => {}
    case PcbTarget(_, _) => {}
  }

  function KitImages(ks: KeycapSet): set<Key> {
    set kit | kit in ks.kits && ks.kits[kit].image.Some? :: ks.kits[kit].image.value
  }

  // The collection without the item.
  function Without(c: Collection, t: Target): Collection {
    match t
    case KeyboardTarget(id) => c.(keyboards := c.keyboards - {id})
    case SwitchTarget(id) => c.(switches := c.switches - {id})
    case KeycapSetTarget(id) => c.(keycapSets := c.keycapSets - {id})
    case KitTarget(id, kit) =>
      if id !in c.keycapSets then c
      else c.(keycapSets := c.keycapSets[id := KeycapSet(c.keycapSets[id].kits - {kit})])
    case PlateTarget(id, plate) =>
      if id !in c.keyboards then c
      else c.(keyboards := c.keyboards[id := c.keyboards[id].(plates := c.keyboards[id].plates - {plate})])
    case PcbTarget(id, pcb) =>
      if id !in c.keyboards then c
      else c.(keyboards := c.keyboards[id := c.keyboards[id].(pcbs := c.keyboards[id].pcbs - {pcb})])
  }

  predicate SameItems(c: Collection, c': Collection) {
    c.keyboards == c'.keyboards && c.switches == c'.switches && c.keycapSets == c'.keycapSets
  }

  function BuildImages(c: Collection, ids: set<Id>): set<Key>
    requires ids <= c.builds.Keys
  {
    set id, key | id in ids && key in c.builds[id].images.Values :: key
  }

  // A completed cascade: the item and every build that uses it are gone, each
  // with its images, and nothing else changed.
  function Outcome(c: Collection, t: Target): Collection {
    Without(c, t).(
      builds := c.builds - Users(c, t),
      objects := c.objects - BuildImages(c, Users(c, t)) - ItemImages(c, t))
  }

  /** The states a delete of t that started at c0 passes through. A build is gone
      only if it used t, and only after its images; the item is gone only after
      them all, and after its own images. */
  predicate Partial(c0: Collection, c: Collection, t: Target) {
    && c.builds.Keys <= c0.builds.Keys
    && (forall id :: id in c.builds ==> c.builds[id] == c0.builds[id])
    && (forall id :: id in c0.builds && id !in c.builds ==>
          Uses(c0.builds[id], t) && c0.builds[id].images.Values !! c.objects)
    && c.objects <= c0.objects
    && c0.objects - c.objects <= BuildImages(c0, Users(c0, t)) + ItemImages(c0, t)
    && (Users(c, t) != {} ==> c0.objects - c.objects <= BuildImages(c0, Users(c0, t)))
    && (|| SameItems(c0, c)
        || (SameItems(Without(c0, t), c) && Users(c, t) == {} && ItemImages(c0, t) !! c.objects))
  }

  // ---- what a completed delete took ----

  predicate Exists(c: Collection, t: Target) {
    match t
    case KeyboardTarget(id) => id in c.keyboards
    case SwitchTarget(id) => id in c.switches
    case KeycapSetTarget(id) => id in c.keycapSets
    case KitTarget(id, kit) => id in c.keycapSets && kit in c.keycapSets[id].kits
    case PlateTarget(id, plate) => id in c.keyboards && plate in c.keyboards[id].plates
    case PcbTarget(id, pcb) => id in c.keyboards && pcb in c.keyboards[id].pcbs
  }

  // Every part but the lost one is there.
  ghost predicate OtherParts(before: map<Id, Part>, after: map<Id, Part>, lost: Option<Id>) {
    && (forall p :: p in after <==> p in before && lost != Some(p))
    && forall p :: p in after ==> after[p] == before[p]
  }

  // The target, if it is a plate, or a PCB, of the keyboard.
  function LostPlate(t: Target, keyboard: Id): Option<Id> {
    if t.PlateTarget? && t.keyboard == keyboard then Some(t.plate) else None
  }

  function LostPcb(t: Target, keyboard: Id): Option<Id> {
    if t.PcbTarget? && t.keyboard == keyboard then Some(t.pcb) else None
  }

  // Every keyboard but the target is there, with every plate and PCB but the target.
  ghost predicate OtherKeyboards(before: map<Id, Keyboard>, after: map<Id, Keyboard>, t: Target) {
    && (forall id :: id in after <==> id in before && t != KeyboardTarget(id))
    && forall id :: id in after ==>
         var kb0, kb := before[id], after[id];
         && kb.price == kb0.price && kb.images == kb0.images
         && OtherParts(kb0.plates, kb.plates, LostPlate(t, id)) && OtherParts(kb0.pcbs, kb.pcbs, LostPcb(t, id))
  }

  ghost predicate OtherSwitches(before: map<Id, Switch>, after: map<Id, Switch>, t: Target) {
    && (forall id :: id in after <==> id in before && t != SwitchTarget(id))
    && forall id :: id in after ==> after[id] == before[id]
  }

  // Every set but the target is there, with every kit but the target.
  ghost predicate OtherSets(before: map<Id, KeycapSet>, after: map<Id, KeycapSet>, t: Target) {
    && (forall id :: id in after <==> id in before && t != KeycapSetTarget(id))
    && forall id :: id in after ==>
         && (forall k :: k in after[id].kits <==> k in before[id].kits && t != KitTarget(id, k))
         && (forall k :: k in after[id].kits ==> after[id].kits[k] == before[id].kits[k])
  }

  ghost predicate OtherBuilds(before: map<Id, Build>, after: map<Id, Build>, t: Target) {
    && (forall id :: id in after <==> id in before && !Uses(before[id], t))
    && forall id :: id in after ==> after[id] == before[id]
  }

  // A record's field that may point to an image.
  datatype Place =
    | OnKeyboard(keyboard: Id, image: Id)
    | OnSwitch(switch: Id)
    | OnKit(keycapSet: Id, kit: Id)
    | OnBuild(build: Id, image: Id)

  function ImageAt(c: Collection, p: Place): Option<Key> {
    match p
    case OnKeyboard(id, image) =>
      if id in c.keyboards && image in c.keyboards[id].images then Some(c.keyboards[id].images[image]) else None
    case OnSwitch(id) => if id in c.switches then c.switches[id].image else None
    case OnKit(id, kit) =>
      if id in c.keycapSets && kit in c.keycapSets[id].kits then c.keycapSets[id].kits[kit].image else None
    case OnBuild(id, image) =>
      if id in c.builds && image in c.builds[id].images then Some(c.builds[id].images[image]) else None
  }

  // A stored image stays unless a record that pointed to it is gone.
  ghost predicate OtherImages(c0: Collection, c: Collection) {
    forall key :: key in c.objects <==>
      key in c0.objects && forall p :: ImageAt(c0, p) == Some(key) ==> ImageAt(c, p) == Some(key)
  }

  /** The target is gone, with exactly the builds that used it and exactly the images
      of what went; everything else is as it was. */
  ghost predicate Completed(c0: Collection, c: Collection, t: Target) {
    && !Exists(c, t)
    && OtherKeyboards(c0.keyboards, c.keyboards, t)
    && OtherSwitches(c0.switches, c.switches, t)
    && OtherSets(c0.keycapSets, c.keycapSets, t)
    && OtherBuilds(c0.builds, c.builds, t)
    && OtherImages(c0, c)
  }

  // A place that pointed to an image and is gone, or no longer does, was the item's or
  // a deleted build's.
  lemma LostPlace(c: Collection, t: Target, p: Place, key: Key)
    requires ImageAt(c, p) == Some(key) && ImageAt(Outcome(c, t), p) != Some(key)
    ensures key in BuildImages(c, Users(c, t)) || key in ItemImages(c, t)
  {
    match p
    case OnKeyboard(id, image) => assert key in c.keyboards[id].images.Values;
    case OnSwitch(_) =>
    case OnKit(id, kit) => assert key in KitImages(c.keycapSets[id]);
    case OnBuild(id, image) => assert id in Users(c, t) && key in c.builds[id].images.Values;
  }

  lemma ItemPlace(c: Collection, t: Target, key: Key) returns (p: Place)
    requires key in ItemImages(c, t)
    ensures ImageAt(c, p) == Some(key) && ImageAt(Outcome(c, t), p) != Some(key)
  {
    match t
    case KeyboardTarget(id) =>
      var image :| image in c.keyboards[id].images && c.keyboards[id].images[image] == key;
      p := OnKeyboard(id, image);
    case SwitchTarget(id) => p := OnSwitch(id);
    case KeycapSetTarget(id) =>
      var kit :| kit in c.keycapSets[id].kits && c.keycapSets[id].kits[kit].image == Some(key);
      p := OnKit(id, kit);
    case KitTarget(id, kit) => p := OnKit(id, kit);
  }

  lemma BuildPlace(c: Collection, t: Target, key: Key) returns (p: Place)
    requires key in BuildImages(c, Users(c, t))
    ensures ImageAt(c, p) == Some(key) && ImageAt(Outcome(c, t), p) != Some(key)
  {
    var id :| id in Users(c, t) && key in c.builds[id].images.Values;
    var image :| image in c.builds[id].images && c.builds[id].images[image] == key;
    p := OnBuild(id, image);
  }

  lemma OutcomeKeepsOtherImages(c: Collection, t: Target)
    ensures OtherImages(c, Outcome(c, t))
  {
    var c' := Outcome(c, t);
    forall key | key in c.objects
      ensures key in c'.objects <==> forall p :: ImageAt(c, p) == Some(key) ==> ImageAt(c', p) == Some(key)
    {
      if key in ItemImages(c, t) {
        var p := ItemPlace(c, t, key);
      } else if key in BuildImages(c, Users(c, t)) {
        var p := BuildPlace(c, t, key);
      } else {
        forall p | ImageAt(c, p) == Some(key)
          ensures ImageAt(c', p) == Some(key)
        {
          if ImageAt(c', p) != Some(key) {
            LostPlace(c, t, p, key);
          }
        }
      }
    }
  }

  lemma SameParts(parts: map<Id, Part>)
    ensures OtherParts(parts, parts, None)
  {
  }

  lemma PartsWithout(parts: map<Id, Part>, id: Id)
    ensures OtherParts(parts, parts - {id}, Some(id))
  {
  }

  lemma WithoutKeepsKeyboards(c: Collection, t: Target)
    ensures OtherKeyboards(c.keyboards, Without(c, t).keyboards, t)
  {
    hide OtherParts;
    forall parts: map<Id, Part>
      ensures OtherParts(parts, parts, None)
    {
      SameParts(parts);
    }
    match t
    case PlateTarget(id, plate) => if id in c.keyboards { PartsWithout(c.keyboards[id].plates, plate); }
    case PcbTarget(id, pcb) => if id in c.keyboards { PartsWithout(c.keyboards[id].pcbs, pcb); }
    case _ =>
  }

  lemma WithoutKeepsSets(c: Collection, t: Target)
    ensures OtherSwitches(c.switches, Without(c, t).switches, t)
    ensures OtherSets(c.keycapSets, Without(c, t).keycapSets, t)
  {
  }

  lemma OutcomeKeepsBuilds(c: Collection, t: Target)
    ensures OtherBuilds(c.builds, Outcome(c, t).builds, t)
  {
  }

  // The target is not among the others.
  lemma OthersLackTheTarget(c: Collection, c': Collection, t: Target)
    requires OtherKeyboards(c.keyboards, c'.keyboards, t)
    requires OtherSwitches(c.switches, c'.switches, t)
    requires OtherSets(c.keycapSets, c'.keycapSets, t)
    ensures !Exists(c', t)
  {
  }

  /** A completed cascade takes exactly that. */
  lemma OutcomeCompletes(c: Collection, t: Target)
    ensures Completed(c, Outcome(c, t), t)
  {
    hide OtherKeyboards, OtherSwitches, OtherSets, OtherBuilds, OtherImages, Exists, Without, ItemImages, BuildImages;
    WithoutKeepsKeyboards(c, t);
    WithoutKeepsSets(c, t);
    OutcomeKeepsBuilds(c, t);
    OutcomeKeepsOtherImages(c, t);
    OthersLackTheTarget(c, Outcome(c, t), t);
  }

  /** A build uses an item exactly when it would refer to something missing without it. */
  lemma UsesIffBreaks(c: Collection, b: Build, t: Target)
    requires Resolves(c, b) && Exists(c, t)
    ensures Uses(b, t) <==> !Resolves(Without(c, t), b)
  {
  }

  // ---- what it gives ----

  ghost predicate Integrity(c: Collection) {
    forall id :: id in c.builds ==> Resolves(c, c.builds[id])
  }

  // The records' image keys.
  predicate Points(c: Collection, key: Key) {
    || (exists id :: id in c.keyboards && key in c.keyboards[id].images.Values)
    || (exists id :: id in c.switches && c.switches[id].image == Some(key))
    || (exists id :: id in c.keycapSets && key in KitImages(c.keycapSets[id]))
    || (exists id :: id in c.builds && key in c.builds[id].images.Values)
  }

  ghost predicate NoOrphans(c: Collection) {
    forall key :: key in c.objects ==> Points(c, key)
  }

  // A build that doesn't use the target resolves without it.
  lemma ResolvesWithout(c: Collection, b: Build, t: Target)
    requires Resolves(c, b) && !Uses(b, t)
    ensures Resolves(Without(c, t), b)
  {
  }

  /** No state of a delete leaves a build referring to a missing item. */
  lemma PartialKeepsIntegrity(c0: Collection, c: Collection, t: Target)
    requires Integrity(c0) && Partial(c0, c, t)
    ensures Integrity(c)
  {
    forall id | id in c.builds
      ensures Resolves(c, c.builds[id])
    {
      var b := c.builds[id];
      assert Resolves(c0, b);
      if !SameItems(c0, c) {
        assert id !in Users(c, t);
        ResolvesWithout(c0, b, t);
      }
    }
  }

  /** None leaves an image no record points to. */
  lemma PartialKeepsNoOrphans(c0: Collection, c: Collection, t: Target)
    requires NoOrphans(c0) && Partial(c0, c, t)
    ensures NoOrphans(c)
  {
    forall key | key in c.objects
      ensures Points(c, key)
    {
      assert Points(c0, key);
      if id :| id in c0.builds && key in c0.builds[id].images.Values {
        assert id in c.builds;
      } else if !SameItems(c0, c) {
        ItemStillPoints(c0, t, key);
      }
    }
  }

  lemma KeyboardStillPoints(c: Collection, t: Target, key: Key, id: Id)
    requires id in c.keyboards && key in c.keyboards[id].images.Values && key !in ItemImages(c, t)
    ensures id in Without(c, t).keyboards && key in Without(c, t).keyboards[id].images.Values
  {
  }

  lemma KitStillPoints(c: Collection, t: Target, key: Key, id: Id)
    requires id in c.keycapSets && key in KitImages(c.keycapSets[id]) && key !in ItemImages(c, t)
    ensures id in Without(c, t).keycapSets && key in KitImages(Without(c, t).keycapSets[id])
  {
    var kit :| kit in c.keycapSets[id].kits && c.keycapSets[id].kits[kit].image == Some(key);
    assert t != KitTarget(id, kit);
    assert kit in Without(c, t).keycapSets[id].kits;
  }

  lemma ItemStillPoints(c: Collection, t: Target, key: Key)
    requires Points(c, key) && key !in ItemImages(c, t)
    requires !exists id :: id in c.builds && key in c.builds[id].images.Values
    ensures Points(Without(c, t).(builds := map[]), key)
  {
    if id :| id in c.keyboards && key in c.keyboards[id].images.Values {
      KeyboardStillPoints(c, t, key, id);
    } else if id :| id in c.switches && c.switches[id].image == Some(key) {
      assert id in Without(c, t).switches;
    } else {
      var id :| id in c.keycapSets && key in KitImages(c.keycapSets[id]);
      KitStillPoints(c, t, key, id);
    }
  }

  // Removing the item again changes nothing, and it has no images left.
  lemma WithoutTwice(c: Collection, t: Target)
    ensures Without(Without(c, t), t) == Without(c, t)
    ensures ItemImages(Without(c, t), t) == {}
  {
    match t
    case KitTarget(id, kit) =>
      if id in c.keycapSets {
        assert c.keycapSets[id].kits - {kit} - {kit} == c.keycapSets[id].kits - {kit};
      }
    case PlateTarget(id, plate) =>
      if id in c.keyboards {
        assert c.keyboards[id].plates - {plate} - {plate} == c.keyboards[id].plates - {plate};
      }
    case PcbTarget(id, pcb) =>
      if id in c.keyboards {
        assert c.keyboards[id].pcbs - {pcb} - {pcb} == c.keyboards[id].pcbs - {pcb};
      }
    case _ =>
  }

  lemma WithoutOfSameItems(c: Collection, c': Collection, t: Target)
    requires SameItems(c, c')
    ensures SameItems(Without(c, t), Without(c', t))
    ensures ItemImages(c, t) == ItemImages(c', t)
  {
  }

  // The items and the item's images still to go, at either end of a delete.
  lemma PartialItems(c0: Collection, c: Collection, t: Target)
    requires Partial(c0, c, t)
    ensures SameItems(Without(c0, t), Without(c, t))
    ensures ItemImages(c, t) <= ItemImages(c0, t)
    ensures c.objects - ItemImages(c, t) == c.objects - ItemImages(c0, t)
  {
    if SameItems(c0, c) {
      WithoutOfSameItems(c0, c, t);
    } else {
      WithoutOfSameItems(Without(c0, t), c, t);
      WithoutTwice(c0, t);
    }
  }

  lemma PartialUsers(c0: Collection, c: Collection, t: Target)
    requires Partial(c0, c, t)
    ensures c.builds - Users(c, t) == c0.builds - Users(c0, t)
    ensures forall id :: id in Users(c0, t) <==> id in Users(c, t) || (id in c0.builds && id !in c.builds)
  {
  }

  lemma PartialBuildImages(c0: Collection, c: Collection, t: Target)
    requires Partial(c0, c, t)
    ensures BuildImages(c, Users(c, t)) <= BuildImages(c0, Users(c0, t))
    ensures c.objects - BuildImages(c, Users(c, t)) == c.objects - BuildImages(c0, Users(c0, t))
  {
    PartialUsers(c0, c, t);
    forall key | key in BuildImages(c0, Users(c0, t)) && key !in BuildImages(c, Users(c, t))
      ensures key !in c.objects
    {
      var id :| id in Users(c0, t) && key in c0.builds[id].images.Values;
      assert id in c.builds ==> id in Users(c, t);
    }
  }

  lemma PartialBuilds(c0: Collection, c: Collection, t: Target)
    requires Partial(c0, c, t)
    ensures c.builds - Users(c, t) == c0.builds - Users(c0, t)
    ensures forall id :: id in Users(c0, t) <==> id in Users(c, t) || (id in c0.builds && id !in c.builds)
    ensures BuildImages(c, Users(c, t)) <= BuildImages(c0, Users(c0, t))
    ensures c.objects - BuildImages(c, Users(c, t)) == c.objects - BuildImages(c0, Users(c0, t))
  {
    hide Partial, BuildImages;
    PartialUsers(c0, c, t);
    PartialBuildImages(c0, c, t);
  }

  // What is left of the objects doesn't depend on how many of the doomed went.
  lemma SameRest(objects0: set<Key>, objects: set<Key>, a0: set<Key>, a: set<Key>, i0: set<Key>, i: set<Key>)
    requires objects <= objects0 && objects0 - objects <= a0 + i0
    requires objects - a == objects - a0 && objects - i == objects - i0
    ensures objects0 - a0 - i0 == objects - a - i
  {
    forall key
      ensures key in objects0 - a0 - i0 <==> key in objects - a - i
    {
      assert key in objects - a <==> key in objects - a0;
      assert key in objects - i <==> key in objects - i0;
      assert key in objects0 - objects ==> key in a0 + i0;
    }
  }

  /** Retrying from wherever a delete stopped ends where a clean run would have. */
  lemma PartialSameOutcome(c0: Collection, c: Collection, t: Target)
    requires Partial(c0, c, t)
    ensures Outcome(c, t) == Outcome(c0, t)
  {
    PartialItems(c0, c, t);
    PartialBuilds(c0, c, t);
    SameRest(c0.objects, c.objects, BuildImages(c0, Users(c0, t)), BuildImages(c, Users(c, t)),
      ItemImages(c0, t), ItemImages(c, t));
  }

  lemma PartialBuildsTransitive(c0: Collection, c1: Collection, c2: Collection, t: Target)
    requires Partial(c0, c1, t) && Partial(c1, c2, t)
    ensures c2.builds.Keys <= c0.builds.Keys
    ensures forall id :: id in c2.builds ==> c2.builds[id] == c0.builds[id]
    ensures forall id :: id in c0.builds && id !in c2.builds ==>
      Uses(c0.builds[id], t) && c0.builds[id].images.Values !! c2.objects
    ensures Users(c2, t) <= Users(c1, t)
  {
  }

  lemma PartialItemsTransitive(c0: Collection, c1: Collection, c2: Collection, t: Target)
    requires Partial(c0, c1, t) && Partial(c1, c2, t)
    ensures || SameItems(c0, c2)
      || (SameItems(Without(c0, t), c2) && Users(c2, t) == {} && ItemImages(c0, t) !! c2.objects)
  {
    PartialBuildsTransitive(c0, c1, c2, t);
    PartialItems(c0, c1, t);
    if SameItems(c0, c1) {
      WithoutOfSameItems(c0, c1, t);
    } else if !SameItems(c1, c2) {
      WithoutOfSameItems(Without(c0, t), c1, t);
      WithoutTwice(c0, t);
    }
  }

  // Two sets of objects deleted one after the other.
  lemma DeletedInTwo(o0: set<Key>, o1: set<Key>, o2: set<Key>, a0: set<Key>, a1: set<Key>)
    requires o0 - o1 <= a0 && o1 - o2 <= a1 && a1 <= a0
    ensures o0 - o2 <= a0
  {
    forall key | key in o0 - o2
      ensures key in a0
    {
      assert key in o0 - o1 || key in o1 - o2;
    }
  }

  /** A retry that stops too is still on the first run's way. */
  lemma PartialTransitive(c0: Collection, c1: Collection, c2: Collection, t: Target)
    requires Partial(c0, c1, t) && Partial(c1, c2, t)
    ensures Partial(c0, c2, t)
  {
    PartialBuildsTransitive(c0, c1, c2, t);
    PartialItemsTransitive(c0, c1, c2, t);
    PartialItems(c0, c1, t);
    PartialBuilds(c0, c1, t);
    var a0, a1 := BuildImages(c0, Users(c0, t)), BuildImages(c1, Users(c1, t));
    DeletedInTwo(c0.objects, c1.objects, c2.objects, a0 + ItemImages(c0, t), a1 + ItemImages(c1, t));
    if Users(c2, t) != {} {
      DeletedInTwo(c0.objects, c1.objects, c2.objects, a0, a1);
    }
  }
}
