/** RestoreCmd.Run (cmd/mykeebs-migrate/restore.go) and its restore loops, with
    the id map in memory and the one on disk. Any call may fail, and a create or
    a save may fail after taking effect. */
module MigrateRestore {
  import opened Wrappers
  import opened Repository
  import opened IdMaps
  import opened IdMapSlots
  import opened MigrateRefs
  import opened RestoreState

  /** What a restore does, stopped or not, from a saved map m0 and the items left0
      created but not mapped: no mapping changes, and at most one item more is
      left unmapped, none if it was not stopped. */
  ghost predicate Advanced(m0: IdMap, left0: set<Id>, m: IdMap, left: set<Id>, ok: bool) {
    Extends(m0, m) && left0 <= left && |left - left0| <= 1 && (ok ==> left == left0)
  }

  lemma AdvancedThen(m0: IdMap, left0: set<Id>, m1: IdMap, left1: set<Id>, m: IdMap, left: set<Id>, ok: bool)
    requires Advanced(m0, left0, m1, left1, true) && Advanced(m1, left1, m, left, ok)
    ensures Advanced(m0, left0, m, left, ok)
  {
  }

  // Creating one item leaves it unmapped, until its id is saved.
  lemma CreateAdvances(m: IdMap, made: set<Id>, s: Slot, id: Id)
    requires ParentMapped(m, s) && !Has(m, s) && NewIds(m) <= made && id !in made
    ensures Advanced(m, made - NewIds(m), m, made + {id} - NewIds(m), false)
    ensures Advanced(m, made - NewIds(m), Put(m, s, id), made + {id} - NewIds(Put(m, s, id)), true)
    ensures Has(Put(m, s, id), s)
  {
    PutAddsOne(m, s, id);
    PutExtends(m, s, id);
    assert made + {id} - NewIds(m) - (made - NewIds(m)) == {id};
    assert made + {id} - (NewIds(m) + {id}) == made - NewIds(m);
  }

  lemma NothingAdvances(m: IdMap, left: set<Id>, ok: bool)
    ensures Advanced(m, left, m, left, ok)
  {
    assert left - left == {};
  }

  lemma MoreRestored(parts: seq<DumpedPart>, j: nat, ids: map<Id, Id>, ids': map<Id, Id>)
    requires j < |parts| && PartsRestored(parts, j, ids) && ids.Keys <= ids'.Keys && parts[j].id in ids'
    ensures PartsRestored(parts, j + 1, ids')
  {
    PartsRestoredStay(parts, j, ids, ids');
  }

  // The first part or kit not yet restored is its shelf's next, at its own price.
  lemma NextIsPriced(parts: seq<DumpedPart>, ids: map<Id, Id>, j: nat)
    requires j < |parts| && PartsRestored(parts, j, ids) && parts[j].id !in ids
    ensures Priced(parts, parts[j].id, parts[j].price)
  {
    assert FirstOf(parts, j);
  }

  lemma PlateIsNext(dump: Dump, m: IdMap, k: nat, j: nat)
    requires DistinctItems(dump) && k < |dump.keyboards| && dump.keyboards[k].id in m.keyboards
    requires var d := dump.keyboards[k];
      j < |d.plates| && PartsRestored(d.plates, j, m.keyboards[d.id].plates)
    ensures var d := dump.keyboards[k];
      var s, req := PlateSlot(d.id, d.plates[j].id), PostPlate(m.keyboards[d.id].newID, d.plates[j].price);
      NextSlot(dump, m, s) && (!Has(m, s) ==> Requests(dump, m, s, req))
  {
    var d := dump.keyboards[k];
    assert Next(d.plates, m.keyboards[d.id].plates, d.plates[j].id);
    if d.plates[j].id !in m.keyboards[d.id].plates {
      NextIsPriced(d.plates, m.keyboards[d.id].plates, j);
    }
  }

  lemma PcbIsNext(dump: Dump, m: IdMap, k: nat, j: nat)
    requires DistinctItems(dump) && k < |dump.keyboards| && dump.keyboards[k].id in m.keyboards
    requires var d := dump.keyboards[k];
      j < |d.pcbs| && PartsRestored(d.pcbs, j, m.keyboards[d.id].pcbs)
    ensures var d := dump.keyboards[k];
      var s, req := PcbSlot(d.id, d.pcbs[j].id), PostPcb(m.keyboards[d.id].newID, d.pcbs[j].price);
      NextSlot(dump, m, s) && (!Has(m, s) ==> Requests(dump, m, s, req))
  {
    var d := dump.keyboards[k];
    assert Next(d.pcbs, m.keyboards[d.id].pcbs, d.pcbs[j].id);
    if d.pcbs[j].id !in m.keyboards[d.id].pcbs {
      NextIsPriced(d.pcbs, m.keyboards[d.id].pcbs, j);
    }
  }

  lemma KitIsNext(dump: Dump, m: IdMap, k: nat, j: nat)
    requires DistinctItems(dump) && k < |dump.keycapSets| && dump.keycapSets[k].id in m.keycapSets
    requires var d := dump.keycapSets[k];
      j < |d.kits| && PartsRestored(d.kits, j, m.keycapSets[d.id].kits)
    ensures var d := dump.keycapSets[k];
      var s, req := KitSlot(d.id, d.kits[j].id), PostKit(m.keycapSets[d.id].newID, d.kits[j].price);
      NextSlot(dump, m, s) && (!Has(m, s) ==> Requests(dump, m, s, req))
  {
    var d := dump.keycapSets[k];
    assert Next(d.kits, m.keycapSets[d.id].kits, d.kits[j].id);
    if d.kits[j].id !in m.keycapSets[d.id].kits {
      NextIsPriced(d.kits, m.keycapSets[d.id].kits, j);
    }
  }

  type Effect = Option<(Id, int)>

  function After(made: set<Id>, created: Effect): set<Id> {
    if created.None? then made else made + {created.value.0}
  }

  predicate Possible(c: Collection, made: set<Id>, req: Request, created: Effect) {
    created.Some? ==> Fresh(c, req, created.value.0, created.value.1) && created.value.0 !in made
  }

  function TargetAfter(c: Collection, req: Request, created: Effect): Collection
    requires created.Some? ==> Fresh(c, req, created.value.0, created.value.1)
  {
    if created.None? then c else Created(c, req, created.value.0, created.value.1)
  }

  lemma CreateEffect(dump: Dump, m: IdMap, s: Slot, req: Request, c: Collection, made: set<Id>, created: Effect)
    requires Good(dump, m, c, made) && ParentMapped(m, s) && !Has(m, s) && NextSlot(dump, m, s)
    requires Requests(dump, m, s, req) && Possible(c, made, req, created)
    ensures var c', made' := TargetAfter(c, req, created), After(made, created);
      && Good(dump, m, c', made')
      && Advanced(m, made - NewIds(m), m, made' - NewIds(m), false)
      && (created.Some? ==>
            var m' := Put(m, s, created.value.0);
            Good(dump, m', c', made') && Has(m', s) && Advanced(m, made - NewIds(m), m', made' - NewIds(m'), true))
  {
    if created.Some? {
      GoodAfter(dump, m, s, req, c, made, created.value.0, created.value.1);
      CreateAdvances(m, made, s, created.value.0);
    } else {
      NothingAdvances(m, made - NewIds(m), false);
    }
  }

  class Restore {
    const dump: Dump
    var target: Collection
    // The ids of every item the server created for a restore.
    var made: set<Id>
    // id-map.json, and the running restore's map.
    var saved: IdMap
    var m: IdMap
    // The number of calls that failed.
    ghost var failures: nat

    ghost predicate Valid()
      reads this`saved, this`target, this`made
    {
      DistinctItems(dump) && Good(dump, saved, target, made)
    }

    // Between two items the map in memory is the saved one.
    ghost predicate Steady()
      reads this`saved, this`target, this`made, this`m
    {
      Valid() && m == saved
    }

    // The items created but not mapped: the duplicates interrupted runs left.
    function Unmapped(): set<Id>
      reads this`made, this`saved
    {
      made - NewIds(saved)
    }

    constructor (dump: Dump, target: Collection)
      requires DistinctItems(dump)
      ensures this.dump == dump && this.target == target && Valid() && Unmapped() == {}
    {
      this.dump, this.target := dump, target;
      made := {};
      saved := IdMap(map[], map[], map[], map[]);
      m := IdMap(map[], map[], map[], map[]);
    }

    // ---- calls ----

    // One POST. Nothing is created, or one item with a fresh id; the answer may be lost.
    method Post(req: Request) returns (r: Option<Id>, ghost created: Effect)
      modifies this`target, this`made, this`failures
      ensures failures == old(failures) + if r.Some? then 0 else 1
      ensures Possible(old(target), old(made), req, created)
      ensures made == After(old(made), created) && target == TargetAfter(old(target), req, created)
      ensures r.Some? ==> created.Some? && r.value == created.value.0
    {
      var id: Id, order: int := *, *;
      var reached: bool, answered: bool := *, *;
      if !reached || id in made || !Fresh(target, req, id, order) {
        failures := failures + 1;
        return None, None;
      }
      target, made := Created(target, req, id, order), made + {id};
      failures := failures + if answered then 0 else 1;
      return if answered then Some(id) else None, Some((id, order));
    }

    // Writes the whole map; a failed write may have been made.
    method Save() returns (ok: bool)
      modifies this`saved, this`failures
      ensures saved == m || (!ok && saved == old(saved))
      ensures failures == old(failures) + if ok then 0 else 1
    {
      ok := *;
      failures := failures + if ok then 0 else 1;
      var reached: bool := *;
      if ok || reached {
        saved := m;
      }
    }

    // Another save of a map already saved.
    method SaveAgain() returns (ok: bool)
      requires Steady()
      modifies this`saved, this`failures
      ensures Steady() && saved == old(saved) && Unmapped() == old(Unmapped())
      ensures failures == old(failures) + if ok then 0 else 1
    {
      ok := Save();
    }

    // loadOrNewIDMap, and the rest of what comes before the first item.
    method Load() returns (ok: bool)
      requires Valid()
      modifies this`m, this`failures
      ensures Steady() && Unmapped() == old(Unmapped())
      ensures failures == old(failures) + if ok then 0 else 1
    {
      m := saved;
      ok := *;
      failures := failures + if ok then 0 else 1;
    }

    // Restoring and checking an item's images. A dumped file that can't be read
    // stops the restore as a failure of the next call does.
    method RestoreImages() returns (ok: bool)
      requires Steady()
      modifies this`failures
      ensures Steady() && Unmapped() == old(Unmapped())
      ensures failures == old(failures) + if ok then 0 else 1
    {
      ok := *;
      failures := failures + if ok then 0 else 1;
    }

    // The images and the save that follows them.
    method FinishImages() returns (ok: bool)
      requires Steady()
      modifies this`saved, this`failures
      ensures Steady() && saved == old(saved) && Unmapped() == old(Unmapped())
      ensures failures == old(failures) + if ok then 0 else 1
    {
      ok := RestoreImages();
      if ok {
        ok := SaveAgain();
      }
    }

    // ---- one item ----

    // Creates the item of a slot the map lacks, and gives the map with its id:
    // with either map everything stays good.
    method Create(s: Slot, req: Request) returns (next: Option<IdMap>)
      requires Steady() && ParentMapped(m, s) && !Has(m, s) && NextSlot(dump, m, s) && Requests(dump, m, s, req)
      modifies this`target, this`made, this`failures
      ensures Good(dump, m, target, made)
      ensures Advanced(m, old(made) - NewIds(m), m, made - NewIds(m), false)
      ensures next.Some? ==> Good(dump, next.value, target, made) && Has(next.value, s)
      ensures next.Some? ==>
        forall ok :: Advanced(m, old(made) - NewIds(m), next.value, made - NewIds(next.value), ok)
      ensures failures == old(failures) + if next.Some? then 0 else 1
    {
      ghost var target0, made0 := target, made;
      var r;
      ghost var created;
      r, created := Post(req);
      CreateEffect(dump, m, s, req, target0, made0, created);
      return if r.None? then None else Some(Put(m, s, r.value));
    }

    /** Creates the item of a slot the map lacks and saves its id. */
    method RestoreOne(s: Slot, req: Request) returns (ok: bool)
      requires Steady() && ParentMapped(m, s) && !Has(m, s) && NextSlot(dump, m, s) && Requests(dump, m, s, req)
      modifies this`target, this`made, this`saved, this`m, this`failures
      ensures Valid() && Advanced(old(saved), old(Unmapped()), saved, Unmapped(), ok)
      ensures ok ==> m == saved && Has(m, s)
      ensures failures == old(failures) + if ok then 0 else 1
    {
      hide Good, Extends, DistinctItems, NextSlot, Requests, NewIds, Lookup, ParentMapped;
      var next := Create(s, req);
      if next.None? {
        return false;
      }
      m := next.value;
      ok := Save();
    }

    // The same, skipping an item already mapped.
    method Ensure(s: Slot, req: Request) returns (ok: bool)
      requires Steady() && ParentMapped(m, s) && (!Has(m, s) ==> NextSlot(dump, m, s) && Requests(dump, m, s, req))
      modifies this`target, this`made, this`saved, this`m, this`failures
      ensures Valid() && Advanced(old(saved), old(Unmapped()), saved, Unmapped(), ok)
      ensures ok ==> m == saved && Has(m, s)
      ensures failures == old(failures) + if ok then 0 else 1
    {
      if Has(m, s) {
        return true;
      }
      ok := RestoreOne(s, req);
    }

    // The same, with the item's one image, which is checked either way.
    method EnsureWithImage(s: Slot, req: Request) returns (ok: bool)
      requires Steady() && ParentMapped(m, s) && (!Has(m, s) ==> NextSlot(dump, m, s) && Requests(dump, m, s, req))
      modifies this`target, this`made, this`saved, this`m, this`failures
      ensures Valid() && Advanced(old(saved), old(Unmapped()), saved, Unmapped(), ok)
      ensures ok ==> m == saved && Has(m, s)
      ensures failures == old(failures) + if ok then 0 else 1
    {
      hide Good, Extends, DistinctItems, NextSlot, Requests, NewIds, Lookup, ParentMapped;
      ok := Ensure(s, req);
      if ok {
        ok := RestoreImages();
      }
    }

    // ---- the loops ----

    // restoreKeyboardParts, first half.
    method RestorePlates(k: nat) returns (ok: bool)
      requires Steady() && k < |dump.keyboards| && dump.keyboards[k].id in m.keyboards
      modifies this`target, this`made, this`saved, this`m, this`failures
      ensures Valid() && Advanced(old(saved), old(Unmapped()), saved, Unmapped(), ok)
      ensures ok ==> m == saved && dump.keyboards[k].id in m.keyboards
      ensures ok ==>
        PartsRestored(dump.keyboards[k].plates, |dump.keyboards[k].plates|, m.keyboards[dump.keyboards[k].id].plates)
      ensures failures == old(failures) + if ok then 0 else 1
    {
      ghost var m0, left0 := saved, Unmapped();
      var d := dump.keyboards[k];
      for j := 0 to |d.plates|
        invariant Steady() && Advanced(m0, left0, saved, Unmapped(), true) && d.id in m.keyboards
        invariant failures == old(failures)
        invariant PartsRestored(d.plates, j, m.keyboards[d.id].plates)
      {
        ghost var m1, left1 := saved, Unmapped();
        PlateIsNext(dump, m, k, j);
        ok := Ensure(PlateSlot(d.id, d.plates[j].id), PostPlate(m.keyboards[d.id].newID, d.plates[j].price));
        AdvancedThen(m0, left0, m1, left1, saved, Unmapped(), ok);
        if !ok {
          return;
        }
        PartsStay(m1, m, d.id);
        MoreRestored(d.plates, j, m1.keyboards[d.id].plates, m.keyboards[d.id].plates);
      }
      ok := true;
    }

    // restoreKeyboardParts, second half.
    method RestorePcbs(k: nat) returns (ok: bool)
      requires Steady() && k < |dump.keyboards| && dump.keyboards[k].id in m.keyboards
      modifies this`target, this`made, this`saved, this`m, this`failures
      ensures Valid() && Advanced(old(saved), old(Unmapped()), saved, Unmapped(), ok)
      ensures ok ==> m == saved && dump.keyboards[k].id in m.keyboards
      ensures ok ==>
        PartsRestored(dump.keyboards[k].pcbs, |dump.keyboards[k].pcbs|, m.keyboards[dump.keyboards[k].id].pcbs)
      ensures failures == old(failures) + if ok then 0 else 1
    {
      ghost var m0, left0 := saved, Unmapped();
      var d := dump.keyboards[k];
      for j := 0 to |d.pcbs|
        invariant Steady() && Advanced(m0, left0, saved, Unmapped(), true) && d.id in m.keyboards
        invariant failures == old(failures)
        invariant PartsRestored(d.pcbs, j, m.keyboards[d.id].pcbs)
      {
        ghost var m1, left1 := saved, Unmapped();
        PcbIsNext(dump, m, k, j);
        ok := Ensure(PcbSlot(d.id, d.pcbs[j].id), PostPcb(m.keyboards[d.id].newID, d.pcbs[j].price));
        AdvancedThen(m0, left0, m1, left1, saved, Unmapped(), ok);
        if !ok {
          return;
        }
        PartsStay(m1, m, d.id);
        MoreRestored(d.pcbs, j, m1.keyboards[d.id].pcbs, m.keyboards[d.id].pcbs);
      }
      ok := true;
    }

    method RestoreKits(k: nat) returns (ok: bool)
      requires Steady() && k < |dump.keycapSets| && dump.keycapSets[k].id in m.keycapSets
      modifies this`target, this`made, this`saved, this`m, this`failures
      ensures Valid() && Advanced(old(saved), old(Unmapped()), saved, Unmapped(), ok)
      ensures ok ==> m == saved && SetRestored(dump.keycapSets[k], m)
      ensures failures == old(failures) + if ok then 0 else 1
    {
      ghost var m0, left0 := saved, Unmapped();
      var d := dump.keycapSets[k];
      for j := 0 to |d.kits|
        invariant Steady() && Advanced(m0, left0, saved, Unmapped(), true) && d.id in m.keycapSets
        invariant failures == old(failures)
        invariant PartsRestored(d.kits, j, m.keycapSets[d.id].kits)
      {
        ghost var m1, left1 := saved, Unmapped();
        KitIsNext(dump, m, k, j);
        ok := EnsureWithImage(KitSlot(d.id, d.kits[j].id), PostKit(m.keycapSets[d.id].newID, d.kits[j].price));
        AdvancedThen(m0, left0, m1, left1, saved, Unmapped(), ok);
        if !ok {
          return;
        }
        KitsStay(m1, m, d.id);
        MoreRestored(d.kits, j, m1.keycapSets[d.id].kits, m.keycapSets[d.id].kits);
      }
      ok := true;
    }

    // restoreKeyboardParts.
    method RestoreKeyboardParts(k: nat) returns (ok: bool)
      requires Steady() && k < |dump.keyboards| && dump.keyboards[k].id in m.keyboards
      modifies this`target, this`made, this`saved, this`m, this`failures
      ensures Valid() && Advanced(old(saved), old(Unmapped()), saved, Unmapped(), ok)
      ensures ok ==> m == saved && KeyboardRestored(dump.keyboards[k], m)
      ensures failures == old(failures) + if ok then 0 else 1
    {
      ghost var m0, left0, d := saved, Unmapped(), dump.keyboards[k];
      ok := RestorePlates(k);
      if !ok {
        return;
      }
      ghost var m1, left1 := saved, Unmapped();
      ok := RestorePcbs(k);
      AdvancedThen(m0, left0, m1, left1, saved, Unmapped(), ok);
      if ok {
        PartsStay(m1, m, d.id);
        PartsRestoredStay(d.plates, |d.plates|, m1.keyboards[d.id].plates, m.keyboards[d.id].plates);
      }
    }

    // One keyboard, its parts, then its images.
    method RestoreKeyboard(k: nat) returns (ok: bool)
      requires Steady() && k < |dump.keyboards|
      modifies this`target, this`made, this`saved, this`m, this`failures
      ensures Valid() && Advanced(old(saved), old(Unmapped()), saved, Unmapped(), ok)
      ensures ok ==> m == saved && KeyboardRestored(dump.keyboards[k], m)
      ensures failures >= old(failures) && (ok ==> failures == old(failures))
      ensures !ok ==> failures > old(failures) || dump.keyboards[k].visibility.None?
    {
      ghost var m0, left0 := saved, Unmapped();
      var d := dump.keyboards[k];
      if d.id !in m.keyboards && d.visibility.None? {
        return false;
      }
      ok := Ensure(KeyboardSlot(d.id), PostKeyboard(d.price));
      if !ok {
        return;
      }
      ghost var m1, left1 := saved, Unmapped();
      ok := RestoreKeyboardParts(k);
      AdvancedThen(m0, left0, m1, left1, saved, Unmapped(), ok);
      if !ok {
        return;
      }
      ok := FinishImages();
    }

    method RestoreKeyboards() returns (ok: bool)
      requires Steady()
      modifies this`target, this`made, this`saved, this`m, this`failures
      ensures Valid() && Advanced(old(saved), old(Unmapped()), saved, Unmapped(), ok)
      ensures ok ==> m == saved && KeyboardsRestored(dump, |dump.keyboards|, m)
      ensures failures >= old(failures) && (ok ==> failures == old(failures))
      ensures !ok ==> failures > old(failures) || !Visible(dump)
    {
      hide Good, Extends, DistinctItems, NewIds, KeyboardRestored, SetRestored;
      ghost var m0, left0 := saved, Unmapped();
      NothingAdvances(m0, left0, true);
      for k := 0 to |dump.keyboards|
        invariant Steady() && Advanced(m0, left0, saved, Unmapped(), true) && KeyboardsRestored(dump, k, m)
        invariant failures == old(failures)
      {
        ghost var m1, left1 := saved, Unmapped();
        ok := RestoreKeyboard(k);
        AdvancedThen(m0, left0, m1, left1, saved, Unmapped(), ok);
        if !ok {
          return;
        }
        MoreKeyboards(dump, k, m1, m);
      }
      ok := true;
    }

    // An item that isn't mapped yet needs its dumped visibility.
    method RestoreSwitch(k: nat) returns (ok: bool)
      requires Steady() && k < |dump.switches|
      modifies this`target, this`made, this`saved, this`m, this`failures
      ensures Valid() && Advanced(old(saved), old(Unmapped()), saved, Unmapped(), ok)
      ensures ok ==> m == saved && dump.switches[k].id in m.switches
      ensures failures >= old(failures) && (ok ==> failures == old(failures))
      ensures !ok ==> failures > old(failures) || dump.switches[k].visibility.None?
    {
      var d := dump.switches[k];
      if d.id !in m.switches && d.visibility.None? {
        return false;
      }
      ok := EnsureWithImage(SwitchSlot(d.id), PostSwitch(d.price, d.quantity));
    }

    method RestoreSwitches() returns (ok: bool)
      requires Steady()
      modifies this`target, this`made, this`saved, this`m, this`failures
      ensures Valid() && Advanced(old(saved), old(Unmapped()), saved, Unmapped(), ok)
      ensures ok ==> m == saved && SwitchesRestored(dump, |dump.switches|, m)
      ensures failures >= old(failures) && (ok ==> failures == old(failures))
      ensures !ok ==> failures > old(failures) || !Visible(dump)
    {
      hide Good, Extends, DistinctItems, NewIds, KeyboardRestored, SetRestored;
      ghost var m0, left0 := saved, Unmapped();
      NothingAdvances(m0, left0, true);
      for k := 0 to |dump.switches|
        invariant Steady() && Advanced(m0, left0, saved, Unmapped(), true) && SwitchesRestored(dump, k, m)
        invariant failures == old(failures)
      {
        ghost var m1, left1 := saved, Unmapped();
        ok := RestoreSwitch(k);
        AdvancedThen(m0, left0, m1, left1, saved, Unmapped(), ok);
        if !ok {
          return;
        }
        MoreSwitches(dump, k, m1, m);
      }
      ok := true;
    }

    method RestoreSet(k: nat) returns (ok: bool)
      requires Steady() && k < |dump.keycapSets|
      modifies this`target, this`made, this`saved, this`m, this`failures
      ensures Valid() && Advanced(old(saved), old(Unmapped()), saved, Unmapped(), ok)
      ensures ok ==> m == saved && SetRestored(dump.keycapSets[k], m)
      ensures failures >= old(failures) && (ok ==> failures == old(failures))
      ensures !ok ==> failures > old(failures) || dump.keycapSets[k].visibility.None?
    {
      ghost var m0, left0 := saved, Unmapped();
      var d := dump.keycapSets[k];
      if d.id !in m.keycapSets && d.visibility.None? {
        return false;
      }
      ok := Ensure(SetSlot(d.id), PostSet);
      if !ok {
        return;
      }
      ghost var m1, left1 := saved, Unmapped();
      ok := RestoreKits(k);
      AdvancedThen(m0, left0, m1, left1, saved, Unmapped(), ok);
    }

    method RestoreKeycapSets() returns (ok: bool)
      requires Steady()
      modifies this`target, this`made, this`saved, this`m, this`failures
      ensures Valid() && Advanced(old(saved), old(Unmapped()), saved, Unmapped(), ok)
      ensures ok ==> m == saved && SetsRestored(dump, |dump.keycapSets|, m)
      ensures failures >= old(failures) && (ok ==> failures == old(failures))
      ensures !ok ==> failures > old(failures) || !Visible(dump)
    {
      hide Good, Extends, DistinctItems, NewIds, KeyboardRestored, SetRestored;
      ghost var m0, left0 := saved, Unmapped();
      NothingAdvances(m0, left0, true);
      for k := 0 to |dump.keycapSets|
        invariant Steady() && Advanced(m0, left0, saved, Unmapped(), true) && SetsRestored(dump, k, m)
        invariant failures == old(failures)
      {
        ghost var m1, left1 := saved, Unmapped();
        ok := RestoreSet(k);
        AdvancedThen(m0, left0, m1, left1, saved, Unmapped(), ok);
        if !ok {
          return;
        }
        MoreSets(dump, k, m1, m);
      }
      ok := true;
    }

    // A mapped build is skipped; another is posted only if all it refers to is mapped.
    method RestoreBuild(k: nat) returns (ok: bool)
      requires Steady() && k < |dump.builds| && ItemsRestored(dump, m)
      modifies this`target, this`made, this`saved, this`m, this`failures
      ensures Valid() && Advanced(old(saved), old(Unmapped()), saved, Unmapped(), ok)
      ensures ok ==> m == saved && dump.builds[k].id in m.builds
      ensures failures >= old(failures) && (ok ==> failures == old(failures))
      ensures !ok ==> failures > old(failures) || !BuildClosed(dump, dump.builds[k].view)
    {
      var d := dump.builds[k];
      if d.id in m.builds {
        return true;
      }
      var input := BuildInputFromResolved(d.view, m);
      if input.Err? {
        if BuildClosed(dump, d.view) {
          ClosedMapped(dump, d.view, m);
        }
        return false;
      }
      assert dump.builds[k].id == d.id;
      assert Requests(dump, m, BuildSlot(d.id), PostBuild(input.value));
      ok := RestoreOne(BuildSlot(d.id), PostBuild(input.value));
      if ok {
        ok := FinishImages();
      }
    }

    method RestoreBuilds() returns (ok: bool)
      requires Steady() && ItemsRestored(dump, m)
      modifies this`target, this`made, this`saved, this`m, this`failures
      ensures Valid() && Advanced(old(saved), old(Unmapped()), saved, Unmapped(), ok)
      ensures ok ==> m == saved && BuildsMapped(dump, |dump.builds|, m)
      ensures failures >= old(failures) && (!ok ==> failures > old(failures) || !Closed(dump))
    {
      ghost var m0, left0 := saved, Unmapped();
      for k := 0 to |dump.builds|
        invariant Steady() && Advanced(m0, left0, saved, Unmapped(), true) && BuildsMapped(dump, k, m)
        invariant ItemsRestored(dump, m) && failures == old(failures)
      {
        ghost var m1, left1 := saved, Unmapped();
        ok := RestoreBuild(k);
        AdvancedThen(m0, left0, m1, left1, saved, Unmapped(), ok);
        if !ok {
          return;
        }
        MoreBuilds(dump, k, m1, m);
        ItemsStay(dump, m1, m);
      }
      ok := true;
    }

    // ---- a run ----

    // The items a build can refer to.
    method RestoreItems() returns (ok: bool)
      requires Steady()
      modifies this`target, this`made, this`saved, this`m, this`failures
      ensures Valid() && Advanced(old(saved), old(Unmapped()), saved, Unmapped(), ok)
      ensures ok ==> m == saved && ItemsRestored(dump, m)
      ensures failures >= old(failures) && (ok ==> failures == old(failures))
      ensures !ok ==> failures > old(failures) || !Visible(dump)
    {
      ghost var m0, left0 := saved, Unmapped();
      ok := RestoreKeyboards();
      if !ok {
        return;
      }
      ghost var m1, left1 := saved, Unmapped();
      ok := RestoreSwitches();
      AdvancedThen(m0, left0, m1, left1, saved, Unmapped(), ok);
      if !ok {
        return;
      }
      KeyboardsStay(dump, |dump.keyboards|, m1, m);
      m1, left1 := saved, Unmapped();
      ok := RestoreKeycapSets();
      AdvancedThen(m0, left0, m1, left1, saved, Unmapped(), ok);
      if !ok {
        return;
      }
      KeyboardsStay(dump, |dump.keyboards|, m1, m);
      SwitchesStay(dump, |dump.switches|, m1, m);
    }

    /** One run of the restore command, from whatever map the last one saved: it
        ends with everything mapped and listed in the dumped order, unless a call
        failed, an item was dumped without its visibility, or a build refers to
        something not dumped. */
    method Run() returns (ok: bool)
      requires Valid()
      modifies this`target, this`made, this`saved, this`m, this`failures
      ensures Valid() && Advanced(old(saved), old(Unmapped()), saved, Unmapped(), ok)
      ensures ok ==> AllRestored(dump, saved) && OrderReproduced(dump, saved, target, Unmapped())
      ensures ok ==> AsDumped(dump, saved, target)
      ensures !ok ==> failures > old(failures) || !Closed(dump)
    {
      ok := Load();
      if !ok {
        return;
      }
      ghost var m0, left0 := saved, Unmapped();
      ok := RestoreItems();
      if !ok {
        return;
      }
      ghost var m1, left1 := saved, Unmapped();
      ok := RestoreBuilds();
      AdvancedThen(m0, left0, m1, left1, saved, Unmapped(), ok);
      if !ok {
        return;
      }
      ItemsStay(dump, m1, m);
      ok := SaveAgain();
      RestoredInDumpedOrder(dump, saved, target, made);
      RestoredAsDumped(dump, saved, target, made);
    }

    /** However often the restore is interrupted and resumed, the map stays
        injective and names only items of the target, and each interruption costs
        at most one unmapped item. */
    method Resume(attempts: nat) returns (ok: bool, interruptions: nat)
      requires Valid()
      modifies this`target, this`made, this`saved, this`m, this`failures
      ensures Valid() && Injective(saved) && Names(saved, target) && Extends(old(saved), saved)
      ensures old(Unmapped()) <= Unmapped() && |Unmapped() - old(Unmapped())| <= interruptions <= attempts
      ensures ok ==> AllRestored(dump, saved) && OrderReproduced(dump, saved, target, Unmapped())
      ensures ok ==> AsDumped(dump, saved, target)
    {
      ok, interruptions := false, 0;
      ghost var m0, left0 := saved, Unmapped();
      for k := 0 to attempts
        invariant Valid() && Extends(m0, saved) && left0 <= Unmapped()
        invariant |Unmapped() - left0| <= interruptions <= k
        invariant ok ==> AllRestored(dump, saved) && OrderReproduced(dump, saved, target, Unmapped())
        invariant ok ==> AsDumped(dump, saved, target)
      {
        if !ok {
          ghost var left1 := Unmapped();
          ok := Run();
          AddUp(left0, left1, Unmapped());
          if !ok {
            interruptions := interruptions + 1;
          }
        }
      }
      OneSlotEachIsInjective(saved);
      NamesAllNames(saved, target);
    }
  }

  lemma AddUp(a: set<Id>, b: set<Id>, c: set<Id>)
    requires a <= b <= c
    ensures |c - a| == |b - a| + |c - b|
  {
    assert c - a == (b - a) + (c - b);
  }
}
