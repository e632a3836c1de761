/** What a restored build costs on the target: what the dumped one does on the source
    (cmd/mykeebs-migrate/restore.go, with the totals of internal/repoapi/build.go). */
module RestoredCosts {
  import opened Wrappers
  import opened Repository
  import opened KitGroups
  import opened BuildCosts
  import opened IdMaps
  import opened IdMapSlots
  import opened PartOrder
  import opened MigrateRefs
  import opened RestoreState

  // ---- a dump of the source, as its owner sees it ----

  predicate PartsTakenFrom(parts: seq<DumpedPart>, source: map<Id, Part>) {
    forall j :: 0 <= j < |parts| ==> parts[j].id in source && parts[j].price == source[parts[j].id].price
  }

  predicate KeyboardTakenFrom(d: DumpedKeyboard, source: Collection) {
    d.id in source.keyboards
    && var kb := source.keyboards[d.id];
       d.price == kb.price && PartsTakenFrom(d.plates, kb.plates) && PartsTakenFrom(d.pcbs, kb.pcbs)
  }

  predicate SwitchTakenFrom(d: DumpedSwitch, source: Collection) {
    d.id in source.switches
    && var sw := source.switches[d.id]; d.price == sw.price && d.quantity == sw.quantity
  }

  predicate SetTakenFrom(d: DumpedSet, source: Collection) {
    d.id in source.keycapSets
    && var kits := source.keycapSets[d.id].kits;
       forall j :: 0 <= j < |d.kits| ==> d.kits[j].id in kits && d.kits[j].price == kits[d.kits[j].id].price
  }

  predicate TakenFrom(dump: Dump, source: Collection) {
    && (forall k :: 0 <= k < |dump.keyboards| ==> KeyboardTakenFrom(dump.keyboards[k], source))
    && (forall k :: 0 <= k < |dump.switches| ==> SwitchTakenFrom(dump.switches[k], source))
    && forall k :: 0 <= k < |dump.keycapSets| ==> SetTakenFrom(dump.keycapSets[k], source)
  }

  // ---- one component after another ----

  lemma FirstPart(parts: seq<DumpedPart>, id: Id) returns (j: nat)
    requires HasPart(parts, id)
    ensures FirstOf(parts, j) && parts[j].id == id
  {
    j := 0;
    while parts[j].id != id
      invariant j < |parts| && forall i :: 0 <= i < j ==> parts[i].id != id
      invariant exists i :: j <= i < |parts| && parts[i].id == id
      decreases |parts| - j
    {
      j := j + 1;
    }
  }

  lemma PartCostKept(
      parts: seq<DumpedPart>, source: map<Id, Part>, id: Option<Id>, ids: map<Id, Id>, restored: map<Id, Part>)
    requires PartsTakenFrom(parts, source) && PartsAsDumped(parts, ids, restored)
    requires id.Some? ==> HasPart(parts, id.value)
    ensures PartMapped(id, ids) && PartCost(restored, MapPart(id, ids)) == PartCost(source, id)
  {
    if id.Some? {
      var j := FirstPart(parts, id.value);
    }
  }

  // A plate or PCB the keyboard no longer has is shown as none, and costs nothing
  // either way.
  lemma KeyboardCostKept(dump: Dump, m: IdMap, c: Collection, view: BuildView, source: Collection)
    requires AsDumped(dump, m, c) && TakenFrom(dump, source) && BuildClosed(dump, view)
    ensures view.keyboard in source.keyboards && view.keyboard in m.keyboards
    ensures var kb0, ids := source.keyboards[view.keyboard], m.keyboards[view.keyboard];
      && ids.newID in c.keyboards && PartMapped(view.plate, ids.plates) && PartMapped(view.pcb, ids.pcbs)
      && var kb := c.keyboards[ids.newID];
         && kb.price == kb0.price
         && PartCost(kb.plates, MapPart(view.plate, ids.plates)) == PartCost(kb0.plates, view.plate)
         && PartCost(kb.pcbs, MapPart(view.pcb, ids.pcbs)) == PartCost(kb0.pcbs, view.pcb)
  {
    var k :| 0 <= k < |dump.keyboards| && KeyboardDumped(view, dump.keyboards[k]);
    var d := dump.keyboards[k];
    assert KeyboardAsDumped(d, m, c) && KeyboardTakenFrom(d, source);
    var kb0, ids := source.keyboards[d.id], m.keyboards[d.id];
    var kb := c.keyboards[ids.newID];
    PartCostKept(d.plates, kb0.plates, view.plate, ids.plates, kb.plates);
    PartCostKept(d.pcbs, kb0.pcbs, view.pcb, ids.pcbs, kb.pcbs);
  }

  lemma SameUnitsCost(a: Switch, b: Switch, count: int)
    requires a.price == b.price && a.quantity == b.quantity
    ensures UnitsCost(a, count) == UnitsCost(b, count)
  {
    if UnitsCost(a, count).Some? {
      assert UnitsCost(a, count).value == UnitsCost(b, count).value;
    }
  }

  lemma {:induction false} SwitchCostsKept(
      dump: Dump, m: IdMap, c: Collection, source: Collection, entries: seq<SwitchEntry>, mapped: seq<SwitchEntry>)
    requires AsDumped(dump, m, c) && TakenFrom(dump, source) && SwitchesRemapped(entries, mapped, m)
    requires forall i :: 0 <= i < |entries| ==> SwitchDumped(dump, entries[i].switch)
    ensures SwitchCosts(c, mapped) == SwitchCosts(source, entries)
  {
    forall i | 0 <= i < |entries|
      ensures SwitchCosts(c, mapped)[i] == SwitchCosts(source, entries)[i]
    {
      var k :| 0 <= k < |dump.switches| && dump.switches[k].id == entries[i].switch;
      assert SwitchAsDumped(dump.switches[k], m, c) && SwitchTakenFrom(dump.switches[k], source);
      SameUnitsCost(c.switches[mapped[i].switch], source.switches[entries[i].switch], entries[i].count);
    }
  }

  lemma KitCostKept(dump: Dump, m: IdMap, c: Collection, source: Collection, e: KitEntry, d: DumpedSet)
    requires SetAsDumped(d, m, c) && SetTakenFrom(d, source) && KitMapped(e, m)
    requires e.keycapSet == d.id && HasPart(d.kits, e.kit)
    ensures KitPrice(c, MapKit(e, m)) == KitPrice(source, e)
  {
    var j := FirstPart(d.kits, e.kit);
  }

  lemma {:induction false} KitCostsKept(
      dump: Dump, m: IdMap, c: Collection, source: Collection, groups: seq<Group>, mapped: seq<KitEntry>)
    requires AsDumped(dump, m, c) && TakenFrom(dump, source) && KitsRemapped(Flatten(groups), mapped, m)
    requires forall i :: 0 <= i < |groups| ==>
      exists k :: 0 <= k < |dump.keycapSets| && GroupDumped(groups[i], dump.keycapSets[k])
    ensures KitPrices(c, mapped) == KitPrices(source, Flatten(groups))
  {
    var entries := Flatten(groups);
    forall n | 0 <= n < |entries|
      ensures KitPrices(c, mapped)[n] == KitPrices(source, entries)[n]
    {
      var e := entries[n];
      InFlatten(groups, e);
      var i :| 0 <= i < |groups| && e in GroupEntries(groups[i]);
      var k :| 0 <= k < |dump.keycapSets| && GroupDumped(groups[i], dump.keycapSets[k]);
      assert SetAsDumped(dump.keycapSets[k], m, c) && SetTakenFrom(dump.keycapSets[k], source);
      KitCostKept(dump, m, c, source, e, dump.keycapSets[k]);
    }
  }

  /** Every mapped build whose items are restored costs on the target, kits, switches,
      parts and stabs, exactly what the dumped one costs on the source. */
  lemma RestoredBuildCostsTheSame(
      dump: Dump, m: IdMap, c: Collection, made: set<Id>, k: nat, source: Collection, b: Build)
    requires Good(dump, m, c, made) && AsDumped(dump, m, c) && TakenFrom(dump, source)
    requires k < |dump.builds| && dump.builds[k].id in m.builds && BuildClosed(dump, dump.builds[k].view)
    requires View(source, b, dump.builds[k].view.visibility.value) == Ok(dump.builds[k].view)
    ensures m.builds[dump.builds[k].id] in c.builds
    ensures TotalCost(c, c.builds[m.builds[dump.builds[k].id]]) == TotalCost(source, b)
  {
    var d := dump.builds[k];
    assert BuildRestored(d, m, c);
    var restored := c.builds[m.builds[d.id]];
    RestoredBuildsVerify(dump, m, c, made, k, source, b);
    KeyboardCostKept(dump, m, c, d.view, source);
    SwitchCostsKept(dump, m, c, source, d.view.switches, restored.switches);
    KitCostsKept(dump, m, c, source, d.view.keycapSets, restored.kits);
    SameKitCosts(d.view, m, c, source, b, restored);
  }

  // However the two builds' kits are grouped.
  lemma SameKitCosts(view: BuildView, m: IdMap, c: Collection, source: Collection, b: Build, restored: Build)
    requires OneSlotEach(m) && view.keycapSets == GroupKits(b.kits)
    requires KitsRemapped(Flatten(view.keycapSets), restored.kits, m)
    requires forall i :: 0 <= i < |view.keycapSets| ==> GroupMapped(view.keycapSets[i], m)
    requires KitPrices(c, restored.kits) == KitPrices(source, Flatten(view.keycapSets))
    ensures SumKnown(KitPrices(c, Distinct(restored.kits))) == SumKnown(KitPrices(source, Distinct(b.kits)))
  {
    OneSlotEachIsInjective(m);
    GroupKitsWellGrouped(b.kits);
    MapGroupsWellGrouped(view.keycapSets, m);
    FlattenMapped(view.keycapSets, restored.kits, m);
    RegroupFlatten(MapGroups(view.keycapSets, m));
    GroupedCostIsDistinctCost(source, b.kits);
    GroupedCostIsDistinctCost(c, restored.kits);
  }
}
