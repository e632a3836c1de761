/** The places an id map has for a dumped item, and what filling one with a new
    id does to the map. */
module IdMapSlots {
  import opened Wrappers
  import opened Repository
  import opened IdMaps

  // A dumped item, by its old ids.
  datatype Slot =
    | KeyboardSlot(keyboard: Id)
    | PlateSlot(keyboard: Id, plate: Id)
    | PcbSlot(keyboard: Id, pcb: Id)
    | SwitchSlot(switch: Id)
    | SetSlot(keycapSet: Id)
    | KitSlot(keycapSet: Id, kit: Id)
    | BuildSlot(build: Id)

  predicate ParentMapped(m: IdMap, s: Slot) {
    match s
    case PlateSlot(kb, _) => kb in m.keyboards
    case PcbSlot(kb, _) => kb in m.keyboards
    case KitSlot(id, _) => id in m.keycapSets
    case _ => true
  }

  function In(ids: map<Id, Id>, id: Id): Option<Id> {
    if id in ids then Some(ids[id]) else None
  }

  // The new id in a slot.
  function Lookup(m: IdMap, s: Slot): Option<Id> {
    match s
    case KeyboardSlot(kb) => if kb in m.keyboards then Some(m.keyboards[kb].newID) else None
    case PlateSlot(kb, plate) => if kb in m.keyboards then In(m.keyboards[kb].plates, plate) else None
    case PcbSlot(kb, pcb) => if kb in m.keyboards then In(m.keyboards[kb].pcbs, pcb) else None
    case SwitchSlot(sw) => In(m.switches, sw)
    case SetSlot(ks) => if ks in m.keycapSets then Some(m.keycapSets[ks].newID) else None
    case KitSlot(ks, kit) => if ks in m.keycapSets then In(m.keycapSets[ks].kits, kit) else None
    case BuildSlot(b) => In(m.builds, b)
  }

  predicate Has(m: IdMap, s: Slot) {
    Lookup(m, s).Some?
  }

  function Get(m: IdMap, s: Slot): Id
    requires Has(m, s)
  {
    Lookup(m, s).value
  }

  // The map with a new item's id.
  function Put(m: IdMap, s: Slot, id: Id): IdMap
    requires ParentMapped(m, s)
  {
    match s
    case KeyboardSlot(kb) => m.(keyboards := m.keyboards[kb := MappedKeyboard(id, map[], map[])])
    case PlateSlot(kb, plate) =>
      m.(keyboards := m.keyboards[kb := m.keyboards[kb].(plates := m.keyboards[kb].plates[plate := id])])
    case PcbSlot(kb, pcb) =>
      m.(keyboards := m.keyboards[kb := m.keyboards[kb].(pcbs := m.keyboards[kb].pcbs[pcb := id])])
    case SwitchSlot(sw) => m.(switches := m.switches[sw := id])
    case SetSlot(set_) => m.(keycapSets := m.keycapSets[set_ := MappedSet(id, map[])])
    case KitSlot(set_, kit) =>
      m.(keycapSets := m.keycapSets[set_ := m.keycapSets[set_].(kits := m.keycapSets[set_].kits[kit := id])])
    case BuildSlot(b) => m.(builds := m.builds[b := id])
  }

  // Every slot of m has the same id in m'.
  ghost predicate Extends(m: IdMap, m': IdMap) {
    forall s :: Has(m, s) ==> Has(m', s) && Get(m', s) == Get(m, s)
  }

  // The new ids in the map.
  function NewIds(m: IdMap): set<Id> {
    (set kb | kb in m.keyboards :: m.keyboards[kb].newID)
    + (set kb, id | kb in m.keyboards && id in m.keyboards[kb].plates.Values :: id)
    + (set kb, id | kb in m.keyboards && id in m.keyboards[kb].pcbs.Values :: id)
    + m.switches.Values
    + (set ks | ks in m.keycapSets :: m.keycapSets[ks].newID)
    + (set ks, id | ks in m.keycapSets && id in m.keycapSets[ks].kits.Values :: id)
    + m.builds.Values
  }

  lemma PutExtends(m: IdMap, s: Slot, id: Id)
    requires ParentMapped(m, s) && !Has(m, s)
    ensures Extends(m, Put(m, s, id)) && Has(Put(m, s, id), s) && Get(Put(m, s, id), s) == id
    ensures forall s' :: Has(Put(m, s, id), s') ==> s' == s || Has(m, s')
  {
  }

  // Whichever slot an id is in, it is one of the map's new ids.
  lemma GetIsNewId(m: IdMap, s: Slot)
    requires Has(m, s)
    ensures Get(m, s) in NewIds(m)
  {
    match s
    case PlateSlot(kb, plate) => assert Get(m, s) in m.keyboards[kb].plates.Values;
    case PcbSlot(kb, pcb) => assert Get(m, s) in m.keyboards[kb].pcbs.Values;
    case KitSlot(ks, kit) => assert Get(m, s) in m.keycapSets[ks].kits.Values;
    case _ =>
  }

  lemma NewIdHasSlot(m: IdMap, id: Id) returns (s: Slot)
    requires id in NewIds(m)
    ensures Has(m, s) && Get(m, s) == id
  {
    if kb :| kb in m.keyboards && m.keyboards[kb].newID == id {
      return KeyboardSlot(kb);
    } else if kb :| kb in m.keyboards && id in m.keyboards[kb].plates.Values {
      var plate :| plate in m.keyboards[kb].plates && m.keyboards[kb].plates[plate] == id;
      return PlateSlot(kb, plate);
    } else if kb :| kb in m.keyboards && id in m.keyboards[kb].pcbs.Values {
      var pcb :| pcb in m.keyboards[kb].pcbs && m.keyboards[kb].pcbs[pcb] == id;
      return PcbSlot(kb, pcb);
    } else if sw :| sw in m.switches && m.switches[sw] == id {
      return SwitchSlot(sw);
    } else if ks :| ks in m.keycapSets && m.keycapSets[ks].newID == id {
      return SetSlot(ks);
    } else if ks :| ks in m.keycapSets && id in m.keycapSets[ks].kits.Values {
      var kit :| kit in m.keycapSets[ks].kits && m.keycapSets[ks].kits[kit] == id;
      return KitSlot(ks, kit);
    } else {
      var b :| b in m.builds && m.builds[b] == id;
      return BuildSlot(b);
    }
  }

  /** Filling a slot adds exactly the one new id, */
  lemma PutAddsOne(m: IdMap, s: Slot, id: Id)
    requires ParentMapped(m, s) && !Has(m, s)
    ensures NewIds(Put(m, s, id)) == NewIds(m) + {id}
  {
    var m' := Put(m, s, id);
    PutExtends(m, s, id);
    forall x | x in NewIds(m')
      ensures x in NewIds(m) + {id}
    {
      var s' := NewIdHasSlot(m', x);
      if s' != s {
        GetIsNewId(m, s');
      }
    }
    GetIsNewId(m', s);
    forall x | x in NewIds(m)
      ensures x in NewIds(m')
    {
      var s' := NewIdHasSlot(m, x);
      GetIsNewId(m', s');
    }
  }

  // No id is in two slots.
  ghost predicate OneSlotEach(m: IdMap) {
    forall s, s' {:trigger Get(m, s), Get(m, s')} ::
      Has(m, s) && Has(m, s') && s != s' ==> Get(m, s) != Get(m, s')
  }

  /** and a fresh one keeps the map injective. */
  lemma PutKeepsOneSlotEach(m: IdMap, s: Slot, id: Id)
    requires ParentMapped(m, s) && !Has(m, s) && OneSlotEach(m) && id !in NewIds(m)
    ensures OneSlotEach(Put(m, s, id))
  {
    var m' := Put(m, s, id);
    PutExtends(m, s, id);
    forall a, b | Has(m', a) && Has(m', b) && a != b
      ensures Get(m', a) != Get(m', b)
    {
      if a != s {
        GetIsNewId(m, a);
      }
      if b != s {
        GetIsNewId(m, b);
      }
    }
  }

  lemma PartsApart(m: IdMap, kb: Id)
    requires OneSlotEach(m) && kb in m.keyboards
    ensures InjectiveIds(m.keyboards[kb].plates) && InjectiveIds(m.keyboards[kb].pcbs)
  {
    assert forall p :: p in m.keyboards[kb].plates ==>
      Has(m, PlateSlot(kb, p)) && Get(m, PlateSlot(kb, p)) == m.keyboards[kb].plates[p];
    assert forall p :: p in m.keyboards[kb].pcbs ==>
      Has(m, PcbSlot(kb, p)) && Get(m, PcbSlot(kb, p)) == m.keyboards[kb].pcbs[p];
  }

  lemma KitsApart(m: IdMap, ks: Id)
    requires OneSlotEach(m) && ks in m.keycapSets
    ensures InjectiveIds(m.keycapSets[ks].kits)
  {
    assert forall k :: k in m.keycapSets[ks].kits ==>
      Has(m, KitSlot(ks, k)) && Get(m, KitSlot(ks, k)) == m.keycapSets[ks].kits[k];
  }

  lemma ItemsApart(m: IdMap)
    requires OneSlotEach(m)
    ensures forall a, b :: a in m.keyboards && b in m.keyboards && a != b ==>
      m.keyboards[a].newID != m.keyboards[b].newID
    ensures forall a, b :: a in m.keycapSets && b in m.keycapSets && a != b ==>
      m.keycapSets[a].newID != m.keycapSets[b].newID
    ensures InjectiveIds(m.switches) && InjectiveIds(m.builds)
  {
    assert forall a :: a in m.keyboards ==> Has(m, KeyboardSlot(a)) && Get(m, KeyboardSlot(a)) == m.keyboards[a].newID;
    assert forall a :: a in m.keycapSets ==> Has(m, SetSlot(a)) && Get(m, SetSlot(a)) == m.keycapSets[a].newID;
    assert forall a :: a in m.switches ==> Has(m, SwitchSlot(a)) && Get(m, SwitchSlot(a)) == m.switches[a];
    assert forall a :: a in m.builds ==> Has(m, BuildSlot(a)) && Get(m, BuildSlot(a)) == m.builds[a];
  }

  lemma OneSlotEachIsInjective(m: IdMap)
    requires OneSlotEach(m)
    ensures Injective(m)
  {
    ItemsApart(m);
    forall kb | kb in m.keyboards
      ensures InjectiveIds(m.keyboards[kb].plates) && InjectiveIds(m.keyboards[kb].pcbs)
    {
      PartsApart(m, kb);
    }
    forall ks | ks in m.keycapSets
      ensures InjectiveIds(m.keycapSets[ks].kits)
    {
      KitsApart(m, ks);
    }
  }

  // The slot's new id names an item of the collection.
  predicate NamesSlot(m: IdMap, s: Slot, c: Collection)
    requires Has(m, s)
  {
    match s
    case KeyboardSlot(_) => Get(m, s) in c.keyboards
    case PlateSlot(kb, _) =>
      m.keyboards[kb].newID in c.keyboards && Get(m, s) in c.keyboards[m.keyboards[kb].newID].plates
    case PcbSlot(kb, _) =>
      m.keyboards[kb].newID in c.keyboards && Get(m, s) in c.keyboards[m.keyboards[kb].newID].pcbs
    case SwitchSlot(_) => Get(m, s) in c.switches
    case SetSlot(_) => Get(m, s) in c.keycapSets
    case KitSlot(ks, _) =>
      m.keycapSets[ks].newID in c.keycapSets && Get(m, s) in c.keycapSets[m.keycapSets[ks].newID].kits
    case BuildSlot(_) => Get(m, s) in c.builds
  }

  ghost predicate NamesAll(m: IdMap, c: Collection) {
    forall s :: Has(m, s) ==> Get(m, s) != "" && NamesSlot(m, s, c)
  }

  lemma NamesKeyboard(m: IdMap, c: Collection, kb: Id)
    requires NamesAll(m, c) && kb in m.keyboards
    ensures m.keyboards[kb].newID in c.keyboards && m.keyboards[kb].newID != ""
    ensures m.keyboards[kb].plates.Values <= c.keyboards[m.keyboards[kb].newID].plates.Keys
    ensures m.keyboards[kb].pcbs.Values <= c.keyboards[m.keyboards[kb].newID].pcbs.Keys
    ensures "" !in m.keyboards[kb].plates.Values && "" !in m.keyboards[kb].pcbs.Values
  {
    assert Has(m, KeyboardSlot(kb));
    assert forall p :: p in m.keyboards[kb].plates ==> Has(m, PlateSlot(kb, p));
    assert forall p :: p in m.keyboards[kb].pcbs ==> Has(m, PcbSlot(kb, p));
  }

  lemma NamesSet(m: IdMap, c: Collection, ks: Id)
    requires NamesAll(m, c) && ks in m.keycapSets
    ensures m.keycapSets[ks].newID in c.keycapSets && m.keycapSets[ks].newID != ""
    ensures m.keycapSets[ks].kits.Values <= c.keycapSets[m.keycapSets[ks].newID].kits.Keys
    ensures "" !in m.keycapSets[ks].kits.Values
  {
    assert Has(m, SetSlot(ks));
    assert forall k :: k in m.keycapSets[ks].kits ==> Has(m, KitSlot(ks, k));
  }

  lemma NamesOthers(m: IdMap, c: Collection)
    requires NamesAll(m, c)
    ensures m.switches.Values <= c.switches.Keys && m.builds.Values <= c.builds.Keys && "" !in m.switches.Values
  {
    assert forall a :: a in m.switches ==> Has(m, SwitchSlot(a));
    assert forall a :: a in m.builds ==> Has(m, BuildSlot(a));
  }

  lemma NamesAllNames(m: IdMap, c: Collection)
    requires NamesAll(m, c)
    ensures Names(m, c) && NonEmptyNewIds(m)
  {
    NamesOthers(m, c);
    forall kb | kb in m.keyboards
      ensures m.keyboards[kb].newID in c.keyboards && m.keyboards[kb].newID != ""
      ensures m.keyboards[kb].plates.Values <= c.keyboards[m.keyboards[kb].newID].plates.Keys
      ensures m.keyboards[kb].pcbs.Values <= c.keyboards[m.keyboards[kb].newID].pcbs.Keys
      ensures "" !in m.keyboards[kb].plates.Values && "" !in m.keyboards[kb].pcbs.Values
    {
      NamesKeyboard(m, c, kb);
    }
    forall ks | ks in m.keycapSets
      ensures m.keycapSets[ks].newID in c.keycapSets && m.keycapSets[ks].newID != ""
      ensures m.keycapSets[ks].kits.Values <= c.keycapSets[m.keycapSets[ks].newID].kits.Keys
      ensures "" !in m.keycapSets[ks].kits.Values
    {
      NamesSet(m, c, ks);
    }
  }
}
