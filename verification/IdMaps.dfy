/** The restore's old-id to new-id map (cmd/mykeebs-migrate/manifest.go), without
    the array images it also records. */
module IdMaps {
  import opened Repository

  datatype MappedKeyboard = MappedKeyboard(newID: Id, plates: map<Id, Id>, pcbs: map<Id, Id>)

  datatype MappedSet = MappedSet(newID: Id, kits: map<Id, Id>)

  datatype IdMap = IdMap(
    keyboards: map<Id, MappedKeyboard>, switches: map<Id, Id>, keycapSets: map<Id, MappedSet>, builds: map<Id, Id>)

  predicate InjectiveIds(m: map<Id, Id>) {
    forall a, b :: a in m && b in m && a != b ==> m[a] != m[b]
  }

  // No two dumped items are mapped to one restored item.
  predicate Injective(m: IdMap) {
    && (forall a, b :: a in m.keyboards && b in m.keyboards && a != b ==> m.keyboards[a].newID != m.keyboards[b].newID)
    && (forall a :: a in m.keyboards ==> InjectiveIds(m.keyboards[a].plates) && InjectiveIds(m.keyboards[a].pcbs))
    && InjectiveIds(m.switches)
    && (forall a, b :: a in m.keycapSets && b in m.keycapSets && a != b ==>
          m.keycapSets[a].newID != m.keycapSets[b].newID)
    && (forall a :: a in m.keycapSets ==> InjectiveIds(m.keycapSets[a].kits))
    && InjectiveIds(m.builds)
  }

  // Every id the map gives names an item of the target collection.
  predicate Names(m: IdMap, c: Collection) {
    && (forall a :: a in m.keyboards ==>
          && m.keyboards[a].newID in c.keyboards
          && m.keyboards[a].plates.Values <= c.keyboards[m.keyboards[a].newID].plates.Keys
          && m.keyboards[a].pcbs.Values <= c.keyboards[m.keyboards[a].newID].pcbs.Keys)
    && m.switches.Values <= c.switches.Keys
    && (forall a :: a in m.keycapSets ==>
          && m.keycapSets[a].newID in c.keycapSets
          && m.keycapSets[a].kits.Values <= c.keycapSets[m.keycapSets[a].newID].kits.Keys)
    && m.builds.Values <= c.builds.Keys
  }

  // The server's ids are never empty.
  predicate NonEmptyNewIds(m: IdMap) {
    && (forall a :: a in m.keyboards ==>
          m.keyboards[a].newID != "" && "" !in m.keyboards[a].plates.Values && "" !in m.keyboards[a].pcbs.Values)
    && "" !in m.switches.Values
    && (forall a :: a in m.keycapSets ==> m.keycapSets[a].newID != "" && "" !in m.keycapSets[a].kits.Values)
  }
}
