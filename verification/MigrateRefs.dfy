/** A restored build's references: buildInputFromResolved
    (cmd/mykeebs-migrate/restore.go) turns a dumped build into a request, the
    server groups the stored kits again when it shows the build, and
    compareBuildRefs (cmd/mykeebs-migrate/verify.go) checks the result. */
module MigrateRefs {
  import opened Wrappers
  import opened Repository
  import opened KitGroups
  import opened BuildRefs
  import opened BuildCosts
  import opened IdMaps

  // A build as the API shows it, to its owner with a visibility.
  datatype BuildView = BuildView(
    keyboard: Id, plate: Option<Id>, pcb: Option<Id>, switches: seq<SwitchEntry>, keycapSets: seq<Group>,
    stabsPrice: Option<real>, visibility: Option<string>)

  datatype BuildInput = BuildInput(
    keyboard: Id, plate: Option<Id>, pcb: Option<Id>, switches: seq<SwitchEntry>, kits: seq<KitEntry>,
    stabsPrice: Option<real>, visibility: string)

  datatype InputError =
    | NoKeyboard
    | NoVisibility
    | UnmappedKeyboard
    | UnmappedPlate
    | UnmappedPcb
    | UnmappedSwitch(i: nat)
    | UnmappedSet(i: nat)
    | UnmappedKit(i: nat, j: nat)

  // ---- what is mapped, and to what ----

  predicate PartMapped(id: Option<Id>, ids: map<Id, Id>) {
    id.Some? ==> id.value in ids
  }

  predicate GroupMapped(g: Group, m: IdMap) {
    g.keycapSet in m.keycapSets && forall j :: 0 <= j < |g.kits| ==> g.kits[j] in m.keycapSets[g.keycapSet].kits
  }

  // Every reference of the build is in the map.
  predicate AllMapped(full: BuildView, m: IdMap) {
    && full.keyboard in m.keyboards
    && PartMapped(full.plate, m.keyboards[full.keyboard].plates)
    && PartMapped(full.pcb, m.keyboards[full.keyboard].pcbs)
    && (forall i :: 0 <= i < |full.switches| ==> full.switches[i].switch in m.switches)
    && forall i :: 0 <= i < |full.keycapSets| ==> GroupMapped(full.keycapSets[i], m)
  }

  predicate KitMapped(e: KitEntry, m: IdMap) {
    e.keycapSet in m.keycapSets && e.kit in m.keycapSets[e.keycapSet].kits
  }

  function MapKit(e: KitEntry, m: IdMap): KitEntry
    requires KitMapped(e, m)
  {
    KitEntry(m.keycapSets[e.keycapSet].newID, m.keycapSets[e.keycapSet].kits[e.kit])
  }

  function MapPart(id: Option<Id>, ids: map<Id, Id>): Option<Id>
    requires PartMapped(id, ids)
  {
    if id.Some? then Some(ids[id.value]) else None
  }

  // The entries are the dumped ones under the map, in order.
  predicate KitsRemapped(dumped: seq<KitEntry>, kits: seq<KitEntry>, m: IdMap) {
    && |kits| == |dumped|
    && forall i :: 0 <= i < |dumped| ==> KitMapped(dumped[i], m) && kits[i] == MapKit(dumped[i], m)
  }

  predicate SwitchesRemapped(dumped: seq<SwitchEntry>, switches: seq<SwitchEntry>, m: IdMap) {
    && |switches| == |dumped|
    && forall i :: 0 <= i < |dumped| ==>
         && dumped[i].switch in m.switches
         && switches[i] == SwitchEntry(m.switches[dumped[i].switch], dumped[i].count)
  }

  predicate Remapped(full: BuildView, input: BuildInput, m: IdMap) {
    && AllMapped(full, m)
    && input.keyboard == m.keyboards[full.keyboard].newID
    && input.plate == MapPart(full.plate, m.keyboards[full.keyboard].plates)
    && input.pcb == MapPart(full.pcb, m.keyboards[full.keyboard].pcbs)
    && SwitchesRemapped(full.switches, input.switches, m)
    && KitsRemapped(Flatten(full.keycapSets), input.kits, m)
    && input.stabsPrice == full.stabsPrice && full.visibility == Some(input.visibility)
  }

  // ---- buildInputFromResolved ----

  method SwitchEntries(full: BuildView, m: IdMap) returns (r: Result<seq<SwitchEntry>, InputError>)
    ensures r.Ok? <==> forall i :: 0 <= i < |full.switches| ==> full.switches[i].switch in m.switches
    ensures r.Ok? ==> SwitchesRemapped(full.switches, r.value, m)
  {
    var entries := [];
    for i := 0 to |full.switches|
      invariant SwitchesRemapped(full.switches[..i], entries, m)
    {
      var e := full.switches[i];
      if e.switch !in m.switches {
        return Err(UnmappedSwitch(i));
      }
      entries := entries + [SwitchEntry(m.switches[e.switch], e.count)];
    }
    assert full.switches[..|full.switches|] == full.switches;
    return Ok(entries);
  }

  lemma KitsRemappedConcat(a: seq<KitEntry>, kits: seq<KitEntry>, b: seq<KitEntry>, more: seq<KitEntry>, m: IdMap)
    requires KitsRemapped(a, kits, m) && KitsRemapped(b, more, m)
    ensures KitsRemapped(a + b, kits + more, m)
  {
  }

  method GroupKitEntries(g: Group, i: nat, m: IdMap) returns (r: Result<seq<KitEntry>, InputError>)
    requires g.keycapSet in m.keycapSets
    ensures r.Ok? <==> GroupMapped(g, m)
    ensures r.Ok? ==> KitsRemapped(GroupEntries(g), r.value, m)
  {
    var mapped, entries := m.keycapSets[g.keycapSet], [];
    for j := 0 to |g.kits|
      invariant |entries| == j && forall k :: 0 <= k < j ==>
        g.kits[k] in mapped.kits && entries[k] == KitEntry(mapped.newID, mapped.kits[g.kits[k]])
    {
      if g.kits[j] !in mapped.kits {
        return Err(UnmappedKit(i, j));
      }
      entries := entries + [KitEntry(mapped.newID, mapped.kits[g.kits[j]])];
    }
    return Ok(entries);
  }

  method KitEntries(full: BuildView, m: IdMap) returns (r: Result<seq<KitEntry>, InputError>)
    ensures r.Ok? <==> forall i :: 0 <= i < |full.keycapSets| ==> GroupMapped(full.keycapSets[i], m)
    ensures r.Ok? ==> KitsRemapped(Flatten(full.keycapSets), r.value, m)
  {
    var entries := [];
    for i := 0 to |full.keycapSets|
      invariant forall k :: 0 <= k < i ==> GroupMapped(full.keycapSets[k], m)
      invariant KitsRemapped(Flatten(full.keycapSets[..i]), entries, m)
    {
      var g := full.keycapSets[i];
      if g.keycapSet !in m.keycapSets {
        return Err(UnmappedSet(i));
      }
      var kits := GroupKitEntries(g, i, m);
      if kits.Err? {
        return Err(kits.error);
      }
      assert full.keycapSets[..i + 1] == full.keycapSets[..i] + [g];
      FlattenSnoc(full.keycapSets[..i], g);
      KitsRemappedConcat(Flatten(full.keycapSets[..i]), entries, GroupEntries(g), kits.value, m);
      entries := entries + kits.value;
    }
    assert full.keycapSets[..|full.keycapSets|] == full.keycapSets;
    return Ok(entries);
  }

  /** A build is posted only when every reference is mapped, with exactly the
      mapped references in the dumped order. */
  method BuildInputFromResolved(full: BuildView, m: IdMap) returns (r: Result<BuildInput, InputError>)
    ensures r.Ok? <==> full.keyboard != "" && full.visibility.Some? && AllMapped(full, m)
    ensures r.Ok? ==> Remapped(full, r.value, m)
  {
    if full.keyboard == "" {
      return Err(NoKeyboard);
    }
    if full.keyboard !in m.keyboards {
      return Err(UnmappedKeyboard);
    }
    var kb := m.keyboards[full.keyboard];
    if full.visibility.None? {
      return Err(NoVisibility);
    }
    var plate, pcb := None, None;
    if full.plate.Some? {
      if full.plate.value !in kb.plates {
        return Err(UnmappedPlate);
      }
      plate := Some(kb.plates[full.plate.value]);
    }
    if full.pcb.Some? {
      if full.pcb.value !in kb.pcbs {
        return Err(UnmappedPcb);
      }
      pcb := Some(kb.pcbs[full.pcb.value]);
    }
    var switches := SwitchEntries(full, m);
    if switches.Err? {
      return Err(switches.error);
    }
    var kits := KitEntries(full, m);
    if kits.Err? {
      return Err(kits.error);
    }
    return Ok(BuildInput(kb.newID, plate, pcb, switches.value, kits.value, full.stabsPrice, full.visibility.value));
  }

  // ---- the server ----

  // The build the server stores for a request, new and so without images.
  function Stored(input: BuildInput): Build {
    Build(input.keyboard, input.plate, input.pcb, input.switches, input.kits, input.stabsPrice, map[])
  }

  // How the server shows its owner a stored build: its references looked up, its kits
  // grouped by set and each shown once.
  function View(c: Collection, b: Build, visibility: string): Result<BuildView, CostError> {
    if !Shows(c, b) then Err(NotFound)
    else
      var kb := c.keyboards[b.keyboard];
      Ok(BuildView(b.keyboard,
        if FindPart(kb.plates, b.plate).Some? then b.plate else None,
        if FindPart(kb.pcbs, b.pcb).Some? then b.pcb else None,
        b.switches, GroupKits(b.kits), b.stabsPrice, Some(visibility)))
  }

  // ---- compareBuildRefs ----

  function NewIdOf(ids: map<Id, Id>, id: Id): Id {
    if id in ids then ids[id] else ""
  }

  // comparePartRef finds no difference.
  predicate PartMatches(dump: Option<Id>, live: Option<Id>, ids: map<Id, Id>) {
    && (dump.None? <==> live.None?)
    && (dump.Some? ==> NewIdOf(ids, dump.value) != "" && NewIdOf(ids, dump.value) == live.value)
  }

  predicate SwitchMatches(dump: SwitchEntry, live: SwitchEntry, m: IdMap) {
    && NewIdOf(m.switches, dump.switch) != ""
    && live == SwitchEntry(NewIdOf(m.switches, dump.switch), dump.count)
  }

  predicate KitMatches(dump: KitEntry, live: KitEntry, m: IdMap) {
    && dump.keycapSet in m.keycapSets && m.keycapSets[dump.keycapSet].newID != ""
    && NewIdOf(m.keycapSets[dump.keycapSet].kits, dump.kit) != ""
    && live == KitEntry(m.keycapSets[dump.keycapSet].newID, NewIdOf(m.keycapSets[dump.keycapSet].kits, dump.kit))
  }

  predicate Matches(dump: BuildView, live: BuildView, m: IdMap) {
    && dump.keyboard in m.keyboards && live.keyboard == m.keyboards[dump.keyboard].newID
    && PartMatches(dump.plate, live.plate, m.keyboards[dump.keyboard].plates)
    && PartMatches(dump.pcb, live.pcb, m.keyboards[dump.keyboard].pcbs)
    && |dump.switches| == |live.switches|
    && (forall i :: 0 <= i < |dump.switches| ==> SwitchMatches(dump.switches[i], live.switches[i], m))
    && |Flatten(dump.keycapSets)| == |Flatten(live.keycapSets)|
    && forall i :: 0 <= i < |Flatten(dump.keycapSets)| ==>
         KitMatches(Flatten(dump.keycapSets)[i], Flatten(live.keycapSets)[i], m)
  }

  // The first difference found.
  datatype Mismatch = KeyboardRef | PlateRef | PcbRef | SwitchCount | SwitchRef(i: nat) | KitCount | KitRef(i: nat)

  // The reference the mismatch names is one that differs.
  predicate Differs(dump: BuildView, live: BuildView, m: IdMap, found: Mismatch) {
    match found
    case KeyboardRef => dump.keyboard in m.keyboards ==> live.keyboard != m.keyboards[dump.keyboard].newID
    case PlateRef =>
      dump.keyboard in m.keyboards && !PartMatches(dump.plate, live.plate, m.keyboards[dump.keyboard].plates)
    case PcbRef =>
      dump.keyboard in m.keyboards && !PartMatches(dump.pcb, live.pcb, m.keyboards[dump.keyboard].pcbs)
    case SwitchCount => |dump.switches| != |live.switches|
    case SwitchRef(i) =>
      i < |dump.switches| == |live.switches| && !SwitchMatches(dump.switches[i], live.switches[i], m)
    case KitCount => |Flatten(dump.keycapSets)| != |Flatten(live.keycapSets)|
    case KitRef(i) =>
      && i < |Flatten(dump.keycapSets)| == |Flatten(live.keycapSets)|
      && !KitMatches(Flatten(dump.keycapSets)[i], Flatten(live.keycapSets)[i], m)
  }

  method ComparePartRef(dump: Option<Id>, live: Option<Id>, ids: map<Id, Id>) returns (same: bool)
    ensures same <==> PartMatches(dump, live, ids)
  {
    if dump.None? && live.None? {
      return true;
    }
    if dump.None? || live.None? {
      return false;
    }
    var want := NewIdOf(ids, dump.value);
    return want != "" && want == live.value;
  }

  method FlattenKits(groups: seq<Group>) returns (entries: seq<KitEntry>)
    ensures entries == Flatten(groups)
  {
    entries := [];
    for i := 0 to |groups|
      invariant entries == Flatten(groups[..i])
    {
      assert groups[..i + 1] == groups[..i] + [groups[i]];
      FlattenSnoc(groups[..i], groups[i]);
      for j := 0 to |groups[i].kits|
        invariant entries == Flatten(groups[..i]) + GroupEntries(groups[i])[..j]
      {
        entries := entries + [KitEntry(groups[i].keycapSet, groups[i].kits[j])];
      }
    }
    assert groups[..|groups|] == groups;
  }

  method CompareBuildRefs(dump: BuildView, live: BuildView, m: IdMap) returns (r: Option<Mismatch>)
    ensures r.None? <==> Matches(dump, live, m)
    ensures r.Some? ==> Differs(dump, live, m, r.value)
  {
    if dump.keyboard !in m.keyboards || live.keyboard != m.keyboards[dump.keyboard].newID {
      return Some(KeyboardRef);
    }
    var kb := m.keyboards[dump.keyboard];
    var plate := ComparePartRef(dump.plate, live.plate, kb.plates);
    if !plate {
      return Some(PlateRef);
    }
    var pcb := ComparePartRef(dump.pcb, live.pcb, kb.pcbs);
    if !pcb {
      return Some(PcbRef);
    }
    if |dump.switches| != |live.switches| {
      return Some(SwitchCount);
    }
    for i := 0 to |dump.switches|
      invariant forall k :: 0 <= k < i ==> SwitchMatches(dump.switches[k], live.switches[k], m)
    {
      var want := NewIdOf(m.switches, dump.switches[i].switch);
      if want == "" || live.switches[i].switch != want || live.switches[i].count != dump.switches[i].count {
        return Some(SwitchRef(i));
      }
    }
    var dumpKits := FlattenKits(dump.keycapSets);
    var liveKits := FlattenKits(live.keycapSets);
    if |dumpKits| != |liveKits| {
      return Some(KitCount);
    }
    for i := 0 to |dumpKits|
      invariant forall k :: 0 <= k < i ==> KitMatches(dumpKits[k], liveKits[k], m)
    {
      var wantSet, wantKit := "", "";
      if dumpKits[i].keycapSet in m.keycapSets {
        wantSet := m.keycapSets[dumpKits[i].keycapSet].newID;
        wantKit := NewIdOf(m.keycapSets[dumpKits[i].keycapSet].kits, dumpKits[i].kit);
      }
      if wantSet == "" || liveKits[i].keycapSet != wantSet || wantKit == "" || liveKits[i].kit != wantKit {
        return Some(KitRef(i));
      }
    }
    return None;
  }

  // ---- a restored build matches its dump ----

  function MapGroup(g: Group, m: IdMap): Group
    requires GroupMapped(g, m)
  {
    Group(m.keycapSets[g.keycapSet].newID,
      seq(|g.kits|, j requires 0 <= j < |g.kits| => m.keycapSets[g.keycapSet].kits[g.kits[j]]))
  }

  function MapGroups(groups: seq<Group>, m: IdMap): (r: seq<Group>)
    requires forall i :: 0 <= i < |groups| ==> GroupMapped(groups[i], m)
  {
    seq(|groups|, i requires 0 <= i < |groups| => MapGroup(groups[i], m))
  }

  lemma MapGroupsWellGrouped(groups: seq<Group>, m: IdMap)
    requires WellGrouped(groups) && Injective(m)
    requires forall i :: 0 <= i < |groups| ==> GroupMapped(groups[i], m)
    ensures WellGrouped(MapGroups(groups, m))
  {
    var mapped := MapGroups(groups, m);
    forall i, j, k | 0 <= i < |mapped| && 0 <= j < k < |mapped[i].kits|
      ensures mapped[i].kits[j] != mapped[i].kits[k]
    {
      assert GroupMapped(groups[i], m) && InjectiveIds(m.keycapSets[groups[i].keycapSet].kits);
      assert groups[i].kits[j] != groups[i].kits[k];
    }
  }

  // Mapping the groups' entries is flattening the mapped groups.
  lemma {:induction false} FlattenMapped(groups: seq<Group>, kits: seq<KitEntry>, m: IdMap)
    requires forall i :: 0 <= i < |groups| ==> GroupMapped(groups[i], m)
    requires KitsRemapped(Flatten(groups), kits, m)
    ensures kits == Flatten(MapGroups(groups, m))
  {
    if groups != [] {
      var g := groups[0];
      var n := |GroupEntries(g)|;
      assert MapGroups(groups, m)[1..] == MapGroups(groups[1..], m);
      assert Flatten(groups)[..n] == GroupEntries(g) && Flatten(groups)[n..] == Flatten(groups[1..]);
      FlattenMapped(groups[1..], kits[n..], m);
      FirstGroupMapped(g, kits, m, Flatten(groups));
      assert kits == kits[..n] + kits[n..];
    }
  }

  lemma FirstGroupMapped(g: Group, kits: seq<KitEntry>, m: IdMap, entries: seq<KitEntry>)
    requires GroupMapped(g, m) && KitsRemapped(entries, kits, m)
    requires |GroupEntries(g)| <= |entries| && entries[..|GroupEntries(g)|] == GroupEntries(g)
    ensures kits[..|GroupEntries(g)|] == GroupEntries(MapGroup(g, m))
  {
    forall j | 0 <= j < |g.kits|
      ensures kits[j] == GroupEntries(MapGroup(g, m))[j]
    {
      assert entries[..|GroupEntries(g)|][j] == entries[j];
    }
  }

  // The server keeps a request's kits in order, each in its own right.
  lemma ServerKeepsKits(dump: BuildView, input: BuildInput, m: IdMap)
    requires WellGrouped(dump.keycapSets) && Injective(m) && Remapped(dump, input, m)
    ensures Flatten(GroupKits(input.kits)) == input.kits
  {
    MapGroupsWellGrouped(dump.keycapSets, m);
    FlattenMapped(dump.keycapSets, input.kits, m);
    RegroupFlatten(MapGroups(dump.keycapSets, m));
  }

  lemma RemappedResolves(dump: BuildView, input: BuildInput, m: IdMap, c: Collection)
    requires Remapped(dump, input, m) && Names(m, c) && NonEmptyNewIds(m)
    ensures Resolves(c, Stored(input)) && NonEmptyIds(Stored(input))
  {
    var b := Stored(input);
    forall i | 0 <= i < |b.switches|
      ensures b.switches[i].switch in c.switches && b.switches[i].switch != ""
    {
      assert b.switches[i].switch in m.switches.Values;
    }
    forall i | 0 <= i < |b.kits|
      ensures b.kits[i].keycapSet in c.keycapSets && b.kits[i].kit in c.keycapSets[b.kits[i].keycapSet].kits
      ensures b.kits[i].keycapSet != "" && b.kits[i].kit != ""
    {
      var e := Flatten(dump.keycapSets)[i];
      assert KitMapped(e, m) && b.kits[i] == MapKit(e, m);
      assert b.kits[i].kit in m.keycapSets[e.keycapSet].kits.Values;
    }
  }

  lemma KitsMatch(dumped: seq<KitEntry>, kits: seq<KitEntry>, m: IdMap)
    requires KitsRemapped(dumped, kits, m) && NonEmptyNewIds(m)
    ensures forall i :: 0 <= i < |dumped| ==> KitMatches(dumped[i], kits[i], m)
  {
    forall i | 0 <= i < |dumped|
      ensures KitMatches(dumped[i], kits[i], m)
    {
      assert KitMapped(dumped[i], m);
      assert kits[i].kit in m.keycapSets[dumped[i].keycapSet].kits.Values;
    }
  }

  lemma PartStillMatches(parts: map<Id, Part>, dump: Option<Id>, ids: map<Id, Id>)
    requires PartMapped(dump, ids) && ids.Values <= parts.Keys && "" !in ids.Values
    ensures PartMatches(dump, if FindPart(parts, MapPart(dump, ids)).Some? then MapPart(dump, ids) else None, ids)
  {
    if dump.Some? {
      assert ids[dump.value] in ids.Values;
    }
  }

  lemma SwitchesMatch(dump: seq<SwitchEntry>, switches: seq<SwitchEntry>, m: IdMap)
    requires SwitchesRemapped(dump, switches, m) && NonEmptyNewIds(m)
    ensures forall i :: 0 <= i < |dump| ==> SwitchMatches(dump[i], switches[i], m)
  {
    forall i | 0 <= i < |dump|
      ensures SwitchMatches(dump[i], switches[i], m)
    {
      assert m.switches[dump[i].switch] in m.switches.Values;
    }
  }

  lemma PartsMatch(dump: BuildView, input: BuildInput, m: IdMap, c: Collection)
    requires Remapped(dump, input, m) && NonEmptyNewIds(m) && Names(m, c)
    ensures View(c, Stored(input), input.visibility).Ok?
    ensures var live := View(c, Stored(input), input.visibility).value;
      && live.keyboard == m.keyboards[dump.keyboard].newID
      && PartMatches(dump.plate, live.plate, m.keyboards[dump.keyboard].plates)
      && PartMatches(dump.pcb, live.pcb, m.keyboards[dump.keyboard].pcbs)
  {
    RemappedResolves(dump, input, m, c);
    var mapped := m.keyboards[dump.keyboard];
    PartStillMatches(c.keyboards[mapped.newID].plates, dump.plate, mapped.plates);
    PartStillMatches(c.keyboards[mapped.newID].pcbs, dump.pcb, mapped.pcbs);
  }

  lemma RemappedMatches(dump: BuildView, input: BuildInput, m: IdMap, c: Collection)
    requires WellGrouped(dump.keycapSets) && Remapped(dump, input, m)
    requires Injective(m) && NonEmptyNewIds(m) && Names(m, c)
    ensures var live := View(c, Stored(input), input.visibility); live.Ok? && Matches(dump, live.value, m)
  {
    ServerKeepsKits(dump, input, m);
    KitsMatch(Flatten(dump.keycapSets), input.kits, m);
    SwitchesMatch(dump.switches, input.switches, m);
    PartsMatch(dump, input, m, c);
  }

  lemma ViewIsWellGrouped(c: Collection, b: Build, visibility: string)
    requires View(c, b, visibility).Ok?
    ensures WellGrouped(View(c, b, visibility).value.keycapSets)
  {
    GroupKitsWellGrouped(b.kits);
  }

  /** A build dumped from the API, posted through an injective map that names the
      target's items, passes the server's reference check, shows there, and
      compares equal to its dump. */
  lemma RestoredBuildMatches(source: Collection, b: Build, dump: BuildView, input: BuildInput, m: IdMap, c: Collection)
    requires dump.visibility.Some? && View(source, b, dump.visibility.value) == Ok(dump)
    requires Remapped(dump, input, m) && Injective(m) && NonEmptyNewIds(m) && Names(m, c)
    ensures Uncached(StoresOf(c), Stored(input)) == Ok([])
    ensures var live := View(c, Stored(input), input.visibility); live.Ok? && Matches(dump, live.value, m)
  {
    ViewIsWellGrouped(source, b, dump.visibility.value);
    RemappedResolves(dump, input, m, c);
    PassesIffResolves(c, Stored(input));
    RemappedMatches(dump, input, m, c);
  }

  lemma {:induction false} DistinctHasNoRepeats(entries: seq<KitEntry>)
    ensures forall i, j :: 0 <= i < j < |Distinct(entries)| ==> Distinct(entries)[i] != Distinct(entries)[j]
  {
    if entries != [] {
      DistinctHasNoRepeats(entries[..|entries| - 1]);
    }
  }

  lemma NoRepeatsOfMultiset(a: seq<KitEntry>, b: seq<KitEntry>, i: nat, j: nat)
    requires multiset(a) == multiset(b) && i < j < |a| && a[i] == a[j]
    ensures exists k, l :: 0 <= k < l < |b| && b[k] == b[l]
  {
    var e := a[i];
    assert a == a[..j] + [e] + a[j + 1..];
    assert a[..j][i] == e;
    assert multiset(b)[e] >= 2;
    var k :| 0 <= k < |b| && b[k] == e;
    assert b == b[..k] + [e] + b[k + 1..];
    if e in b[..k] {
      var l :| 0 <= l < k && b[..k][l] == e;
      assert b[l] == b[k];
    } else {
      assert e in b[k + 1..];
      var l :| 0 <= l < |b| - k - 1 && b[k + 1..][l] == e;
      assert b[k + 1 + l] == e;
    }
  }

  /** Conversely a restored build that matches shows two dumped kits as two: the
      comparison would catch a map that merged them. */
  lemma MatchKeepsKitsApart(dump: BuildView, input: BuildInput, m: IdMap, c: Collection)
    requires Remapped(dump, input, m)
    requires View(c, Stored(input), input.visibility).Ok?
    requires Matches(dump, View(c, Stored(input), input.visibility).value, m)
    ensures forall i, j :: 0 <= i < j < |input.kits| ==> input.kits[i] != input.kits[j]
  {
    var shown := Flatten(GroupKits(input.kits));
    GroupKitsPermutesDistinct(input.kits);
    DistinctHasNoRepeats(input.kits);
    forall i | 0 <= i < |input.kits|
      ensures shown[i] == input.kits[i]
    {
      assert KitMatches(Flatten(dump.keycapSets)[i], shown[i], m);
    }
    assert shown == input.kits;
    forall i, j | 0 <= i < j < |input.kits|
      ensures input.kits[i] != input.kits[j]
    {
      if input.kits[i] == input.kits[j] {
        NoRepeatsOfMultiset(input.kits, Distinct(input.kits), i, j);
      }
    }
  }
}
