/** ValidateReferences (internal/buildrefs/buildrefs.go): the check that guards
    every build write, with its caches of the keycap sets looked up. */
module BuildRefs {
  import opened Wrappers
  import opened Repository

  // A repository's answer to a Get: the item, ErrNotFound, or another error.
  datatype Answer<+T> = Found(item: T) | Missing | Failed

  datatype Stores = Stores(
    keyboard: Id -> Answer<Keyboard>, switch: Id -> Answer<Switch>, keycapSet: Id -> Answer<KeycapSet>)

  datatype Field =
    | KeyboardField | PlateField | PcbField
    | SwitchField(i: nat) | KeycapSetField(i: nat) | KitField(i: nat)

  datatype FieldError = FieldError(field: Field, value: Id)

  datatype LookupFailed = LookupFailed

  type Errors = Result<seq<FieldError>, LookupFailed>

  // The errors of two checks in order, or the first that failed.
  function Then(a: Errors, b: Errors): Errors {
    if a.Err? then a else if b.Err? then b else Ok(a.value + b.value)
  }

  function PartErrors(field: Field, parts: map<Id, Part>, id: Option<Id>): seq<FieldError> {
    if id.Some? && FindPart(parts, id).None? then [FieldError(field, id.value)] else []
  }

  function KeyboardErrors(s: Stores, b: Build): Errors {
    if b.keyboard == "" then Ok([])
    else
      match s.keyboard(b.keyboard)
      case Missing => Ok([FieldError(KeyboardField, b.keyboard)])
      case Failed => Err(LookupFailed)
      case Found(kb) => Ok(PartErrors(PlateField, kb.plates, b.plate) + PartErrors(PcbField, kb.pcbs, b.pcb))
  }

  function SwitchErrors(s: Stores, i: nat, e: SwitchEntry): Errors {
    if e.switch == "" then Ok([])
    else
      match s.switch(e.switch)
      case Missing => Ok([FieldError(SwitchField(i), e.switch)])
      case Failed => Err(LookupFailed)
      case Found(_) => Ok([])
  }

  function KitErrors(s: Stores, i: nat, e: KitEntry): Errors {
    if e.keycapSet == "" then Ok([])
    else
      match s.keycapSet(e.keycapSet)
      case Missing => Ok([FieldError(KeycapSetField(i), e.keycapSet)])
      case Failed => Err(LookupFailed)
      case Found(ks) => Ok(if e.kit == "" || e.kit in ks.kits then [] else [FieldError(KitField(i), e.kit)])
  }

  function AllSwitchErrors(s: Stores, entries: seq<SwitchEntry>): Errors {
    if entries == [] then Ok([])
    else Then(AllSwitchErrors(s, entries[..|entries| - 1]), SwitchErrors(s, |entries| - 1, entries[|entries| - 1]))
  }

  function AllKitErrors(s: Stores, entries: seq<KitEntry>): Errors {
    if entries == [] then Ok([])
    else Then(AllKitErrors(s, entries[..|entries| - 1]), KitErrors(s, |entries| - 1, entries[|entries| - 1]))
  }

  // What looking every reference up, each time anew, reports.
  function Uncached(s: Stores, b: Build): Errors {
    Then(Then(KeyboardErrors(s, b), AllSwitchErrors(s, b.switches)), AllKitErrors(s, b.kits))
  }

  lemma {:induction false} SwitchErrorStays(s: Stores, entries: seq<SwitchEntry>, n: nat)
    requires n <= |entries| && AllSwitchErrors(s, entries[..n]).Err?
    ensures AllSwitchErrors(s, entries) == Err(LookupFailed)
    decreases |entries| - n
  {
    if n == |entries| {
      assert entries[..n] == entries;
      assert AllSwitchErrors(s, entries).error.LookupFailed?;
    } else {
      assert entries[..n + 1][..n] == entries[..n];
      SwitchErrorStays(s, entries, n + 1);
    }
  }

  lemma {:induction false} KitErrorStays(s: Stores, entries: seq<KitEntry>, n: nat)
    requires n <= |entries| && AllKitErrors(s, entries[..n]).Err?
    ensures AllKitErrors(s, entries) == Err(LookupFailed)
    decreases |entries| - n
  {
    if n == |entries| {
      assert entries[..n] == entries;
      assert AllKitErrors(s, entries).error.LookupFailed?;
    } else {
      assert entries[..n + 1][..n] == entries[..n];
      KitErrorStays(s, entries, n + 1);
    }
  }

  method ValidateKeyboard(s: Stores, b: Build) returns (r: Errors)
    ensures r == KeyboardErrors(s, b)
  {
    var errs: seq<FieldError> := [];
    if b.keyboard != "" {
      match s.keyboard(b.keyboard) {
        case Missing =>
          errs := [FieldError(KeyboardField, b.keyboard)];
        case Failed =>
          return Err(LookupFailed);
        case Found(kb) =>
          if b.plate.Some? && FindPart(kb.plates, b.plate).None? {
            errs := errs + [FieldError(PlateField, b.plate.value)];
          }
          if b.pcb.Some? && FindPart(kb.pcbs, b.pcb).None? {
            errs := errs + [FieldError(PcbField, b.pcb.value)];
          }
          assert errs == PartErrors(PlateField, kb.plates, b.plate) + PartErrors(PcbField, kb.pcbs, b.pcb);
      }
    }
    return Ok(errs);
  }

  method ValidateSwitches(s: Stores, entries: seq<SwitchEntry>) returns (r: Errors)
    ensures r == AllSwitchErrors(s, entries)
  {
    var errs: seq<FieldError> := [];
    for i := 0 to |entries|
      invariant AllSwitchErrors(s, entries[..i]) == Ok(errs)
    {
      assert entries[..i + 1][..i] == entries[..i] && errs + [] == errs;
      var e := entries[i];
      if e.switch != "" {
        match s.switch(e.switch) {
          case Missing =>
            errs := errs + [FieldError(SwitchField(i), e.switch)];
          case Failed =>
            SwitchErrorStays(s, entries, i + 1);
            return Err(LookupFailed);
          case Found(_) =>
        }
      }
    }
    assert entries[..|entries|] == entries;
    return Ok(errs);
  }

  // The sets found and not found so far are kept, and not looked up again.
  method ValidateKits(s: Stores, entries: seq<KitEntry>) returns (r: Errors)
    ensures r == AllKitErrors(s, entries)
  {
    var errs: seq<FieldError> := [];
    var found: map<Id, KeycapSet> := map[];
    var notFound: set<Id> := {};
    for i := 0 to |entries|
      invariant AllKitErrors(s, entries[..i]) == Ok(errs)
      invariant forall id :: id in found ==> s.keycapSet(id) == Found(found[id])
      invariant forall id :: id in notFound ==> s.keycapSet(id) == Missing
    {
      assert entries[..i + 1][..i] == entries[..i] && errs + [] == errs;
      var e := entries[i];
      if e.keycapSet == "" {
        continue;
      }
      if e.keycapSet !in found {
        if e.keycapSet in notFound {
          errs := errs + [FieldError(KeycapSetField(i), e.keycapSet)];
          continue;
        }
        match s.keycapSet(e.keycapSet) {
          case Missing =>
            notFound := notFound + {e.keycapSet};
            errs := errs + [FieldError(KeycapSetField(i), e.keycapSet)];
            continue;
          case Failed =>
            KitErrorStays(s, entries, i + 1);
            return Err(LookupFailed);
          case Found(ks) =>
            found := found[e.keycapSet := ks];
        }
      }
      if e.kit != "" && e.kit !in found[e.keycapSet].kits {
        errs := errs + [FieldError(KitField(i), e.kit)];
      }
    }
    assert entries[..|entries|] == entries;
    return Ok(errs);
  }

  /** The caches change nothing: the errors and their order are those of fresh
      lookups. */
  method ValidateReferences(s: Stores, b: Build) returns (r: Errors)
    ensures r == Uncached(s, b)
  {
    r := ValidateKeyboard(s, b);
    if r.Err? {
      return;
    }
    var switches := ValidateSwitches(s, b.switches);
    if switches.Err? {
      return switches;
    }
    var kits := ValidateKits(s, b.kits);
    if kits.Err? {
      return kits;
    }
    return Ok(r.value + switches.value + kits.value);
  }

  // ---- what the check reports ----

  predicate SwitchLookupFails(s: Stores, entries: seq<SwitchEntry>) {
    exists i :: 0 <= i < |entries| && entries[i].switch != "" && s.switch(entries[i].switch).Failed?
  }

  predicate SetLookupFails(s: Stores, entries: seq<KitEntry>) {
    exists i :: 0 <= i < |entries| && entries[i].keycapSet != "" && s.keycapSet(entries[i].keycapSet).Failed?
  }

  // A lookup the check makes fails for another reason than a missing item.
  predicate LookupFails(s: Stores, b: Build) {
    || (b.keyboard != "" && s.keyboard(b.keyboard).Failed?)
    || SwitchLookupFails(s, b.switches)
    || SetLookupFails(s, b.kits)
  }

  predicate WrongSwitch(s: Stores, entries: seq<SwitchEntry>, e: FieldError) {
    && e.field.SwitchField? && e.field.i < |entries|
    && entries[e.field.i].switch == e.value != "" && s.switch(e.value).Missing?
  }

  predicate WrongKit(s: Stores, entries: seq<KitEntry>, e: FieldError) {
    || (&& e.field.KeycapSetField? && e.field.i < |entries|
        && entries[e.field.i].keycapSet == e.value != "" && s.keycapSet(e.value).Missing?)
    || (&& e.field.KitField? && e.field.i < |entries|
        && entries[e.field.i].keycapSet != "" && entries[e.field.i].kit == e.value != ""
        && var ks := s.keycapSet(entries[e.field.i].keycapSet); ks.Found? && e.value !in ks.item.kits)
  }

  predicate WrongPart(parts: map<Id, Part>, id: Option<Id>, value: Id) {
    id == Some(value) && value !in parts
  }

  predicate WrongKeyboard(s: Stores, b: Build, e: FieldError) {
    match e.field
    case KeyboardField => b.keyboard == e.value != "" && s.keyboard(e.value).Missing?
    case PlateField =>
      b.keyboard != "" && var kb := s.keyboard(b.keyboard); kb.Found? && WrongPart(kb.item.plates, b.plate, e.value)
    case PcbField =>
      b.keyboard != "" && var kb := s.keyboard(b.keyboard); kb.Found? && WrongPart(kb.item.pcbs, b.pcb, e.value)
    case _ => false
  }

  // The field holds that value, and it names no item; or, under a keyboard or set
  // that was found, no plate, PCB or kit of it.
  predicate Wrong(s: Stores, b: Build, e: FieldError) {
    WrongKeyboard(s, b, e) || WrongSwitch(s, b.switches, e) || WrongKit(s, b.kits, e)
  }

  // The order of the build's fields.
  predicate Before(a: Field, b: Field) {
    match b
    case KeyboardField => false
    case PlateField => a.KeyboardField?
    case PcbField => a.KeyboardField? || a.PlateField?
    case SwitchField(j) => if a.SwitchField? then a.i < j else a.KeyboardField? || a.PlateField? || a.PcbField?
    case KeycapSetField(j) => if a.KeycapSetField? || a.KitField? then a.i < j else true
    case KitField(j) => if a.KeycapSetField? || a.KitField? then a.i < j else true
  }

  predicate InFieldOrder(errs: seq<FieldError>) {
    forall i, j :: 0 <= i < j < |errs| ==> Before(errs[i].field, errs[j].field)
  }

  lemma KeyboardReports(s: Stores, b: Build)
    ensures KeyboardErrors(s, b).Err? <==> b.keyboard != "" && s.keyboard(b.keyboard).Failed?
    ensures var r := KeyboardErrors(s, b);
      r.Ok? ==> InFieldOrder(r.value) && forall e :: e in r.value <==> WrongKeyboard(s, b, e)
  {
    var r := KeyboardErrors(s, b);
    if r.Ok? && b.keyboard != "" && s.keyboard(b.keyboard).Found? {
      var kb := s.keyboard(b.keyboard).item;
      var plate, pcb := PartErrors(PlateField, kb.plates, b.plate), PartErrors(PcbField, kb.pcbs, b.pcb);
      InOrderThen(plate, pcb);
    }
  }

  lemma {:induction false} SwitchReports(s: Stores, entries: seq<SwitchEntry>)
    ensures AllSwitchErrors(s, entries).Err? <==> SwitchLookupFails(s, entries)
    ensures var r := AllSwitchErrors(s, entries);
      r.Ok? ==> InFieldOrder(r.value) && forall e :: e in r.value <==> WrongSwitch(s, entries, e)
  {
    if entries != [] {
      var before, n := entries[..|entries| - 1], |entries| - 1;
      SwitchReports(s, before);
      assert forall i :: 0 <= i < n ==> before[i] == entries[i];
      assert SwitchLookupFails(s, entries) <==>
        SwitchLookupFails(s, before) || (entries[n].switch != "" && s.switch(entries[n].switch).Failed?);
      if !SwitchLookupFails(s, entries) {
        var last := SwitchErrors(s, n, entries[n]).value;
        forall e
          ensures WrongSwitch(s, entries, e) <==> WrongSwitch(s, before, e) || e in last
        {
          assert e in last ==> e == last[0];
          assert e.field == SwitchField(n) && WrongSwitch(s, entries, e) ==> last == [e];
        }
        InOrderThen(AllSwitchErrors(s, before).value, last);
      }
    }
  }

  // The last entry's part of the errors.
  lemma LastKitReports(s: Stores, entries: seq<KitEntry>)
    requires entries != []
    ensures var before, last := entries[..|entries| - 1], KitErrors(s, |entries| - 1, entries[|entries| - 1]);
      && (SetLookupFails(s, entries) <==> SetLookupFails(s, before) || last.Err?)
      && (last.Ok? ==> forall e :: WrongKit(s, entries, e) <==> WrongKit(s, before, e) || e in last.value)
      && (last.Ok? ==> InFieldOrder(last.value))
  {
    var before, n := entries[..|entries| - 1], |entries| - 1;
    assert forall i :: 0 <= i < n ==> before[i] == entries[i];
    var last := KitErrors(s, n, entries[n]);
    assert last.Err? ==> entries[n].keycapSet != "" && s.keycapSet(entries[n].keycapSet).Failed?;
    if last.Ok? {
      forall e
        ensures WrongKit(s, entries, e) <==> WrongKit(s, before, e) || e in last.value
      {
        assert e in last.value ==> e == last.value[0];
        assert (e.field == KeycapSetField(n) || e.field == KitField(n)) && WrongKit(s, entries, e) ==>
          last.value == [e];
      }
    }
  }

  lemma {:induction false} KitReports(s: Stores, entries: seq<KitEntry>)
    ensures AllKitErrors(s, entries).Err? <==> SetLookupFails(s, entries)
    ensures var r := AllKitErrors(s, entries);
      r.Ok? ==> InFieldOrder(r.value) && forall e :: e in r.value <==> WrongKit(s, entries, e)
  {
    if entries != [] {
      var before, n := entries[..|entries| - 1], |entries| - 1;
      KitReports(s, before);
      LastKitReports(s, entries);
      if !SetLookupFails(s, entries) {
        InOrderThen(AllKitErrors(s, before).value, KitErrors(s, n, entries[n]).value);
      }
    }
  }

  /** The check fails exactly when a lookup of a non-empty id does. Otherwise it
      reports exactly the fields that name nothing, each once with its value, in
      the order of the build's fields. */
  lemma ReportsExactly(s: Stores, b: Build)
    ensures Uncached(s, b).Err? <==> LookupFails(s, b)
    ensures var r := Uncached(s, b);
      r.Ok? ==> InFieldOrder(r.value) && forall e :: e in r.value <==> Wrong(s, b, e)
  {
    hide KeyboardErrors, AllSwitchErrors, AllKitErrors, WrongKeyboard, WrongSwitch, WrongKit;
    KeyboardReports(s, b);
    SwitchReports(s, b.switches);
    KitReports(s, b.kits);
    FieldsApart(s, b);
    if !LookupFails(s, b) {
      var keyboard, switches, kits :=
        KeyboardErrors(s, b).value, AllSwitchErrors(s, b.switches).value, AllKitErrors(s, b.kits).value;
      assert Uncached(s, b).value == keyboard + switches + kits;
      InOrderThen(keyboard, switches);
      InOrderThen(keyboard + switches, kits);
    }
  }

  lemma FieldsApart(s: Stores, b: Build)
    ensures forall e, e' :: WrongKeyboard(s, b, e) && WrongSwitch(s, b.switches, e') ==> Before(e.field, e'.field)
    ensures forall e, e' :: WrongKeyboard(s, b, e) && WrongKit(s, b.kits, e') ==> Before(e.field, e'.field)
    ensures forall e, e' :: WrongSwitch(s, b.switches, e) && WrongKit(s, b.kits, e') ==> Before(e.field, e'.field)
  {
  }

  lemma InOrderThen(a: seq<FieldError>, b: seq<FieldError>)
    requires InFieldOrder(a) && InFieldOrder(b)
    requires forall x, y :: x in a && y in b ==> Before(x.field, y.field)
    ensures InFieldOrder(a + b)
  {
  }

  // ---- what passing the check means ----

  function Get<T>(m: map<Id, T>, id: Id): Answer<T> {
    if id in m then Found(m[id]) else Missing
  }

  function StoresOf(c: Collection): Stores {
    Stores(id => Get(c.keyboards, id), id => Get(c.switches, id), id => Get(c.keycapSets, id))
  }

  // Required fields and minimum lengths upstream let no empty id through.
  predicate NonEmptyIds(b: Build) {
    && b.keyboard != ""
    && (forall i :: 0 <= i < |b.switches| ==> b.switches[i].switch != "")
    && forall i :: 0 <= i < |b.kits| ==> b.kits[i].keycapSet != "" && b.kits[i].kit != ""
  }

  predicate PartResolves(parts: map<Id, Part>, id: Option<Id>) {
    id.Some? ==> id.value in parts
  }

  // Everything a build refers to is in the collection.
  predicate Resolves(c: Collection, b: Build) {
    && b.keyboard in c.keyboards
    && PartResolves(c.keyboards[b.keyboard].plates, b.plate)
    && PartResolves(c.keyboards[b.keyboard].pcbs, b.pcb)
    && (forall i :: 0 <= i < |b.switches| ==> b.switches[i].switch in c.switches)
    && forall i :: 0 <= i < |b.kits| ==>
         b.kits[i].keycapSet in c.keycapSets && b.kits[i].kit in c.keycapSets[b.kits[i].keycapSet].kits
  }

  lemma NoErrors(a: Errors, b: Errors)
    ensures Then(a, b) == Ok([]) <==> a == Ok([]) && b == Ok([])
  {
    if a.Ok? && b.Ok? {
      assert |a.value + b.value| == |a.value| + |b.value|;
    }
  }

  lemma {:induction false} SwitchesPass(c: Collection, entries: seq<SwitchEntry>)
    ensures AllSwitchErrors(StoresOf(c), entries).Ok?
    ensures AllSwitchErrors(StoresOf(c), entries) == Ok([]) <==>
      forall i :: 0 <= i < |entries| ==> entries[i].switch == "" || entries[i].switch in c.switches
  {
    if entries != [] {
      var before := entries[..|entries| - 1];
      SwitchesPass(c, before);
      NoErrors(AllSwitchErrors(StoresOf(c), before), SwitchErrors(StoresOf(c), |before|, entries[|before|]));
      assert forall i :: 0 <= i < |before| ==> before[i] == entries[i];
    }
  }

  // The entry is in the collection, as far as the check looks: an empty set id
  // is skipped with its kit, and an empty kit id alone.
  predicate KitPasses(c: Collection, e: KitEntry) {
    e.keycapSet == "" || (e.keycapSet in c.keycapSets && (e.kit == "" || e.kit in c.keycapSets[e.keycapSet].kits))
  }

  lemma {:induction false} KitsPass(c: Collection, entries: seq<KitEntry>)
    ensures AllKitErrors(StoresOf(c), entries).Ok?
    ensures AllKitErrors(StoresOf(c), entries) == Ok([]) <==>
      forall i :: 0 <= i < |entries| ==> KitPasses(c, entries[i])
  {
    if entries != [] {
      var before := entries[..|entries| - 1];
      KitsPass(c, before);
      NoErrors(AllKitErrors(StoresOf(c), before), KitErrors(StoresOf(c), |before|, entries[|before|]));
      assert forall i :: 0 <= i < |before| ==> before[i] == entries[i];
    }
  }

  predicate KeyboardPasses(c: Collection, b: Build) {
    b.keyboard == ""
    || (&& b.keyboard in c.keyboards
        && PartResolves(c.keyboards[b.keyboard].plates, b.plate)
        && PartResolves(c.keyboards[b.keyboard].pcbs, b.pcb))
  }

  /** When a build passes, whatever it holds: exactly when everything it refers to
      by a non-empty id is in the collection. */
  lemma PassesIff(c: Collection, b: Build)
    ensures Uncached(StoresOf(c), b) == Ok([]) <==>
      && KeyboardPasses(c, b)
      && (forall i :: 0 <= i < |b.switches| ==> b.switches[i].switch == "" || b.switches[i].switch in c.switches)
      && forall i :: 0 <= i < |b.kits| ==> KitPasses(c, b.kits[i])
  {
    SwitchesPass(c, b.switches);
    KitsPass(c, b.kits);
    var stores := StoresOf(c);
    if b.keyboard in c.keyboards {
      var kb := c.keyboards[b.keyboard];
      NoErrors(Ok(PartErrors(PlateField, kb.plates, b.plate)), Ok(PartErrors(PcbField, kb.pcbs, b.pcb)));
    }
    NoErrors(KeyboardErrors(stores, b), AllSwitchErrors(stores, b.switches));
    NoErrors(Then(KeyboardErrors(stores, b), AllSwitchErrors(stores, b.switches)), AllKitErrors(stores, b.kits));
  }

  /** So a build without empty ids passes exactly when all of it resolves. */
  lemma PassesIffResolves(c: Collection, b: Build)
    requires NonEmptyIds(b)
    ensures Uncached(StoresOf(c), b) == Ok([]) <==> Resolves(c, b)
  {
    PassesIff(c, b);
  }
}
