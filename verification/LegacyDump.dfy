/** Upgrading dumps taken before keyboards had plate and PCB lists
    (cmd/mykeebs-migrate/legacy.go), on parsed JSON. */
module LegacyDump {
  import opened Wrappers

  datatype Json =
    | Null | Bool(b: bool) | Num(n: real) | Str(s: string)
    | Arr(items: seq<Json>) | Obj(fields: map<string, Json>)

  datatype UpgradeError = NotAnObject | PlateNotAString

  const LEGACY_PCB_ID := "pcb"

  // ---- plate ids ----

  // strconv's decimal form.
  function Itoa(n: nat): (s: string)
    ensures |s| >= 1 && '#' !in s
  {
    var digit := ('0' as int + n % 10) as char;
    if n < 10 then [digit] else Itoa(n / 10) + [digit]
  }

  lemma {:induction false} ItoaInjective(a: nat, b: nat)
    requires Itoa(a) == Itoa(b)
    ensures a == b
  {
    var s, t := Itoa(a), Itoa(b);
    assert s[|s| - 1] == t[|t| - 1];
    if a >= 10 && b >= 10 {
      assert Itoa(a / 10) == s[..|s| - 1] == t[..|t| - 1] == Itoa(b / 10);
      ItoaInjective(a / 10, b / 10);
    }
  }

  function Value(digits: string): int {
    if digits == [] then 0
    else Value(digits[..|digits| - 1]) * 10 + digits[|digits| - 1] as int - '0' as int
  }

  /** It reads as the number, in digits, with no zero before them. */
  lemma {:induction false} ItoaIsDecimal(n: nat)
    ensures Value(Itoa(n)) == n
    ensures forall i :: 0 <= i < |Itoa(n)| ==> '0' <= Itoa(n)[i] <= '9'
    ensures n > 0 ==> Itoa(n)[0] != '0'
  {
    var s := Itoa(n);
    if n >= 10 {
      ItoaIsDecimal(n / 10);
      assert s[..|s| - 1] == Itoa(n / 10);
    } else {
      assert s[..0] == [];
    }
  }

  // legacyPlateID.
  function PlateIdOf(material: string, nth: nat): string {
    if nth == 1 then material else material + "#" + Itoa(nth)
  }

  function Count(materials: seq<string>, m: string): nat {
    if materials == [] then 0
    else Count(materials[..|materials| - 1], m) + if materials[|materials| - 1] == m then 1 else 0
  }

  // The id of the i-th plate: its material, numbered when it repeats.
  function PlateId(materials: seq<string>, i: nat): string
    requires i < |materials|
  {
    PlateIdOf(materials[i], Count(materials[..i], materials[i]) + 1)
  }

  lemma CountSnoc(materials: seq<string>, i: nat, m: string)
    requires i < |materials|
    ensures Count(materials[..i + 1], m) == Count(materials[..i], m) + if materials[i] == m then 1 else 0
  {
    assert materials[..i + 1][..i] == materials[..i];
  }

  lemma {:induction false} CountGrows(materials: seq<string>, i: nat, j: nat, m: string)
    requires i <= j <= |materials|
    ensures Count(materials[..i], m) <= Count(materials[..j], m)
    decreases j
  {
    if i < j {
      CountGrows(materials, i, j - 1, m);
      CountSnoc(materials, j - 1, m);
    }
  }

  // The n-th plate of a material.
  lemma {:induction false} FindNth(materials: seq<string>, m: string, n: nat) returns (j: nat)
    requires 1 <= n <= Count(materials, m)
    ensures j < |materials| && materials[j] == m && Count(materials[..j], m) + 1 == n
  {
    var before := materials[..|materials| - 1];
    if n <= Count(before, m) {
      j := FindNth(before, m, n);
      assert before[..j] == materials[..j];
    } else {
      j := |materials| - 1;
    }
  }

  lemma {:induction false} InMeansCounted(materials: seq<string>, m: string)
    ensures m in materials <==> Count(materials, m) >= 1
  {
    if materials != [] {
      InMeansCounted(materials[..|materials| - 1], m);
      assert materials == materials[..|materials| - 1] + [materials[|materials| - 1]];
    }
  }

  lemma HashIsInSuffix(a: string, x: string, b: string, y: string)
    requires |a| < |b| && a + "#" + x == b + "#" + y
    ensures '#' in x
  {
    assert (a + "#" + x)[|b|] == x[|b| - |a| - 1] == (b + "#" + y)[|b|];
  }

  // A numbered id splits at its last '#' in one way.
  lemma NumberedSplits(a: string, x: string, b: string, y: string)
    requires '#' !in x && '#' !in y && a + "#" + x == b + "#" + y
    ensures a == b && x == y
  {
    if |a| < |b| {
      HashIsInSuffix(a, x, b, y);
      assert false;
    } else if |b| < |a| {
      HashIsInSuffix(b, y, a, x);
      assert false;
    }
    var s := a + "#" + x;
    assert s[..|a|] == a && s[..|a|] == (b + "#" + y)[..|b|] == b;
    assert s[|a| + 1..] == x && s[|a| + 1..] == (b + "#" + y)[|b| + 1..] == y;
  }

  predicate DistinctPlateIds(materials: seq<string>) {
    forall i, j :: 0 <= i < j < |materials| ==> PlateId(materials, i) != PlateId(materials, j)
  }

  // A listed material is another's numbered id.
  predicate Clashes(materials: seq<string>, m: string, n: nat) {
    m in materials && 2 <= n <= Count(materials, m) && PlateIdOf(m, n) in materials
  }

  lemma SamePlateIdClashes(materials: seq<string>, i: nat, j: nat)
    requires i < j < |materials| && PlateId(materials, i) == PlateId(materials, j)
    ensures exists m, n :: Clashes(materials, m, n)
  {
    var a, b := materials[i], materials[j];
    var p, q := Count(materials[..i], a) + 1, Count(materials[..j], b) + 1;
    CountSnoc(materials, i, a);
    CountSnoc(materials, j, b);
    assert materials[..|materials|] == materials;
    CountGrows(materials, i + 1, |materials|, a);
    CountGrows(materials, j + 1, |materials|, b);
    CountGrows(materials, i + 1, j, a);
    if p >= 2 && q >= 2 {
      NumberedSplits(a, Itoa(p), b, Itoa(q));
      ItoaInjective(p, q);
      assert false;
    } else if p >= 2 {
      assert Clashes(materials, a, p);
    } else if q >= 2 {
      assert Clashes(materials, b, q);
    }
  }

  lemma ClashRepeatsId(materials: seq<string>, m: string, n: nat)
    requires Clashes(materials, m, n)
    ensures !DistinctPlateIds(materials)
  {
    var j := FindNth(materials, m, n);
    var id := PlateIdOf(m, n);
    InMeansCounted(materials, id);
    var i := FindNth(materials, id, 1);
    assert |id| > |m|;
    assert PlateId(materials, i) == id == PlateId(materials, j);
  }

  /** A keyboard's upgraded plates have distinct ids exactly when no material in
      its list is another's numbered id; */
  lemma PlateIdsDistinctIff(materials: seq<string>)
    ensures DistinctPlateIds(materials) <==> !exists m, n :: Clashes(materials, m, n)
  {
    if m, n :| Clashes(materials, m, n) {
      ClashRepeatsId(materials, m, n);
    }
    if !DistinctPlateIds(materials) {
      var i, j :| 0 <= i < j < |materials| && PlateId(materials, i) == PlateId(materials, j);
      SamePlateIdClashes(materials, i, j);
    }
  }

  /** so always when no material contains '#'. */
  lemma PlateIdsDistinct(materials: seq<string>)
    requires forall m :: m in materials ==> '#' !in m
    ensures DistinctPlateIds(materials)
  {
    PlateIdsDistinctIff(materials);
    forall m, n
      ensures !Clashes(materials, m, n)
    {
      if n >= 2 {
        assert PlateIdOf(m, n)[|m|] == '#';
      }
    }
  }

  // ---- keyboards ----

  predicate AllStrings(items: seq<Json>) {
    forall i :: 0 <= i < |items| ==> items[i].Str?
  }

  function Strings(items: seq<Json>): (r: seq<string>)
    requires AllStrings(items)
    ensures |r| == |items| && forall i :: 0 <= i < |r| ==> r[i] == items[i].s
  {
    seq(|items|, i requires 0 <= i < |items| => items[i].s)
  }

  function PartObject(id: string, material: string): Json {
    Obj(map["id" := Str(id), "material" := Str(material)])
  }

  function PlateObject(materials: seq<string>, i: nat): Json
    requires i < |materials|
  {
    PartObject(PlateId(materials, i), materials[i])
  }

  // The upgraded list: every plate in place, under its id.
  function UpgradedPlates(materials: seq<string>): (r: seq<Json>)
    ensures |r| == |materials| && forall i :: 0 <= i < |r| ==> r[i] == PlateObject(materials, i)
  {
    seq(|materials|, i requires 0 <= i < |materials| => PlateObject(materials, i))
  }

  predicate HasObject(fields: map<string, Json>, key: string) {
    key in fields && fields[key].Obj?
  }

  predicate HasLegacyPlates(kb: map<string, Json>) {
    HasObject(kb, "design") && "plates" in kb["design"].fields && kb["design"].fields["plates"].Arr?
  }

  // The legacy plate list moves out of the design, which goes if nothing is left of it.
  function MovePlates(kb: map<string, Json>): map<string, Json>
    requires HasLegacyPlates(kb) && AllStrings(kb["design"].fields["plates"].items)
  {
    var design := kb["design"].fields - {"plates"};
    var plates := UpgradedPlates(Strings(kb["design"].fields["plates"].items));
    var kb' := if design == map[] then kb - {"design"} else kb["design" := Obj(design)];
    if plates == [] then kb' else kb'["plates" := Arr(plates)]
  }

  function MovePcb(kb: map<string, Json>): map<string, Json>
    requires HasObject(kb, "pcb")
  {
    var pcb := kb["pcb"].fields;
    if pcb == map[] then kb - {"pcb"}
    else (kb - {"pcb"})["pcbs" := Arr([Obj(pcb["id" := Str(LEGACY_PCB_ID)])])]
  }

  function UpgradedKeyboard(raw: Json): Result<Json, UpgradeError> {
    if raw.Null? then Ok(raw)
    else if !raw.Obj? then Err(NotAnObject)
    else if HasLegacyPlates(raw.fields) && !AllStrings(raw.fields["design"].fields["plates"].items) then
      Err(PlateNotAString)
    else
      var kb := if HasLegacyPlates(raw.fields) then MovePlates(raw.fields) else raw.fields;
      Ok(Obj(if HasObject(kb, "pcb") then MovePcb(kb) else kb))
  }

  /** upgradeKeyboardJSON, with its count of each material seen. */
  method UpgradeKeyboard(raw: Json) returns (r: Result<Json, UpgradeError>)
    ensures r == UpgradedKeyboard(raw)
    ensures r == Err(NotAnObject) <==> !raw.Null? && !raw.Obj?
    ensures r == Err(PlateNotAString) <==>
      && raw.Obj? && HasLegacyPlates(raw.fields)
      && var plates := raw.fields["design"].fields["plates"].items; exists i :: 0 <= i < |plates| && !plates[i].Str?
  {
    if raw.Null? {
      return Ok(raw);
    }
    if !raw.Obj? {
      assert UpgradedKeyboard(raw).error.NotAnObject?;
      return Err(NotAnObject);
    }
    var kb, changed := raw.fields, false;
    if HasObject(kb, "design") {
      var design := kb["design"].fields;
      if "plates" in design && design["plates"].Arr? {
        var plates := design["plates"].items;
        var upgraded := UpgradePlateList(plates);
        if upgraded.Err? {
          return Err(upgraded.error);
        }
        design := design - {"plates"};
        kb := kb["design" := Obj(design)];
        if |design| == 0 {
          assert kb - {"design"} == raw.fields - {"design"};
          kb := kb - {"design"};
        }
        if |upgraded.value| > 0 {
          kb := kb["plates" := Arr(upgraded.value)];
        }
        changed := true;
      }
    }
    if HasObject(kb, "pcb") {
      var pcb := kb["pcb"].fields;
      kb := kb - {"pcb"};
      if |pcb| > 0 {
        kb := kb["pcbs" := Arr([Obj(pcb["id" := Str(LEGACY_PCB_ID)])])];
      }
      changed := true;
    }
    return Ok(if changed then Obj(kb) else raw);
  }

  method UpgradePlateList(plates: seq<Json>) returns (r: Result<seq<Json>, UpgradeError>)
    ensures r == if AllStrings(plates) then Ok(UpgradedPlates(Strings(plates))) else Err(PlateNotAString)
  {
    var seen: map<string, nat> := map[];
    var upgraded := [];
    ghost var materials: seq<string> := [];
    for i := 0 to |plates|
      invariant |materials| == i && forall k :: 0 <= k < i ==> plates[k] == Str(materials[k])
      invariant upgraded == UpgradedPlates(materials)
      invariant forall m :: (if m in seen then seen[m] else 0) == Count(materials, m)
    {
      if !plates[i].Str? {
        return Err(PlateNotAString);
      }
      var material := plates[i].s;
      UpgradeOneMore(materials, material);
      CountOneMore(materials, material);
      seen := seen[material := (if material in seen then seen[material] else 0) + 1];
      NewPlate(materials, materials + [material], i, material, seen[material]);
      upgraded := upgraded + [PartObject(PlateIdOf(material, seen[material]), material)];
      materials := materials + [material];
    }
    assert Strings(plates) == materials;
    return Ok(upgraded);
  }

  lemma CountOneMore(materials: seq<string>, m: string)
    ensures forall x :: Count(materials + [m], x) == Count(materials, x) + if x == m then 1 else 0
  {
    assert (materials + [m])[..|materials|] == materials;
  }

  lemma PlateStays(materials: seq<string>, m: string, i: nat)
    requires i < |materials|
    ensures PlateObject(materials + [m], i) == PlateObject(materials, i)
  {
    assert (materials + [m])[..i] == materials[..i];
  }

  lemma NewPlate(materials: seq<string>, more: seq<string>, i: nat, m: string, nth: nat)
    requires i < |more| && more[..i] == materials && more[i] == m && nth == Count(materials, m) + 1
    ensures PlateObject(more, i) == PartObject(PlateIdOf(m, nth), m)
  {
  }

  lemma UpgradeOneMore(materials: seq<string>, m: string)
    ensures UpgradedPlates(materials + [m]) == UpgradedPlates(materials) + [PlateObject(materials + [m], |materials|)]
  {
    forall i | 0 <= i < |materials|
      ensures UpgradedPlates(materials + [m])[i] == UpgradedPlates(materials)[i]
    {
      PlateStays(materials, m, i);
    }
  }

  /** Upgrading an upgraded keyboard changes nothing. */
  lemma KeyboardUpgradeIdempotent(raw: Json)
    requires UpgradedKeyboard(raw).Ok?
    ensures UpgradedKeyboard(UpgradedKeyboard(raw).value) == UpgradedKeyboard(raw)
  {
  }

  // The fields an upgrade may touch.
  const PART_FIELDS := {"design", "plates", "pcb", "pcbs"}

  /** The design loses its plate list, and goes if that was all; a legacy PCB becomes
      a list of one, under its stand-in id; and no other field changes. */
  lemma UpgradedKeyboardKeepsTheRest(kb: map<string, Json>)
    requires UpgradedKeyboard(Obj(kb)).Ok?
    ensures UpgradedKeyboard(Obj(kb)).value.Obj?
    ensures var fields := UpgradedKeyboard(Obj(kb)).value.fields;
      && (forall f :: f !in PART_FIELDS ==> (f in fields <==> f in kb) && (f in kb ==> fields[f] == kb[f]))
      && (HasLegacyPlates(kb) ==>
            var design := kb["design"].fields;
            if design.Keys == {"plates"} then "design" !in fields
            else HasObject(fields, "design") && fields["design"].fields == design - {"plates"})
      && ("pcb" in fields <==> "pcb" in kb && !kb["pcb"].Obj?)
      && (HasObject(kb, "pcb") && kb["pcb"].fields != map[] ==>
            && "pcbs" in fields && fields["pcbs"].Arr? && |fields["pcbs"].items| == 1 && fields["pcbs"].items[0].Obj?
            && var pcb := fields["pcbs"].items[0].fields;
               && "id" in pcb && pcb["id"] == Str("pcb")
               && forall f :: f != "id" ==>
                    (f in pcb <==> f in kb["pcb"].fields) && (f in pcb ==> pcb[f] == kb["pcb"].fields[f]))
  {
    if HasLegacyPlates(kb) {
      OnlyKey(kb["design"].fields, "plates");
    }
  }

  lemma OnlyKey(fields: map<string, Json>, key: string)
    requires key in fields
    ensures fields - {key} == map[] <==> fields.Keys == {key}
  {
    if fields - {key} == map[] {
      forall f | f in fields
        ensures f == key
      {
        assert f != key ==> f in fields - {key};
      }
    }
  }

  // ---- builds ----

  function UpgradedBuild(raw: Json): Result<Json, UpgradeError> {
    if raw.Null? then Ok(raw)
    else if !raw.Obj? then Err(NotAnObject)
    else if "plate" in raw.fields && raw.fields["plate"].Str? then
      Ok(Obj(raw.fields["plate" := PartObject(PlateIdOf(raw.fields["plate"].s, 1), raw.fields["plate"].s)]))
    else Ok(raw)
  }

  /** The upgraded keyboard lists every legacy plate in its place: its material, and
      for an id the material too, numbered from its second occurrence on. */
  lemma UpgradedKeyboardPlates(kb: map<string, Json>, materials: seq<string>)
    requires HasLegacyPlates(kb) && AllStrings(kb["design"].fields["plates"].items)
    requires materials == Strings(kb["design"].fields["plates"].items) && materials != []
    ensures UpgradedKeyboard(Obj(kb)).Ok? && UpgradedKeyboard(Obj(kb)).value.Obj?
    ensures var fields := UpgradedKeyboard(Obj(kb)).value.fields;
      && "plates" in fields && fields["plates"].Arr? && |fields["plates"].items| == |materials|
      && forall i :: 0 <= i < |materials| ==>
           var before := Count(materials[..i], materials[i]);
           var id := if before == 0 then materials[i] else materials[i] + "#" + Itoa(before + 1);
           fields["plates"].items[i] == Obj(map["id" := Str(id), "material" := Str(materials[i])])
  {
    assert |UpgradedPlates(materials)| > 0;
    var moved := MovePlates(kb);
    assert "plates" in moved && moved["plates"] == Arr(UpgradedPlates(materials));
  }

  // The first plate of a material keeps it as its id.
  lemma FirstOfMaterial(materials: seq<string>, material: string) returns (i: nat)
    requires material in materials
    ensures i < |materials| && materials[i] == material && material !in materials[..i]
    ensures PlateId(materials, i) == material
  {
    InMeansCounted(materials, material);
    i := FindNth(materials, material, 1);
    InMeansCounted(materials[..i], material);
  }

  /** A legacy build's plate becomes, once both are upgraded, the first plate of
      that material in its keyboard's list. */
  lemma BuildPlateIsFirstOfMaterial(
    build: map<string, Json>, kb: map<string, Json>, materials: seq<string>, material: string) returns (i: nat)
    requires "plate" in build && build["plate"] == Str(material)
    requires HasLegacyPlates(kb) && AllStrings(kb["design"].fields["plates"].items)
    requires materials == Strings(kb["design"].fields["plates"].items) && material in materials
    ensures i < |materials| && materials[i] == material && material !in materials[..i]
    ensures UpgradedBuild(Obj(build)).Ok? && HasObject(UpgradedBuild(Obj(build)).value.fields, "plate")
    ensures UpgradedKeyboard(Obj(kb)).Ok? && UpgradedKeyboard(Obj(kb)).value.Obj?
    ensures var plates := UpgradedKeyboard(Obj(kb)).value.fields;
      && "plates" in plates && plates["plates"].Arr? && i < |plates["plates"].items|
      && UpgradedBuild(Obj(build)).value.fields["plate"] == plates["plates"].items[i]
    ensures var fields := UpgradedBuild(Obj(build)).value.fields;
      forall f :: f != "plate" ==> (f in fields <==> f in build) && (f in fields ==> fields[f] == build[f])
  {
    i := FirstOfMaterial(materials, material);
    UpgradedKeyboardPlates(kb, materials);
    InMeansCounted(materials[..i], material);
  }
}
