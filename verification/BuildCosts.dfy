/** A build's total cost, computed twice: by the REST API, which groups keycap
    kits by set (internal/repoapi/build.go), and by the MCP tools, which skip
    repeated entries (internal/repomcp/build.go). Both are proved equal to one
    reference, `TotalCost`. */
module BuildCosts {
  import opened Wrappers
  import opened Repository
  import opened KitGroups

  datatype CostError = NotFound

  type Cost = Option<real>

  // ---- sums ----

  function Sum(costs: seq<Cost>): real {
    if costs == [] then 0.0 else costs[0].OrElse(0.0) + Sum(costs[1..])
  }

  // sumKnownCosts: the known costs' sum, or None if none is known.
  function SumKnown(costs: seq<Cost>): Cost {
    if forall i :: 0 <= i < |costs| ==> costs[i].None? then None else Some(Sum(costs))
  }

  // math.Round(cost * 100) / 100, which rounds halves away from zero.
  function RoundCents(cost: Cost): Cost {
    match cost
    case None => None
    case Some(x) =>
      var cents := if x >= 0.0 then (x * 100.0 + 0.5).Floor else -((-x * 100.0 + 0.5).Floor);
      Some(cents as real / 100.0)
  }

  /** The rounded cost is the whole number of cents nearest to it, away from zero if
      two are as near. */
  lemma RoundsToCents(x: real, cents: int)
    ensures RoundCents(None) == None && RoundCents(Some(x)).Some?
    ensures RoundCents(Some(x)) == Some(cents as real / 100.0) <==>
      || -0.5 < cents as real - x * 100.0 < 0.5
      || (cents as real - x * 100.0 == 0.5 && x > 0.0)
      || (cents as real - x * 100.0 == -0.5 && x < 0.0)
  {
    var d := x * 100.0;
    if x >= 0.0 {
      Nearest(d, cents);
    } else {
      Nearest(-d, -cents);
    }
  }

  lemma Nearest(d: real, n: int)
    requires d >= 0.0
    ensures (d + 0.5).Floor == n <==> -0.5 < n as real - d <= 0.5
  {
    var f := (d + 0.5).Floor;
    assert f as real <= d + 0.5 < f as real + 1.0;
  }

  method SumKnownCosts(components: seq<Cost>) returns (total: Cost)
    ensures total == SumKnown(components)
  {
    var sum, haveAny := 0.0, false;
    for i := 0 to |components|
      invariant haveAny <==> exists j :: 0 <= j < i && components[j].Some?
      invariant sum == Sum(components[..i])
    {
      SumSnoc(components[..i], components[i]);
      assert components[..i] + [components[i]] == components[..i + 1];
      if components[i].Some? {
        sum := sum + components[i].value;
        haveAny := true;
      }
    }
    assert components[..|components|] == components;
    return if haveAny then Some(sum) else None;
  }

  lemma {:induction false} SumSnoc(costs: seq<Cost>, c: Cost)
    ensures Sum(costs + [c]) == Sum(costs) + c.OrElse(0.0)
  {
    if costs == [] {
      assert [c][1..] == [];
    } else {
      SumSnoc(costs[1..], c);
      assert (costs + [c])[1..] == costs[1..] + [c];
    }
  }

  lemma {:induction false} SumConcat(a: seq<Cost>, b: seq<Cost>)
    ensures Sum(a + b) == Sum(a) + Sum(b)
  {
    if a == [] {
      assert a + b == b;
    } else {
      SumConcat(a[1..], b);
      assert (a + b)[1..] == a[1..] + b;
    }
  }

  lemma RemoveAt<T>(y: seq<T>, i: nat)
    requires i < |y|
    ensures y == y[..i] + ([y[i]] + y[i + 1..])
    ensures multiset(y[..i] + y[i + 1..]) == multiset(y) - multiset{y[i]}
  {
    assert y == y[..i] + [y[i]] + y[i + 1..];
  }

  // A permutation of x's head and tail takes the head out of y at some index.
  lemma TakeOut<T>(x: seq<T>, y: seq<T>) returns (i: nat)
    requires x != [] && multiset(x) == multiset(y)
    ensures i < |y| && y[i] == x[0] && y == y[..i] + ([y[i]] + y[i + 1..])
    ensures multiset(x[1..]) == multiset(y[..i] + y[i + 1..])
  {
    assert x[0] in multiset(y);
    i :| 0 <= i < |y| && y[i] == x[0];
    RemoveAt(x, 0);
    RemoveAt(y, i);
    assert x[..0] + x[1..] == x[1..];
  }

  lemma {:induction false} SumPermutes(a: seq<Cost>, b: seq<Cost>)
    requires multiset(a) == multiset(b)
    ensures Sum(a) == Sum(b)
  {
    if a == [] {
      assert multiset(b) == multiset{};
      assert |b| == |multiset(b)|;
    } else {
      var i := TakeOut(a, b);
      SumPermutes(a[1..], b[..i] + b[i + 1..]);
      SumConcat(b[..i], b[i + 1..]);
      SumConcat(b[..i], [b[i]] + b[i + 1..]);
      assert ([b[i]] + b[i + 1..])[1..] == b[i + 1..];
    }
  }

  /** A sum of known costs doesn't depend on their order. */
  lemma SumKnownPermutes(a: seq<Cost>, b: seq<Cost>)
    requires multiset(a) == multiset(b)
    ensures SumKnown(a) == SumKnown(b)
  {
    SumPermutes(a, b);
    forall i | 0 <= i < |a|
      ensures a[i] in b
    {
      assert a[i] in multiset(a);
    }
    forall i | 0 <= i < |b|
      ensures b[i] in a
    {
      assert b[i] in multiset(b);
    }
  }

  // ---- the reference ----

  function UnitsCost(sw: Switch, count: int): Cost {
    if sw.price.Some? && sw.quantity.Some? && sw.quantity.value != 0
    then Some(sw.price.value / sw.quantity.value as real * count as real)
    else None
  }

  /** Switches are bought in bulk: the price, if known, is that of the whole known
      quantity, and any number of them costs in proportion. */
  lemma UnitsCostInProportion(sw: Switch, count: int, more: int)
    ensures UnitsCost(sw, count).Some? <==> sw.price.Some? && sw.quantity.Some? && sw.quantity.value != 0
    ensures UnitsCost(sw, count).Some? ==>
      && UnitsCost(sw, sw.quantity.value) == sw.price
      && UnitsCost(sw, count + more).value == UnitsCost(sw, count).value + UnitsCost(sw, more).value
  {
    if UnitsCost(sw, count).Some? {
      Proportion(sw.price.value, sw.quantity.value, count, more);
      assert UnitsCost(sw, sw.quantity.value).value == sw.price.value;
    }
  }

  lemma Proportion(price: real, quantity: int, count: int, more: int)
    requires quantity != 0
    ensures price / quantity as real * quantity as real == price
    ensures price / quantity as real * (count + more) as real
      == price / quantity as real * count as real + price / quantity as real * more as real
  {
    Distributes(price / quantity as real, count as real, more as real);
  }

  lemma Distributes(unit: real, a: real, b: real)
    ensures unit * (a + b) == unit * a + unit * b
  {
  }

  predicate SwitchResolves(c: Collection, e: SwitchEntry) {
    e.switch in c.switches
  }

  predicate KitResolves(c: Collection, e: KitEntry) {
    e.keycapSet in c.keycapSets && e.kit in c.keycapSets[e.keycapSet].kits
  }

  // What the API must look up to show a build: a plate or PCB its keyboard no
  // longer has is read as absent.
  predicate Shows(c: Collection, b: Build) {
    && b.keyboard in c.keyboards
    && (forall i :: 0 <= i < |b.switches| ==> SwitchResolves(c, b.switches[i]))
    && forall i :: 0 <= i < |b.kits| ==> KitResolves(c, b.kits[i])
  }

  function SwitchCosts(c: Collection, entries: seq<SwitchEntry>): seq<Cost> {
    seq(|entries|, i requires 0 <= i < |entries| =>
      if SwitchResolves(c, entries[i]) then UnitsCost(c.switches[entries[i].switch], entries[i].count) else None)
  }

  function KitPrice(c: Collection, e: KitEntry): Cost {
    if KitResolves(c, e) then c.keycapSets[e.keycapSet].kits[e.kit].price else None
  }

  function KitPrices(c: Collection, entries: seq<KitEntry>): seq<Cost> {
    seq(|entries|, i requires 0 <= i < |entries| => KitPrice(c, entries[i]))
  }

  // A plate's or PCB's price, if its keyboard has it.
  function PartCost(parts: map<Id, Part>, id: Option<Id>): Cost {
    if id.Some? && id.value in parts then parts[id.value].price else None
  }

  // Every switch entry counts, every distinct kit counts once, and only what
  // has a known price; a missing reference fails it.
  function TotalCost(c: Collection, b: Build): Result<Cost, CostError> {
    if !Shows(c, b) then Err(NotFound)
    else
      var kb := c.keyboards[b.keyboard];
      Ok(RoundCents(SumKnown([
        kb.price, PartCost(kb.plates, b.plate), PartCost(kb.pcbs, b.pcb),
        SumKnown(SwitchCosts(c, b.switches)), SumKnown(KitPrices(c, Distinct(b.kits))), b.stabsPrice])))
  }

  lemma SumKnownConcat(a: seq<Cost>, b: seq<Cost>)
    ensures Sum(a + b) == Sum(a) + Sum(b)
    ensures SumKnown(a + b).None? <==> SumKnown(a).None? && SumKnown(b).None?
  {
    SumConcat(a, b);
    var all := a + b;
    assert forall i :: 0 <= i < |a| ==> a[i] == all[i];
    assert forall i :: 0 <= i < |b| ==> b[i] == all[|a| + i];
  }

  // A sum of known costs counts for what it sums.
  lemma NestedSum(a: seq<Cost>, xs: seq<Cost>, b: seq<Cost>)
    ensures SumKnown(a + [SumKnown(xs)] + b) == SumKnown(a + xs + b)
  {
    var x := [SumKnown(xs)];
    SumKnownConcat(a + x, b);
    SumKnownConcat(a, x);
    SumKnownConcat(a + xs, b);
    SumKnownConcat(a, xs);
    assert x[0] == SumKnown(xs) && x[1..] == [];
    if SumKnown(xs).None? {
      NoneKnown(xs);
    }
  }

  /** The total is one sum: of the keyboard's price, the plate's, the PCB's, every
      switch entry's cost, every distinct kit's price and the stabs', each if known,
      rounded to cents. */
  lemma TotalCostIsOneSum(c: Collection, b: Build)
    requires Shows(c, b)
    ensures var kb := c.keyboards[b.keyboard];
      TotalCost(c, b) == Ok(RoundCents(SumKnown(
        [kb.price, PartCost(kb.plates, b.plate), PartCost(kb.pcbs, b.pcb)]
        + SwitchCosts(c, b.switches) + KitPrices(c, Distinct(b.kits)) + [b.stabsPrice])))
  {
    var kb := c.keyboards[b.keyboard];
    var parts := [kb.price, PartCost(kb.plates, b.plate), PartCost(kb.pcbs, b.pcb)];
    var switches, kits := SwitchCosts(c, b.switches), KitPrices(c, Distinct(b.kits));
    NestedSum(parts, switches, [SumKnown(kits), b.stabsPrice]);
    NestedSum(parts + switches, kits, [b.stabsPrice]);
    assert parts + [SumKnown(switches)] + [SumKnown(kits), b.stabsPrice]
        == [parts[0], parts[1], parts[2], SumKnown(switches), SumKnown(kits), b.stabsPrice];
    assert parts + switches + [SumKnown(kits)] + [b.stabsPrice] == parts + switches + [SumKnown(kits), b.stabsPrice];
  }

  // ---- who sees it ----

  datatype Preferences = Preferences(showPriceToMe: bool, showPriceToOthers: bool) {
    // In a single item, which the owner may be editing, and in a list.
    predicate ShowPriceSingle(isOwner: bool) {
      isOwner || showPriceToOthers
    }

    predicate ShowPriceSummary(isOwner: bool) {
      if isOwner then showPriceToMe else showPriceToOthers
    }
  }

  // ToAPI looks everything up, whether or not it shows the total.
  function RestAnswer(c: Collection, b: Build, isOwner: bool, prefs: Preferences): Result<Cost, CostError> {
    if !Shows(c, b) then Err(NotFound)
    else Ok(if prefs.ShowPriceSingle(isOwner) then TotalCost(c, b).value else None)
  }

  // ToMCPSummary looks only the keyboard up unless it shows the total.
  function McpAnswer(c: Collection, b: Build, isOwner: bool, prefs: Preferences): Result<Cost, CostError> {
    if b.keyboard !in c.keyboards then Err(NotFound)
    else if prefs.ShowPriceSummary(isOwner) then TotalCost(c, b)
    else Ok(None)
  }

  /** MCP shows the total if the owner shows prices to whoever asks, and then REST
      shows the same one; REST shows it to an owner who hides prices too. One
      fails exactly when the other does, unless a switch or a kit is missing that
      MCP, showing no price, never looks up. */
  lemma AnswersAgree(c: Collection, b: Build, isOwner: bool, prefs: Preferences)
    ensures var rest, mcp := RestAnswer(c, b, isOwner, prefs), McpAnswer(c, b, isOwner, prefs);
      var shown := if isOwner then prefs.showPriceToMe else prefs.showPriceToOthers;
      && (shown ==> rest == mcp == TotalCost(c, b))
      && (!shown && mcp.Ok? ==> mcp.value.None?)
      && (isOwner ==> rest == TotalCost(c, b))
      && (!isOwner && !prefs.showPriceToOthers && rest.Ok? ==> rest.value.None?)
      && (mcp.Err? <==> b.keyboard !in c.keyboards || (shown && !Shows(c, b)))
      && (rest.Err? <==> !Shows(c, b))
      && ((rest.Err? <==> mcp.Err?) <==> b.keyboard !in c.keyboards || shown || Shows(c, b))
  {
    assert TotalCost(c, b).Err? ==> TotalCost(c, b).error.NotFound?;
  }

  lemma KitPricesConcat(c: Collection, a: seq<KitEntry>, b: seq<KitEntry>)
    ensures KitPrices(c, a + b) == KitPrices(c, a) + KitPrices(c, b)
  {
  }

  lemma {:induction false} KitPricesPermute(c: Collection, a: seq<KitEntry>, b: seq<KitEntry>)
    requires multiset(a) == multiset(b)
    ensures multiset(KitPrices(c, a)) == multiset(KitPrices(c, b))
  {
    if a == [] {
      assert multiset(b) == multiset{};
      assert |b| == |multiset(b)|;
    } else {
      var i := TakeOut(a, b);
      KitPricesPermute(c, a[1..], b[..i] + b[i + 1..]);
      assert a == [a[0]] + a[1..];
      KitPricesConcat(c, [a[0]], a[1..]);
      KitPricesConcat(c, b[..i], b[i + 1..]);
      KitPricesConcat(c, b[..i], [b[i]] + b[i + 1..]);
      KitPricesConcat(c, [b[i]], b[i + 1..]);
    }
  }

  /** Grouped by set or only deduplicated, a build's kits cost the same. */
  lemma GroupedCostIsDistinctCost(c: Collection, entries: seq<KitEntry>)
    ensures SumKnown(KitPrices(c, Flatten(GroupKits(entries)))) == SumKnown(KitPrices(c, Distinct(entries)))
  {
    GroupKitsPermutesDistinct(entries);
    KitPricesPermute(c, Flatten(GroupKits(entries)), Distinct(entries));
    SumKnownPermutes(KitPrices(c, Flatten(GroupKits(entries))), KitPrices(c, Distinct(entries)));
  }

  // A KeyboardPlate's or KeyboardPCB's Price.
  function PartPrice(part: Option<Part>): Cost {
    if part.Some? then part.value.price else None
  }

  // ---- repomcp.Build ----

  method McpSwitchesCost(c: Collection, entries: seq<SwitchEntry>) returns (r: Result<Cost, CostError>)
    ensures r == if forall i :: 0 <= i < |entries| ==> SwitchResolves(c, entries[i])
      then Ok(SumKnown(SwitchCosts(c, entries))) else Err(NotFound)
  {
    var costs: seq<Cost> := [];
    for i := 0 to |entries|
      invariant forall j :: 0 <= j < i ==> SwitchResolves(c, entries[j])
      invariant SumKnown(costs) == SumKnown(SwitchCosts(c, entries[..i]))
    {
      if entries[i].switch !in c.switches {
        assert !SwitchResolves(c, entries[i]);
        return Err(NotFound);
      }
      var sw, cost := c.switches[entries[i].switch], None;
      if sw.price.Some? && sw.quantity.Some? && sw.quantity.value != 0 {
        var entryCost := sw.price.value / sw.quantity.value as real * entries[i].count as real;
        assert entryCost == UnitsCost(sw, entries[i].count).value;
        cost := Some(entryCost);
      }
      SumKnownSnoc(costs, SwitchCosts(c, entries[..i]), cost);
      assert SwitchCosts(c, entries[..i + 1]) == SwitchCosts(c, entries[..i]) + [cost];
      if cost.Some? {
        costs := costs + [cost];
      }
    }
    assert entries[..|entries|] == entries;
    var total := SumKnownCosts(costs);
    return Ok(total);
  }

  // An unknown cost may be left out.
  lemma SumKnownSnoc(a: seq<Cost>, b: seq<Cost>, cost: Cost)
    requires SumKnown(a) == SumKnown(b)
    ensures SumKnown(if cost.Some? then a + [cost] else a) == SumKnown(b + [cost])
  {
    SumSnoc(a, cost);
    SumSnoc(b, cost);
    assert (a + [cost])[|a|] == cost && (b + [cost])[|b|] == cost;
    assert forall i :: 0 <= i < |a| ==> (a + [cost])[i] == a[i];
    assert forall i :: 0 <= i < |b| ==> (b + [cost])[i] == b[i];
    if SumKnown(b).None? {
      NoneKnown(a);
      NoneKnown(b);
    }
  }

  lemma {:induction false} NoneKnown(costs: seq<Cost>)
    requires forall i :: 0 <= i < |costs| ==> costs[i].None?
    ensures Sum(costs) == 0.0
  {
    if costs != [] {
      NoneKnown(costs[1..]);
    }
  }

  method McpKitsCost(c: Collection, entries: seq<KitEntry>) returns (r: Result<Cost, CostError>)
    ensures r == if forall i :: 0 <= i < |entries| ==> KitResolves(c, entries[i])
      then Ok(SumKnown(KitPrices(c, Distinct(entries)))) else Err(NotFound)
  {
    var costs: seq<Cost> := [];
    var seen: set<KitEntry> := {};
    ghost var distinct: seq<KitEntry> := [];
    for i := 0 to |entries|
      invariant distinct == Distinct(entries[..i])
      invariant forall e :: e in seen <==> e in distinct
      invariant forall e :: e in seen ==> KitResolves(c, e)
      invariant forall j :: 0 <= j < i ==> entries[j] in seen
      invariant costs == KitPrices(c, distinct)
    {
      var e := entries[i];
      assert entries[..i + 1][..i] == entries[..i];
      if e !in seen {
        seen := seen + {e};
        if e.keycapSet !in c.keycapSets || e.kit !in c.keycapSets[e.keycapSet].kits {
          assert !KitResolves(c, entries[i]);
          return Err(NotFound);
        }
        costs := costs + [c.keycapSets[e.keycapSet].kits[e.kit].price];
        distinct := distinct + [e];
      }
    }
    assert entries[..|entries|] == entries;
    var total := SumKnownCosts(costs);
    return Ok(total);
  }

  /** The total in ToMCPSummary is the reference, when it shows one. */
  method McpTotal(c: Collection, b: Build, isOwner: bool, prefs: Preferences) returns (r: Result<Cost, CostError>)
    ensures r == McpAnswer(c, b, isOwner, prefs)
  {
    if b.keyboard !in c.keyboards {
      return Err(NotFound);
    }
    var kb := c.keyboards[b.keyboard];
    if !prefs.ShowPriceSummary(isOwner) {
      return Ok(None);
    }
    var switches := McpSwitchesCost(c, b.switches);
    if switches.Err? {
      return switches;
    }
    var kits := McpKitsCost(c, b.kits);
    if kits.Err? {
      return kits;
    }
    var total := SumKnownCosts([
      kb.price, PartPrice(FindPart(kb.plates, b.plate)), PartPrice(FindPart(kb.pcbs, b.pcb)),
      switches.value, kits.value, b.stabsPrice]);
    return Ok(RoundCents(total));
  }

  // ---- repoapi.Build ----

  // switchEntriesResolvedToAPI: every entry is looked up, whichever fail.
  method RestSwitchesCost(c: Collection, entries: seq<SwitchEntry>) returns (r: Result<Cost, CostError>)
    ensures r == if forall i :: 0 <= i < |entries| ==> SwitchResolves(c, entries[i])
      then Ok(SumKnown(SwitchCosts(c, entries))) else Err(NotFound)
  {
    var costs: seq<Cost> := [];
    var errs := false;
    for i := 0 to |entries|
      invariant costs == SwitchCosts(c, entries[..i])
      invariant errs <==> exists j :: 0 <= j < i && !SwitchResolves(c, entries[j])
    {
      assert SwitchCosts(c, entries[..i + 1])
          == SwitchCosts(c, entries[..i]) + SwitchCosts(c, entries[i..i + 1]);
      if entries[i].switch in c.switches {
        var sw, cost := c.switches[entries[i].switch], None;
        if sw.price.Some? && sw.quantity.Some? && sw.quantity.value != 0 {
          var unitPrice := sw.price.value / sw.quantity.value as real;
          var entryCost := unitPrice * entries[i].count as real;
          assert entryCost == UnitsCost(sw, entries[i].count).value;
          cost := Some(entryCost);
        }
        costs := costs + [cost];
      } else {
        assert !SwitchResolves(c, entries[i]);
        costs := costs + [None];
        errs := true;
      }
    }
    if errs {
      return Err(NotFound);
    }
    assert entries[..|entries|] == entries;
    var total := SumKnownCosts(costs);
    return Ok(total);
  }

  // keycapSetRefToAPI: one set's kits, failing at the first it lacks.
  method RestSetCosts(c: Collection, setID: Id, kitIDs: seq<Id>) returns (r: Result<seq<Cost>, CostError>)
    requires kitIDs != []
    ensures var entries := GroupEntries(Group(setID, kitIDs));
      r == if forall i :: 0 <= i < |entries| ==> KitResolves(c, entries[i])
        then Ok(KitPrices(c, entries)) else Err(NotFound)
  {
    ghost var entries := GroupEntries(Group(setID, kitIDs));
    if setID !in c.keycapSets {
      assert !KitResolves(c, entries[0]);
      return Err(NotFound);
    }
    var ks := c.keycapSets[setID];
    var costs: seq<Cost> := [];
    for i := 0 to |kitIDs|
      invariant forall j :: 0 <= j < i ==> KitResolves(c, entries[j])
      invariant costs == KitPrices(c, entries[..i])
    {
      if kitIDs[i] !in ks.kits {
        assert !KitResolves(c, entries[i]);
        return Err(NotFound);
      }
      assert KitPrices(c, entries[..i + 1]) == KitPrices(c, entries[..i]) + [KitPrice(c, entries[i])];
      costs := costs + [ks.kits[kitIDs[i]].price];
    }
    assert entries[..|entries|] == entries;
    return Ok(costs);
  }

  predicate AllResolve(c: Collection, entries: seq<KitEntry>) {
    forall i :: 0 <= i < |entries| ==> KitResolves(c, entries[i])
  }

  lemma AllResolveConcat(c: Collection, a: seq<KitEntry>, b: seq<KitEntry>)
    ensures AllResolve(c, a + b) <==> AllResolve(c, a) && AllResolve(c, b)
    ensures KitPrices(c, a + b) == KitPrices(c, a) + KitPrices(c, b)
  {
    var all := a + b;
    if AllResolve(c, all) {
      assert forall i :: 0 <= i < |a| ==> a[i] == all[i];
      assert forall i :: 0 <= i < |b| ==> b[i] == all[|a| + i];
    }
  }

  // Entries and their distinct ones resolve together.
  lemma GroupedResolve(c: Collection, entries: seq<KitEntry>)
    ensures AllResolve(c, Flatten(GroupKits(entries))) <==> AllResolve(c, entries)
  {
    GroupKitsPermutesDistinct(entries);
    var flat := Flatten(GroupKits(entries));
    forall e
      ensures e in flat <==> e in entries
    {
      assert e in flat <==> e in multiset(flat);
      assert e in Distinct(entries) <==> e in multiset(Distinct(entries));
    }
    if AllResolve(c, flat) {
      forall i | 0 <= i < |entries|
        ensures KitResolves(c, entries[i])
      {
        assert entries[i] in flat;
      }
    }
    if AllResolve(c, entries) {
      forall i | 0 <= i < |flat|
        ensures KitResolves(c, flat[i])
      {
        assert flat[i] in entries;
      }
    }
  }

  lemma NextGroup(c: Collection, groups: seq<Group>, i: nat)
    requires i < |groups|
    ensures var before, next, all := Flatten(groups[..i]), GroupEntries(groups[i]), Flatten(groups[..i + 1]);
      && (AllResolve(c, all) <==> AllResolve(c, before) && AllResolve(c, next))
      && KitPrices(c, all) == KitPrices(c, before) + KitPrices(c, next)
  {
    assert groups[..i + 1] == groups[..i] + [groups[i]];
    FlattenSnoc(groups[..i], groups[i]);
    AllResolveConcat(c, Flatten(groups[..i]), GroupEntries(groups[i]));
  }

  // keycapSetRefsToAPI: one lookup per set, whichever fail.
  method RestKitsCost(c: Collection, entries: seq<KitEntry>) returns (r: Result<Cost, CostError>)
    ensures r == if AllResolve(c, entries) then Ok(SumKnown(KitPrices(c, Distinct(entries)))) else Err(NotFound)
  {
    hide Distinct, AddEntry, SumKnown;
    var setIDs, kitIDs := GroupBySet(entries);
    ghost var groups := GroupKits(entries);
    GroupKitsWellGrouped(entries);
    var costs: seq<Cost> := [];
    var errs := false;
    for i := 0 to |setIDs|
      invariant errs <==> !AllResolve(c, Flatten(groups[..i]))
      invariant !errs ==> costs == KitPrices(c, Flatten(groups[..i]))
    {
      var setID := setIDs[i];
      assert groups[i] == Group(setID, kitIDs[setID]);
      var one := RestSetCosts(c, setID, kitIDs[setID]);
      NextGroup(c, groups, i);
      match one
      case Err(_) => errs := true;
      case Ok(prices) => costs := costs + prices;
    }
    assert groups[..|setIDs|] == groups;
    GroupedResolve(c, entries);
    if errs {
      return Err(NotFound);
    }
    GroupedCostIsDistinctCost(c, entries);
    var total := SumKnownCosts(costs);
    return Ok(total);
  }

  /** The total in ToAPI, when it shows one, is the same reference. */
  method RestTotal(c: Collection, b: Build, isOwner: bool, prefs: Preferences) returns (r: Result<Cost, CostError>)
    ensures r == RestAnswer(c, b, isOwner, prefs)
  {
    if b.keyboard !in c.keyboards {
      return Err(NotFound);
    }
    var kb := c.keyboards[b.keyboard];
    var plate, pcb := FindPart(kb.plates, b.plate), FindPart(kb.pcbs, b.pcb);
    var switches := RestSwitchesCost(c, b.switches);
    if switches.Err? {
      return switches;
    }
    var kits := RestKitsCost(c, b.kits);
    if kits.Err? {
      return kits;
    }
    var total := SumKnownCosts([
      kb.price, PartPrice(plate), PartPrice(pcb), switches.value, kits.value, b.stabsPrice]);
    return Ok(if prefs.ShowPriceSingle(isOwner) then RoundCents(total) else None);
  }
}
