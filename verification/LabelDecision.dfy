// internal/moderation/decision.go: which detected labels reject an image.
module LabelDecision {
  // Confidences are percentages; parent is "" at the top of the taxonomy.
  datatype ModerationLabel = ModerationLabel(name: string, parent: string, confidence: real)

  // cause is the triggering label's name when rejected.
  datatype Decision = Decision(rejected: bool, cause: string)

  // How sure a label must be to reject, for the categories that can.
  const THRESHOLDS: map<string, real> :=
    map["Explicit" := 80.0, "Violence" := 80.0, "Visually Disturbing" := 80.0, "Hate Symbols" := 80.0]

  function Parents(labels: seq<ModerationLabel>): map<string, string> {
    if labels == [] then map[]
    else Parents(labels[..|labels| - 1])[labels[|labels| - 1].name := labels[|labels| - 1].parent]
  }

  function Climb(name: string, parents: map<string, string>, steps: nat): string
    decreases steps
  {
    if steps == 0 || name !in parents || parents[name] == "" then name
    else Climb(parents[name], parents, steps - 1)
  }

  // The parent a listed name has: its last label's.
  predicate ParentOf(labels: seq<ModerationLabel>, name: string, parent: string) {
    exists i :: 0 <= i < |labels| && labels[i].name == name && labels[i].parent == parent
      && forall j :: i < j < |labels| ==> labels[j].name != name
  }

  lemma {:induction false} ParentsAreTheLast(labels: seq<ModerationLabel>)
    ensures forall name :: name in Parents(labels) <==> exists l :: l in labels && l.name == name
    ensures forall name :: name in Parents(labels) ==> ParentOf(labels, name, Parents(labels)[name])
  {
    if labels != [] {
      var before, last := labels[..|labels| - 1], labels[|labels| - 1];
      ParentsAreTheLast(before);
      assert labels == before + [last];
      forall name | name in Parents(labels)
        ensures ParentOf(labels, name, Parents(labels)[name])
      {
        if name == last.name {
          assert labels[|before|] == last;
        } else {
          assert ParentOf(before, name, Parents(before)[name]);
          var i :| 0 <= i < |before| && before[i].name == name && before[i].parent == Parents(before)[name]
            && forall j :: i < j < |before| ==> before[j].name != name;
          assert labels[i] == before[i];
        }
      }
    }
  }

  // The names from name up, each the listed parent of the one before, to one
  // without a listed parent or as many steps up as are taken.
  predicate WalksUp(path: seq<string>, name: string, parents: map<string, string>, steps: nat) {
    && 0 < |path| <= steps + 1 && path[0] == name
    && (forall i :: 0 <= i < |path| - 1 ==> path[i] in parents && path[i + 1] == parents[path[i]] != "")
    && var top := path[|path| - 1]; |path| == steps + 1 || top !in parents || parents[top] == ""
  }

  /** The category of a label ends the one walk up from it. */
  lemma {:induction false} ClimbEndsTheWalk(name: string, parents: map<string, string>, steps: nat)
      returns (path: seq<string>)
    ensures WalksUp(path, name, parents, steps) && path[|path| - 1] == Climb(name, parents, steps)
    ensures forall other :: WalksUp(other, name, parents, steps) ==> other == path
    decreases steps
  {
    if steps == 0 || name !in parents || parents[name] == "" {
      path := [name];
    } else {
      var rest := ClimbEndsTheWalk(parents[name], parents, steps - 1);
      path := [name] + rest;
      forall other | WalksUp(other, name, parents, steps)
        ensures other == path
      {
        assert WalksUp(other[1..], parents[name], parents, steps - 1);
      }
    }
  }

  // A label under a category with a threshold it meets.
  predicate Rejects(l: ModerationLabel, parents: map<string, string>) {
    var top := Climb(l.name, parents, 3);
    top in THRESHOLDS && l.confidence >= THRESHOLDS[top]
  }

  // The decision and the highest confidence that rejects, after some labels.
  function Fold(labels: seq<ModerationLabel>, parents: map<string, string>): (Decision, real) {
    if labels == [] then (Decision(false, ""), 0.0)
    else
      var (d, best) := Fold(labels[..|labels| - 1], parents);
      var l := labels[|labels| - 1];
      if Rejects(l, parents) && l.confidence > best then (Decision(true, l.name), l.confidence) else (d, best)
  }

  function Decide(labels: seq<ModerationLabel>): Decision {
    Fold(labels, Parents(labels)).0
  }

  // ---- what the decision means ----

  // The first of the most confident labels that reject.
  predicate Surest(i: nat, labels: seq<ModerationLabel>, parents: map<string, string>) {
    && i < |labels| && Rejects(labels[i], parents)
    && (forall j :: 0 <= j < |labels| && Rejects(labels[j], parents) ==> labels[j].confidence <= labels[i].confidence)
    && forall j :: 0 <= j < i && Rejects(labels[j], parents) ==> labels[j].confidence < labels[i].confidence
  }

  lemma {:induction false} FoldFindsTheBest(labels: seq<ModerationLabel>, parents: map<string, string>)
    ensures var (d, best) := Fold(labels, parents);
      && (d.rejected <==> exists l :: l in labels && Rejects(l, parents))
      && (d.rejected ==>
            exists i: nat :: Surest(i, labels, parents) && d.cause == labels[i].name && labels[i].confidence == best)
      && (!d.rejected ==> d.cause == "" && best == 0.0)
  {
    if labels != [] {
      var before, l := labels[..|labels| - 1], labels[|labels| - 1];
      FoldFindsTheBest(before, parents);
      assert labels == before + [l];
      var (d, best) := Fold(before, parents);
      if d.rejected {
        var i: nat :| Surest(i, before, parents) && d.cause == before[i].name && before[i].confidence == best;
        assert !Rejects(l, parents) || l.confidence <= best ==> Surest(i, labels, parents);
      }
      assert Rejects(l, parents) && l.confidence > best ==> Surest(|before|, labels, parents);
    }
  }

  // The walk up from the label, at most three steps, ends at a category whose threshold
  // the label meets.
  ghost predicate MeetsThreshold(l: ModerationLabel, parents: map<string, string>) {
    exists path ::
      && WalksUp(path, l.name, parents, 3)
      && path[|path| - 1] in THRESHOLDS && l.confidence >= THRESHOLDS[path[|path| - 1]]
  }

  lemma RejectsIffMeetsThreshold(l: ModerationLabel, parents: map<string, string>)
    ensures Rejects(l, parents) <==> MeetsThreshold(l, parents)
  {
    var path := ClimbEndsTheWalk(l.name, parents, 3);
  }

  /** decide rejects exactly when some label meets its category's threshold, on
      the first of the most confident such labels. */
  lemma DecideMeaning(labels: seq<ModerationLabel>)
    ensures var parents, d := Parents(labels), Decide(labels);
      && (d.rejected <==> exists l :: l in labels && MeetsThreshold(l, parents))
      && (if d.rejected then exists i: nat :: Surest(i, labels, parents) && d.cause == labels[i].name
          else d.cause == "")
  {
    var parents, d := Parents(labels), Decide(labels);
    FoldFindsTheBest(labels, parents);
    forall l
      ensures Rejects(l, parents) <==> MeetsThreshold(l, parents)
    {
      RejectsIffMeetsThreshold(l, parents);
    }
  }

  // ---- the minimum confidence asked for ----

  // The labels detection returns when asked for those at least this confident.
  function AtLeast(labels: seq<ModerationLabel>, min: real): seq<ModerationLabel> {
    if labels == [] then []
    else
      var kept, l := AtLeast(labels[..|labels| - 1], min), labels[|labels| - 1];
      if l.confidence >= min then kept + [l] else kept
  }

  predicate UniqueNames(labels: seq<ModerationLabel>) {
    forall i, j :: 0 <= i < j < |labels| ==> labels[i].name != labels[j].name
  }

  // No label loses its listed parent to the minimum, as when no label is surer than
  // its parent.
  predicate KeepsParents(labels: seq<ModerationLabel>, min: real) {
    forall l, p :: l in labels && p in labels && l.parent == p.name && l.confidence >= min ==> p.confidence >= min
  }

  lemma {:induction false} AtLeastKeeps(labels: seq<ModerationLabel>, min: real)
    ensures forall l :: l in AtLeast(labels, min) <==> l in labels && l.confidence >= min
  {
    if labels != [] {
      AtLeastKeeps(labels[..|labels| - 1], min);
      assert labels == labels[..|labels| - 1] + [labels[|labels| - 1]];
    }
  }

  lemma {:induction false} AtLeastKeepsNamesUnique(labels: seq<ModerationLabel>, min: real)
    requires UniqueNames(labels)
    ensures UniqueNames(AtLeast(labels, min))
  {
    if labels != [] {
      var before := labels[..|labels| - 1];
      AtLeastKeepsNamesUnique(before, min);
      AtLeastKeeps(before, min);
      forall i | 0 <= i < |AtLeast(before, min)|
        ensures AtLeast(before, min)[i].name != labels[|labels| - 1].name
      {
        assert AtLeast(before, min)[i] in before;
      }
    }
  }

  lemma {:induction false} ParentsOfUnique(labels: seq<ModerationLabel>)
    requires UniqueNames(labels)
    ensures forall l :: l in labels ==> l.name in Parents(labels) && Parents(labels)[l.name] == l.parent
    ensures forall name :: name in Parents(labels) ==> exists l :: l in labels && l.name == name
  {
    if labels != [] {
      var before, last := labels[..|labels| - 1], labels[|labels| - 1];
      ParentsOfUnique(before);
      assert labels == before + [last];
    }
  }

  // A kept label keeps its parent, and its listed parent is kept.
  lemma KeptLabel(labels: seq<ModerationLabel>, min: real, name: string)
    requires UniqueNames(labels) && KeepsParents(labels, min)
    ensures var parents, kept := Parents(labels), Parents(AtLeast(labels, min));
      name in kept ==>
        name in parents && kept[name] == parents[name] && (kept[name] in parents ==> kept[name] in kept)
  {
    var parents, kept := Parents(labels), Parents(AtLeast(labels, min));
    AtLeastKeeps(labels, min);
    AtLeastKeepsNamesUnique(labels, min);
    ParentsOfUnique(labels);
    ParentsOfUnique(AtLeast(labels, min));
    if name in kept {
      var l :| l in AtLeast(labels, min) && l.name == name;
      assert l in labels;
      if l.parent in parents {
        var p :| p in labels && p.name == l.parent;
        assert p in AtLeast(labels, min);
      }
    }
  }

  // A kept label's ancestors are kept too, so it climbs to the same category.
  lemma {:induction false} SameClimb(labels: seq<ModerationLabel>, min: real, name: string, steps: nat)
    requires UniqueNames(labels) && KeepsParents(labels, min)
    requires name in Parents(labels) ==> name in Parents(AtLeast(labels, min))
    ensures Climb(name, Parents(AtLeast(labels, min)), steps) == Climb(name, Parents(labels), steps)
    decreases steps
  {
    var parents := Parents(labels);
    KeptLabel(labels, min, name);
    if steps != 0 && name in parents && parents[name] != "" {
      SameClimb(labels, min, parents[name], steps - 1);
    }
  }

  lemma {:induction false} FoldIgnoresDropped(
      labels: seq<ModerationLabel>, min: real, parents: map<string, string>, keptParents: map<string, string>)
    requires forall l :: l in labels && Rejects(l, parents) ==> l.confidence >= min
    requires forall l :: l in labels && l.confidence >= min ==> (Rejects(l, parents) <==> Rejects(l, keptParents))
    ensures Fold(AtLeast(labels, min), keptParents) == Fold(labels, parents)
  {
    if labels != [] {
      var before, last := labels[..|labels| - 1], labels[|labels| - 1];
      FoldIgnoresDropped(before, min, parents, keptParents);
      assert last in labels;
      var kept := AtLeast(labels, min);
      if last.confidence >= min {
        assert kept[..|kept| - 1] == AtLeast(before, min);
      }
    }
  }

  /** Leaving out the labels below a minimum no higher than any threshold never
      changes the decision, so calibration mode, which asks for every label,
      decides the same. */
  lemma MinimumNeverDecides(labels: seq<ModerationLabel>, min: real)
    requires UniqueNames(labels) && KeepsParents(labels, min)
    requires forall c :: c in THRESHOLDS ==> min <= THRESHOLDS[c]
    ensures Decide(AtLeast(labels, min)) == Decide(labels)
  {
    var kept := AtLeast(labels, min);
    AtLeastKeeps(labels, min);
    AtLeastKeepsNamesUnique(labels, min);
    ParentsOfUnique(labels);
    ParentsOfUnique(kept);
    forall l | l in labels && l.confidence >= min
      ensures Rejects(l, Parents(labels)) <==> Rejects(l, Parents(kept))
    {
      SameClimb(labels, min, l.name, 3);
    }
    FoldIgnoresDropped(labels, min, Parents(labels), Parents(kept));
  }

  lemma SureParentDecides(a: string, b: string, category: string)
    requires category in THRESHOLDS && THRESHOLDS[category] == 80.0
    requires a !in THRESHOLDS && b !in THRESHOLDS && a != b && b != "" && category != ""
    ensures Decide([ModerationLabel(a, b, 90.0), ModerationLabel(b, category, 70.0)]) == Decision(true, a)
  {
    var la, lb := ModerationLabel(a, b, 90.0), ModerationLabel(b, category, 70.0);
    var labels := [la, lb];
    assert labels[..1] == [la] && [la][..0] == [];
    assert Parents([la]) == map[a := b];
    var parents := Parents(labels);
    assert parents == map[a := b, b := category];
    assert Climb(b, parents, 2) == Climb(category, parents, 1) == category;
    assert Climb(a, parents, 3) == category;
    assert Fold([la], parents) == (Decision(true, a), 90.0);
  }

  lemma AloneItDoesNot(a: string, b: string)
    requires a !in THRESHOLDS && b !in THRESHOLDS && a != b && b != ""
    ensures !Decide([ModerationLabel(a, b, 90.0)]).rejected
  {
    var la := ModerationLabel(a, b, 90.0);
    assert [la][..0] == [];
    assert Parents([la]) == map[a := b];
    assert Climb(b, map[a := b], 2) == b && Climb(a, map[a := b], 3) == b;
    assert Fold([la], map[a := b]) == (Decision(false, ""), 0.0);
  }

  lemma OnlyTheSure(la: ModerationLabel, lb: ModerationLabel, min: real)
    requires la.confidence >= min > lb.confidence
    ensures AtLeast([la, lb], min) == [la]
  {
    assert [la, lb][..1] == [la] && [la][..0] == [];
    assert AtLeast([la], min) == [la];
  }

  /** The parents' confidence matters: dropping an unsure parent b of a sure
      label a loses a's way up to its category. */
  lemma UnsureParentsDecide(a: string, b: string, category: string)
    requires category in THRESHOLDS && THRESHOLDS[category] == 80.0
    requires a !in THRESHOLDS && b !in THRESHOLDS && a != b && b != "" && category != ""
    ensures var labels := [ModerationLabel(a, b, 90.0), ModerationLabel(b, category, 70.0)];
      UniqueNames(labels) && Decide(labels) == Decision(true, a) && !Decide(AtLeast(labels, 80.0)).rejected
  {
    SureParentDecides(a, b, category);
    OnlyTheSure(ModerationLabel(a, b, 90.0), ModerationLabel(b, category, 70.0), 80.0);
    AloneItDoesNot(a, b);
  }

  // ---- the code ----

  // topLevel: at most three steps up.
  method TopLevel(name: string, parents: map<string, string>) returns (top: string)
    ensures top == Climb(name, parents, 3)
  {
    top := name;
    for i := 0 to 3
      invariant Climb(top, parents, 3 - i) == Climb(name, parents, 3)
    {
      if top !in parents || parents[top] == "" {
        return;
      }
      top := parents[top];
    }
  }

  method DecideLabels(labels: seq<ModerationLabel>) returns (d: Decision)
    ensures d == Decide(labels)
  {
    var parents: map<string, string> := map[];
    for i := 0 to |labels|
      invariant parents == Parents(labels[..i])
    {
      parents := parents[labels[i].name := labels[i].parent];
      assert labels[..i + 1][..i] == labels[..i];
    }
    assert labels[..|labels|] == labels;
    d := Decision(false, "");
    var best := 0.0;
    for i := 0 to |labels|
      invariant (d, best) == Fold(labels[..i], parents)
    {
      assert labels[..i + 1][..i] == labels[..i];
      var top := TopLevel(labels[i].name, parents);
      if top in THRESHOLDS && labels[i].confidence >= THRESHOLDS[top] && labels[i].confidence > best {
        d, best := Decision(true, labels[i].name), labels[i].confidence;
      }
    }
  }

  // minConfidence: the lowest threshold, or 0 in calibration mode.
  method MinConfidence(calibration: bool) returns (min: real)
    ensures forall c :: c in THRESHOLDS ==> min <= THRESHOLDS[c]
    ensures if calibration then min == 0.0 else exists c :: c in THRESHOLDS && min == THRESHOLDS[c]
  {
    if calibration {
      return 0.0;
    }
    var left := THRESHOLDS.Keys;
    assert "Explicit" in left;
    var first :| first in left;
    min := THRESHOLDS[first];
    left := left - {first};
    while left != {}
      invariant left <= THRESHOLDS.Keys
      invariant exists c :: c in THRESHOLDS && min == THRESHOLDS[c]
      invariant forall c :: c in THRESHOLDS && c !in left ==> min <= THRESHOLDS[c]
    {
      var c :| c in left;
      if THRESHOLDS[c] < min {
        min := THRESHOLDS[c];
      }
      left := left - {c};
    }
  }
}
