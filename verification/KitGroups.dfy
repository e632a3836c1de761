/** A build's keycap kits, grouped by set as the REST API returns them
    (repoapi.Build.keycapSetRefsToAPI): the sets in the order each first
    appears, each set's kits in order and once. */
module KitGroups {
  import opened Repository

  datatype Group = Group(keycapSet: Id, kits: seq<Id>)

  // One more entry: a new group, a new kit of its set's group, or nothing.
  function AddEntry(groups: seq<Group>, e: KitEntry): seq<Group> {
    if groups == [] then [Group(e.keycapSet, [e.kit])]
    else if groups[0].keycapSet != e.keycapSet then [groups[0]] + AddEntry(groups[1..], e)
    else if e.kit in groups[0].kits then groups
    else [Group(e.keycapSet, groups[0].kits + [e.kit])] + groups[1..]
  }

  function GroupKits(entries: seq<KitEntry>): seq<Group> {
    if entries == [] then [] else AddEntry(GroupKits(entries[..|entries| - 1]), entries[|entries| - 1])
  }

  function GroupEntries(g: Group): (r: seq<KitEntry>)
    ensures |r| == |g.kits| && forall i :: 0 <= i < |r| ==> r[i] == KitEntry(g.keycapSet, g.kits[i])
  {
    seq(|g.kits|, i requires 0 <= i < |g.kits| => KitEntry(g.keycapSet, g.kits[i]))
  }

  // verify.go's flattenKits: the groups' entries in order.
  function Flatten(groups: seq<Group>): seq<KitEntry> {
    if groups == [] then [] else GroupEntries(groups[0]) + Flatten(groups[1..])
  }

  // The entries with repeats left out, in the order each first appears.
  function Distinct(entries: seq<KitEntry>): seq<KitEntry> {
    if entries == [] then []
    else
      var before, e := Distinct(entries[..|entries| - 1]), entries[|entries| - 1];
      if e in before then before else before + [e]
  }

  // What grouping gives: no two groups of one set, no kit twice, no empty group.
  predicate WellGrouped(groups: seq<Group>) {
    && (forall i, j :: 0 <= i < j < |groups| ==> groups[i].keycapSet != groups[j].keycapSet)
    && (forall i :: 0 <= i < |groups| ==> groups[i].kits != [])
    && forall i, j, k :: 0 <= i < |groups| && 0 <= j < k < |groups[i].kits| ==> groups[i].kits[j] != groups[i].kits[k]
  }

  lemma {:induction false} AddEntryKeepsSets(groups: seq<Group>, e: KitEntry)
    ensures forall g' :: g' in AddEntry(groups, e) ==>
      g'.keycapSet == e.keycapSet || exists g :: g in groups && g.keycapSet == g'.keycapSet
  {
    if groups != [] && groups[0].keycapSet != e.keycapSet {
      AddEntryKeepsSets(groups[1..], e);
      assert groups == [groups[0]] + groups[1..];
    }
  }

  lemma {:induction false} AddEntryWellGrouped(groups: seq<Group>, e: KitEntry)
    requires WellGrouped(groups)
    ensures WellGrouped(AddEntry(groups, e))
  {
    if groups != [] && groups[0].keycapSet != e.keycapSet {
      var rest := AddEntry(groups[1..], e);
      AddEntryWellGrouped(groups[1..], e);
      AddEntryKeepsSets(groups[1..], e);
      forall i | 0 <= i < |rest|
        ensures rest[i].keycapSet != groups[0].keycapSet
      {
        assert rest[i] in rest;
      }
    }
  }

  lemma {:induction false} GroupKitsWellGrouped(entries: seq<KitEntry>)
    ensures WellGrouped(GroupKits(entries))
  {
    if entries != [] {
      GroupKitsWellGrouped(entries[..|entries| - 1]);
      AddEntryWellGrouped(GroupKits(entries[..|entries| - 1]), entries[|entries| - 1]);
    }
  }

  lemma FlattenCons(g: Group, rest: seq<Group>)
    ensures Flatten([g] + rest) == GroupEntries(g) + Flatten(rest)
  {
    assert ([g] + rest)[1..] == rest;
  }

  lemma {:induction false} FlattenAddEntry(groups: seq<Group>, e: KitEntry)
    requires WellGrouped(groups)
    ensures multiset(Flatten(AddEntry(groups, e)))
      == multiset(Flatten(groups)) + if e in Flatten(groups) then multiset{} else multiset{e}
  {
    if groups == [] {
      FlattenCons(Group(e.keycapSet, [e.kit]), []);
      assert GroupEntries(Group(e.keycapSet, [e.kit])) == [e];
    } else {
      var g, rest := groups[0], groups[1..];
      FlattenCons(g, rest);
      assert groups == [g] + rest;
      if g.keycapSet != e.keycapSet {
        FlattenAddEntry(rest, e);
        FlattenCons(g, AddEntry(rest, e));
        assert e !in GroupEntries(g);
      } else if e.kit in g.kits {
        var i :| 0 <= i < |g.kits| && g.kits[i] == e.kit;
        assert GroupEntries(g)[i] == e;
      } else {
        FlattenNewKit(g, rest, e);
        NotInLaterGroups(groups, e);
      }
    }
  }

  lemma FlattenNewKit(g: Group, rest: seq<Group>, e: KitEntry)
    requires g.keycapSet == e.keycapSet && e.kit !in g.kits
    ensures multiset(Flatten([Group(e.keycapSet, g.kits + [e.kit])] + rest))
      == multiset(Flatten([g] + rest)) + multiset{e}
    ensures e !in GroupEntries(g)
  {
    var g' := Group(e.keycapSet, g.kits + [e.kit]);
    FlattenCons(g, rest);
    FlattenCons(g', rest);
    assert GroupEntries(g') == GroupEntries(g) + [e];
  }

  lemma NotInLaterGroups(groups: seq<Group>, e: KitEntry)
    requires WellGrouped(groups) && groups != [] && groups[0].keycapSet == e.keycapSet
    ensures e !in Flatten(groups[1..])
  {
    InFlatten(groups[1..], e);
  }

  lemma {:induction false} InFlatten(groups: seq<Group>, e: KitEntry)
    ensures e in Flatten(groups) <==> exists i :: 0 <= i < |groups| && e in GroupEntries(groups[i])
  {
    if groups != [] {
      InFlatten(groups[1..], e);
      if e in Flatten(groups[1..]) {
        var i :| 0 <= i < |groups[1..]| && e in GroupEntries(groups[1..][i]);
        assert groups[i + 1] == groups[1..][i];
      }
      if i :| 0 <= i < |groups| && e in GroupEntries(groups[i]) {
        assert i > 0 ==> groups[1..][i - 1] == groups[i];
      }
    }
  }

  /** Grouping keeps each distinct entry exactly once. */
  lemma {:induction false} GroupKitsPermutesDistinct(entries: seq<KitEntry>)
    ensures multiset(Flatten(GroupKits(entries))) == multiset(Distinct(entries))
    ensures forall e :: e in Distinct(entries) <==> e in entries
  {
    if entries != [] {
      var before, e := entries[..|entries| - 1], entries[|entries| - 1];
      assert entries == before + [e];
      GroupKitsPermutesDistinct(before);
      GroupKitsWellGrouped(before);
      FlattenAddEntry(GroupKits(before), e);
      assert e in Flatten(GroupKits(before)) <==> e in multiset(Flatten(GroupKits(before)));
      assert e in Distinct(before) <==> e in multiset(Distinct(before));
    }
  }

  lemma {:induction false} FlattenSnoc(groups: seq<Group>, g: Group)
    ensures Flatten(groups + [g]) == Flatten(groups) + GroupEntries(g)
  {
    if groups == [] {
      FlattenCons(g, []);
    } else {
      FlattenSnoc(groups[1..], g);
      assert groups + [g] == [groups[0]] + (groups[1..] + [g]);
      FlattenCons(groups[0], groups[1..] + [g]);
    }
  }

  /** Grouping the entries of groups that are well grouped gives the groups back. */
  lemma {:induction false} RegroupFlatten(groups: seq<Group>)
    requires WellGrouped(groups)
    ensures GroupKits(Flatten(groups)) == groups
  {
    if groups != [] {
      var before, g := groups[..|groups| - 1], groups[|groups| - 1];
      assert groups == before + [g];
      RegroupFlatten(before);
      FlattenSnoc(before, g);
      assert forall i :: 0 <= i < |before| ==> groups[i].keycapSet != g.keycapSet;
      RegroupKits(Flatten(before), g.keycapSet, g.kits);
    }
  }

  lemma GroupKitsSnoc(entries: seq<KitEntry>, e: KitEntry)
    ensures GroupKits(entries + [e]) == AddEntry(GroupKits(entries), e)
  {
    assert (entries + [e])[..|entries|] == entries;
  }

  // The last group grows by a kit.
  lemma GrowLastGroup(before: seq<Group>, last: Group, kit: Id)
    requires forall i :: 0 <= i < |before| ==> before[i].keycapSet != last.keycapSet
    requires kit !in last.kits
    ensures AddEntry(before + [last], KitEntry(last.keycapSet, kit))
      == before + [Group(last.keycapSet, last.kits + [kit])]
  {
    var groups := before + [last];
    AddEntryToGroup(groups, KitEntry(last.keycapSet, kit), |before|);
    var grown := Group(last.keycapSet, last.kits + [kit]);
    assert groups[|before| := grown] == before + [grown];
  }

  lemma GroupEntriesSnoc(id: Id, kits: seq<Id>, kit: Id)
    ensures GroupEntries(Group(id, kits + [kit])) == GroupEntries(Group(id, kits)) + [KitEntry(id, kit)]
  {
  }

  // The last group is rebuilt kit by kit.
  lemma {:induction false} RegroupKits(entries: seq<KitEntry>, id: Id, kits: seq<Id>)
    requires forall i :: 0 <= i < |GroupKits(entries)| ==> GroupKits(entries)[i].keycapSet != id
    requires forall j, k :: 0 <= j < k < |kits| ==> kits[j] != kits[k]
    requires kits != []
    ensures GroupKits(entries + GroupEntries(Group(id, kits))) == GroupKits(entries) + [Group(id, kits)]
  {
    var before, kit := kits[..|kits| - 1], kits[|kits| - 1];
    assert kits == before + [kit];
    GroupEntriesSnoc(id, before, kit);
    if before == [] {
      assert GroupEntries(Group(id, before)) == [];
      AddEntryToNewSet(GroupKits(entries), KitEntry(id, kit));
      GroupKitsSnoc(entries, KitEntry(id, kit));
    } else {
      RegroupKits(entries, id, before);
      GrowLastGroup(GroupKits(entries), Group(id, before), kit);
      assert entries + (GroupEntries(Group(id, before)) + [KitEntry(id, kit)])
          == entries + GroupEntries(Group(id, before)) + [KitEntry(id, kit)];
      GroupKitsSnoc(entries + GroupEntries(Group(id, before)), KitEntry(id, kit));
    }
  }

  // ---- the grouping loop ----

  // The groups a list of set ids and a map of their kit ids stand for.
  function GroupsOf(setIDs: seq<Id>, kitIDs: map<Id, seq<Id>>): seq<Group>
    requires forall i :: 0 <= i < |setIDs| ==> setIDs[i] in kitIDs
  {
    seq(|setIDs|, i requires 0 <= i < |setIDs| => Group(setIDs[i], kitIDs[setIDs[i]]))
  }

  lemma {:induction false} AddEntryToNewSet(groups: seq<Group>, e: KitEntry)
    requires forall i :: 0 <= i < |groups| ==> groups[i].keycapSet != e.keycapSet
    ensures AddEntry(groups, e) == groups + [Group(e.keycapSet, [e.kit])]
  {
    if groups != [] {
      AddEntryToNewSet(groups[1..], e);
    }
  }

  lemma {:induction false} AddEntryToGroup(groups: seq<Group>, e: KitEntry, i: nat)
    requires i < |groups| && groups[i].keycapSet == e.keycapSet
    requires forall j :: 0 <= j < i ==> groups[j].keycapSet != e.keycapSet
    ensures AddEntry(groups, e)
      == if e.kit in groups[i].kits then groups else groups[i := Group(e.keycapSet, groups[i].kits + [e.kit])]
  {
    if i > 0 {
      AddEntryToGroup(groups[1..], e, i - 1);
    }
  }

  ghost predicate Grouped(entries: seq<KitEntry>, setIDs: seq<Id>, kitIDs: map<Id, seq<Id>>) {
    && (forall id :: id in kitIDs <==> id in setIDs)
    && (forall i, j :: 0 <= i < j < |setIDs| ==> setIDs[i] != setIDs[j])
    && GroupsOf(setIDs, kitIDs) == GroupKits(entries)
  }

  lemma GroupNewSet(entries: seq<KitEntry>, e: KitEntry, setIDs: seq<Id>, kitIDs: map<Id, seq<Id>>)
    requires Grouped(entries, setIDs, kitIDs) && e.keycapSet !in kitIDs
    ensures Grouped(entries + [e], setIDs + [e.keycapSet], kitIDs[e.keycapSet := [e.kit]])
  {
    assert (entries + [e])[..|entries|] == entries;
    var groups := GroupsOf(setIDs, kitIDs);
    AddEntryToNewSet(groups, e);
    assert GroupsOf(setIDs + [e.keycapSet], kitIDs[e.keycapSet := [e.kit]]) == groups + [Group(e.keycapSet, [e.kit])];
  }

  lemma GroupNewKit(entries: seq<KitEntry>, e: KitEntry, setIDs: seq<Id>, kitIDs: map<Id, seq<Id>>)
    requires Grouped(entries, setIDs, kitIDs) && e.keycapSet in kitIDs
    ensures Grouped(entries + [e], setIDs,
      if e.kit in kitIDs[e.keycapSet] then kitIDs else kitIDs[e.keycapSet := kitIDs[e.keycapSet] + [e.kit]])
  {
    hide GroupKits, AddEntry;
    GroupKitsSnoc(entries, e);
    var groups := GroupsOf(setIDs, kitIDs);
    var i :| 0 <= i < |setIDs| && setIDs[i] == e.keycapSet;
    AddEntryToGroup(groups, e, i);
    if e.kit !in kitIDs[e.keycapSet] {
      ReplaceGroup(setIDs, kitIDs, i, kitIDs[e.keycapSet] + [e.kit]);
    }
  }

  lemma ReplaceGroup(setIDs: seq<Id>, kitIDs: map<Id, seq<Id>>, i: nat, kits: seq<Id>)
    requires i < |setIDs| && forall j :: 0 <= j < |setIDs| ==> setIDs[j] in kitIDs
    requires forall j, k :: 0 <= j < k < |setIDs| ==> setIDs[j] != setIDs[k]
    ensures GroupsOf(setIDs, kitIDs[setIDs[i] := kits]) == GroupsOf(setIDs, kitIDs)[i := Group(setIDs[i], kits)]
  {
  }

  /** keycapSetRefsToAPI's grouping, with a list of set ids and a map of each
      set's kit ids. */
  method GroupBySet(entries: seq<KitEntry>) returns (setIDs: seq<Id>, kitIDs: map<Id, seq<Id>>)
    ensures Grouped(entries, setIDs, kitIDs)
  {
    setIDs, kitIDs := [], map[];
    for i := 0 to |entries|
      invariant Grouped(entries[..i], setIDs, kitIDs)
    {
      var e := entries[i];
      assert entries[..i] + [e] == entries[..i + 1];
      if e.keycapSet !in kitIDs {
        GroupNewSet(entries[..i], e, setIDs, kitIDs);
        setIDs := setIDs + [e.keycapSet];
        kitIDs := kitIDs[e.keycapSet := [e.kit]];
      } else {
        GroupNewKit(entries[..i], e, setIDs, kitIDs);
        if e.kit !in kitIDs[e.keycapSet] {
          kitIDs := kitIDs[e.keycapSet := kitIDs[e.keycapSet] + [e.kit]];
        }
      }
    }
    assert entries[..|entries|] == entries;
  }
}
