/** Whole runs over a collection: owner writes, validated build writes, deletes
    of every kind and account deletes, one after another, any of them stopped
    anywhere. */
module CollectionRuns {
  import opened Wrappers
  import opened Repository
  import opened BuildRefs
  import opened CascadeState
  import opened BuildCosts
  import opened AccountDelete

  datatype Event =
    | ItemWrite
    | BuildWrite(id: Id, build: Build)
    | Deletion(target: Target)
    | AccountDeletion

  // An owner's write to keyboards, switches, sets, kits, parts or images. None
  // takes an item away, or changes what a build refers to.
  predicate OnlyAdds(c: Collection, c': Collection) {
    && c.keyboards.Keys <= c'.keyboards.Keys
    && (forall id :: id in c.keyboards ==>
          && c.keyboards[id].plates.Keys <= c'.keyboards[id].plates.Keys
          && c.keyboards[id].pcbs.Keys <= c'.keyboards[id].pcbs.Keys)
    && c.switches.Keys <= c'.switches.Keys
    && c.keycapSets.Keys <= c'.keycapSets.Keys
    && (forall id :: id in c.keycapSets ==> c.keycapSets[id].kits.Keys <= c'.keycapSets[id].kits.Keys)
    && c'.builds.Keys == c.builds.Keys
    && forall id :: id in c.builds ==> c'.builds[id] == c.builds[id].(images := c'.builds[id].images)
  }

  // c' is a state the event leaves, or passes through, from c.
  predicate Follows(c: Collection, e: Event, c': Collection) {
    match e
    case ItemWrite => OnlyAdds(c, c')
    case BuildWrite(id, b) =>
      NonEmptyIds(b) && Uncached(StoresOf(c), b) == Ok([]) && c' == c.(builds := c.builds[id := b])
    case Deletion(t) => Partial(c, c', t)
    case AccountDeletion => AccountPartial(c, c')
  }

  ghost predicate IsRun(cs: seq<Collection>, es: seq<Event>) {
    && |cs| == |es| + 1
    && forall i :: 0 <= i < |es| ==> Follows(cs[i], es[i], cs[i + 1])
  }

  lemma ResolvesAfterAdding(c: Collection, c': Collection, b: Build)
    requires OnlyAdds(c, c') && Resolves(c, b)
    ensures Resolves(c', b)
  {
  }

  lemma EventKeepsIntegrity(c: Collection, e: Event, c': Collection)
    requires Integrity(c) && Follows(c, e, c')
    ensures Integrity(c')
  {
    match e
    case ItemWrite =>
      forall id | id in c'.builds
        ensures Resolves(c', c'.builds[id])
      {
        assert Resolves(c, c.builds[id]);
        ResolvesAfterAdding(c, c', c'.builds[id]);
      }
    case BuildWrite(id, b) =>
      PassesIffResolves(c, b);
      forall id' | id' in c'.builds
        ensures Resolves(c', c'.builds[id'])
      {
        assert id' in c.builds && c'.builds[id'] == c.builds[id'] ==> Resolves(c, c.builds[id']);
      }
    case Deletion(t) =>
      PartialKeepsIntegrity(c, c', t);
    case AccountDeletion =>
      forall id | id in c'.builds
        ensures Resolves(c', c'.builds[id])
      {
        assert Resolves(c, c.builds[id]);
      }
  }

  /** In every state of every run that starts empty, every build's keyboard, parts,
      switches, sets and kits are there, */
  lemma {:induction false} RunsKeepIntegrity(cs: seq<Collection>, es: seq<Event>, k: nat)
    requires IsRun(cs, es) && cs[0].builds == map[] && k < |cs|
    ensures Integrity(cs[k])
  {
    if k > 0 {
      RunsKeepIntegrity(cs, es, k - 1);
      EventKeepsIntegrity(cs[k - 1], es[k - 1], cs[k]);
    }
  }

  /** so showing a build never fails on a missing reference, in REST or in MCP, to
      anyone. */
  lemma BuildsAlwaysShow(cs: seq<Collection>, es: seq<Event>, k: nat, id: Id, isOwner: bool, prefs: Preferences)
    requires IsRun(cs, es) && cs[0].builds == map[] && k < |cs| && id in cs[k].builds
    ensures Shows(cs[k], cs[k].builds[id])
    ensures RestAnswer(cs[k], cs[k].builds[id], isOwner, prefs).Ok?
    ensures McpAnswer(cs[k], cs[k].builds[id], isOwner, prefs).Ok?
  {
    RunsKeepIntegrity(cs, es, k);
    assert Resolves(cs[k], cs[k].builds[id]);
  }
}
