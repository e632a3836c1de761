/** Account.Delete (internal/accountdelete): the item tables in a fixed order,
    every image, the profile, then the operator's notice. Each table's DeleteAll
    may stop having deleted any of its items. */
module AccountDelete {
  import opened Repository

  predicate Submap<K, V(==)>(m: map<K, V>, m0: map<K, V>) {
    m.Keys <= m0.Keys && forall k :: k in m ==> m[k] == m0[k]
  }

  /** The states an account delete that started at c0 passes through: a table is
      touched only once those before it are empty, and the images after them all. */
  predicate AccountPartial(c0: Collection, c: Collection) {
    && Submap(c.builds, c0.builds)
    && Submap(c.keyboards, c0.keyboards) && (c.keyboards == c0.keyboards || c.builds == map[])
    && Submap(c.switches, c0.switches) && (c.switches == c0.switches || (c.builds == map[] && c.keyboards == map[]))
    && Submap(c.keycapSets, c0.keycapSets)
    && (c.keycapSets == c0.keycapSets || (c.builds == map[] && c.keyboards == map[] && c.switches == map[]))
    && c.objects <= c0.objects
    && (c.objects == c0.objects
        || (c.builds == map[] && c.keyboards == map[] && c.switches == map[] && c.keycapSets == map[]))
  }

  predicate Emptied(c: Collection) {
    c == Collection(map[], map[], map[], map[], {})
  }

  lemma AccountPartialTransitive(c0: Collection, c1: Collection, c2: Collection)
    requires AccountPartial(c0, c1) && AccountPartial(c1, c2)
    ensures AccountPartial(c0, c2)
  {
  }

  lemma AccountPartialAtStart(c: Collection)
    ensures AccountPartial(c, c)
  {
  }

  // One table loses items, those before it being empty.
  lemma TableShrinks(c0: Collection, c: Collection, c': Collection)
    requires AccountPartial(c0, c) && c'.objects == c.objects
    requires
      || (Submap(c'.builds, c.builds) && c' == c.(builds := c'.builds))
      || (c.builds == map[] && Submap(c'.keyboards, c.keyboards) && c' == c.(keyboards := c'.keyboards))
      || (&& c.builds == map[] && c.keyboards == map[]
          && Submap(c'.switches, c.switches) && c' == c.(switches := c'.switches))
      || (&& c.builds == map[] && c.keyboards == map[] && c.switches == map[]
          && Submap(c'.keycapSets, c.keycapSets) && c' == c.(keycapSets := c'.keycapSets))
    ensures AccountPartial(c0, c')
  {
  }

  lemma ObjectsShrink(c0: Collection, c: Collection, objects: set<Key>)
    requires AccountPartial(c0, c) && objects <= c.objects
    requires c.builds == map[] && c.keyboards == map[] && c.switches == map[] && c.keycapSets == map[]
    ensures AccountPartial(c0, c.(objects := objects))
  {
  }

  class Account {
    var builds: map<Id, Build>
    var keyboards: map<Id, Keyboard>
    var switches: map<Id, Switch>
    var keycapSets: map<Id, KeycapSet>
    var objects: set<Key>
    var profile: bool
    // Notices sent, and whether there is anyone to send them to.
    var notices: nat
    const notifies: bool
    // The state after each table's DeleteAll, and the number of calls that failed.
    ghost var trace: seq<Collection>
    ghost var failures: nat

    function State(): Collection
      reads this`keyboards, this`switches, this`keycapSets, this`builds, this`objects
    {
      Collection(keyboards, switches, keycapSets, builds, objects)
    }

    // Every state since the first `from` is on the way of deleting c0.
    ghost predicate Within(from: nat, c0: Collection)
      reads this`keyboards, this`switches, this`keycapSets, this`builds, this`objects, this`trace
    {
      && from <= |trace|
      && AccountPartial(c0, State())
      && forall i :: from <= i < |trace| ==> AccountPartial(c0, trace[i])
    }

    // DeleteAll of one table: everything, or on an error any part of it.
    method DeleteAll<T(==)>(table: map<Id, T>) returns (rest: map<Id, T>, ok: bool)
      modifies this`failures
      ensures Submap(rest, table)
      ensures ok ==> rest == map[]
      ensures failures == old(failures) + if ok then 0 else 1
    {
      ok := *;
      failures := failures + if ok then 0 else 1;
      var gone: set<Id> := *;
      rest := if ok then map[] else table - gone;
    }

    method DeleteImages() returns (ok: bool)
      modifies this`objects, this`failures
      ensures objects <= old(objects)
      ensures ok ==> objects == {}
      ensures failures == old(failures) + if ok then 0 else 1
    {
      ok := *;
      failures := failures + if ok then 0 else 1;
      var gone: set<Key> := *;
      objects := if ok then {} else objects - gone;
    }

    method DeleteProfile() returns (ok: bool)
      modifies this`profile, this`failures
      ensures !profile || (!ok && profile == old(profile))
      ensures failures == old(failures) + if ok then 0 else 1
    {
      ok := *;
      failures := failures + if ok then 0 else 1;
      var reached: bool := *;
      profile := profile && !ok && !reached;
    }

    // A notice that can't be sent is logged, not returned.
    method Notify()
      modifies this`notices
      ensures notices == old(notices) + if notifies then 1 else 0
    {
      if notifies {
        notices := notices + 1;
      }
    }

    method DeleteBuilds(ghost from: nat, ghost c0: Collection) returns (ok: bool)
      requires Within(from, c0)
      modifies this`builds, this`trace, this`failures
      ensures old(trace) <= trace && Within(from, c0) && (ok ==> builds == map[])
      ensures failures == old(failures) + if ok then 0 else 1
    {
      ghost var c := State();
      builds, ok := DeleteAll(builds);
      TableShrinks(c0, c, State());
      trace := trace + [State()];
    }

    method DeleteKeyboards(ghost from: nat, ghost c0: Collection) returns (ok: bool)
      requires Within(from, c0) && builds == map[]
      modifies this`keyboards, this`trace, this`failures
      ensures old(trace) <= trace && Within(from, c0) && (ok ==> keyboards == map[])
      ensures failures == old(failures) + if ok then 0 else 1
    {
      ghost var c := State();
      keyboards, ok := DeleteAll(keyboards);
      TableShrinks(c0, c, State());
      trace := trace + [State()];
    }

    method DeleteSwitches(ghost from: nat, ghost c0: Collection) returns (ok: bool)
      requires Within(from, c0) && builds == map[] && keyboards == map[]
      modifies this`switches, this`trace, this`failures
      ensures old(trace) <= trace && Within(from, c0) && (ok ==> switches == map[])
      ensures failures == old(failures) + if ok then 0 else 1
    {
      ghost var c := State();
      switches, ok := DeleteAll(switches);
      TableShrinks(c0, c, State());
      trace := trace + [State()];
    }

    method DeleteKeycapSets(ghost from: nat, ghost c0: Collection) returns (ok: bool)
      requires Within(from, c0) && builds == map[] && keyboards == map[] && switches == map[]
      modifies this`keycapSets, this`trace, this`failures
      ensures old(trace) <= trace && Within(from, c0) && (ok ==> keycapSets == map[])
      ensures failures == old(failures) + if ok then 0 else 1
    {
      ghost var c := State();
      keycapSets, ok := DeleteAll(keycapSets);
      TableShrinks(c0, c, State());
      trace := trace + [State()];
    }

    method DeleteItems(ghost from: nat, ghost c0: Collection) returns (ok: bool)
      requires Within(from, c0)
      modifies this`builds, this`keyboards, this`switches, this`keycapSets, this`trace, this`failures
      ensures old(trace) <= trace && Within(from, c0)
      ensures failures == old(failures) + if ok then 0 else 1
      ensures ok ==> builds == map[] && keyboards == map[] && switches == map[] && keycapSets == map[]
    {
      ok := DeleteBuilds(from, c0);
      if !ok {
        return;
      }
      ok := DeleteKeyboards(from, c0);
      if !ok {
        return;
      }
      ok := DeleteSwitches(from, c0);
      if !ok {
        return;
      }
      ok := DeleteKeycapSets(from, c0);
    }

    /** Every state on the way is an AccountPartial one, the profile goes only
        once everything else has, the notice is sent only once that has too, and
        the first failed call stops it. */
    method Delete() returns (ok: bool)
      modifies this
      ensures old(trace) <= trace && Within(|old(trace)|, old(State()))
      ensures ok ==> Emptied(State()) && !profile
      ensures profile != old(profile) ==> Emptied(State())
      ensures notices == old(notices) + if ok && notifies then 1 else 0
      ensures failures == old(failures) + if ok then 0 else 1
    {
      hide AccountPartial;
      ghost var c0, from := State(), |trace|;
      AccountPartialAtStart(c0);
      ok := DeleteItems(from, c0);
      if !ok {
        return;
      }
      ghost var c := State();
      ok := DeleteImages();
      ObjectsShrink(c0, c, objects);
      trace := trace + [State()];
      if !ok {
        return;
      }
      ok := DeleteProfile();
      if !ok {
        return;
      }
      Notify();
    }

    /** A delete that failed can be retried to finish the rest. */
    method Retry(attempts: nat) returns (done: bool)
      modifies this
      ensures old(trace) <= trace && Within(|old(trace)|, old(State()))
      ensures done ==> Emptied(State()) && !profile
      ensures notices <= old(notices) + 1
    {
      ghost var c0, from := State(), |trace|;
      done := false;
      for k := 0 to attempts
        invariant old(trace) <= trace && Within(from, c0)
        invariant done ==> Emptied(State()) && !profile
        invariant notices <= old(notices) + if done then 1 else 0
      {
        if !done {
          ghost var c1, before := State(), |trace|;
          done := Delete();
          StillWithin(from, before, c0, c1);
        }
      }
    }

    lemma StillWithin(from: nat, before: nat, c0: Collection, c1: Collection)
      requires from <= before && Within(before, c1) && AccountPartial(c0, c1)
      requires forall i :: from <= i < before ==> AccountPartial(c0, trace[i])
      ensures Within(from, c0)
    {
      AccountPartialTransitive(c0, c1, State());
      forall i | before <= i < |trace|
        ensures AccountPartial(c0, trace[i])
      {
        AccountPartialTransitive(c0, c1, trace[i]);
      }
    }

    constructor (collection: Collection, notifies: bool)
      ensures State() == collection && profile && this.notifies == notifies && notices == 0
    {
      keyboards, switches, keycapSets := collection.keyboards, collection.switches, collection.keycapSets;
      builds, objects := collection.builds, collection.objects;
      profile, notices, this.notifies, trace, failures := true, 0, notifies, [], 0;
    }
  }
}
