// SortedPlates, SortedPCBs and KeyboardPlatesMap: a keyboard's parts as a map
// by id and as a list in order (internal/repository/keyboard.go).
module PartOrder {
  import opened Wrappers
  import opened Repository

  // Go's string order.
  predicate Less(a: string, b: string) {
    if b == [] then false
    else if a == [] then true
    else a[0] < b[0] || (a[0] == b[0] && Less(a[1..], b[1..]))
  }

  lemma {:induction false} LessIsTotal(a: string, b: string)
    ensures a == b || Less(a, b) || Less(b, a)
    ensures !(Less(a, b) && Less(b, a)) && !Less(a, a)
  {
    if a != [] {
      LessIsTotal(a[1..], a[1..]);
      if b != [] {
        LessIsTotal(a[1..], b[1..]);
        if a[0] == b[0] && a[1..] == b[1..] {
          assert a == [a[0]] + a[1..] && b == [b[0]] + b[1..];
        }
      }
    }
  }

  /** The first character that differs decides, and a prefix comes first. */
  lemma {:induction false} LessIsLexicographic(a: string, b: string)
    ensures Less(a, b) <==>
      a < b || exists i :: 0 <= i < |a| && i < |b| && a[..i] == b[..i] && a[i] < b[i]
  {
    if a != [] && b != [] {
      var a', b' := a[1..], b[1..];
      LessIsLexicographic(a', b');
      if a[0] == b[0] {
        assert a < b <==> a' < b';
        if i :| 0 <= i < |a'| && i < |b'| && a'[..i] == b'[..i] && a'[i] < b'[i] {
          assert a[..i + 1] == [a[0]] + a'[..i] && b[..i + 1] == [b[0]] + b'[..i];
        }
        if i :| 0 <= i < |a| && i < |b| && a[..i] == b[..i] && a[i] < b[i] {
          assert a'[..i - 1] == a[..i][1..] && b'[..i - 1] == b[..i][1..];
        }
      } else {
        assert a[..0] == b[..0];
        forall i | 0 < i < |a| && i < |b|
          ensures a[..i] != b[..i]
        {
          assert a[..i][0] != b[..i][0];
        }
      }
    }
  }

  lemma {:induction false} LessIsTransitive(a: string, b: string, c: string)
    requires Less(a, b) && Less(b, c)
    ensures Less(a, c)
  {
    if a != [] && a[0] == b[0] && b[0] == c[0] {
      LessIsTransitive(a[1..], b[1..], c[1..]);
    }
  }

  // By order number, then by id.
  predicate Before(p: Part, q: Part) {
    p.order < q.order || (p.order == q.order && Less(p.id, q.id))
  }

  predicate Ordered(parts: seq<Part>) {
    forall i, j :: 0 <= i < j < |parts| ==> Before(parts[i], parts[j])
  }

  // A parts map is keyed by its parts' ids.
  predicate ById(m: map<Id, Part>) {
    forall id :: id in m ==> m[id].id == id
  }

  // The list is the map's parts in order.
  ghost predicate Lists(parts: seq<Part>, m: map<Id, Part>) {
    Ordered(parts) && forall p :: p in parts <==> p.id in m && m[p.id] == p
  }

  // ---- one list per map ----

  lemma HasAnElement(parts: seq<Part>)
    requires parts != []
    ensures exists p :: p in parts
  {
    assert parts[0] in parts;
  }

  lemma TailIsTheRest(a: seq<Part>)
    requires a != [] && Ordered(a)
    ensures forall p :: p in a[1..] <==> p in a && p != a[0]
  {
    assert a == [a[0]] + a[1..];
    LessIsTotal(a[0].id, a[0].id);
    assert !Before(a[0], a[0]);
    forall p | p in a[1..]
      ensures p != a[0]
    {
      var k :| 0 <= k < |a[1..]| && a[1..][k] == p;
      assert Before(a[0], a[k + 1]);
    }
  }

  lemma {:induction false} OrderedUnique(a: seq<Part>, b: seq<Part>)
    requires Ordered(a) && Ordered(b) && forall p :: p in a <==> p in b
    ensures a == b
  {
    if a == [] {
      if b != [] {
        HasAnElement(b);
      }
    } else {
      var x := a[0];
      assert x in b && b[0] in a;
      var i :| 0 <= i < |b| && b[i] == x;
      var j :| 0 <= j < |a| && a[j] == b[0];
      LessIsTotal(x.id, b[0].id);
      assert i == 0 && j == 0;
      TailIsTheRest(a);
      TailIsTheRest(b);
      OrderedUnique(a[1..], b[1..]);
    }
  }

  /** However the map is iterated, sorting gives the same list. */
  lemma ListUnique(a: seq<Part>, b: seq<Part>, m: map<Id, Part>)
    requires Lists(a, m) && Lists(b, m)
    ensures a == b
  {
    OrderedUnique(a, b);
  }

  // sort.Slice, by insertion.
  function Insert(parts: seq<Part>, p: Part): seq<Part> {
    if parts == [] || Before(parts[|parts| - 1], p) then parts + [p]
    else Insert(parts[..|parts| - 1], p) + [parts[|parts| - 1]]
  }

  lemma {:induction false} InsertOrders(parts: seq<Part>, p: Part)
    requires Ordered(parts) && forall q :: q in parts ==> q.id != p.id
    ensures Ordered(Insert(parts, p))
    ensures forall q :: q in Insert(parts, p) <==> q in parts || q == p
  {
    if parts != [] {
      var before, last := parts[..|parts| - 1], parts[|parts| - 1];
      assert parts == before + [last];
      LessIsTotal(last.id, p.id);
      if Before(last, p) {
        forall i | 0 <= i < |before|
          ensures Before(parts[i], p)
        {
          BeforeIsTransitive(parts[i], last, p);
        }
      } else {
        InsertOrders(before, p);
        forall i | 0 <= i < |Insert(before, p)|
          ensures Before(Insert(before, p)[i], last)
        {
          var q := Insert(before, p)[i];
          assert q in Insert(before, p);
          if q in before {
            var j :| 0 <= j < |before| && before[j] == q;
            assert parts[j] == q;
          }
        }
      }
    }
  }

  lemma BeforeIsTransitive(p: Part, q: Part, r: Part)
    requires Before(p, q) && Before(q, r)
    ensures Before(p, r)
  {
    if p.order == q.order == r.order {
      LessIsTransitive(p.id, q.id, r.id);
    }
  }

  /** SortedPlates and SortedPCBs: collects the parts in the map's own order,
      then sorts. */
  method SortedParts(m: map<Id, Part>) returns (out: seq<Part>)
    requires ById(m)
    ensures Lists(out, m)
    ensures forall i, j :: 0 <= i < j < |out| ==>
      out[i].order < out[j].order || (out[i].order == out[j].order && Less(out[i].id, out[j].id))
  {
    out := [];
    var left := m.Keys;
    while left != {}
      invariant left <= m.Keys
      invariant Ordered(out)
      invariant forall p :: p in out <==> p.id in m && p.id !in left && m[p.id] == p
      decreases |left|
    {
      var id :| id in left;
      InsertOrders(out, m[id]);
      out := Insert(out, m[id]);
      left := left - {id};
    }
  }

  // What SortedKits sorts a set's kits by.
  function KitParts(kits: map<Id, Kit>): map<Id, Part> {
    map id | id in kits :: Part(kits[id].id, kits[id].price, kits[id].order)
  }

  /** SortedKits. */
  method SortedKits(kits: map<Id, Kit>) returns (out: seq<Part>)
    requires ById(KitParts(kits))
    ensures Lists(out, KitParts(kits))
    ensures forall p :: p in out <==> p.id in kits && p == Part(kits[p.id].id, kits[p.id].price, kits[p.id].order)
    ensures forall i, j :: 0 <= i < j < |out| ==>
      out[i].order < out[j].order || (out[i].order == out[j].order && Less(out[i].id, out[j].id))
  {
    out := SortedParts(KitParts(kits));
  }

  // ---- lists to maps and back ----

  predicate DistinctIds(parts: seq<Part>) {
    forall i, j :: 0 <= i < j < |parts| ==> parts[i].id != parts[j].id
  }

  // The same parts, ordered by position.
  function Reindexed(parts: seq<Part>): (r: seq<Part>)
    ensures |r| == |parts|
    ensures forall i :: 0 <= i < |r| ==> r[i] == parts[i].(order := i)
  {
    if parts == [] then [] else Reindexed(parts[..|parts| - 1]) + [parts[|parts| - 1].(order := |parts| - 1)]
  }

  // No part between j and i has the j-th's id.
  predicate LastBefore(parts: seq<Part>, j: nat, i: nat)
    requires j < i <= |parts|
  {
    forall k :: j < k < i ==> parts[k].id != parts[j].id
  }

  predicate HasId(parts: seq<Part>, n: nat, id: Id)
    requires n <= |parts|
  {
    exists j :: 0 <= j < n && parts[j].id == id
  }

  // The map of the first n parts: each under its id, with its position; of several
  // with one id the last.
  ghost predicate MapOf(parts: seq<Part>, n: nat, m: map<Id, Part>)
    requires n <= |parts|
  {
    && ById(m) && (forall id :: id in m <==> HasId(parts, n, id))
    && forall j :: 0 <= j < n && LastBefore(parts, j, n) ==>
         parts[j].id in m && m[parts[j].id] == parts[j].(order := j)
  }

  lemma MapOfNext(parts: seq<Part>, n: nat, m: map<Id, Part>)
    requires n < |parts| && MapOf(parts, n, m)
    ensures MapOf(parts, n + 1, m[parts[n].id := parts[n].(order := n)])
  {
    var m' := m[parts[n].id := parts[n].(order := n)];
    forall id
      ensures id in m' <==> HasId(parts, n + 1, id)
    {
      assert HasId(parts, n + 1, id) <==> HasId(parts, n, id) || parts[n].id == id;
    }
    forall j | 0 <= j < n + 1 && LastBefore(parts, j, n + 1)
      ensures parts[j].id in m' && m'[parts[j].id] == parts[j].(order := j)
    {
      if j < n {
        assert parts[n].id != parts[j].id;
        assert LastBefore(parts, j, n);
      }
    }
  }

  // KeyboardPlatesMap.
  method PartsMap(parts: seq<Part>) returns (m: map<Id, Part>)
    ensures MapOf(parts, |parts|, m)
    ensures DistinctIds(parts) ==> Lists(Reindexed(parts), m)
  {
    m := map[];
    for i := 0 to |parts|
      invariant MapOf(parts, i, m)
    {
      MapOfNext(parts, i, m);
      m := m[parts[i].id := parts[i].(order := i)];
    }
    if DistinctIds(parts) {
      MapListed(parts, m);
    }
  }

  lemma ReindexedAreListed(parts: seq<Part>, m: map<Id, Part>, p: Part)
    requires DistinctIds(parts) && MapOf(parts, |parts|, m)
    ensures p in Reindexed(parts) <==> p.id in m && m[p.id] == p
  {
    if p in Reindexed(parts) {
      var j :| 0 <= j < |parts| && Reindexed(parts)[j] == p;
      assert LastBefore(parts, j, |parts|);
    }
    if p.id in m && m[p.id] == p {
      assert HasId(parts, |parts|, p.id);
      var j :| 0 <= j < |parts| && parts[j].id == p.id;
      assert LastBefore(parts, j, |parts|);
      assert Reindexed(parts)[j] == p;
    }
  }

  lemma MapListed(parts: seq<Part>, m: map<Id, Part>)
    requires DistinctIds(parts) && MapOf(parts, |parts|, m)
    ensures Lists(Reindexed(parts), m)
  {
    forall p
      ensures p in Reindexed(parts) <==> p.id in m && m[p.id] == p
    {
      ReindexedAreListed(parts, m, p);
    }
  }

  /** Sorting inverts KeyboardPlatesMap up to the positions: a list and the map
      made of it list each other, */
  lemma SortInvertsPartsMap(parts: seq<Part>, m: map<Id, Part>, out: seq<Part>)
    requires Lists(Reindexed(parts), m) && Lists(out, m)
    ensures out == Reindexed(parts)
  {
    ListUnique(out, Reindexed(parts), m);
  }

  /** and a part added with a larger order number goes last. */
  lemma AddedPartGoesLast(parts: seq<Part>, m: map<Id, Part>, p: Part)
    requires Lists(parts, m) && p.id !in m
    requires forall id :: id in m ==> m[id].order < p.order
    ensures Lists(parts + [p], m[p.id := p])
  {
    forall i | 0 <= i < |parts|
      ensures Before(parts[i], p)
    {
      assert parts[i] in parts;
    }
  }
}
