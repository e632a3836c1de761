/** What a restore (cmd/mykeebs-migrate/restore.go) has made of a dump so far: the
    target collection and the id map, and what one created item does to both. */
module RestoreState {
  import opened Wrappers
  import opened Repository
  import opened IdMaps
  import opened IdMapSlots
  import opened MigrateRefs
  import opened PartOrder
  import opened BuildCosts
  import opened KitGroups
  import BuildRefs

  // A dumped plate, PCB or kit.
  datatype DumpedPart = DumpedPart(id: Id, price: Option<real>)

  // An item has no visibility if it was dumped as another user.
  datatype DumpedKeyboard = DumpedKeyboard(
    id: Id, visibility: Option<string>, price: Option<real>, plates: seq<DumpedPart>, pcbs: seq<DumpedPart>)

  datatype DumpedSwitch = DumpedSwitch(
    id: Id, visibility: Option<string>, price: Option<real>, quantity: Option<int>)

  datatype DumpedSet = DumpedSet(id: Id, visibility: Option<string>, kits: seq<DumpedPart>)

  datatype DumpedBuild = DumpedBuild(id: Id, view: BuildView)

  // The item directories, each kind in order.
  datatype Dump = Dump(
    keyboards: seq<DumpedKeyboard>, switches: seq<DumpedSwitch>, keycapSets: seq<DumpedSet>, builds: seq<DumpedBuild>)

  // Directory names are distinct.
  predicate DistinctItems(dump: Dump) {
    && (forall i, j :: 0 <= i < j < |dump.keyboards| ==> dump.keyboards[i].id != dump.keyboards[j].id)
    && (forall i, j :: 0 <= i < j < |dump.switches| ==> dump.switches[i].id != dump.switches[j].id)
    && (forall i, j :: 0 <= i < j < |dump.keycapSets| ==> dump.keycapSets[i].id != dump.keycapSets[j].id)
    && forall i, j :: 0 <= i < j < |dump.builds| ==> dump.builds[i].id != dump.builds[j].id
  }

  // ---- creating one item ----

  datatype Request =
    | PostKeyboard(price: Option<real>)
    | PostPlate(keyboard: Id, price: Option<real>)
    | PostPcb(keyboard: Id, price: Option<real>)
    | PostSwitch(price: Option<real>, quantity: Option<int>)
    | PostSet
    | PostKit(keycapSet: Id, price: Option<real>)
    | PostBuild(input: BuildInput)

  // The server may give the new item this id, no build's, and a new part or kit
  // this order number, past every other's of its keyboard or set.
  predicate Fresh(c: Collection, req: Request, id: Id, order: int) {
    id != "" && id !in c.builds
    && match req
       case PostKeyboard(_) => id !in c.keyboards
       case PostPlate(kb, _) =>
         kb in c.keyboards && id !in c.keyboards[kb].plates
         && forall p :: p in c.keyboards[kb].plates ==> c.keyboards[kb].plates[p].order < order
       case PostPcb(kb, _) =>
         kb in c.keyboards && id !in c.keyboards[kb].pcbs
         && forall p :: p in c.keyboards[kb].pcbs ==> c.keyboards[kb].pcbs[p].order < order
       case PostSwitch(_, _) => id !in c.switches
       case PostSet => id !in c.keycapSets
       case PostKit(ks, _) =>
         ks in c.keycapSets && id !in c.keycapSets[ks].kits
         && forall k :: k in c.keycapSets[ks].kits ==> c.keycapSets[ks].kits[k].order < order
       case PostBuild(_) => true
  }

  function Created(c: Collection, req: Request, id: Id, order: int): Collection
    requires Fresh(c, req, id, order)
  {
    match req
    case PostKeyboard(price) => c.(keyboards := c.keyboards[id := Keyboard(price, map[], map[], map[])])
    case PostPlate(kb, price) =>
      var plates := c.keyboards[kb].plates[id := Part(id, price, order)];
      c.(keyboards := c.keyboards[kb := c.keyboards[kb].(plates := plates)])
    case PostPcb(kb, price) =>
      var pcbs := c.keyboards[kb].pcbs[id := Part(id, price, order)];
      c.(keyboards := c.keyboards[kb := c.keyboards[kb].(pcbs := pcbs)])
    case PostSwitch(price, quantity) => c.(switches := c.switches[id := Switch(price, quantity, None)])
    case PostSet => c.(keycapSets := c.keycapSets[id := KeycapSet(map[])])
    case PostKit(ks, price) =>
      c.(keycapSets := c.keycapSets[ks := KeycapSet(c.keycapSets[ks].kits[id := Kit(id, price, order, None)])])
    case PostBuild(input) => c.(builds := c.builds[id := Stored(input)])
  }

  predicate Keeps<T(==)>(m: map<Id, T>, m': map<Id, T>) {
    forall id :: id in m ==> id in m' && m'[id] == m[id]
  }

  // Nothing of c is gone from c'.
  predicate Grows(c: Collection, c': Collection) {
    && (forall id :: id in c.keyboards ==>
          && id in c'.keyboards && c'.keyboards[id].price == c.keyboards[id].price
          && Keeps(c.keyboards[id].plates, c'.keyboards[id].plates)
          && Keeps(c.keyboards[id].pcbs, c'.keyboards[id].pcbs))
    && Keeps(c.switches, c'.switches)
    && (forall id :: id in c.keycapSets ==>
          id in c'.keycapSets && Keeps(c.keycapSets[id].kits, c'.keycapSets[id].kits))
    && Keeps(c.builds, c'.builds)
  }

  lemma CreatedGrows(c: Collection, req: Request, id: Id, order: int)
    requires Fresh(c, req, id, order)
    ensures Grows(c, Created(c, req, id, order))
  {
  }

  // ---- the parts' order ----

  predicate DistinctParts(parts: seq<DumpedPart>) {
    forall i, j :: 0 <= i < j < |parts| ==> parts[i].id != parts[j].id
  }

  predicate HasPart(parts: seq<DumpedPart>, id: Id) {
    exists i :: 0 <= i < |parts| && parts[i].id == id
  }

  // The j-th part is the first of its id.
  predicate FirstOf(parts: seq<DumpedPart>, j: nat) {
    j < |parts| && forall i :: 0 <= i < j ==> parts[i].id != parts[j].id
  }

  // The price is the dumped one of the first part of that id.
  predicate Priced(parts: seq<DumpedPart>, id: Id, price: Option<real>) {
    forall j :: 0 <= j < |parts| && parts[j].id == id && FirstOf(parts, j) ==> parts[j].price == price
  }

  predicate AtPrices(parts: seq<DumpedPart>, ids: map<Id, Id>, restored: map<Id, Part>) {
    forall id :: id in ids ==> ids[id] in restored && Priced(parts, id, restored[ids[id]].price)
  }

  /** The restored parts are the first of the dumped ones, in their order. */
  predicate InOrder(parts: seq<DumpedPart>, ids: map<Id, Id>, restored: map<Id, Part>) {
    && (forall id :: id in ids ==> HasPart(parts, id) && ids[id] in restored)
    && (DistinctParts(parts) ==>
          forall i, j :: 0 <= i < j < |parts| && parts[j].id in ids ==>
            parts[i].id in ids && restored[ids[parts[i].id]].order < restored[ids[parts[j].id]].order)
  }

  // The next part to restore: all before it are.
  predicate Next(parts: seq<DumpedPart>, ids: map<Id, Id>, id: Id) {
    exists j :: 0 <= j < |parts| && parts[j].id == id && forall i :: 0 <= i < j ==> parts[i].id in ids
  }

  predicate Last(restored: map<Id, Part>, id: Id) {
    id in restored && forall p :: p in restored && p != id ==> restored[p].order < restored[id].order
  }

  lemma InOrderPut(parts: seq<DumpedPart>, ids: map<Id, Id>, restored: map<Id, Part>, dumped: Id, id: Id)
    requires InOrder(parts, ids, restored) && Next(parts, ids, dumped) && Last(restored, id)
    requires dumped !in ids && id !in ids.Values
    ensures InOrder(parts, ids[dumped := id], restored)
  {
    var j :| 0 <= j < |parts| && parts[j].id == dumped && forall i :: 0 <= i < j ==> parts[i].id in ids;
    assert HasPart(parts, dumped);
  }

  lemma InOrderGrows(parts: seq<DumpedPart>, ids: map<Id, Id>, restored: map<Id, Part>, restored': map<Id, Part>)
    requires InOrder(parts, ids, restored) && Keeps(restored, restored')
    ensures InOrder(parts, ids, restored')
  {
  }

  lemma AtPricesPut(parts: seq<DumpedPart>, ids: map<Id, Id>, restored: map<Id, Part>, dumped: Id, id: Id)
    requires AtPrices(parts, ids, restored) && id in restored && Priced(parts, dumped, restored[id].price)
    ensures AtPrices(parts, ids[dumped := id], restored)
  {
  }

  lemma AtPricesGrows(parts: seq<DumpedPart>, ids: map<Id, Id>, restored: map<Id, Part>, restored': map<Id, Part>)
    requires AtPrices(parts, ids, restored) && Keeps(restored, restored')
    ensures AtPrices(parts, ids, restored')
  {
  }

  lemma NothingRestored(parts: seq<DumpedPart>)
    ensures InOrder(parts, map[], map[]) && AtPrices(parts, map[], map[])
  {
  }

  // The sorted list is the dumped one under the map, prices and all.
  ghost predicate Reproduces(parts: seq<DumpedPart>, ids: map<Id, Id>, restored: map<Id, Part>) {
    exists out: seq<Part> :: Lists(out, restored)
      && |out| == |parts|
      && forall i :: 0 <= i < |parts| ==>
           parts[i].id in ids && out[i].id == ids[parts[i].id] && out[i].price == parts[i].price
  }

  // The restored parts in the dumped order.
  function RestoredList(parts: seq<DumpedPart>, ids: map<Id, Id>, restored: map<Id, Part>): (list: seq<Part>)
    requires forall i :: 0 <= i < |parts| ==> parts[i].id in ids && ids[parts[i].id] in restored
    ensures |list| == |parts| && forall i :: 0 <= i < |parts| ==> list[i] == restored[ids[parts[i].id]]
  {
    seq(|parts|, i requires 0 <= i < |parts| => restored[ids[parts[i].id]])
  }

  lemma RestoredListHasAll(parts: seq<DumpedPart>, ids: map<Id, Id>, restored: map<Id, Part>, p: Part)
    requires forall i :: 0 <= i < |parts| ==> parts[i].id in ids && ids[parts[i].id] in restored
    requires forall id :: id in ids ==> HasPart(parts, id)
    requires restored.Keys <= ids.Values && ById(restored)
    ensures p in RestoredList(parts, ids, restored) <==> p.id in restored && restored[p.id] == p
  {
    var list := RestoredList(parts, ids, restored);
    if p in list {
      var i :| 0 <= i < |parts| && list[i] == p;
    }
    if p.id in restored && restored[p.id] == p {
      var id :| id in ids && ids[id] == p.id;
      assert HasPart(parts, id);
      var i :| 0 <= i < |parts| && parts[i].id == id;
      assert list[i] == p;
    }
  }

  lemma PartsReproduced(parts: seq<DumpedPart>, ids: map<Id, Id>, restored: map<Id, Part>)
    requires DistinctParts(parts) && InOrder(parts, ids, restored) && AtPrices(parts, ids, restored)
    requires forall i :: 0 <= i < |parts| ==> parts[i].id in ids
    requires restored.Keys <= ids.Values && ById(restored)
    ensures Reproduces(parts, ids, restored)
  {
    hide Less;
    var list := RestoredList(parts, ids, restored);
    forall p
      ensures p in list <==> p.id in restored && restored[p.id] == p
    {
      RestoredListHasAll(parts, ids, restored, p);
    }
    forall i | 0 <= i < |parts|
      ensures list[i].id == ids[parts[i].id] && list[i].price == parts[i].price
    {
      assert FirstOf(parts, i);
    }
    assert Lists(list, restored);
  }

  // ---- shelves ----

  /** An ordered list of parts or kits, of a dumped keyboard or set. */
  datatype Shelf = Plates(keyboard: Id) | Pcbs(keyboard: Id) | Kits(keycapSet: Id)

  predicate HasShelf(m: IdMap, sh: Shelf) {
    match sh
    case Plates(kb) => kb in m.keyboards
    case Pcbs(kb) => kb in m.keyboards
    case Kits(ks) => ks in m.keycapSets
  }

  // The restored keyboard or set.
  function ShelfId(m: IdMap, sh: Shelf): Id
    requires HasShelf(m, sh)
  {
    match sh
    case Plates(kb) => m.keyboards[kb].newID
    case Pcbs(kb) => m.keyboards[kb].newID
    case Kits(ks) => m.keycapSets[ks].newID
  }

  // The mapped parts.
  function IdsOn(m: IdMap, sh: Shelf): map<Id, Id>
    requires HasShelf(m, sh)
  {
    match sh
    case Plates(kb) => m.keyboards[kb].plates
    case Pcbs(kb) => m.keyboards[kb].pcbs
    case Kits(ks) => m.keycapSets[ks].kits
  }

  // The parts of a keyboard or set of the target.
  function PartsIn(c: Collection, sh: Shelf, id: Id): map<Id, Part> {
    match sh
    case Plates(_) => if id in c.keyboards then c.keyboards[id].plates else map[]
    case Pcbs(_) => if id in c.keyboards then c.keyboards[id].pcbs else map[]
    case Kits(_) => if id in c.keycapSets then KitParts(c.keycapSets[id].kits) else map[]
  }

  function PartsOn(m: IdMap, c: Collection, sh: Shelf): map<Id, Part>
    requires HasShelf(m, sh)
  {
    PartsIn(c, sh, ShelfId(m, sh))
  }

  /** The restored shelf holds only parts the server made for a restore, each under
      its id, and no part mapped elsewhere. */
  predicate Own(parts: map<Id, Part>, ids: map<Id, Id>, newIds: set<Id>, made: set<Id>) {
    && ById(parts) && parts.Keys <= made
    && forall id :: id in parts && id in newIds ==> id in ids.Values
  }

  predicate OwnShelf(m: IdMap, c: Collection, made: set<Id>, sh: Shelf) {
    HasShelf(m, sh) ==> Own(PartsOn(m, c, sh), IdsOn(m, sh), NewIds(m), made)
  }

  predicate ListInOrder(parts: seq<DumpedPart>, m: IdMap, c: Collection, sh: Shelf) {
    HasShelf(m, sh) ==>
      InOrder(parts, IdsOn(m, sh), PartsOn(m, c, sh)) && AtPrices(parts, IdsOn(m, sh), PartsOn(m, c, sh))
  }

  predicate KeyboardInOrder(d: DumpedKeyboard, m: IdMap, c: Collection) {
    ListInOrder(d.plates, m, c, Plates(d.id)) && ListInOrder(d.pcbs, m, c, Pcbs(d.id))
  }

  predicate SetInOrder(d: DumpedSet, m: IdMap, c: Collection) {
    ListInOrder(d.kits, m, c, Kits(d.id))
  }

  ghost predicate Shelved(dump: Dump, m: IdMap, c: Collection, made: set<Id>) {
    && (forall sh :: OwnShelf(m, c, made, sh))
    && (forall k :: 0 <= k < |dump.keyboards| ==> KeyboardInOrder(dump.keyboards[k], m, c))
    && forall k :: 0 <= k < |dump.keycapSets| ==> SetInOrder(dump.keycapSets[k], m, c)
  }

  // ---- what holds between the target and the map ----

  function InputOf(b: Build, visibility: string): BuildInput {
    BuildInput(b.keyboard, b.plate, b.pcb, b.switches, b.kits, b.stabsPrice, visibility)
  }

  // The dumped build is stored on the target with exactly its mapped references.
  predicate BuildRestored(d: DumpedBuild, m: IdMap, c: Collection) {
    && d.id in m.builds && m.builds[d.id] in c.builds && d.view.visibility.Some?
    && var b := c.builds[m.builds[d.id]];
       Remapped(d.view, InputOf(b, d.view.visibility.value), m) && b == Stored(InputOf(b, d.view.visibility.value))
  }

  // Every mapped build is restored, and every build made for a restore, mapped or
  // not, resolves.
  ghost predicate BuildsGood(dump: Dump, m: IdMap, c: Collection, made: set<Id>) {
    && (forall k :: 0 <= k < |dump.builds| && dump.builds[k].id in m.builds ==> BuildRestored(dump.builds[k], m, c))
    && forall b :: b in c.builds && b in made ==> BuildRefs.Resolves(c, c.builds[b])
  }

  // A mapped keyboard has its dumped price, and a mapped switch its price and quantity.
  predicate KeyboardPriced(d: DumpedKeyboard, m: IdMap, c: Collection) {
    d.id in m.keyboards ==>
      m.keyboards[d.id].newID in c.keyboards && c.keyboards[m.keyboards[d.id].newID].price == d.price
  }

  predicate SwitchPriced(d: DumpedSwitch, m: IdMap, c: Collection) {
    d.id in m.switches ==>
      && m.switches[d.id] in c.switches
      && c.switches[m.switches[d.id]].price == d.price && c.switches[m.switches[d.id]].quantity == d.quantity
  }

  predicate ItemsPriced(dump: Dump, m: IdMap, c: Collection) {
    && (forall k :: 0 <= k < |dump.keyboards| ==> KeyboardPriced(dump.keyboards[k], m, c))
    && forall k :: 0 <= k < |dump.switches| ==> SwitchPriced(dump.switches[k], m, c)
  }

  ghost predicate Good(dump: Dump, m: IdMap, c: Collection, made: set<Id>) {
    && OneSlotEach(m) && NamesAll(m, c) && NewIds(m) <= made
    && Shelved(dump, m, c, made) && ItemsPriced(dump, m, c) && BuildsGood(dump, m, c, made)
  }

  lemma NamesAllGrows(m: IdMap, c: Collection, c': Collection)
    requires NamesAll(m, c) && Grows(c, c')
    ensures NamesAll(m, c')
  {
    forall s | Has(m, s)
      ensures NamesSlot(m, s, c')
    {
      assert NamesSlot(m, s, c);
    }
  }

  // ---- mapping the created item ----

  function ShelfOf(s: Slot): Option<Shelf> {
    match s
    case PlateSlot(kb, _) => Some(Plates(kb))
    case PcbSlot(kb, _) => Some(Pcbs(kb))
    case KitSlot(ks, _) => Some(Kits(ks))
    case _ => None
  }

  // The part's own dumped id.
  function PartOf(s: Slot): Id
    requires ShelfOf(s).Some?
  {
    match s
    case PlateSlot(_, plate) => plate
    case PcbSlot(_, pcb) => pcb
    case KitSlot(_, kit) => kit
  }

  // The shelf's list in the dump.
  predicate DumpedOn(dump: Dump, sh: Shelf, parts: seq<DumpedPart>) {
    match sh
    case Plates(kb) =>
      exists k :: 0 <= k < |dump.keyboards| && dump.keyboards[k].id == kb && dump.keyboards[k].plates == parts
    case Pcbs(kb) =>
      exists k :: 0 <= k < |dump.keyboards| && dump.keyboards[k].id == kb && dump.keyboards[k].pcbs == parts
    case Kits(ks) =>
      exists k :: 0 <= k < |dump.keycapSets| && dump.keycapSets[k].id == ks && dump.keycapSets[k].kits == parts
  }

  // A part's slot is the next of its shelf's.
  ghost predicate NextSlot(dump: Dump, m: IdMap, s: Slot)
    requires ParentMapped(m, s)
  {
    ShelfOf(s).Some? ==>
      forall parts :: DumpedOn(dump, ShelfOf(s).value, parts) ==> Next(parts, IdsOn(m, ShelfOf(s).value), PartOf(s))
  }

  ghost predicate PricedAs(dump: Dump, s: Slot, price: Option<real>)
    requires ShelfOf(s).Some?
  {
    forall parts :: DumpedOn(dump, ShelfOf(s).value, parts) ==> Priced(parts, PartOf(s), price)
  }

  // The request creates the dumped item of the slot, as it was dumped.
  ghost predicate Requests(dump: Dump, m: IdMap, s: Slot, req: Request)
    requires ParentMapped(m, s)
  {
    match s
    case KeyboardSlot(id) =>
      && req.PostKeyboard?
      && forall k :: 0 <= k < |dump.keyboards| && dump.keyboards[k].id == id ==> dump.keyboards[k].price == req.price
    case PlateSlot(kb, _) => req.PostPlate? && req.keyboard == m.keyboards[kb].newID && PricedAs(dump, s, req.price)
    case PcbSlot(kb, _) => req.PostPcb? && req.keyboard == m.keyboards[kb].newID && PricedAs(dump, s, req.price)
    case SwitchSlot(id) =>
      && req.PostSwitch?
      && forall k :: 0 <= k < |dump.switches| && dump.switches[k].id == id ==>
           dump.switches[k].price == req.price && dump.switches[k].quantity == req.quantity
    case SetSlot(_) => req.PostSet?
    case KitSlot(ks, _) => req.PostKit? && req.keycapSet == m.keycapSets[ks].newID && PricedAs(dump, s, req.price)
    case BuildSlot(id) =>
      && req.PostBuild?
      && (exists k :: 0 <= k < |dump.builds| && dump.builds[k].id == id)
      && forall k :: 0 <= k < |dump.builds| && dump.builds[k].id == id ==> Remapped(dump.builds[k].view, req.input, m)
  }

  lemma PutNames(m: IdMap, s: Slot, id: Id, c: Collection)
    requires ParentMapped(m, s) && !Has(m, s) && NamesAll(m, c) && id != ""
    requires Has(Put(m, s, id), s) && NamesSlot(Put(m, s, id), s, c)
    ensures NamesAll(Put(m, s, id), c)
  {
    var m' := Put(m, s, id);
    PutExtends(m, s, id);
    forall s' | Has(m', s')
      ensures Get(m', s') != "" && NamesSlot(m', s', c)
    {
      if s' != s {
        assert Has(m, s') && NamesSlot(m, s', c);
      }
    }
  }

  // The request adds to the shelf.
  predicate Adds(req: Request, m: IdMap, sh: Shelf)
    requires HasShelf(m, sh)
  {
    match sh
    case Plates(_) => req.PostPlate? && req.keyboard == ShelfId(m, sh)
    case Pcbs(_) => req.PostPcb? && req.keyboard == ShelfId(m, sh)
    case Kits(_) => req.PostKit? && req.keycapSet == ShelfId(m, sh)
  }

  lemma CreatedOnShelf(m: IdMap, sh: Shelf, c: Collection, req: Request, id: Id, order: int)
    requires HasShelf(m, sh) && NamesAll(m, c) && Fresh(c, req, id, order)
    ensures PartsOn(m, Created(c, req, id, order), sh)
      == if Adds(req, m, sh) then PartsOn(m, c, sh)[id := Part(id, req.price, order)] else PartsOn(m, c, sh)
    ensures Adds(req, m, sh) ==>
      id !in PartsOn(m, c, sh) && forall p :: p in PartsOn(m, c, sh) ==> PartsOn(m, c, sh)[p].order < order
  {
    match sh
    case Plates(kb) => assert Has(m, KeyboardSlot(kb));
    case Pcbs(kb) => assert Has(m, KeyboardSlot(kb));
    case Kits(ks) => assert Has(m, SetSlot(ks));
  }

  lemma PutOnShelf(m: IdMap, s: Slot, id: Id, sh: Shelf)
    requires ParentMapped(m, s) && !Has(m, s) && HasShelf(m, sh)
    ensures HasShelf(Put(m, s, id), sh) && ShelfId(Put(m, s, id), sh) == ShelfId(m, sh)
    ensures IdsOn(Put(m, s, id), sh)
      == if ShelfOf(s) == Some(sh) then IdsOn(m, sh)[PartOf(s) := id] else IdsOn(m, sh)
  {
  }

  // A new keyboard's or set's shelves are empty.
  lemma PutNewShelf(dump: Dump, m: IdMap, s: Slot, req: Request, c: Collection, id: Id, order: int, sh: Shelf)
    requires ParentMapped(m, s) && !Has(m, s) && Requests(dump, m, s, req) && Fresh(c, req, id, order)
    requires !HasShelf(m, sh) && HasShelf(Put(m, s, id), sh)
    ensures IdsOn(Put(m, s, id), sh) == map[] && PartsOn(Put(m, s, id), Created(c, req, id, order), sh) == map[]
  {
  }

  // Only the slot's own shelf gets the new part.
  lemma AddsToOwnShelf(dump: Dump, m: IdMap, s: Slot, req: Request, sh: Shelf)
    requires ParentMapped(m, s) && HasShelf(m, sh) && Requests(dump, m, s, req) && OneSlotEach(m)
    ensures Adds(req, m, sh) <==> ShelfOf(s) == Some(sh)
  {
    ItemsApart(m);
  }

  lemma OwnAdds(parts: map<Id, Part>, ids: map<Id, Id>, newIds: set<Id>, made: set<Id>, part: Part, dumped: Id)
    requires Own(parts, ids, newIds, made) && newIds <= made && part.id !in made
    ensures Own(parts[part.id := part], ids, newIds, made + {part.id})
    ensures dumped !in ids ==> Own(parts[part.id := part], ids[dumped := part.id], newIds + {part.id}, made + {part.id})
  {
    var ids' := ids[dumped := part.id];
    assert ids'[dumped] == part.id;
    if dumped !in ids {
      forall id | id in ids.Values
        ensures id in ids'.Values
      {
        var a :| a in ids && ids[a] == id;
        assert ids'[a] == id;
      }
    }
  }

  lemma OwnStays(parts: map<Id, Part>, ids: map<Id, Id>, newIds: set<Id>, made: set<Id>, id: Id)
    requires Own(parts, ids, newIds, made) && id !in made
    ensures Own(parts, ids, newIds, made + {id}) && Own(parts, ids, newIds + {id}, made + {id})
  {
  }

  lemma OwnShelfAfter(dump: Dump, m: IdMap, s: Slot, req: Request, c: Collection, made: set<Id>,
      id: Id, order: int, sh: Shelf)
    requires OneSlotEach(m) && NamesAll(m, c) && NewIds(m) <= made && OwnShelf(m, c, made, sh)
    requires ParentMapped(m, s) && !Has(m, s) && Requests(dump, m, s, req) && Fresh(c, req, id, order) && id !in made
    ensures OwnShelf(m, Created(c, req, id, order), made + {id}, sh)
    ensures OwnShelf(Put(m, s, id), Created(c, req, id, order), made + {id}, sh)
  {
    PutAddsOne(m, s, id);
    if HasShelf(m, sh) {
      CreatedOnShelf(m, sh, c, req, id, order);
      PutOnShelf(m, s, id, sh);
      AddsToOwnShelf(dump, m, s, req, sh);
      if ShelfOf(s) == Some(sh) {
        NotYetMapped(m, s, id, sh);
        OwnAdds(PartsOn(m, c, sh), IdsOn(m, sh), NewIds(m), made, Part(id, req.price, order), PartOf(s));
      } else {
        OwnStays(PartsOn(m, c, sh), IdsOn(m, sh), NewIds(m), made, id);
      }
    } else if HasShelf(Put(m, s, id), sh) {
      PutNewShelf(dump, m, s, req, c, id, order, sh);
    }
  }

  lemma ListInOrderAfter(dump: Dump, parts: seq<DumpedPart>, m: IdMap, s: Slot, req: Request, c: Collection,
      id: Id, order: int, sh: Shelf)
    requires OneSlotEach(m) && NamesAll(m, c) && ListInOrder(parts, m, c, sh) && id !in NewIds(m)
    requires ParentMapped(m, s) && !Has(m, s) && Requests(dump, m, s, req) && Fresh(c, req, id, order)
    requires ShelfOf(s) == Some(sh) ==> Next(parts, IdsOn(m, sh), PartOf(s))
    requires DumpedOn(dump, sh, parts)
    ensures ListInOrder(parts, m, Created(c, req, id, order), sh)
    ensures ListInOrder(parts, Put(m, s, id), Created(c, req, id, order), sh)
  {
    hide InOrder, AtPrices, Priced;
    var c' := Created(c, req, id, order);
    if HasShelf(m, sh) {
      CreatedOnShelf(m, sh, c, req, id, order);
      PutOnShelf(m, s, id, sh);
      AddsToOwnShelf(dump, m, s, req, sh);
      InOrderGrows(parts, IdsOn(m, sh), PartsOn(m, c, sh), PartsOn(m, c', sh));
      AtPricesGrows(parts, IdsOn(m, sh), PartsOn(m, c, sh), PartsOn(m, c', sh));
      if ShelfOf(s) == Some(sh) {
        NotYetMapped(m, s, id, sh);
        InOrderPut(parts, IdsOn(m, sh), PartsOn(m, c', sh), PartOf(s), id);
        AtPricesPut(parts, IdsOn(m, sh), PartsOn(m, c', sh), PartOf(s), id);
      }
    } else if HasShelf(Put(m, s, id), sh) {
      PutNewShelf(dump, m, s, req, c, id, order, sh);
      NothingRestored(parts);
    }
  }

  lemma NotYetMapped(m: IdMap, s: Slot, id: Id, sh: Shelf)
    requires ShelfOf(s) == Some(sh) && ParentMapped(m, s) && !Has(m, s) && id !in NewIds(m)
    ensures PartOf(s) !in IdsOn(m, sh) && id !in IdsOn(m, sh).Values
  {
  }

  lemma ShelvedAfter(dump: Dump, m: IdMap, s: Slot, req: Request, c: Collection, made: set<Id>, id: Id, order: int)
    requires Good(dump, m, c, made) && ParentMapped(m, s) && !Has(m, s) && NextSlot(dump, m, s)
    requires Requests(dump, m, s, req) && Fresh(c, req, id, order) && id !in made
    ensures Shelved(dump, m, Created(c, req, id, order), made + {id})
    ensures Shelved(dump, Put(m, s, id), Created(c, req, id, order), made + {id})
  {
    var c', m' := Created(c, req, id, order), Put(m, s, id);
    forall sh
      ensures OwnShelf(m, c', made + {id}, sh) && OwnShelf(m', c', made + {id}, sh)
    {
      OwnShelfAfter(dump, m, s, req, c, made, id, order, sh);
    }
    forall k | 0 <= k < |dump.keyboards|
      ensures KeyboardInOrder(dump.keyboards[k], m, c') && KeyboardInOrder(dump.keyboards[k], m', c')
    {
      var d := dump.keyboards[k];
      assert KeyboardInOrder(d, m, c);
      assert DumpedOn(dump, Plates(d.id), d.plates) && DumpedOn(dump, Pcbs(d.id), d.pcbs);
      ListInOrderAfter(dump, d.plates, m, s, req, c, id, order, Plates(d.id));
      ListInOrderAfter(dump, d.pcbs, m, s, req, c, id, order, Pcbs(d.id));
    }
    forall k | 0 <= k < |dump.keycapSets|
      ensures SetInOrder(dump.keycapSets[k], m, c') && SetInOrder(dump.keycapSets[k], m', c')
    {
      var d := dump.keycapSets[k];
      assert SetInOrder(d, m, c);
      assert DumpedOn(dump, Kits(d.id), d.kits);
      ListInOrderAfter(dump, d.kits, m, s, req, c, id, order, Kits(d.id));
    }
  }

  lemma KeyboardPricedAfter(dump: Dump, m: IdMap, s: Slot, req: Request, c: Collection, id: Id, order: int, k: nat)
    requires k < |dump.keyboards| && KeyboardPriced(dump.keyboards[k], m, c)
    requires ParentMapped(m, s) && !Has(m, s) && Requests(dump, m, s, req) && Fresh(c, req, id, order)
    ensures KeyboardPriced(dump.keyboards[k], m, Created(c, req, id, order))
    ensures KeyboardPriced(dump.keyboards[k], Put(m, s, id), Created(c, req, id, order))
  {
  }

  lemma SwitchPricedAfter(dump: Dump, m: IdMap, s: Slot, req: Request, c: Collection, id: Id, order: int, k: nat)
    requires k < |dump.switches| && SwitchPriced(dump.switches[k], m, c)
    requires ParentMapped(m, s) && !Has(m, s) && Requests(dump, m, s, req) && Fresh(c, req, id, order)
    ensures SwitchPriced(dump.switches[k], m, Created(c, req, id, order))
    ensures SwitchPriced(dump.switches[k], Put(m, s, id), Created(c, req, id, order))
  {
  }

  lemma ItemsPricedAfter(dump: Dump, m: IdMap, s: Slot, req: Request, c: Collection, id: Id, order: int)
    requires ItemsPriced(dump, m, c)
    requires ParentMapped(m, s) && !Has(m, s) && Requests(dump, m, s, req) && Fresh(c, req, id, order)
    ensures ItemsPriced(dump, m, Created(c, req, id, order))
    ensures ItemsPriced(dump, Put(m, s, id), Created(c, req, id, order))
  {
    var c', m' := Created(c, req, id, order), Put(m, s, id);
    forall k | 0 <= k < |dump.keyboards|
      ensures KeyboardPriced(dump.keyboards[k], m, c') && KeyboardPriced(dump.keyboards[k], m', c')
    {
      KeyboardPricedAfter(dump, m, s, req, c, id, order, k);
    }
    forall k | 0 <= k < |dump.switches|
      ensures SwitchPriced(dump.switches[k], m, c') && SwitchPriced(dump.switches[k], m', c')
    {
      SwitchPricedAfter(dump, m, s, req, c, id, order, k);
    }
  }

  lemma RemappedExtends(full: BuildView, input: BuildInput, m: IdMap, m': IdMap)
    requires Remapped(full, input, m) && Extends(m, m')
    ensures Remapped(full, input, m')
  {
    assert Has(m, KeyboardSlot(full.keyboard));
    assert full.plate.Some? ==> Has(m, PlateSlot(full.keyboard, full.plate.value));
    assert full.pcb.Some? ==> Has(m, PcbSlot(full.keyboard, full.pcb.value));
    forall i | 0 <= i < |full.switches|
      ensures full.switches[i].switch in m'.switches
      ensures m'.switches[full.switches[i].switch] == m.switches[full.switches[i].switch]
    {
      assert Has(m, SwitchSlot(full.switches[i].switch));
    }
    forall i | 0 <= i < |full.keycapSets|
      ensures GroupMapped(full.keycapSets[i], m')
    {
      GroupMappedExtends(full.keycapSets[i], m, m');
    }
    KitsRemappedExtends(Flatten(full.keycapSets), input.kits, m, m');
  }

  lemma GroupMappedExtends(g: Group, m: IdMap, m': IdMap)
    requires GroupMapped(g, m) && Extends(m, m')
    ensures GroupMapped(g, m')
  {
    assert Has(m, SetSlot(g.keycapSet));
    assert forall j :: 0 <= j < |g.kits| ==> Has(m, KitSlot(g.keycapSet, g.kits[j]));
  }

  lemma KitsRemappedExtends(dumped: seq<KitEntry>, kits: seq<KitEntry>, m: IdMap, m': IdMap)
    requires KitsRemapped(dumped, kits, m) && Extends(m, m')
    ensures KitsRemapped(dumped, kits, m')
  {
    forall i | 0 <= i < |dumped|
      ensures KitMapped(dumped[i], m') && kits[i] == MapKit(dumped[i], m')
    {
      assert KitMapped(dumped[i], m);
      assert Has(m, SetSlot(dumped[i].keycapSet)) && Has(m, KitSlot(dumped[i].keycapSet, dumped[i].kit));
    }
  }

  lemma PutBuildRestored(d: DumpedBuild, m: IdMap, s: Slot, id: Id, c: Collection)
    requires ParentMapped(m, s) && !Has(m, s)
    requires d.id in m.builds ==> BuildRestored(d, m, c)
    requires s == BuildSlot(d.id) ==> BuildRestored(d, Put(m, s, id), c)
    requires d.id in Put(m, s, id).builds
    ensures BuildRestored(d, Put(m, s, id), c)
  {
    PutExtends(m, s, id);
    if s != BuildSlot(d.id) {
      assert Has(Put(m, s, id), BuildSlot(d.id)) && Has(m, BuildSlot(d.id));
      var b := c.builds[m.builds[d.id]];
      RemappedExtends(d.view, InputOf(b, d.view.visibility.value), m, Put(m, s, id));
    }
  }

  // What the server made for a slot's request can be mapped there.
  lemma CreatedFits(dump: Dump, m: IdMap, s: Slot, req: Request, c: Collection, id: Id, order: int)
    requires ParentMapped(m, s) && !Has(m, s) && Requests(dump, m, s, req) && Fresh(c, req, id, order)
    ensures var c', m' := Created(c, req, id, order), Put(m, s, id);
      Has(m', s) && NamesSlot(m', s, c')
  {
  }

  lemma CreatedBuildFits(d: DumpedBuild, m: IdMap, input: BuildInput, c: Collection, id: Id)
    requires d.id !in m.builds && Remapped(d.view, input, m) && Fresh(c, PostBuild(input), id, 0)
    ensures BuildRestored(d, Put(m, BuildSlot(d.id), id), Created(c, PostBuild(input), id, 0))
  {
    PutExtends(m, BuildSlot(d.id), id);
    RemappedExtends(d.view, input, m, Put(m, BuildSlot(d.id), id));
  }

  lemma ResolvesGrows(c: Collection, c': Collection, b: Build)
    requires Grows(c, c') && BuildRefs.Resolves(c, b)
    ensures BuildRefs.Resolves(c', b)
  {
  }

  // A build is posted with references the map names on the target.
  lemma PostedResolves(dump: Dump, m: IdMap, s: Slot, req: Request, c: Collection)
    requires OneSlotEach(m) && NamesAll(m, c)
    requires s.BuildSlot? && Requests(dump, m, s, req)
    ensures BuildRefs.Resolves(c, Stored(req.input))
  {
    NamesAllNames(m, c);
    var k :| 0 <= k < |dump.builds| && dump.builds[k].id == s.build;
    RemappedResolves(dump.builds[k].view, req.input, m, c);
  }

  lemma BuildsResolveAfter(dump: Dump, m: IdMap, s: Slot, req: Request, c: Collection, made: set<Id>,
      id: Id, order: int)
    requires Good(dump, m, c, made) && ParentMapped(m, s) && Requests(dump, m, s, req) && Fresh(c, req, id, order)
    ensures var c' := Created(c, req, id, order);
      forall b :: b in c'.builds && b in made + {id} ==> BuildRefs.Resolves(c', c'.builds[b])
  {
    var c' := Created(c, req, id, order);
    CreatedGrows(c, req, id, order);
    forall b | b in c'.builds && b in made + {id}
      ensures BuildRefs.Resolves(c', c'.builds[b])
    {
      if b in c.builds {
        assert c'.builds[b] == c.builds[b] && b in made;
        ResolvesGrows(c, c', c.builds[b]);
      } else {
        assert req.PostBuild? && c'.builds[b] == Stored(req.input);
        PostedResolves(dump, m, s, req, c);
        ResolvesGrows(c, c', c'.builds[b]);
      }
    }
  }

  lemma MappedBuildAfter(dump: Dump, m: IdMap, s: Slot, req: Request, c: Collection, id: Id, order: int, k: nat)
    requires k < |dump.builds| && (dump.builds[k].id in m.builds ==> BuildRestored(dump.builds[k], m, c))
    requires ParentMapped(m, s) && !Has(m, s) && Requests(dump, m, s, req) && Fresh(c, req, id, order)
    ensures var d, c' := dump.builds[k], Created(c, req, id, order);
      && (d.id in m.builds ==> BuildRestored(d, m, c'))
      && (d.id in Put(m, s, id).builds ==> BuildRestored(d, Put(m, s, id), c'))
  {
    var d, c' := dump.builds[k], Created(c, req, id, order);
    CreatedGrows(c, req, id, order);
    if s == BuildSlot(d.id) {
      CreatedBuildFits(d, m, req.input, c, id);
    } else if d.id in Put(m, s, id).builds {
      PutBuildRestored(d, m, s, id, c');
    }
  }

  lemma BuildsGoodAfter(dump: Dump, m: IdMap, s: Slot, req: Request, c: Collection, made: set<Id>, id: Id, order: int)
    requires Good(dump, m, c, made) && ParentMapped(m, s) && !Has(m, s)
    requires Requests(dump, m, s, req) && Fresh(c, req, id, order)
    ensures BuildsGood(dump, m, Created(c, req, id, order), made + {id})
    ensures BuildsGood(dump, Put(m, s, id), Created(c, req, id, order), made + {id})
  {
    var c', m' := Created(c, req, id, order), Put(m, s, id);
    BuildsResolveAfter(dump, m, s, req, c, made, id, order);
    forall k | 0 <= k < |dump.builds|
      ensures dump.builds[k].id in m.builds ==> BuildRestored(dump.builds[k], m, c')
      ensures dump.builds[k].id in m'.builds ==> BuildRestored(dump.builds[k], m', c')
    {
      MappedBuildAfter(dump, m, s, req, c, id, order, k);
    }
  }

  /** A request for a slot, answered and mapped or not, keeps everything good. */
  lemma GoodAfter(dump: Dump, m: IdMap, s: Slot, req: Request, c: Collection, made: set<Id>, id: Id, order: int)
    requires Good(dump, m, c, made) && ParentMapped(m, s) && !Has(m, s) && NextSlot(dump, m, s)
    requires Requests(dump, m, s, req) && Fresh(c, req, id, order) && id !in made
    ensures Good(dump, m, Created(c, req, id, order), made + {id})
    ensures Good(dump, Put(m, s, id), Created(c, req, id, order), made + {id})
  {
    var c' := Created(c, req, id, order);
    CreatedGrows(c, req, id, order);
    NamesAllGrows(m, c, c');
    ShelvedAfter(dump, m, s, req, c, made, id, order);
    ItemsPricedAfter(dump, m, s, req, c, id, order);
    BuildsGoodAfter(dump, m, s, req, c, made, id, order);
    CreatedFits(dump, m, s, req, c, id, order);
    PutNames(m, s, id, c');
    PutAddsOne(m, s, id);
    PutKeepsOneSlotEach(m, s, id);
  }

  // ---- a finished restore ----

  // The first n parts are mapped.
  predicate PartsRestored(parts: seq<DumpedPart>, n: nat, ids: map<Id, Id>)
    requires n <= |parts|
  {
    forall i :: 0 <= i < n ==> parts[i].id in ids
  }

  predicate KeyboardRestored(d: DumpedKeyboard, m: IdMap) {
    && d.id in m.keyboards
    && PartsRestored(d.plates, |d.plates|, m.keyboards[d.id].plates)
    && PartsRestored(d.pcbs, |d.pcbs|, m.keyboards[d.id].pcbs)
  }

  predicate SetRestored(d: DumpedSet, m: IdMap) {
    d.id in m.keycapSets && PartsRestored(d.kits, |d.kits|, m.keycapSets[d.id].kits)
  }

  // The first n items of each kind are mapped, with their parts and kits.
  predicate KeyboardsRestored(dump: Dump, n: nat, m: IdMap)
    requires n <= |dump.keyboards|
  {
    forall k :: 0 <= k < n ==> KeyboardRestored(dump.keyboards[k], m)
  }

  predicate SwitchesRestored(dump: Dump, n: nat, m: IdMap)
    requires n <= |dump.switches|
  {
    forall k :: 0 <= k < n ==> dump.switches[k].id in m.switches
  }

  predicate SetsRestored(dump: Dump, n: nat, m: IdMap)
    requires n <= |dump.keycapSets|
  {
    forall k :: 0 <= k < n ==> SetRestored(dump.keycapSets[k], m)
  }

  predicate BuildsMapped(dump: Dump, n: nat, m: IdMap)
    requires n <= |dump.builds|
  {
    forall k :: 0 <= k < n ==> dump.builds[k].id in m.builds
  }

  // Everything a build can refer to is mapped.
  predicate ItemsRestored(dump: Dump, m: IdMap) {
    && KeyboardsRestored(dump, |dump.keyboards|, m) && SwitchesRestored(dump, |dump.switches|, m)
    && SetsRestored(dump, |dump.keycapSets|, m)
  }

  // Every dumped item, part and kit is mapped.
  predicate AllRestored(dump: Dump, m: IdMap) {
    ItemsRestored(dump, m) && BuildsMapped(dump, |dump.builds|, m)
  }

  // ---- what is mapped stays mapped ----

  lemma PartsStay(m: IdMap, m': IdMap, kb: Id)
    requires Extends(m, m') && kb in m.keyboards
    ensures kb in m'.keyboards && m.keyboards[kb].newID == m'.keyboards[kb].newID
    ensures m.keyboards[kb].plates.Keys <= m'.keyboards[kb].plates.Keys
    ensures m.keyboards[kb].pcbs.Keys <= m'.keyboards[kb].pcbs.Keys
  {
    assert Has(m, KeyboardSlot(kb));
    assert forall p :: p in m.keyboards[kb].plates ==> Has(m, PlateSlot(kb, p));
    assert forall p :: p in m.keyboards[kb].pcbs ==> Has(m, PcbSlot(kb, p));
  }

  lemma KitsStay(m: IdMap, m': IdMap, ks: Id)
    requires Extends(m, m') && ks in m.keycapSets
    ensures ks in m'.keycapSets && m.keycapSets[ks].newID == m'.keycapSets[ks].newID
    ensures m.keycapSets[ks].kits.Keys <= m'.keycapSets[ks].kits.Keys
  {
    assert Has(m, SetSlot(ks));
    assert forall k :: k in m.keycapSets[ks].kits ==> Has(m, KitSlot(ks, k));
  }

  lemma PartsRestoredStay(parts: seq<DumpedPart>, n: nat, ids: map<Id, Id>, ids': map<Id, Id>)
    requires n <= |parts| && PartsRestored(parts, n, ids) && ids.Keys <= ids'.Keys
    ensures PartsRestored(parts, n, ids')
  {
    forall i | 0 <= i < n
      ensures parts[i].id in ids'
    {
      assert parts[i].id in ids.Keys;
    }
  }

  lemma KeyboardsStay(dump: Dump, n: nat, m: IdMap, m': IdMap)
    requires n <= |dump.keyboards| && KeyboardsRestored(dump, n, m) && Extends(m, m')
    ensures KeyboardsRestored(dump, n, m')
  {
    forall k | 0 <= k < n
      ensures KeyboardRestored(dump.keyboards[k], m')
    {
      var d := dump.keyboards[k];
      assert KeyboardRestored(d, m);
      PartsStay(m, m', d.id);
      PartsRestoredStay(d.plates, |d.plates|, m.keyboards[d.id].plates, m'.keyboards[d.id].plates);
      PartsRestoredStay(d.pcbs, |d.pcbs|, m.keyboards[d.id].pcbs, m'.keyboards[d.id].pcbs);
    }
  }

  lemma MoreKeyboards(dump: Dump, n: nat, m: IdMap, m': IdMap)
    requires n < |dump.keyboards| && KeyboardsRestored(dump, n, m) && Extends(m, m')
    requires KeyboardRestored(dump.keyboards[n], m')
    ensures KeyboardsRestored(dump, n + 1, m')
  {
    KeyboardsStay(dump, n, m, m');
  }

  lemma SwitchesStay(dump: Dump, n: nat, m: IdMap, m': IdMap)
    requires n <= |dump.switches| && SwitchesRestored(dump, n, m) && Extends(m, m')
    ensures SwitchesRestored(dump, n, m')
  {
    assert forall k :: 0 <= k < n ==> Has(m, SwitchSlot(dump.switches[k].id));
  }

  lemma MoreSwitches(dump: Dump, n: nat, m: IdMap, m': IdMap)
    requires n < |dump.switches| && SwitchesRestored(dump, n, m) && Extends(m, m') && dump.switches[n].id in m'.switches
    ensures SwitchesRestored(dump, n + 1, m')
  {
    SwitchesStay(dump, n, m, m');
  }

  lemma SetsStay(dump: Dump, n: nat, m: IdMap, m': IdMap)
    requires n <= |dump.keycapSets| && SetsRestored(dump, n, m) && Extends(m, m')
    ensures SetsRestored(dump, n, m')
  {
    forall k | 0 <= k < n
      ensures SetRestored(dump.keycapSets[k], m')
    {
      var d := dump.keycapSets[k];
      assert SetRestored(d, m);
      KitsStay(m, m', d.id);
      PartsRestoredStay(d.kits, |d.kits|, m.keycapSets[d.id].kits, m'.keycapSets[d.id].kits);
    }
  }

  lemma MoreSets(dump: Dump, n: nat, m: IdMap, m': IdMap)
    requires n < |dump.keycapSets| && SetsRestored(dump, n, m) && Extends(m, m') && SetRestored(dump.keycapSets[n], m')
    ensures SetsRestored(dump, n + 1, m')
  {
    SetsStay(dump, n, m, m');
  }

  lemma BuildsStay(dump: Dump, n: nat, m: IdMap, m': IdMap)
    requires n <= |dump.builds| && BuildsMapped(dump, n, m) && Extends(m, m')
    ensures BuildsMapped(dump, n, m')
  {
    assert forall k :: 0 <= k < n ==> Has(m, BuildSlot(dump.builds[k].id));
  }

  lemma MoreBuilds(dump: Dump, n: nat, m: IdMap, m': IdMap)
    requires n < |dump.builds| && BuildsMapped(dump, n, m) && Extends(m, m') && dump.builds[n].id in m'.builds
    ensures BuildsMapped(dump, n + 1, m')
  {
    BuildsStay(dump, n, m, m');
  }

  // ---- builds that can be restored ----

  predicate KeyboardDumped(view: BuildView, d: DumpedKeyboard) {
    && d.id == view.keyboard
    && (view.plate.Some? ==> HasPart(d.plates, view.plate.value))
    && (view.pcb.Some? ==> HasPart(d.pcbs, view.pcb.value))
  }

  predicate GroupDumped(g: Group, d: DumpedSet) {
    d.id == g.keycapSet && forall j :: 0 <= j < |g.kits| ==> HasPart(d.kits, g.kits[j])
  }

  predicate SwitchDumped(dump: Dump, id: Id) {
    exists k :: 0 <= k < |dump.switches| && dump.switches[k].id == id
  }

  // The build was dumped with everything it refers to, by its owner.
  predicate BuildClosed(dump: Dump, view: BuildView) {
    && view.keyboard != "" && view.visibility.Some?
    && (exists k :: 0 <= k < |dump.keyboards| && KeyboardDumped(view, dump.keyboards[k]))
    && (forall i :: 0 <= i < |view.switches| ==> SwitchDumped(dump, view.switches[i].switch))
    && forall i :: 0 <= i < |view.keycapSets| ==>
         exists k :: 0 <= k < |dump.keycapSets| && GroupDumped(view.keycapSets[i], dump.keycapSets[k])
  }

  // Every item was dumped by its owner.
  predicate Visible(dump: Dump) {
    && (forall k :: 0 <= k < |dump.keyboards| ==> dump.keyboards[k].visibility.Some?)
    && (forall k :: 0 <= k < |dump.switches| ==> dump.switches[k].visibility.Some?)
    && forall k :: 0 <= k < |dump.keycapSets| ==> dump.keycapSets[k].visibility.Some?
  }

  // Nothing in the dump keeps a restore from finishing.
  predicate Closed(dump: Dump) {
    Visible(dump) && forall k :: 0 <= k < |dump.builds| ==> BuildClosed(dump, dump.builds[k].view)
  }

  lemma ItemsStay(dump: Dump, m: IdMap, m': IdMap)
    requires ItemsRestored(dump, m) && Extends(m, m')
    ensures ItemsRestored(dump, m')
  {
    KeyboardsStay(dump, |dump.keyboards|, m, m');
    SwitchesStay(dump, |dump.switches|, m, m');
    SetsStay(dump, |dump.keycapSets|, m, m');
  }

  lemma DumpedPartsMapped(parts: seq<DumpedPart>, ids: map<Id, Id>, id: Id)
    requires PartsRestored(parts, |parts|, ids) && HasPart(parts, id)
    ensures id in ids
  {
  }

  lemma DumpedKeyboardMapped(dump: Dump, view: BuildView, m: IdMap)
    requires ItemsRestored(dump, m) && BuildClosed(dump, view)
    ensures view.keyboard in m.keyboards
    ensures PartMapped(view.plate, m.keyboards[view.keyboard].plates)
    ensures PartMapped(view.pcb, m.keyboards[view.keyboard].pcbs)
  {
    var k :| 0 <= k < |dump.keyboards| && KeyboardDumped(view, dump.keyboards[k]);
    assert KeyboardRestored(dump.keyboards[k], m);
  }

  lemma DumpedGroupMapped(dump: Dump, g: Group, m: IdMap, k: nat)
    requires ItemsRestored(dump, m) && k < |dump.keycapSets| && GroupDumped(g, dump.keycapSets[k])
    ensures GroupMapped(g, m)
  {
    assert SetRestored(dump.keycapSets[k], m);
    forall j | 0 <= j < |g.kits|
      ensures g.kits[j] in m.keycapSets[g.keycapSet].kits
    {
      DumpedPartsMapped(dump.keycapSets[k].kits, m.keycapSets[g.keycapSet].kits, g.kits[j]);
    }
  }

  /** So once the items are restored such a build can be posted. */
  lemma ClosedMapped(dump: Dump, view: BuildView, m: IdMap)
    requires ItemsRestored(dump, m) && BuildClosed(dump, view)
    ensures AllMapped(view, m)
  {
    DumpedKeyboardMapped(dump, view, m);
    forall i | 0 <= i < |view.keycapSets|
      ensures GroupMapped(view.keycapSets[i], m)
    {
      var k :| 0 <= k < |dump.keycapSets| && GroupDumped(view.keycapSets[i], dump.keycapSets[k]);
      DumpedGroupMapped(dump, view.keycapSets[i], m, k);
    }
  }

  // ---- the lists a finished restore leaves ----

  // A list with no item left unmapped on it is the dumped one.
  ghost predicate ListReproduced(parts: seq<DumpedPart>, ids: map<Id, Id>, restored: map<Id, Part>, left: set<Id>) {
    DistinctParts(parts) && restored.Keys !! left ==> Reproduces(parts, ids, restored)
  }

  ghost predicate KeyboardReproduced(d: DumpedKeyboard, m: IdMap, c: Collection, left: set<Id>) {
    d.id in m.keyboards && m.keyboards[d.id].newID in c.keyboards
    && var ids, kb := m.keyboards[d.id], c.keyboards[m.keyboards[d.id].newID];
       ListReproduced(d.plates, ids.plates, kb.plates, left) && ListReproduced(d.pcbs, ids.pcbs, kb.pcbs, left)
  }

  ghost predicate SetReproduced(d: DumpedSet, m: IdMap, c: Collection, left: set<Id>) {
    d.id in m.keycapSets && m.keycapSets[d.id].newID in c.keycapSets
    && ListReproduced(d.kits, m.keycapSets[d.id].kits, KitParts(c.keycapSets[m.keycapSets[d.id].newID].kits), left)
  }

  /** Every dumped keyboard's plates and PCBs, and every set's kits, are listed on the
      target exactly as dumped, under the map, unless one is left unmapped there. */
  ghost predicate OrderReproduced(dump: Dump, m: IdMap, c: Collection, left: set<Id>) {
    && (forall k :: 0 <= k < |dump.keyboards| ==> KeyboardReproduced(dump.keyboards[k], m, c, left))
    && forall k :: 0 <= k < |dump.keycapSets| ==> SetReproduced(dump.keycapSets[k], m, c, left)
  }

  lemma ShelfReproduced(parts: seq<DumpedPart>, m: IdMap, c: Collection, made: set<Id>, sh: Shelf)
    requires OwnShelf(m, c, made, sh) && ListInOrder(parts, m, c, sh)
    requires HasShelf(m, sh) && PartsRestored(parts, |parts|, IdsOn(m, sh))
    ensures ListReproduced(parts, IdsOn(m, sh), PartsOn(m, c, sh), made - NewIds(m))
  {
    if DistinctParts(parts) && PartsOn(m, c, sh).Keys !! made - NewIds(m) {
      forall id | id in PartsOn(m, c, sh)
        ensures id in IdsOn(m, sh).Values
      {
        assert id in made;
        assert id !in made - NewIds(m);
      }
      PartsReproduced(parts, IdsOn(m, sh), PartsOn(m, c, sh));
    }
  }

  lemma KeyboardInDumpedOrder(dump: Dump, m: IdMap, c: Collection, made: set<Id>, k: nat)
    requires Good(dump, m, c, made) && k < |dump.keyboards| && KeyboardRestored(dump.keyboards[k], m)
    ensures KeyboardReproduced(dump.keyboards[k], m, c, made - NewIds(m))
  {
    var d := dump.keyboards[k];
    assert KeyboardInOrder(d, m, c);
    NamesKeyboard(m, c, d.id);
    ShelfReproduced(d.plates, m, c, made, Plates(d.id));
    ShelfReproduced(d.pcbs, m, c, made, Pcbs(d.id));
  }

  lemma SetInDumpedOrder(dump: Dump, m: IdMap, c: Collection, made: set<Id>, k: nat)
    requires Good(dump, m, c, made) && k < |dump.keycapSets| && SetRestored(dump.keycapSets[k], m)
    ensures SetReproduced(dump.keycapSets[k], m, c, made - NewIds(m))
  {
    var d := dump.keycapSets[k];
    assert SetInOrder(d, m, c);
    NamesSet(m, c, d.id);
    ShelfReproduced(d.kits, m, c, made, Kits(d.id));
  }

  lemma RestoredInDumpedOrder(dump: Dump, m: IdMap, c: Collection, made: set<Id>)
    requires Good(dump, m, c, made) && ItemsRestored(dump, m)
    ensures OrderReproduced(dump, m, c, made - NewIds(m))
  {
    forall k | 0 <= k < |dump.keyboards|
      ensures KeyboardReproduced(dump.keyboards[k], m, c, made - NewIds(m))
    {
      assert KeyboardRestored(dump.keyboards[k], m);
      KeyboardInDumpedOrder(dump, m, c, made, k);
    }
    forall k | 0 <= k < |dump.keycapSets|
      ensures SetReproduced(dump.keycapSets[k], m, c, made - NewIds(m))
    {
      assert SetRestored(dump.keycapSets[k], m);
      SetInDumpedOrder(dump, m, c, made, k);
    }
  }

  // ---- the prices a finished restore leaves ----

  // Of several parts with one id, the first is restored.
  predicate PartsAsDumped(parts: seq<DumpedPart>, ids: map<Id, Id>, restored: map<Id, Part>) {
    forall j :: 0 <= j < |parts| && FirstOf(parts, j) ==>
      && parts[j].id in ids && ids[parts[j].id] in restored
      && restored[ids[parts[j].id]].price == parts[j].price
  }

  predicate KeyboardAsDumped(d: DumpedKeyboard, m: IdMap, c: Collection) {
    d.id in m.keyboards && m.keyboards[d.id].newID in c.keyboards
    && var ids, kb := m.keyboards[d.id], c.keyboards[m.keyboards[d.id].newID];
       kb.price == d.price
       && PartsAsDumped(d.plates, ids.plates, kb.plates) && PartsAsDumped(d.pcbs, ids.pcbs, kb.pcbs)
  }

  predicate SwitchAsDumped(d: DumpedSwitch, m: IdMap, c: Collection) {
    d.id in m.switches && m.switches[d.id] in c.switches
    && var sw := c.switches[m.switches[d.id]]; sw.price == d.price && sw.quantity == d.quantity
  }

  predicate SetAsDumped(d: DumpedSet, m: IdMap, c: Collection) {
    d.id in m.keycapSets && m.keycapSets[d.id].newID in c.keycapSets
    && var ids, kits := m.keycapSets[d.id].kits, c.keycapSets[m.keycapSets[d.id].newID].kits;
       forall j :: 0 <= j < |d.kits| && FirstOf(d.kits, j) ==>
         d.kits[j].id in ids && ids[d.kits[j].id] in kits && kits[ids[d.kits[j].id]].price == d.kits[j].price
  }

  /** Every dumped keyboard, plate, PCB, switch and kit is on the target at its dumped
      price, and every switch in its dumped quantity. */
  predicate AsDumped(dump: Dump, m: IdMap, c: Collection) {
    && (forall k :: 0 <= k < |dump.keyboards| ==> KeyboardAsDumped(dump.keyboards[k], m, c))
    && (forall k :: 0 <= k < |dump.switches| ==> SwitchAsDumped(dump.switches[k], m, c))
    && forall k :: 0 <= k < |dump.keycapSets| ==> SetAsDumped(dump.keycapSets[k], m, c)
  }

  lemma ShelfAsDumped(parts: seq<DumpedPart>, m: IdMap, c: Collection, sh: Shelf)
    requires HasShelf(m, sh) && ListInOrder(parts, m, c, sh) && PartsRestored(parts, |parts|, IdsOn(m, sh))
    ensures PartsAsDumped(parts, IdsOn(m, sh), PartsOn(m, c, sh))
  {
  }

  lemma KeyboardRestoredAsDumped(dump: Dump, m: IdMap, c: Collection, made: set<Id>, k: nat)
    requires Good(dump, m, c, made) && k < |dump.keyboards| && KeyboardRestored(dump.keyboards[k], m)
    ensures KeyboardAsDumped(dump.keyboards[k], m, c)
  {
    var d := dump.keyboards[k];
    assert KeyboardInOrder(d, m, c) && KeyboardPriced(d, m, c);
    ShelfAsDumped(d.plates, m, c, Plates(d.id));
    ShelfAsDumped(d.pcbs, m, c, Pcbs(d.id));
  }

  lemma SetRestoredAsDumped(dump: Dump, m: IdMap, c: Collection, made: set<Id>, k: nat)
    requires Good(dump, m, c, made) && k < |dump.keycapSets| && SetRestored(dump.keycapSets[k], m)
    ensures SetAsDumped(dump.keycapSets[k], m, c)
  {
    var d := dump.keycapSets[k];
    assert SetInOrder(d, m, c);
    NamesSet(m, c, d.id);
    ShelfAsDumped(d.kits, m, c, Kits(d.id));
  }

  lemma RestoredAsDumped(dump: Dump, m: IdMap, c: Collection, made: set<Id>)
    requires Good(dump, m, c, made) && ItemsRestored(dump, m)
    ensures AsDumped(dump, m, c)
  {
    forall k | 0 <= k < |dump.keyboards|
      ensures KeyboardAsDumped(dump.keyboards[k], m, c)
    {
      assert KeyboardRestored(dump.keyboards[k], m);
      KeyboardRestoredAsDumped(dump, m, c, made, k);
    }
    forall k | 0 <= k < |dump.switches|
      ensures SwitchAsDumped(dump.switches[k], m, c)
    {
      assert SwitchPriced(dump.switches[k], m, c);
    }
    forall k | 0 <= k < |dump.keycapSets|
      ensures SetAsDumped(dump.keycapSets[k], m, c)
    {
      assert SetRestored(dump.keycapSets[k], m);
      SetRestoredAsDumped(dump, m, c, made, k);
    }
  }

  /** Verifying a restored build finds no reference mismatch. */
  lemma RestoredBuildsVerify(dump: Dump, m: IdMap, c: Collection, made: set<Id>, k: nat, source: Collection, b: Build)
    requires Good(dump, m, c, made) && k < |dump.builds| && dump.builds[k].id in m.builds
    requires dump.builds[k].view.visibility.Some?
    requires View(source, b, dump.builds[k].view.visibility.value) == Ok(dump.builds[k].view)
    ensures m.builds[dump.builds[k].id] in c.builds
    ensures var d := dump.builds[k];
      var live := View(c, c.builds[m.builds[d.id]], d.view.visibility.value);
      live.Ok? && Matches(d.view, live.value, m)
  {
    var d := dump.builds[k];
    assert BuildRestored(d, m, c);
    OneSlotEachIsInjective(m);
    NamesAllNames(m, c);
    RestoredBuildMatches(source, b, d.view, InputOf(c.builds[m.builds[d.id]], d.view.visibility.value), m, c);
  }
}
