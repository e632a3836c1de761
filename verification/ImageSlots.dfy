/** The images' slots in the five repositories, read and written by object key
    (internal/moderation/images.go): to each key they are the one slot
    `ModerationProtocol` works on, and writing one key leaves every other alone. */
module ImageSlots {
  import opened Wrappers
  import opened ImageStatuses
  import opened ImageKey
  import ModerationProtocol

  // Where an item keeps an image: under its image id in a keyboard's or a
  // build's images map, and in the item's, kit's or profile's one slot otherwise.
  function Address(r: Ref): Ref {
    if InArray(r) then r else r.(imageID := "")
  }

  // The item, kit or profile itself.
  function Holder(r: Ref): Ref {
    r.(imageID := "")
  }

  // A keyboard's or a build's images, keyed by image id.
  predicate InArray(r: Ref) {
    r.entity == Keyboard || r.entity == Build
  }

  // image_limits.go.
  const MAX_IMAGES_PER_ITEM := 10

  datatype Entry = Entry(path: string, status: ImageStatus, reason: Option<string>)

  datatype SlotError = NotFound | LimitReached | DuplicateId | CallFailed

  // An entry is filed where its own path says.
  predicate Filed(entries: map<Ref, Entry>) {
    forall a :: a in entries ==> Parse(entries[a].path).Some? && Address(Parse(entries[a].path).value) == a
  }

  predicate Current(entries: map<Ref, Entry>, key: string) {
    && Parse(key).Some?
    && Address(Parse(key).value) in entries
    && entries[Address(Parse(key).value)].path == key
  }

  // What the protocol sees of a key.
  function SlotOf(entries: map<Ref, Entry>, key: string): ModerationProtocol.Slot {
    if !Current(entries, key) then ModerationProtocol.Absent
    else
      var e := entries[Address(Parse(key).value)];
      ModerationProtocol.Held(e.status, e.reason)
  }

  // The images of a keyboard or a build.
  function ImagesOf(entries: map<Ref, Entry>, holder: Ref): set<Ref> {
    set a | a in entries && Holder(a) == holder
  }

  // The conditional write, on the slot alone.
  predicate Moves(s: ModerationProtocol.Slot, from: ImageStatus, to: ImageStatus, reason: Option<string>,
    s': ModerationProtocol.Slot, ok: bool)
  {
    && ok == (s.Held? && s.status.Effective() == from)
    && s' == if ok then ModerationProtocol.Held(to, reason) else s
  }

  /** It is the protocol's, whatever else the world holds. */
  lemma MovesIsSetStatus(w: ModerationProtocol.World, from: ImageStatus, to: ImageStatus, reason: Option<string>,
      s': ModerationProtocol.Slot, ok: bool)
    ensures Moves(w.slot, from, to, reason, s', ok)
      <==> ModerationProtocol.SetStatus(w, from, to, reason) == (w.(slot := s'), ok)
  {
    assert w.(slot := w.slot) == w;
    assert w.(slot := s').slot == s';
  }

  // Filing an image of key: its slot, and the others'.
  lemma Files(entries: map<Ref, Entry>, key: string, e: Entry, k: string)
    requires Filed(entries) && Parse(key).Some? && e.path == key
    ensures var a := Address(Parse(key).value); var entries' := entries[a := e];
      && Filed(entries') && SlotOf(entries', key) == ModerationProtocol.Held(e.status, e.reason)
      && (k != key ==> SlotOf(entries', k) == if Current(entries, k) && Address(Parse(k).value) == a
                                              then ModerationProtocol.Absent else SlotOf(entries, k))
  {
  }

  class Images {
    // The items, kits and profiles there are, and the entries of their images.
    var holders: set<Ref>
    var entries: map<Ref, Entry>

    constructor (holders: set<Ref>)
      ensures this.holders == holders && entries == map[] && Filed(entries)
    {
      this.holders, entries := holders, map[];
    }

    function Slot(key: string): ModerationProtocol.Slot
      reads this`entries
    {
      SlotOf(entries, key)
    }

    /** Status is read-only, and a missing item, entry or path is not an error. */
    method Status(key: string) returns (r: Result<(ImageStatus, bool), SlotError>)
      ensures r.Ok? ==> (r.value.1 <==> Slot(key).Held?)
      ensures r.Ok? && r.value.1 ==> r.value.0 == Slot(key).status.Effective()
      ensures r.Err? ==> r.error.CallFailed?
    {
      var served: bool := *;
      if !served {
        return Err(CallFailed);
      }
      var ref := Parse(key);
      if ref.None? || Address(ref.value) !in entries {
        return Ok((Unset, false));
      }
      var e := entries[Address(ref.value)];
      return Ok((e.status.Effective(), e.path == key));
    }

    /** SetStatus moves the key's slot and no other. A failed call may have. */
    method SetStatus(key: string, from: ImageStatus, to: ImageStatus, reason: Option<string>)
        returns (r: Result<bool, SlotError>)
      requires Filed(entries)
      modifies this`entries
      ensures Filed(entries) && (r.Err? ==> r.error.CallFailed?)
      ensures r.Ok? ==> Moves(old(Slot(key)), from, to, reason, Slot(key), r.value)
      ensures r.Err? ==> entries == old(entries) || Moves(old(Slot(key)), from, to, reason, Slot(key), true)
      ensures forall k :: k != key ==> Slot(k) == old(Slot(k))
    {
      var served, reached: bool := *, *;
      var ref := Parse(key);
      var ok := ref.Some? && Address(ref.value) in entries
        && entries[Address(ref.value)].path == key
        && entries[Address(ref.value)].status.Effective() == from;
      if ok && (served || reached) {
        forall k {
          Files(entries, key, Entry(key, to, reason), k);
        }
        entries := entries[Address(ref.value) := Entry(key, to, reason)];
      }
      return if served then Ok(ok) else Err(CallFailed);
    }

    /** AddImage and the Set*ImagePath calls put a pending image in the key's slot.
        The only other key that loses its slot is one that had the same. They fail
        without an item to hold it, and AddImage also at the limit or on an image
        id in use. */
    method SetImage(key: string) returns (error: Option<SlotError>)
      requires Filed(entries) && Parse(key).Some?
      modifies this`entries
      ensures Filed(entries)
      ensures var ref := Parse(key).value;
        (error == Some(NotFound) ==> Holder(ref) !in holders)
        && (error == Some(LimitReached) ==>
              InArray(ref) && |old(ImagesOf(entries, Holder(ref)))| >= MAX_IMAGES_PER_ITEM)
        && (error == Some(DuplicateId) ==> InArray(ref) && Address(ref) in old(entries))
      ensures var ref := Parse(key).value;
        error.None? ==>
          && Holder(ref) in holders
          && (InArray(ref) ==>
                |old(ImagesOf(entries, Holder(ref)))| < MAX_IMAGES_PER_ITEM && Address(ref) !in old(entries))
      ensures error.Some? ==> entries == old(entries) || error == Some(CallFailed)
      ensures error.None? || entries != old(entries) ==> Slot(key) == ModerationProtocol.Held(Pending, None)
      ensures forall k :: k != key ==> Slot(k) == old(Slot(k)) || Slot(k).Absent?
      ensures forall k :: k != key && Slot(k) != old(Slot(k)) ==>
        Parse(k).Some? && Address(Parse(k).value) == Address(Parse(key).value)
    {
      var served, reached: bool := *, *;
      var ref := Parse(key).value;
      if !served && !reached {
        return Some(CallFailed);
      }
      if Holder(ref) !in holders {
        return Some(NotFound);
      }
      if InArray(ref) && |ImagesOf(entries, Holder(ref))| >= MAX_IMAGES_PER_ITEM {
        return Some(LimitReached);
      }
      if InArray(ref) && Address(ref) in entries {
        return Some(DuplicateId);
      }
      forall k {
        Files(entries, key, Entry(key, Pending, None), k);
      }
      entries := entries[Address(ref) := Entry(key, Pending, None)];
      return if served then None else Some(CallFailed);
    }

    /** DeleteImage and the Clear*ImagePath calls empty the slot and say which key it
        held, if any: an empty slot is not an error. */
    method ClearImage(at: Ref) returns (r: Result<Option<string>, SlotError>)
      requires Filed(entries)
      modifies this`entries
      ensures Filed(entries)
      ensures r == Err(NotFound) ==> Holder(at) !in holders
      ensures r.Ok? ==> Holder(at) in holders && at !in entries
      ensures r.Ok? ==> (r.value.None? <==> at !in old(entries))
      ensures r.Ok? && r.value.Some? ==> r.value.value == old(entries)[at].path && Slot(r.value.value).Absent?
      ensures entries == old(entries) || entries == old(entries) - {at}
      ensures forall k :: at !in old(entries) || k != old(entries)[at].path ==> Slot(k) == old(Slot(k))
    {
      var served, reached: bool := *, *;
      if !served && !reached {
        return Err(CallFailed);
      }
      if Holder(at) !in holders {
        return Err(NotFound);
      }
      var cleared := if at in entries then Some(entries[at].path) else None;
      entries := entries - {at};
      return if served then Ok(cleared) else Err(CallFailed);
    }
  }

  /** Two keys share a slot exactly when they are of one item, kit or profile and, in a
      keyboard's or a build's images map, of one image id. */
  lemma SharedSlotIff(a: string, b: string)
    requires Parse(a).Some? && Parse(b).Some?
    ensures var r, s := Parse(a).value, Parse(b).value;
      Address(r) == Address(s) <==>
        && r.entity == s.entity && r.ownerID == s.ownerID && r.itemID == s.itemID && r.kitID == s.kitID
        && (r.entity == Keyboard || r.entity == Build ==> r.imageID == s.imageID)
  {
  }

  /** A keyboard's and a build's images never share a slot: each key has its own. */
  lemma ArrayImagesHaveTheirOwnSlot(a: string, b: string)
    requires Parse(a).Some? && Parse(b).Some? && Address(Parse(a).value) == Address(Parse(b).value)
    requires InArray(Parse(a).value)
    ensures a == b
  {
    PrintParse(a);
    PrintParse(b);
  }
}
