/** Object keys: the printers repository.New*ImageKey, the parser that inverts
    them (internal/imagekey/imagekey.go) and the prefixes that hold an owner's
    images (internal/repository/owner_images.go). */
module ImageKey {
  import opened Wrappers

  datatype Entity = Keyboard | Build | Switch | KeycapKit | Profile

  // itemID is "" for a profile, and kitID for anything but a keycap kit.
  datatype Ref = Ref(entity: Entity, ownerID: string, itemID: string, kitID: string, imageID: string)

  // ---- strings.Split and Join on "/" ----

  predicate SlashFree(s: string) {
    '/' !in s
  }

  function Split(s: string): (parts: seq<string>)
    ensures |parts| >= 1
  {
    if s == [] then [""]
    else
      var rest := Split(s[1..]);
      if s[0] == '/' then [""] + rest else [[s[0]] + rest[0]] + rest[1..]
  }

  function Join(parts: seq<string>): string
    requires |parts| >= 1
  {
    if |parts| == 1 then parts[0] else parts[0] + "/" + Join(parts[1..])
  }

  lemma {:induction false} JoinSplit(s: string)
    ensures Join(Split(s)) == s
    ensures forall p :: p in Split(s) ==> SlashFree(p)
  {
    if s != [] {
      JoinSplit(s[1..]);
      var rest := Split(s[1..]);
      assert s == [s[0]] + s[1..];
      if s[0] != '/' {
        assert rest == [rest[0]] + rest[1..];
        assert ([[s[0]] + rest[0]] + rest[1..])[1..] == rest[1..];
        assert SlashFree(rest[0]) && SlashFree([s[0]] + rest[0]);
      } else {
        assert ([""] + rest)[1..] == rest;
      }
    }
  }

  lemma {:induction false} SplitPrefix(p: string, s: string)
    requires SlashFree(p)
    ensures Split(p + "/" + s) == [p] + Split(s)
  {
    if p == [] {
      assert p + "/" + s == ['/'] + s;
    } else {
      SplitPrefix(p[1..], s);
      var all, rest := p + "/" + s, [p[1..]] + Split(s);
      assert all[1..] == p[1..] + "/" + s && p[0] in p;
      assert rest[1..] == Split(s) && p == [p[0]] + p[1..];
    }
  }

  lemma {:induction false} SplitWhole(p: string)
    requires SlashFree(p)
    ensures Split(p) == [p]
  {
    if p != [] {
      SplitWhole(p[1..]);
      assert p == [p[0]] + p[1..];
    }
  }

  lemma {:induction false} SplitJoin(parts: seq<string>)
    requires |parts| >= 1 && forall p :: p in parts ==> SlashFree(p)
    ensures Split(Join(parts)) == parts
  {
    if |parts| == 1 {
      SplitWhole(parts[0]);
    } else {
      SplitJoin(parts[1..]);
      SplitPrefix(parts[0], Join(parts[1..]));
    }
  }

  // ---- printing and parsing ----

  // repository.NewKeyboardImageKey, NewBuildImageKey, NewSwitchImageKey,
  // NewKeycapKitImageKey and NewProfileImageKey.
  function Print(r: Ref): string {
    match r.entity
    case Keyboard => "keyboards" + "/" + r.ownerID + "/" + r.itemID + "/" + "images" + "/" + r.imageID
    case Build => "builds" + "/" + r.ownerID + "/" + r.itemID + "/" + "images" + "/" + r.imageID
    case Switch => "switches" + "/" + r.ownerID + "/" + r.itemID + "/" + "image" + "/" + r.imageID
    case KeycapKit =>
      "keycap-sets" + "/" + r.ownerID + "/" + r.itemID + "/" + "kits" + "/" + r.kitID + "/" + "image" + "/" + r.imageID
    case Profile => "profiles" + "/" + r.ownerID + "/" + "avatar" + "/" + r.imageID
  }

  // The segments of a key, and of a pattern, where "" is any non-empty id.
  function Segments(r: Ref): seq<string> {
    match r.entity
    case Keyboard => ["keyboards", r.ownerID, r.itemID, "images", r.imageID]
    case Build => ["builds", r.ownerID, r.itemID, "images", r.imageID]
    case Switch => ["switches", r.ownerID, r.itemID, "image", r.imageID]
    case KeycapKit => ["keycap-sets", r.ownerID, r.itemID, "kits", r.kitID, "image", r.imageID]
    case Profile => ["profiles", r.ownerID, "avatar", r.imageID]
  }

  function Pattern(e: Entity): seq<string> {
    Segments(Ref(e, "", "", "", ""))
  }

  predicate Matches(parts: seq<string>, pattern: seq<string>) {
    && |parts| == |pattern|
    && forall i :: 0 <= i < |parts| ==> parts[i] != "" && (pattern[i] == "" || parts[i] == pattern[i])
  }

  // match: an early-return loop over the segments.
  method Match(parts: seq<string>, pattern: seq<string>) returns (ok: bool)
    ensures ok <==> Matches(parts, pattern)
  {
    if |parts| != |pattern| {
      return false;
    }
    for i := 0 to |parts|
      invariant forall j :: 0 <= j < i ==> parts[j] != "" && (pattern[j] == "" || parts[j] == pattern[j])
    {
      if parts[i] == "" || (pattern[i] != "" && parts[i] != pattern[i]) {
        return false;
      }
    }
    return true;
  }

  function FromSegments(e: Entity, p: seq<string>): Ref
    requires |p| == |Pattern(e)|
  {
    match e
    case KeycapKit => Ref(e, p[1], p[2], p[4], p[6])
    case Profile => Ref(e, p[1], "", "", p[3])
    case _ => Ref(e, p[1], p[2], "", p[4])
  }

  // None is ErrUnknownKey.
  function Parse(key: string): Option<Ref> {
    var p := Split(key);
    if Matches(p, Pattern(Keyboard)) then Some(FromSegments(Keyboard, p))
    else if Matches(p, Pattern(Build)) then Some(FromSegments(Build, p))
    else if Matches(p, Pattern(Switch)) then Some(FromSegments(Switch, p))
    else if Matches(p, Pattern(KeycapKit)) then Some(FromSegments(KeycapKit, p))
    else if Matches(p, Pattern(Profile)) then Some(FromSegments(Profile, p))
    else None
  }

  predicate Id(s: string) {
    s != "" && SlashFree(s)
  }

  predicate WellFormed(r: Ref) {
    && Id(r.ownerID) && Id(r.imageID)
    && (if r.entity == Profile then r.itemID == "" else Id(r.itemID))
    && (if r.entity == KeycapKit then Id(r.kitID) else r.kitID == "")
  }

  lemma JoinFour(a: string, b: string, c: string, d: string)
    ensures Join([a, b, c, d]) == a + "/" + b + "/" + c + "/" + d
  {
    assert [a, b, c, d][1..] == [b, c, d] && [b, c, d][1..] == [c, d] && [c, d][1..] == [d];
    assert Join([c, d]) == c + "/" + d;
    assert Join([b, c, d]) == b + "/" + (c + "/" + d);
    assert a + "/" + (b + "/" + (c + "/" + d)) == a + "/" + b + "/" + c + "/" + d;
  }

  lemma JoinFive(a: string, b: string, c: string, d: string, e: string)
    ensures Join([a, b, c, d, e]) == a + "/" + b + "/" + c + "/" + d + "/" + e
  {
    JoinFour(b, c, d, e);
    assert [a, b, c, d, e][1..] == [b, c, d, e];
    assert a + "/" + (b + "/" + c + "/" + d + "/" + e) == a + "/" + b + "/" + c + "/" + d + "/" + e;
  }

  lemma PrintJoinsSegments(r: Ref)
    ensures Print(r) == Join(Segments(r))
  {
    match r.entity
    case Keyboard => JoinFive("keyboards", r.ownerID, r.itemID, "images", r.imageID);
    case Build => JoinFive("builds", r.ownerID, r.itemID, "images", r.imageID);
    case Switch => JoinFive("switches", r.ownerID, r.itemID, "image", r.imageID);
    case Profile => JoinFour("profiles", r.ownerID, "avatar", r.imageID);
    case KeycapKit =>
      var s, tail := Segments(r), r.itemID + "/" + "kits" + "/" + r.kitID + "/" + "image" + "/" + r.imageID;
      JoinFive(r.itemID, "kits", r.kitID, "image", r.imageID);
      assert s[1..][1..] == [r.itemID, "kits", r.kitID, "image", r.imageID];
      assert Join(s) == "keycap-sets" + "/" + (r.ownerID + "/" + tail);
      assert Print(r) == "keycap-sets" + "/" + r.ownerID + "/" + tail;
  }

  lemma SegmentsAreSlashFree(r: Ref)
    requires WellFormed(r)
    ensures forall p :: p in Segments(r) ==> SlashFree(p)
  {
  }

  // A well-formed key has its own entity's shape only.
  lemma SegmentsMatchOwnPattern(r: Ref, e: Entity)
    requires WellFormed(r)
    ensures Matches(Segments(r), Pattern(e)) <==> e == r.entity
  {
    var p, pattern := Segments(r), Pattern(e);
    assert p[0] != "" && pattern[0] != "";
    if e == r.entity {
      assert forall i :: 0 <= i < |p| ==> p[i] != "" && (pattern[i] == "" || p[i] == pattern[i]);
    } else {
      assert p[0] != pattern[0];
    }
  }

  /** Parse inverts all five printers, */
  lemma ParsePrint(r: Ref)
    requires WellFormed(r)
    ensures Parse(Print(r)) == Some(r)
  {
    PrintJoinsSegments(r);
    SegmentsAreSlashFree(r);
    SplitJoin(Segments(r));
    forall e: Entity
      ensures Matches(Segments(r), Pattern(e)) <==> e == r.entity
    {
      SegmentsMatchOwnPattern(r, e);
    }
    assert FromSegments(r.entity, Segments(r)) == r;
  }

  lemma MatchedSegments(p: seq<string>, e: Entity)
    requires Matches(p, Pattern(e)) && forall s :: s in p ==> SlashFree(s)
    ensures Segments(FromSegments(e, p)) == p && WellFormed(FromSegments(e, p))
  {
    var pattern := Pattern(e);
    assert forall i :: 0 <= i < |p| ==> Id(p[i]) && (pattern[i] == "" || p[i] == pattern[i]);
    match e
    case KeycapKit => assert pattern[0] != "" && pattern[3] != "" && pattern[5] != "";
    case Profile => assert pattern[0] != "" && pattern[2] != "";
    case _ => assert pattern[0] != "" && pattern[3] != "";
  }

  /** and every key it accepts is the printed form of its Ref. */
  lemma PrintParse(key: string)
    requires Parse(key).Some?
    ensures WellFormed(Parse(key).value) && Print(Parse(key).value) == key
    ensures Segments(Parse(key).value) == Split(key)
  {
    JoinSplit(key);
    var r := Parse(key).value;
    MatchedSegments(Split(key), r.entity);
    PrintJoinsSegments(r);
  }

  // ---- an owner's prefixes ----

  const ROOTS := ["builds", "keyboards", "keycap-sets", "profiles", "switches"]

  function OwnerImagePrefixes(ownerID: string): seq<string> {
    ["builds/" + ownerID + "/", "keyboards/" + ownerID + "/", "keycap-sets/" + ownerID + "/",
     "profiles/" + ownerID + "/", "switches/" + ownerID + "/"]
  }

  predicate UnderOwner(key: string, ownerID: string) {
    exists i :: 0 <= i < |OwnerImagePrefixes(ownerID)| && OwnerImagePrefixes(ownerID)[i] <= key
  }

  lemma PrefixesAreRoots(ownerID: string, i: nat)
    requires i < |ROOTS|
    ensures OwnerImagePrefixes(ownerID)[i] == ROOTS[i] + "/" + ownerID + "/"
    ensures SlashFree(ROOTS[i])
  {
  }

  lemma PrefixGivesOwner(key: string, ownerID: string, i: nat)
    requires Parse(key).Some? && SlashFree(ownerID)
    requires i < |ROOTS| && OwnerImagePrefixes(ownerID)[i] <= key
    ensures Parse(key).value.ownerID == ownerID
  {
    PrefixesAreRoots(ownerID, i);
    var prefix := OwnerImagePrefixes(ownerID)[i];
    var rest := key[|prefix|..];
    assert key == ROOTS[i] + "/" + (ownerID + "/" + rest);
    SplitPrefix(ROOTS[i], ownerID + "/" + rest);
    SplitPrefix(ownerID, rest);
    PrintParse(key);
  }

  function RootOf(e: Entity): nat {
    match e case Build => 0 case Keyboard => 1 case KeycapKit => 2 case Profile => 3 case Switch => 4
  }

  lemma OwnerGivesPrefix(r: Ref)
    ensures OwnerImagePrefixes(r.ownerID)[RootOf(r.entity)] <= Print(r)
  {
    var prefix := ROOTS[RootOf(r.entity)] + "/" + r.ownerID + "/";
    PrefixesAreRoots(r.ownerID, RootOf(r.entity));
    match r.entity
    case Keyboard => assert prefix <= Print(r);
    case Build => assert prefix <= Print(r);
    case Switch => assert prefix <= Print(r);
    case KeycapKit => assert prefix <= Print(r);
    case Profile => assert prefix <= Print(r);
  }

  /** A parseable key is under a slash-free owner's prefixes iff it is that
      owner's. */
  lemma UnderOwnerIffOwned(key: string, ownerID: string)
    requires Parse(key).Some? && SlashFree(ownerID)
    ensures UnderOwner(key, ownerID) <==> Parse(key).value.ownerID == ownerID
  {
    if UnderOwner(key, ownerID) {
      var i :| 0 <= i < |OwnerImagePrefixes(ownerID)| && OwnerImagePrefixes(ownerID)[i] <= key;
      PrefixGivesOwner(key, ownerID, i);
    }
    if Parse(key).value.ownerID == ownerID {
      PrintParse(key);
      OwnerGivesPrefix(Parse(key).value);
    }
  }

  /** An owner id with a slash would claim another owner's keys. */
  lemma SlashedOwnerClaimsOthers(a: string, b: string, image: string)
    requires Id(a) && Id(b) && Id(image)
    ensures var key := Print(Ref(Switch, a, b, "", image));
      Parse(key).Some? && UnderOwner(key, a + "/" + b) && Parse(key).value.ownerID != a + "/" + b
  {
    var key, owner := Print(Ref(Switch, a, b, "", image)), a + "/" + b;
    ParsePrint(Ref(Switch, a, b, "", image));
    assert OwnerImagePrefixes(owner)[4] == "switches/" + owner + "/";
    assert key == ("switches/" + owner + "/") + ("image/" + image);
    assert '/' in owner by { assert owner[|a|] == '/'; }
  }
}
