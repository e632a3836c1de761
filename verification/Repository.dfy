/** The collection one user owns, as the repositories store it
    (internal/repository/keyboard.go, keycap_set.go, switch.go, build.go), with
    the fields other components refer to. Prices are real numbers: rounding of
    floating-point sums is not modelled. */
module Repository {
  import opened Wrappers

  type Id = string

  // An image object's key.
  type Key = string

  // A keyboard's plate or PCB. Its order number ranks a keyboard's parts.
  datatype Part = Part(id: Id, price: Option<real>, order: int)

  datatype Keyboard = Keyboard(price: Option<real>, plates: map<Id, Part>, pcbs: map<Id, Part>, images: map<Id, Key>)

  // price is what quantity of them cost together.
  datatype Switch = Switch(price: Option<real>, quantity: Option<int>, image: Option<Key>)

  // Ordered in its set as a part is in its keyboard.
  datatype Kit = Kit(id: Id, price: Option<real>, order: int, image: Option<Key>)

  datatype KeycapSet = KeycapSet(kits: map<Id, Kit>)

  datatype SwitchEntry = SwitchEntry(switch: Id, count: int)

  datatype KitEntry = KitEntry(keycapSet: Id, kit: Id)

  datatype Build = Build(
    keyboard: Id, plate: Option<Id>, pcb: Option<Id>,
    switches: seq<SwitchEntry>, kits: seq<KitEntry>,
    stabsPrice: Option<real>, images: map<Id, Key>)

  // objects are the images stored for the owner.
  datatype Collection = Collection(
    keyboards: map<Id, Keyboard>, switches: map<Id, Switch>, keycapSets: map<Id, KeycapSet>,
    builds: map<Id, Build>, objects: set<Key>)

  // Keyboard.Plate and Keyboard.PCB: None for no id, or one the keyboard lacks.
  function FindPart(parts: map<Id, Part>, id: Option<Id>): Option<Part> {
    if id.Some? && id.value in parts then Some(parts[id.value]) else None
  }
}
