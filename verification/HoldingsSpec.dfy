/** Assembling `holdings_1display` from the 852, 876 and 866-868 fields, on values
    (marc_to_solr/lib/princeton_marc.rb:316-379, marc_to_solr/lib/process_holdings_helpers.rb). */
module HoldingsSpec {
  import opened Wrappers
  import opened RubyValues

  datatype Field852 = Field852(
    eight: Option<string>, b: Option<string>, c: Option<string>, callNumberParts: seq<string>,
    k: Option<string>, l: Option<string>, z: Option<string>)

  datatype Field876 = Field876(
    zero: Option<string>, three: Option<string>, a: Option<string>, j: Option<string>, p: Option<string>,
    t: Option<string>, x: Option<string>, y: Option<string>, z: Option<string>)

  /** A textual holdings field: 866, 867 or 868. */
  datatype TextualTag = Tag866 | Tag867 | Tag868
  datatype TextualField = TextualField(
    tag: TextualTag, eight: Option<string>, a: Option<string>, z: Option<string>)

  datatype Record = Record(f852s: seq<Field852>, f876s: seq<Field876>, textual: seq<TextualField>)

  /** The location tables. */
  datatype Places = Places(locationLabel: string -> Option<string>, libraryLabel: string -> Option<string>)

  const RES_SHARE := "RES_SHARE$IN_RS_REQ"

  predicate Blank(s: string) {
    forall i :: 0 <= i < |s| ==> s[i] == ' ' || s[i] == '\t' || s[i] == '\n' || s[i] == '\r'
  }

  predicate IsAlma(f: Field852) {
    && f.eight.Some?
    && "22" <= f.eight.value
    && |f.eight.value| >= 5 && f.eight.value[|f.eight.value| - 5..] == "06421"
  }

  function AlmaFields(record: Record): (fs: seq<Field852>)
    ensures forall f :: f in fs ==> f in record.f852s && IsAlma(f)
  {
    Filter(record.f852s, IsAlma)
  }

  function OrEmpty(s: Option<string>): string {
    if s.Some? then s.value else ""
  }

  function PermanentCode(f: Field852): string {
    if OrEmpty(f.c) == "" then OrEmpty(f.b) else OrEmpty(f.b) + "$" + OrEmpty(f.c)
  }

  function CurrentCode(i: Field876): Option<string> {
    if i.y.Some? && i.z.Some? then Some(i.y.value + "$" + i.z.value) else None
  }

  predicate InTemporaryLocation(i: Field876, f: Field852) {
    CurrentCode(i) != Some(PermanentCode(f))
  }

  function InvalidLocation(places: Places, code: Option<string>): bool {
    code.None? || places.locationLabel(code.value).None?
  }

  predicate NotEmpty(s: string) { s != "" }

  function CallNumber(f: Field852): Option<string> {
    var joined := Join(Filter(f.callNumberParts, NotEmpty), " ");
    if joined == "" then None else Some(joined)
  }

  /** The item-independent keys of a holding. `permanent` chooses between `location`/`library` and their
      `current_` forms. */
  datatype Description = Description(
    locationCode: Option<string>, permanent: bool, location: Option<string>, library: Option<string>,
    callNumber: Option<string>, callNumberBrowse: Option<string>,
    subLocation: Option<string>, shelvingTitle: Option<string>, locationNote: Option<string>,
    tempLocationCode: Option<string>)

  function Describe(f: Field852, places: Places, code: Option<string>, permanent: bool): Description {
    Description(code, permanent,
                if code.Some? then places.locationLabel(code.value) else None,
                if code.Some? then places.libraryLabel(code.value) else None,
                CallNumber(f), CallNumber(f), f.k, f.l, f.z, None)
  }

  function Permanent(f: Field852, places: Places): Description {
    Describe(f, places, Some(PermanentCode(f)), true)
  }

  function RemoveEmptyCallNumbers(d: Description): Description {
    d.(callNumber := if d.callNumber.Some? && Blank(d.callNumber.value) then None else d.callNumber,
       callNumberBrowse :=
         if d.callNumberBrowse.Some? && Blank(d.callNumberBrowse.value) then None else d.callNumberBrowse)
  }

  datatype Item = Item(
    holdingId: Option<string>, description: Option<string>, id: Option<string>, statusAtLoad: Option<string>,
    barcode: Option<string>, copyNumber: Option<string>, processType: Option<string>)

  function BuildItem(i: Field876): Item {
    Item(i.zero, i.three, i.a, i.j, i.p, i.t, i.x)
  }

  type Slots = seq<Option<string>>

  /** A holding as it will be written out; None means that the key is absent. */
  datatype Holding = Holding(
    description: Description, items: Option<seq<Item>>,
    locationHas: Option<Slots>, supplements: Option<Slots>, indexes: Option<Slots>)

  function NewHolding(d: Description): Holding {
    Holding(d, None, None, None, None)
  }

  type Holdings = Hash<Holding>

  function Extend<T>(xs: Option<seq<T>>, x: T): Option<seq<T>> {
    Some((if xs.Some? then xs.value else []) + [x])
  }

  /** An item on its way to a key, with the description that a new holding there would get. */
  datatype Placement = Placement(key: Option<string>, description: Description, item: Item)

  function Place(h: Holdings, p: Placement): Holdings {
    if p.key.None? then h
    else
      var holding := if p.key.value in h.at then h.at[p.key.value]
        else NewHolding(RemoveEmptyCallNumbers(p.description));
      Put(h, p.key.value, holding.(items := Extend(holding.items, p.item)))
  }

  function PlaceAll(h: Holdings, ps: seq<Placement>): Holdings
    decreases |ps|
  {
    if ps == [] then h else Place(PlaceAll(h, ps[..|ps| - 1]), ps[|ps| - 1])
  }

  function ItemsOf(record: Record, id: string): seq<Field876> {
    Filter(record.f876s, (i: Field876) => i.zero == Some(id))
  }

  function TextualOf(record: Record, id: string): seq<TextualField> {
    Filter(record.textual, (t: TextualField) => t.eight == Some(id))
  }

  function PermanentPlacement(f: Field852, places: Places, i: Field876): Placement
    requires IsAlma(f)
  {
    Placement(f.eight, Permanent(f, places), BuildItem(i))
  }

  function TemporaryPlacement(f: Field852, places: Places, i: Field876): Placement
    requires IsAlma(f)
  {
    var code := CurrentCode(i);
    if code == Some(RES_SHARE) then
      Placement(f.eight, Permanent(f, places).(tempLocationCode := code), BuildItem(i))
    else Placement(code, Describe(f, places, code, false).(tempLocationCode := code), BuildItem(i))
  }

  function PermanentItems(items: seq<Field876>, f: Field852): seq<Field876> {
    Filter(items, (i: Field876) => !InTemporaryLocation(i, f))
  }

  function TemporaryItems(items: seq<Field876>, f: Field852): seq<Field876> {
    Filter(items, (i: Field876) => InTemporaryLocation(i, f))
  }

  function PermanentPlacements(f: Field852, places: Places, items: seq<Field876>): (ps: seq<Placement>)
    requires IsAlma(f)
    ensures |ps| == |items| && forall n :: 0 <= n < |ps| ==> ps[n] == PermanentPlacement(f, places, items[n])
  {
    seq(|items|, n requires 0 <= n < |items| => PermanentPlacement(f, places, items[n]))
  }

  function TemporaryPlacements(f: Field852, places: Places, items: seq<Field876>): (ps: seq<Placement>)
    requires IsAlma(f)
    ensures |ps| == |items| && forall n :: 0 <= n < |ps| ==> ps[n] == TemporaryPlacement(f, places, items[n])
  {
    seq(|items|, n requires 0 <= n < |items| => TemporaryPlacement(f, places, items[n]))
  }

  /** Where one 852 sends its items: the permanent ones first, then the temporary ones. */
  function Placements(f: Field852, places: Places, items: seq<Field876>): seq<Placement>
    requires IsAlma(f)
  {
    PermanentPlacements(f, places, PermanentItems(items, f)) +
      TemporaryPlacements(f, places, TemporaryItems(items, f))
  }

  function ParseTextual(t: TextualField, tag: TextualTag): Option<string> {
    if t.tag != tag || (t.a.None? && t.z.None?) then None
    else if t.a.None? then t.z
    else if t.z.None? then t.a
    else Some(t.a.value + " " + t.z.value)
  }

  function AddTextual(holding: Holding, ts: seq<TextualField>): Holding
    decreases |ts|
  {
    if ts == [] then holding
    else
      var t, before := ts[|ts| - 1], AddTextual(holding, ts[..|ts| - 1]);
      before.(locationHas := Extend(before.locationHas, ParseTextual(t, Tag866)),
              supplements := Extend(before.supplements, ParseTextual(t, Tag867)),
              indexes := Extend(before.indexes, ParseTextual(t, Tag868)))
  }

  function PlacedField(h: Holdings, record: Record, places: Places, f: Field852): Holdings
    requires IsAlma(f)
  {
    var items := ItemsOf(record, f.eight.value);
    if items != [] then PlaceAll(h, Placements(f, places, items))
    else if InvalidLocation(places, Some(PermanentCode(f))) then h
    else Put(h, f.eight.value, NewHolding(RemoveEmptyCallNumbers(Permanent(f, places))))
  }

  /** One round of the loop over the Alma 852 fields. */
  function ProcessField(h: Holdings, record: Record, places: Places, f: Field852): Holdings
    requires IsAlma(f)
  {
    var id, placed := f.eight.value, PlacedField(h, record, places, f);
    if id in placed.at then Put(placed, id, AddTextual(placed.at[id], TextualOf(record, id))) else placed
  }

  function ProcessFields(record: Record, places: Places, fs: seq<Field852>): Holdings
    requires forall f :: f in fs ==> IsAlma(f)
    decreases |fs|
  {
    if fs == [] then NewHash()
    else ProcessField(ProcessFields(record, places, fs[..|fs| - 1]), record, places, fs[|fs| - 1])
  }

  lemma ProcessFieldsStep(record: Record, places: Places, fs: seq<Field852>, n: nat)
    requires n < |fs| && forall f :: f in fs ==> IsAlma(f)
    ensures ProcessFields(record, places, fs[..n + 1]) ==
            ProcessField(ProcessFields(record, places, fs[..n]), record, places, fs[n])
  {
    assert fs[..n + 1][..n] == fs[..n];
  }

  function ProcessHoldings(record: Record, places: Places): Holdings {
    ProcessFields(record, places, AlmaFields(record))
  }
}
