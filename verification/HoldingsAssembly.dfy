/** The in-place assembly: hashes that are shared, tested and appended to as the program does it. */
module HoldingsAssembly {
  import opened Wrappers
  import opened RubyValues
  import opened HoldingsSpec

  /** One holding hash. */
  class HoldingHash {
    var description: Description
    var items: Option<seq<Item>>
    var locationHas: Option<Slots>
    var supplements: Option<Slots>
    var indexes: Option<Slots>

    constructor (description: Description)
      ensures Value() == NewHolding(description)
    {
      this.description, items, locationHas, supplements, indexes := description, None, None, None, None;
    }

    function Value(): Holding
      reads this
    {
      Holding(description, items, locationHas, supplements, indexes)
    }
  }

  /** `all_holdings`: each key has a holding hash of its own. `contents` is what the hashes say. */
  class AllHoldings {
    var keys: seq<string>
    var entries: map<string, HoldingHash>
    ghost var contents: Holdings

    constructor ()
      ensures Valid() && contents == NewHash() && entries == map[]
    {
      keys, entries, contents := [], map[], NewHash();
    }

    ghost predicate Valid()
      reads this, Hashes()
    {
      && (forall k, l :: k in entries && l in entries && k != l ==> entries[k] != entries[l])
      && contents.keys == keys
      && contents.at.Keys == entries.Keys
      && forall k :: k in entries ==> contents.at[k] == entries[k].Value()
    }

    ghost function Hashes(): set<HoldingHash>
      reads this
    {
      set k | k in entries :: entries[k]
    }

    /** `all_holdings[key] = holding` */
    method Store(key: string, holding: HoldingHash)
      requires Valid() && forall k :: k in entries && k != key ==> entries[k] != holding
      modifies this
      ensures Valid() && entries == old(entries)[key := holding]
      ensures contents == Put(old(contents), key, holding.Value())
    {
      if key !in entries { keys := keys + [key]; }
      entries := entries[key := holding];
      contents := Put(contents, key, holding.Value());
    }

    /** `all_holdings[key]['items'] ||= []`, then `<< item` */
    method AppendItem(key: string, item: Item)
      requires Valid() && key in entries
      modifies `contents, entries[key]
      ensures Valid()
      ensures contents ==
              Put(old(contents), key, old(contents).at[key].(items := Extend(old(contents).at[key].items, item)))
    {
      var holding := entries[key];
      if holding.items.None? { holding.items := Some([]); }
      holding.items := Some(holding.items.value + [item]);
      contents := Put(contents, key, holding.Value());
    }

    /** `process_866_867_868_fields` */
    method AppendTextual(key: string, fields: seq<TextualField>)
      requires Valid() && key in entries
      modifies `contents, entries[key]
      ensures Valid()
      ensures contents == Put(old(contents), key, AddTextual(old(contents).at[key], fields))
    {
      var holding := entries[key];
      for n := 0 to |fields|
        invariant contents == old(contents)
        invariant holding.Value() == AddTextual(old(contents).at[key], fields[..n])
      {
        if holding.locationHas.None? { holding.locationHas := Some([]); }
        if holding.supplements.None? { holding.supplements := Some([]); }
        if holding.indexes.None? { holding.indexes := Some([]); }
        holding.locationHas := Some(holding.locationHas.value + [ParseTextual(fields[n], Tag866)]);
        holding.supplements := Some(holding.supplements.value + [ParseTextual(fields[n], Tag867)]);
        holding.indexes := Some(holding.indexes.value + [ParseTextual(fields[n], Tag868)]);
        assert fields[..n + 1][..n] == fields[..n];
      }
      assert fields[..|fields|] == fields;
      contents := Put(contents, key, holding.Value());
    }
  }

  /** A holding that is stored, if at all, under `key` only. */
  ghost predicate Owned(all: AllHoldings, key: Option<string>, holding: HoldingHash)
    reads all
  {
    forall k :: k in all.entries && all.entries[k] == holding ==> key == Some(k)
  }

  method RemoveEmptyCallNumberFields(holding: HoldingHash)
    modifies holding`description
    ensures holding.Value() ==
            old(holding.Value()).(description := RemoveEmptyCallNumbers(old(holding.description)))
  {
    holding.description := RemoveEmptyCallNumbers(holding.description);
  }

  method AddItemToHolding(
    i: Field876, key: Option<string>, places: Places, all: AllHoldings, holding: HoldingHash)
    requires all.Valid() && Owned(all, key, holding)
    requires key.Some? && key.value !in all.entries ==>
             holding.items.None? && holding.Value() == NewHolding(holding.description)
    requires key.Some? ==> !Blank(key.value)
    requires key.None? ==> holding.description.locationCode.None?
    modifies all, holding, all.Hashes()
    ensures all.Valid() && Owned(all, key, holding)
    ensures all.contents == Place(old(all.contents), Placement(key, old(holding.description), BuildItem(i)))
    ensures key.Some? ==> key.value in all.entries
    ensures all.Hashes() <= old(all.Hashes()) + {holding}
  {
    if ((key.Some? && !Blank(key.value)) || !InvalidLocation(places, holding.description.locationCode)) &&
      key.value !in all.entries {
      RemoveEmptyCallNumberFields(holding);
      all.Store(key.value, holding);
    }
    if key.Some? && key.value in all.entries {
      all.AppendItem(key.value, BuildItem(i));
    }
  }

  method BuildHolding(
    f: Field852, places: Places, code: Option<string>, permanent: bool) returns (holding: HoldingHash)
    ensures fresh(holding) && holding.Value() == NewHolding(Describe(f, places, code, permanent))
  {
    holding := new HoldingHash(Describe(f, places, code, permanent));
  }

  /** `holding` is the hash built for the permanent location, shared by all the permanent items of the field. */
  method AddPermanentItems(
    f: Field852, items: seq<Field876>, places: Places, all: AllHoldings, holding: HoldingHash)
    requires all.Valid() && IsAlma(f) && holding !in all.Hashes()
    requires holding.Value() == NewHolding(Permanent(f, places))
    modifies all, holding, all.Hashes()
    ensures all.Valid()
    ensures all.contents ==
            PlaceAll(old(all.contents), PermanentPlacements(f, places, PermanentItems(items, f)))
    ensures all.Hashes() <= old(all.Hashes()) + {holding}
  {
    var chosen := PermanentItems(items, f);
    IdNotBlank(f);
    ghost var ps := PermanentPlacements(f, places, chosen);
    for n := 0 to |chosen|
      invariant all.Valid() && Owned(all, f.eight, holding)
      invariant f.eight.value in all.entries || holding.Value() == NewHolding(Permanent(f, places))
      invariant all.contents == PlaceAll(old(all.contents), ps[..n])
      invariant all.Hashes() <= old(all.Hashes()) + {holding}
    {
      AddItemToHolding(chosen[n], f.eight, places, all, holding);
      PlaceAllStep(old(all.contents), ps, n);
    }
    assert ps[..|ps|] == ps;
  }

  method AddTemporaryItem(f: Field852, i: Field876, places: Places, all: AllHoldings)
    requires all.Valid() && IsAlma(f)
    modifies all, all.Hashes()
    ensures all.Valid()
    ensures all.contents == Place(old(all.contents), TemporaryPlacement(f, places, i))
    ensures fresh(all.Hashes() - old(all.Hashes()))
  {
    IdNotBlank(f);
    CodeNotBlank(i);
    var code := CurrentCode(i);
    var holding, key;
    if code == Some(RES_SHARE) {
      holding := BuildHolding(f, places, Some(PermanentCode(f)), true);
      key := f.eight;
    } else {
      holding := BuildHolding(f, places, code, false);
      key := code;
    }
    holding.description := holding.description.(tempLocationCode := code);
    AddItemToHolding(i, key, places, all, holding);
  }

  method AddTemporaryItems(f: Field852, items: seq<Field876>, places: Places, all: AllHoldings)
    requires all.Valid() && IsAlma(f)
    modifies all, all.Hashes()
    ensures all.Valid()
    ensures all.contents ==
            PlaceAll(old(all.contents), TemporaryPlacements(f, places, TemporaryItems(items, f)))
    ensures fresh(all.Hashes() - old(all.Hashes()))
  {
    var chosen := TemporaryItems(items, f);
    ghost var ps := TemporaryPlacements(f, places, chosen);
    for n := 0 to |chosen|
      invariant all.Valid()
      invariant all.contents == PlaceAll(old(all.contents), ps[..n])
      invariant fresh(all.Hashes() - old(all.Hashes()))
    {
      AddTemporaryItem(f, chosen[n], places, all);
      PlaceAllStep(old(all.contents), ps, n);
    }
    assert ps[..|ps|] == ps;
  }

  lemma IdNotBlank(f: Field852)
    requires IsAlma(f)
    ensures !Blank(f.eight.value)
  {
    assert f.eight.value[0] == "22"[0];
  }

  lemma CodeNotBlank(i: Field876)
    ensures CurrentCode(i).Some? ==> !Blank(CurrentCode(i).value)
  {
    if CurrentCode(i).Some? {
      assert CurrentCode(i).value[|i.y.value|] == '$';
    }
  }

  method PlaceItems(f: Field852, items: seq<Field876>, places: Places, all: AllHoldings, holding: HoldingHash)
    requires all.Valid() && IsAlma(f) && holding !in all.Hashes()
    requires holding.Value() == NewHolding(Permanent(f, places))
    modifies all, holding, all.Hashes()
    ensures all.Valid() && all.contents == PlaceAll(old(all.contents), Placements(f, places, items))
    ensures fresh(all.Hashes() - old(all.Hashes()) - {holding})
  {
    PlaceAllAppend(all.contents, PermanentPlacements(f, places, PermanentItems(items, f)),
                   TemporaryPlacements(f, places, TemporaryItems(items, f)));
    AddPermanentItems(f, items, places, all, holding);
    AddTemporaryItems(f, items, places, all);
  }

  /** The items of one 852, or the bare holding of an 852 without items. */
  method PlaceField(record: Record, places: Places, f: Field852, all: AllHoldings)
    requires all.Valid() && IsAlma(f)
    modifies all, all.Hashes()
    ensures all.Valid() && all.contents == PlacedField(old(all.contents), record, places, f)
    ensures fresh(all.Hashes() - old(all.Hashes()))
  {
    var holding := BuildHolding(f, places, Some(PermanentCode(f)), true);
    var items := ItemsOf(record, f.eight.value);
    if items != [] {
      PlaceItems(f, items, places, all, holding);
    } else if !InvalidLocation(places, holding.description.locationCode) {
      RemoveEmptyCallNumberFields(holding);
      all.Store(f.eight.value, holding);
    }
  }

  method AssembleField(record: Record, places: Places, f: Field852, all: AllHoldings)
    requires all.Valid() && IsAlma(f)
    modifies all, all.Hashes()
    ensures all.Valid() && all.contents == ProcessField(old(all.contents), record, places, f)
    ensures fresh(all.Hashes() - old(all.Hashes()))
  {
    PlaceField(record, places, f, all);
    if f.eight.value in all.entries {
      all.AppendTextual(f.eight.value, TextualOf(record, f.eight.value));
    }
  }

  lemma PlaceAllStep(h: Holdings, ps: seq<Placement>, n: nat)
    requires n < |ps|
    ensures PlaceAll(h, ps[..n + 1]) == Place(PlaceAll(h, ps[..n]), ps[n])
  {
    assert ps[..n + 1][..n] == ps[..n];
  }

  lemma {:induction false} PlaceAllAppend(h: Holdings, a: seq<Placement>, b: seq<Placement>)
    ensures PlaceAll(h, a + b) == PlaceAll(PlaceAll(h, a), b)
    decreases |b|
  {
    if b == [] {
      assert a + b == a;
    } else {
      assert (a + b)[..|a + b| - 1] == a + b[..|b| - 1];
      PlaceAllAppend(h, a, b[..|b| - 1]);
    }
  }

  /** `process_holdings`: no two keys share a hash, and the hashes hold what the specification says. */
  method AssembleHoldings(record: Record, places: Places) returns (all: AllHoldings)
    ensures fresh(all) && all.Valid() && all.contents == ProcessHoldings(record, places)
  {
    all := new AllHoldings();
    var fields := AlmaFields(record);
    for n := 0 to |fields|
      invariant all.Valid() && fresh(all) && fresh(all.Hashes())
      invariant all.contents == ProcessFields(record, places, fields[..n])
    {
      AssembleField(record, places, fields[n], all);
      ProcessFieldsStep(record, places, fields, n);
    }
    assert fields[..|fields|] == fields;
  }
}
