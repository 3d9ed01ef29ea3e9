/** What the assembled holdings contain, key by key. */
module HoldingsTheorems {
  import opened Wrappers
  import opened RubyValues
  import opened HoldingsSpec

  // ----- the declarative reading of a record

  /** The 852s that are read: those whose $8 starts with 22 and ends with 06421. */
  lemma AlmaFieldsMeaning(record: Record, f: Field852)
    ensures f in AlmaFields(record) <==>
            && f in record.f852s && f.eight.Some?
            && var id := f.eight.value;
               |id| >= 5 && id[..2] == "22" && id[|id| - 5..] == "06421"
  {
    if f.eight.Some? && |f.eight.value| >= 2 {
      assert f.eight.value == f.eight.value[..2] + f.eight.value[2..];
    }
  }

  /** Items whose current location is the permanent one. */
  function AtHome(record: Record, f: Field852): seq<Field876> {
    Filter(record.f876s, (i: Field876) => i.zero == f.eight && CurrentCode(i) == Some(PermanentCode(f)))
  }

  /** Items away on resource sharing, which stay with the permanent holding. */
  function Shared(record: Record, f: Field852): seq<Field876> {
    Filter(record.f876s, (i: Field876) =>
      i.zero == f.eight && CurrentCode(i) == Some(RES_SHARE) && PermanentCode(f) != RES_SHARE)
  }

  /** Items temporarily at `code`. */
  function Away(record: Record, f: Field852, code: string): seq<Field876> {
    Filter(record.f876s, (i: Field876) =>
      i.zero == f.eight && CurrentCode(i) == Some(code) && PermanentCode(f) != code && code != RES_SHARE)
  }

  function BuildItems(items: seq<Field876>): (r: seq<Item>)
    ensures |r| == |items| && forall n :: 0 <= n < |r| ==> r[n] == BuildItem(items[n])
  {
    seq(|items|, n requires 0 <= n < |items| => BuildItem(items[n]))
  }

  function TextualSlots(ts: seq<TextualField>, tag: TextualTag): (r: Option<Slots>)
    ensures r.Some? ==> |r.value| == |ts|
  {
    if ts == [] then None else Some(seq(|ts|, n requires 0 <= n < |ts| => ParseTextual(ts[n], tag)))
  }

  function WithTextual(d: Description, items: Option<seq<Item>>, ts: seq<TextualField>): Holding {
    Holding(d, items, TextualSlots(ts, Tag866), TextualSlots(ts, Tag867), TextualSlots(ts, Tag868))
  }

  function ExpectedAtId(record: Record, places: Places, f: Field852): Option<Holding>
    requires IsAlma(f)
  {
    var home, shared, ts := AtHome(record, f), Shared(record, f), TextualOf(record, f.eight.value);
    var permanent := Permanent(f, places);
    if home != [] then
      Some(WithTextual(RemoveEmptyCallNumbers(permanent), Some(BuildItems(home + shared)), ts))
    else if shared != [] then
      var shared852 := permanent.(tempLocationCode := Some(RES_SHARE));
      Some(WithTextual(RemoveEmptyCallNumbers(shared852), Some(BuildItems(shared)), ts))
    else if ItemsOf(record, f.eight.value) == [] && !InvalidLocation(places, Some(PermanentCode(f))) then
      Some(WithTextual(RemoveEmptyCallNumbers(permanent), None, ts))
    else None
  }

  function TemporaryDescription(f: Field852, places: Places, code: string): Description {
    RemoveEmptyCallNumbers(Describe(f, places, Some(code), false).(tempLocationCode := Some(code)))
  }

  /** The items of all the fields at a temporary location, field by field, under the description of the first
      field that has any. */
  function ExpectedAtCode(record: Record, places: Places, fs: seq<Field852>, code: string): Option<Holding>
    decreases |fs|
  {
    if fs == [] then None
    else
      var f := fs[|fs| - 1];
      var before := ExpectedAtCode(record, places, fs[..|fs| - 1], code);
      var here := BuildItems(Away(record, f, code));
      if here == [] then before
      else if before.None? then
        Some(Holding(TemporaryDescription(f, places, code), Some(here), None, None, None))
      else
        var already := if before.value.items.Some? then before.value.items.value else [];
        Some(before.value.(items := Some(already + here)))
  }

  predicate DistinctIds(fs: seq<Field852>) {
    forall i, j :: 0 <= i < j < |fs| ==> fs[i].eight != fs[j].eight
  }

  /** No item of the record is temporarily at a location whose code is the id of one of its holdings. */
  predicate NoCodeIsId(record: Record, fs: seq<Field852>) {
    forall f, g, i ::
      f in fs && g in fs && i in record.f876s && i.zero == f.eight && InTemporaryLocation(i, f) ==>
      CurrentCode(i) != g.eight
  }

  /** Every location code joins a library and a location with a dollar sign, so an id without one is none. */
  lemma PlainIdsAreNoCodes(record: Record, fs: seq<Field852>)
    requires forall f :: f in fs ==> f.eight.Some? && '$' !in f.eight.value
    ensures NoCodeIsId(record, fs)
  {
    forall i | i in record.f876s && CurrentCode(i).Some? ensures '$' in CurrentCode(i).value {
      assert CurrentCode(i).value[|i.y.value|] == '$';
    }
  }

  // ----- first writer wins

  function Own(ps: seq<Placement>, key: string): seq<Placement> {
    Filter(ps, (p: Placement) => p.key == Some(key))
  }

  function PlacedItems(ps: seq<Placement>): (r: seq<Item>)
    ensures |r| == |ps| && forall n :: 0 <= n < |r| ==> r[n] == ps[n].item
  {
    seq(|ps|, n requires 0 <= n < |ps| => ps[n].item)
  }

  function Accumulate(before: Option<Holding>, own: seq<Placement>): Option<Holding> {
    if own == [] then before
    else
      var base := if before.Some? then before.value
        else NewHolding(RemoveEmptyCallNumbers(own[0].description));
      Some(base.(items := Some((if base.items.Some? then base.items.value else []) + PlacedItems(own))))
  }

  lemma AccumulateOne(before: Option<Holding>, own: seq<Placement>, p: Placement)
    ensures Accumulate(before, own + [p]) == Accumulate(Accumulate(before, own), [p])
  {
    assert PlacedItems(own + [p]) == PlacedItems(own) + PlacedItems([p]);
    if own == [] {
      assert own + [p] == [p];
    } else {
      assert (own + [p])[0] == own[0];
      var base := if before.Some? then before.value
        else NewHolding(RemoveEmptyCallNumbers(own[0].description));
      var items := if base.items.Some? then base.items.value else [];
      assert items + (PlacedItems(own) + PlacedItems([p])) == (items + PlacedItems(own)) + PlacedItems([p]);
    }
  }

  lemma PlaceLookup(h: Holdings, p: Placement, key: string)
    ensures Lookup(Place(h, p), key) ==
            if p.key == Some(key) then Accumulate(Lookup(h, key), [p]) else Lookup(h, key)
  {
    assert PlacedItems([p]) == [p.item];
    assert [] + [p.item] == [p.item];
  }

  lemma {:induction false} PlaceAllLookup(h: Holdings, ps: seq<Placement>, key: string)
    ensures Lookup(PlaceAll(h, ps), key) == Accumulate(Lookup(h, key), Own(ps, key))
    decreases |ps|
  {
    if ps != [] {
      var init, p := ps[..|ps| - 1], ps[|ps| - 1];
      PlaceAllLookup(h, init, key);
      PlaceLookup(PlaceAll(h, init), p, key);
      assert ps == init + [p];
      FilterAppend(init, [p], (p: Placement) => p.key == Some(key));
      assert Own([p], key) == if p.key == Some(key) then [p] else [];
      if p.key == Some(key) {
        AccumulateOne(Lookup(h, key), Own(init, key), p);
      } else {
        assert Own(init, key) + [] == Own(init, key);
      }
    }
  }

  // ----- what one 852 places under a key

  predicate GoesTo(f: Field852, i: Field876, key: string) {
    (if CurrentCode(i) == Some(RES_SHARE) then f.eight else CurrentCode(i)) == Some(key)
  }

  /** The items that the field sends to a key as temporary ones. */
  function SentTo(record: Record, f: Field852, key: string): seq<Field876> {
    Filter(record.f876s, (i: Field876) => i.zero == f.eight && InTemporaryLocation(i, f) && GoesTo(f, i, key))
  }

  /** Selecting placements by key is selecting the items they were made from. */
  lemma {:induction false} OwnTemporary(f: Field852, places: Places, items: seq<Field876>, key: string)
    requires IsAlma(f)
    ensures Own(TemporaryPlacements(f, places, items), key) ==
            TemporaryPlacements(f, places, Filter(items, (i: Field876) => GoesTo(f, i, key)))
  {
    if items != [] {
      OwnTemporary(f, places, items[1..], key);
      var ps := TemporaryPlacements(f, places, items);
      assert ps[1..] == TemporaryPlacements(f, places, items[1..]);
      var rest := Filter(items[1..], (i: Field876) => GoesTo(f, i, key));
      if GoesTo(f, items[0], key) {
        assert TemporaryPlacements(f, places, [items[0]] + rest) ==
               [ps[0]] + TemporaryPlacements(f, places, rest);
      } else {
        assert [] + rest == rest;
        assert [] + Own(ps[1..], key) == Own(ps[1..], key);
      }
    }
  }

  lemma OwnPermanent(f: Field852, places: Places, items: seq<Field876>, key: string)
    requires IsAlma(f)
    ensures Own(PermanentPlacements(f, places, items), key) ==
            if f.eight == Some(key) then PermanentPlacements(f, places, items) else []
  {
    var ps := PermanentPlacements(f, places, items);
    if f.eight == Some(key) { FilterAll(ps, (p: Placement) => p.key == Some(key)); }
    else { FilterNone(ps, (p: Placement) => p.key == Some(key)); }
  }

  lemma OwnOfField(record: Record, places: Places, f: Field852, key: string)
    requires IsAlma(f)
    ensures Own(Placements(f, places, ItemsOf(record, f.eight.value)), key) ==
            (if f.eight == Some(key) then PermanentPlacements(f, places, AtHome(record, f)) else [])
            + TemporaryPlacements(f, places, SentTo(record, f, key))
  {
    var items := ItemsOf(record, f.eight.value);
    var mine := (i: Field876) => i.zero == Some(f.eight.value);
    FilterFilter(record.f876s, mine, (i: Field876) => !InTemporaryLocation(i, f),
                 (i: Field876) => i.zero == f.eight && CurrentCode(i) == Some(PermanentCode(f)));
    var away := (i: Field876) => i.zero == f.eight && InTemporaryLocation(i, f);
    FilterFilter(record.f876s, mine, (i: Field876) => InTemporaryLocation(i, f), away);
    FilterFilter(record.f876s, away, (i: Field876) => GoesTo(f, i, key),
                 (i: Field876) => i.zero == f.eight && InTemporaryLocation(i, f) && GoesTo(f, i, key));
    OwnPermanent(f, places, PermanentItems(items, f), key);
    OwnTemporary(f, places, TemporaryItems(items, f), key);
    FilterAppend(PermanentPlacements(f, places, PermanentItems(items, f)),
      TemporaryPlacements(f, places, TemporaryItems(items, f)),
                 (p: Placement) => p.key == Some(key));
  }

  lemma SlotsStep(ts: seq<TextualField>, tag: TextualTag)
    requires ts != []
    ensures TextualSlots(ts, tag) ==
            Extend(TextualSlots(ts[..|ts| - 1], tag), ParseTextual(ts[|ts| - 1], tag))
  {
    var n := |ts| - 1;
    var before := TextualSlots(ts[..n], tag);
    assert TextualSlots(ts, tag).value ==
           (if before.Some? then before.value else []) + [ParseTextual(ts[n], tag)];
  }

  lemma {:induction false} AddTextualSlots(holding: Holding, ts: seq<TextualField>)
    requires holding.locationHas.None? && holding.supplements.None? && holding.indexes.None?
    ensures AddTextual(holding, ts) == WithTextual(holding.description, holding.items, ts)
    decreases |ts|
  {
    if ts != [] {
      AddTextualSlots(holding, ts[..|ts| - 1]);
      SlotsStep(ts, Tag866);
      SlotsStep(ts, Tag867);
      SlotsStep(ts, Tag868);
    }
  }

  lemma SharedStay(record: Record, f: Field852)
    requires IsAlma(f)
    requires forall i :: i in record.f876s && i.zero == f.eight && InTemporaryLocation(i, f) ==>
               CurrentCode(i) != f.eight
    ensures SentTo(record, f, f.eight.value) == Shared(record, f)
  {
    FilterSame(record.f876s,
               (i: Field876) => i.zero == f.eight && InTemporaryLocation(i, f) && GoesTo(f, i, f.eight.value),
               (i: Field876) => i.zero == f.eight && CurrentCode(i) == Some(RES_SHARE) &&
                 PermanentCode(f) != RES_SHARE);
  }

  lemma PlacedOwnItems(record: Record, places: Places, f: Field852)
    requires IsAlma(f)
    ensures var home, shared := AtHome(record, f), Shared(record, f);
            PlacedItems(PermanentPlacements(f, places, home) + TemporaryPlacements(f, places, shared)) ==
              BuildItems(home + shared)
  {
  }

  lemma SharedDescription(record: Record, places: Places, f: Field852)
    requires IsAlma(f)
    ensures forall i :: i in Shared(record, f) ==>
              TemporaryPlacement(f, places, i).description ==
                Permanent(f, places).(tempLocationCode := Some(RES_SHARE))
  {
  }

  /** What the field places under its own id, before the textual holdings. */
  lemma PlacedAtOwnId(h: Holdings, record: Record, places: Places, f: Field852)
    requires IsAlma(f) && f.eight.value !in h.at
    requires forall i :: i in record.f876s && i.zero == f.eight && InTemporaryLocation(i, f) ==>
             CurrentCode(i) != f.eight
    ensures var home, shared := AtHome(record, f), Shared(record, f);
            Lookup(PlacedField(h, record, places, f), f.eight.value) ==
            if home != [] then
              Some(NewHolding(RemoveEmptyCallNumbers(Permanent(f, places))).(
                items := Some(BuildItems(home + shared))))
            else if shared != [] then
              Some(NewHolding(RemoveEmptyCallNumbers(Permanent(f, places).(
                tempLocationCode := Some(RES_SHARE)))).(items := Some(BuildItems(shared))))
            else if
              ItemsOf(record, f.eight.value) == [] && !InvalidLocation(places, Some(PermanentCode(f)))
            then
              Some(NewHolding(RemoveEmptyCallNumbers(Permanent(f, places))))
            else None
  {
    var items := ItemsOf(record, f.eight.value);
    var home, shared := AtHome(record, f), Shared(record, f);
    if items != [] {
      PlaceAllLookup(h, Placements(f, places, items), f.eight.value);
      OwnOfField(record, places, f, f.eight.value);
      SharedStay(record, f);
      PlacedOwnItems(record, places, f);
      SharedDescription(record, places, f);
      assert [] + BuildItems(home + shared) == BuildItems(home + shared);
      assert home == [] ==> home + shared == shared;
      assert home == [] && shared != [] ==> shared[0] in shared;
    } else {
      assert forall i :: i in home || i in shared ==> i in items;
      FirstIn(home);
      FirstIn(shared);
    }
  }

  lemma FieldAtOwnId(h: Holdings, record: Record, places: Places, f: Field852)
    requires IsAlma(f) && f.eight.value !in h.at
    requires forall i :: i in record.f876s && i.zero == f.eight && InTemporaryLocation(i, f) ==>
             CurrentCode(i) != f.eight
    ensures Lookup(ProcessField(h, record, places, f), f.eight.value) == ExpectedAtId(record, places, f)
  {
    PlacedAtOwnId(h, record, places, f);
    var placed := Lookup(PlacedField(h, record, places, f), f.eight.value);
    if placed.Some? {
      AddTextualSlots(placed.value, TextualOf(record, f.eight.value));
    }
  }

  /** Under any other key the field only adds the items it sends there. */
  lemma FieldElsewhere(h: Holdings, record: Record, places: Places, f: Field852, key: string)
    requires IsAlma(f) && f.eight != Some(key)
    ensures Lookup(ProcessField(h, record, places, f), key) ==
            Accumulate(Lookup(h, key), TemporaryPlacements(f, places, SentTo(record, f, key)))
  {
    var items := ItemsOf(record, f.eight.value);
    if items != [] {
      PlaceAllLookup(h, Placements(f, places, items), key);
      OwnOfField(record, places, f, key);
      var sent := TemporaryPlacements(f, places, SentTo(record, f, key));
      assert [] + sent == sent;
    } else {
      assert forall i :: i in SentTo(record, f, key) ==> i in items;
      FirstIn(SentTo(record, f, key));
    }
  }

  lemma FieldAtOtherId(h: Holdings, record: Record, places: Places, f: Field852, key: string)
    requires IsAlma(f) && f.eight != Some(key)
    requires forall i :: i in record.f876s && i.zero == f.eight && InTemporaryLocation(i, f) ==>
             CurrentCode(i) != Some(key)
    ensures Lookup(ProcessField(h, record, places, f), key) == Lookup(h, key)
  {
    FieldElsewhere(h, record, places, f, key);
    assert SentTo(record, f, key) == [] by {
      FilterNone(record.f876s,
        (i: Field876) => i.zero == f.eight && InTemporaryLocation(i, f) && GoesTo(f, i, key));
    }
  }

  lemma SentIsAway(record: Record, f: Field852, code: string)
    requires IsAlma(f) && f.eight != Some(code)
    ensures SentTo(record, f, code) == Away(record, f, code)
    ensures forall i :: i in Away(record, f, code) ==> CurrentCode(i) == Some(code) && code != RES_SHARE
  {
    FilterSame(record.f876s,
               (i: Field876) => i.zero == f.eight && InTemporaryLocation(i, f) && GoesTo(f, i, code),
               (i: Field876) => i.zero == f.eight && CurrentCode(i) == Some(code) &&
                 PermanentCode(f) != code && code != RES_SHARE);
  }

  lemma FieldAtCode(h: Holdings, record: Record, places: Places, f: Field852, code: string)
    requires IsAlma(f) && f.eight != Some(code)
    ensures var here := BuildItems(Away(record, f, code));
            Lookup(ProcessField(h, record, places, f), code) ==
            if here == [] then Lookup(h, code)
            else
              var base := if code in h.at then h.at[code]
                else NewHolding(TemporaryDescription(f, places, code));
              Some(base.(items := Some((if base.items.Some? then base.items.value else []) + here)))
  {
    FieldElsewhere(h, record, places, f, code);
    SentIsAway(record, f, code);
    var away := Away(record, f, code);
    var sent := TemporaryPlacements(f, places, away);
    assert PlacedItems(sent) == BuildItems(away);
    if away != [] {
      assert away[0] in away;
    }
  }

  lemma {:induction false} AtCode(record: Record, places: Places, fs: seq<Field852>, code: string)
    requires forall f :: f in fs ==> IsAlma(f) && f.eight != Some(code)
    ensures Lookup(ProcessFields(record, places, fs), code) == ExpectedAtCode(record, places, fs, code)
    decreases |fs|
  {
    if fs != [] {
      AtCode(record, places, fs[..|fs| - 1], code);
      FieldAtCode(ProcessFields(record, places, fs[..|fs| - 1]), record, places, fs[|fs| - 1], code);
      var here := BuildItems(Away(record, fs[|fs| - 1], code));
      assert [] + here == here;
    }
  }

  lemma NotTheirCode(record: Record, fs: seq<Field852>, n: nat, j: nat)
    requires n < |fs| && j < |fs| && NoCodeIsId(record, fs)
    ensures forall i :: i in record.f876s && i.zero == fs[n].eight && InTemporaryLocation(i, fs[n]) ==>
            CurrentCode(i) != fs[j].eight
  {
    assert fs[n] in fs && fs[j] in fs;
  }

  lemma AtIdStep(h: Holdings, record: Record, places: Places, fs: seq<Field852>, n: nat, j: nat)
    requires n < |fs| && j < |fs| && DistinctIds(fs) && NoCodeIsId(record, fs) && IsAlma(fs[n])
    requires IsAlma(fs[j])
    requires Lookup(h, fs[j].eight.value) == if j < n then ExpectedAtId(record, places, fs[j]) else None
    ensures Lookup(ProcessField(h, record, places, fs[n]), fs[j].eight.value) ==
            if j <= n then ExpectedAtId(record, places, fs[j]) else None
  {
    NotTheirCode(record, fs, n, j);
    if j == n {
      FieldAtOwnId(h, record, places, fs[n]);
    } else {
      FieldAtOtherId(h, record, places, fs[n], fs[j].eight.value);
    }
  }

  lemma {:induction false} AtId(record: Record, places: Places, fs: seq<Field852>, n: nat, j: nat)
    requires n <= |fs| && j < |fs| && DistinctIds(fs) && NoCodeIsId(record, fs)
    requires IsAlma(fs[j]) && forall f :: f in fs ==> IsAlma(f)
    ensures Lookup(ProcessFields(record, places, fs[..n]), fs[j].eight.value) ==
            if j < n then ExpectedAtId(record, places, fs[j]) else None
    decreases n
  {
    if n > 0 {
      AtId(record, places, fs, n - 1, j);
      ProcessFieldsStep(record, places, fs, n - 1);
      assert fs[n - 1] in fs;
      AtIdStep(ProcessFields(record, places, fs[..n - 1]), record, places, fs, n - 1, j);
    }
  }

  lemma AtIdInTheEnd(record: Record, places: Places, fs: seq<Field852>, j: nat)
    requires j < |fs| && DistinctIds(fs) && NoCodeIsId(record, fs)
    requires IsAlma(fs[j]) && forall f :: f in fs ==> IsAlma(f)
    ensures Lookup(ProcessFields(record, places, fs), fs[j].eight.value) ==
            ExpectedAtId(record, places, fs[j])
  {
    assert fs[..|fs|] == fs;
    AtId(record, places, fs, |fs|, j);
  }

  /** The assembled holdings, key by key, for every record whose Alma holding ids are distinct and are not
      location codes of its own temporarily located items. */
  lemma HoldingsKeyByKey(record: Record, places: Places, key: string)
    requires DistinctIds(AlmaFields(record)) && NoCodeIsId(record, AlmaFields(record))
    ensures forall j :: 0 <= j < |AlmaFields(record)| && AlmaFields(record)[j].eight == Some(key) ==>
              Lookup(ProcessHoldings(record, places), key) ==
                ExpectedAtId(record, places, AlmaFields(record)[j])
    ensures (forall f :: f in AlmaFields(record) ==> f.eight != Some(key)) ==>
              Lookup(ProcessHoldings(record, places), key) ==
                ExpectedAtCode(record, places, AlmaFields(record), key)
  {
    var fs := AlmaFields(record);
    forall j | 0 <= j < |fs| && fs[j].eight == Some(key)
      ensures Lookup(ProcessHoldings(record, places), key) == ExpectedAtId(record, places, fs[j])
    {
      assert fs[j] in fs;
      AtIdInTheEnd(record, places, fs, j);
    }
    if forall f :: f in fs ==> f.eight != Some(key) {
      AtCode(record, places, fs, key);
    }
  }

  // ----- every record, repeated ids included

  /** The placements of one field under a key. */
  function Sent(record: Record, places: Places, f: Field852, key: string): seq<Placement>
    requires IsAlma(f)
  {
    (if f.eight == Some(key) then PermanentPlacements(f, places, AtHome(record, f)) else [])
    + TemporaryPlacements(f, places, SentTo(record, f, key))
  }

  /** What a field makes of the holding under a key: a field without items puts its bare holding in the place
      of whatever is under its id; any other adds the items it sends there. Its textual holdings go to its own
      id. */
  function AfterField(
    record: Record, places: Places, f: Field852, key: string, before: Option<Holding>): Option<Holding>
    requires IsAlma(f)
  {
    var placed :=
      if f.eight != Some(key) || ItemsOf(record, key) != [] then
        Accumulate(before, Sent(record, places, f, key))
      else if InvalidLocation(places, Some(PermanentCode(f))) then before
      else Some(NewHolding(RemoveEmptyCallNumbers(Permanent(f, places))));
    if f.eight == Some(key) && placed.Some? then Some(AddTextual(placed.value, TextualOf(record, key)))
      else placed
  }

  lemma FieldAtAnyKey(h: Holdings, record: Record, places: Places, f: Field852, key: string)
    requires IsAlma(f)
    ensures Lookup(ProcessField(h, record, places, f), key) ==
            AfterField(record, places, f, key, Lookup(h, key))
  {
    if f.eight != Some(key) {
      FieldElsewhere(h, record, places, f, key);
      var sent := TemporaryPlacements(f, places, SentTo(record, f, key));
      assert [] + sent == sent;
    } else if ItemsOf(record, key) != [] {
      PlaceAllLookup(h, Placements(f, places, ItemsOf(record, key)), key);
      OwnOfField(record, places, f, key);
    }
  }

  function AfterFields(record: Record, places: Places, fs: seq<Field852>, key: string): Option<Holding>
    requires forall f :: f in fs ==> IsAlma(f)
    decreases |fs|
  {
    if fs == [] then None
    else AfterField(record, places, fs[|fs| - 1], key, AfterFields(record, places, fs[..|fs| - 1], key))
  }

  lemma {:induction false} FieldsAtAnyKey(record: Record, places: Places, fs: seq<Field852>, key: string)
    requires forall f :: f in fs ==> IsAlma(f)
    ensures Lookup(ProcessFields(record, places, fs), key) == AfterFields(record, places, fs, key)
    decreases |fs|
  {
    if fs != [] {
      FieldsAtAnyKey(record, places, fs[..|fs| - 1], key);
      FieldAtAnyKey(ProcessFields(record, places, fs[..|fs| - 1]), record, places, fs[|fs| - 1], key);
    }
  }

  /** The assembled holdings, key by key, for every record whatever: each key depends on what each field in
      turn does there, and on nothing that is under other keys. */
  lemma HoldingsEveryKey(record: Record, places: Places, key: string)
    ensures Lookup(ProcessHoldings(record, places), key) ==
            AfterFields(record, places, AlmaFields(record), key)
  {
    FieldsAtAnyKey(record, places, AlmaFields(record), key);
  }
}
