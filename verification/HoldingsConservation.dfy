/** When every item of an Alma holding ends up in exactly one holding exactly once; items without a current
    location code are left out always. */
module HoldingsConservation {
  import opened Wrappers
  import opened RubyValues
  import opened HoldingsSpec
  import opened HoldingsTheorems

  function ItemsAt(at: map<string, Holding>, key: string): multiset<Item> {
    if key in at && at[key].items.Some? then multiset(at[key].items.value) else multiset{}
  }

  function TotalOver(keys: seq<string>, at: map<string, Holding>): multiset<Item> {
    if keys == [] then multiset{} else TotalOver(keys[..|keys| - 1], at) + ItemsAt(at, keys[|keys| - 1])
  }

  /** All the items of all the holdings. */
  function Total(h: Holdings): multiset<Item> {
    TotalOver(h.keys, h.at)
  }

  lemma {:induction false} TotalElsewhere(
    keys: seq<string>, at: map<string, Holding>, key: string, value: Holding)
    requires key !in keys
    ensures TotalOver(keys, at[key := value]) == TotalOver(keys, at)
  {
    if keys != [] {
      assert keys[|keys| - 1] in keys;
      TotalElsewhere(keys[..|keys| - 1], at, key, value);
    }
  }

  lemma CancelSame(a: multiset<Item>, b: multiset<Item>, i: multiset<Item>, x: multiset<Item>)
    requires a + i == b + (i + x)
    ensures a == b + x
  {
    assert a == (a + i) - i;
    assert b + x == (b + (i + x)) - i;
  }

  lemma {:induction false} TotalUpdate(
    keys: seq<string>, at: map<string, Holding>, key: string, value: Holding)
    requires key in keys && forall i, j :: 0 <= i < j < |keys| ==> keys[i] != keys[j]
    ensures TotalOver(keys, at[key := value]) + ItemsAt(at, key) ==
            TotalOver(keys, at) + ItemsAt(at[key := value], key)
  {
    var n := |keys| - 1;
    if keys[n] == key {
      TotalElsewhere(keys[..n], at, key, value);
    } else {
      assert key in keys[..n];
      TotalUpdate(keys[..n], at, key, value);
      AddSame(ItemsAt(at, keys[n]), TotalOver(keys[..n], at[key := value]), ItemsAt(at, key),
              TotalOver(keys[..n], at), ItemsAt(at[key := value], key));
    }
  }

  lemma PutWellKeyed(h: Holdings, key: string, value: Holding)
    requires WellKeyed(h)
    ensures WellKeyed(Put(h, key, value))
  {
  }

  lemma TotalAppend(keys: seq<string>, at: map<string, Holding>, key: string)
    ensures TotalOver(keys + [key], at) == TotalOver(keys, at) + ItemsAt(at, key)
  {
    assert (keys + [key])[..|keys|] == keys;
  }

  lemma PutTotal(h: Holdings, key: string, value: Holding)
    requires WellKeyed(h)
    ensures WellKeyed(Put(h, key, value))
    ensures Total(Put(h, key, value)) + ItemsAt(h.at, key) == Total(h) + ItemsAt(h.at[key := value], key)
  {
    PutWellKeyed(h, key, value);
    if key in h.at {
      TotalUpdate(h.keys, h.at, key, value);
    } else {
      TotalElsewhere(h.keys, h.at, key, value);
      TotalAppend(h.keys, h.at[key := value], key);
    }
  }

  function PlacedBag(ps: seq<Placement>): multiset<Item> {
    if ps == [] then multiset{}
    else
      PlacedBag(ps[..|ps| - 1]) +
      (if ps[|ps| - 1].key.Some? then multiset{ps[|ps| - 1].item} else multiset{})
  }

  lemma PlaceTotal(h: Holdings, p: Placement)
    requires WellKeyed(h)
    ensures WellKeyed(Place(h, p))
    ensures Total(Place(h, p)) == Total(h) + (if p.key.Some? then multiset{p.item} else multiset{})
  {
    if p.key.Some? {
      var holding := if p.key.value in h.at then h.at[p.key.value]
        else NewHolding(RemoveEmptyCallNumbers(p.description));
      PutTotal(h, p.key.value, holding.(items := Extend(holding.items, p.item)));
      CancelSame(Total(Place(h, p)), Total(h), ItemsAt(h.at, p.key.value), multiset{p.item});
    }
  }

  lemma {:induction false} PlaceAllTotal(h: Holdings, ps: seq<Placement>)
    requires WellKeyed(h)
    ensures WellKeyed(PlaceAll(h, ps)) && Total(PlaceAll(h, ps)) == Total(h) + PlacedBag(ps)
    decreases |ps|
  {
    if ps != [] {
      PlaceAllTotal(h, ps[..|ps| - 1]);
      PlaceTotal(PlaceAll(h, ps[..|ps| - 1]), ps[|ps| - 1]);
    }
  }

  lemma {:induction false} PlacedBagAppend(a: seq<Placement>, b: seq<Placement>)
    ensures PlacedBag(a + b) == PlacedBag(a) + PlacedBag(b)
    decreases |b|
  {
    if b == [] {
      assert a + b == a;
    } else {
      assert (a + b)[..|a + b| - 1] == a + b[..|b| - 1];
      PlacedBagAppend(a, b[..|b| - 1]);
    }
  }

  lemma PlacedBagFirst(p: Placement, ps: seq<Placement>)
    ensures PlacedBag([p] + ps) == (if p.key.Some? then multiset{p.item} else multiset{}) + PlacedBag(ps)
  {
    PlacedBagAppend([p], ps);
    assert [p][..0] == [];
  }

  /** The items built from the fields that `keep` selects. */
  function Bag(fields: seq<Field876>, keep: Field876 -> bool): multiset<Item> {
    if fields == [] then multiset{}
    else (if keep(fields[0]) then multiset{BuildItem(fields[0])} else multiset{}) + Bag(fields[1..], keep)
  }

  lemma {:induction false} BagSplit(
    fields: seq<Field876>, p: Field876 -> bool, q: Field876 -> bool, both: Field876 -> bool)
    requires forall i :: i in fields ==> !(p(i) && q(i)) && (both(i) <==> p(i) || q(i))
    ensures Bag(fields, p) + Bag(fields, q) == Bag(fields, both)
  {
    if fields != [] {
      assert fields[0] in fields;
      BagSplit(fields[1..], p, q, both);
    }
  }

  lemma {:induction false} BagFilter(
    fields: seq<Field876>, p: Field876 -> bool, q: Field876 -> bool, both: Field876 -> bool)
    requires forall i :: both(i) <==> p(i) && q(i)
    ensures Bag(Filter(fields, p), q) == Bag(fields, both)
  {
    if fields != [] {
      BagFilter(fields[1..], p, q, both);
      var rest := Filter(fields[1..], p);
      assert ([fields[0]] + rest)[1..] == rest;
      assert [] + rest == rest;
    }
  }

  lemma {:induction false} PermanentBag(f: Field852, places: Places, items: seq<Field876>)
    requires IsAlma(f)
    ensures PlacedBag(PermanentPlacements(f, places, items)) == Bag(items, (i: Field876) => true)
  {
    if items != [] {
      PermanentBag(f, places, items[1..]);
      var ps := PermanentPlacements(f, places, items);
      assert ps == [ps[0]] + PermanentPlacements(f, places, items[1..]);
      PlacedBagFirst(ps[0], PermanentPlacements(f, places, items[1..]));
    }
  }

  lemma {:induction false} TemporaryBag(f: Field852, places: Places, items: seq<Field876>)
    requires IsAlma(f)
    ensures PlacedBag(TemporaryPlacements(f, places, items)) ==
            Bag(items, (i: Field876) => CurrentCode(i).Some?)
  {
    if items != [] {
      TemporaryBag(f, places, items[1..]);
      var ps := TemporaryPlacements(f, places, items);
      assert ps == [ps[0]] + TemporaryPlacements(f, places, items[1..]);
      PlacedBagFirst(ps[0], TemporaryPlacements(f, places, items[1..]));
    }
  }

  /** The items of one holding id that have a current location code. */
  predicate Located(i: Field876, id: Option<string>) {
    i.zero == id && CurrentCode(i).Some?
  }

  lemma PlacementsBag(record: Record, places: Places, f: Field852)
    requires IsAlma(f)
    ensures PlacedBag(Placements(f, places, ItemsOf(record, f.eight.value))) ==
            Bag(record.f876s, (i: Field876) => Located(i, f.eight))
  {
    var items := ItemsOf(record, f.eight.value);
    var home, away := PermanentItems(items, f), TemporaryItems(items, f);
    PlacedBagAppend(PermanentPlacements(f, places, home), TemporaryPlacements(f, places, away));
    PermanentBag(f, places, home);
    TemporaryBag(f, places, away);
    var located := (i: Field876) => CurrentCode(i).Some?;
    BagFilter(items, (i: Field876) => !InTemporaryLocation(i, f), (i: Field876) => true,
      (i: Field876) => !InTemporaryLocation(i, f));
    BagFilter(items, (i: Field876) => InTemporaryLocation(i, f), located,
      (i: Field876) => InTemporaryLocation(i, f) && CurrentCode(i).Some?);
    BagSplit(items, (i: Field876) => !InTemporaryLocation(i, f),
      (i: Field876) => InTemporaryLocation(i, f) && CurrentCode(i).Some?, located);
    BagFilter(record.f876s, (i: Field876) => i.zero == Some(f.eight.value), located,
      (i: Field876) => Located(i, f.eight));
  }

  lemma {:induction false} AddTextualItems(holding: Holding, ts: seq<TextualField>)
    ensures AddTextual(holding, ts).items == holding.items
    decreases |ts|
  {
    if ts != [] { AddTextualItems(holding, ts[..|ts| - 1]); }
  }

  lemma TextualTotal(h: Holdings, id: string, ts: seq<TextualField>)
    requires WellKeyed(h) && id in h.at
    ensures WellKeyed(Put(h, id, AddTextual(h.at[id], ts)))
    ensures Total(Put(h, id, AddTextual(h.at[id], ts))) == Total(h)
  {
    AddTextualItems(h.at[id], ts);
    PutTotal(h, id, AddTextual(h.at[id], ts));
    CancelSame(Total(Put(h, id, AddTextual(h.at[id], ts))), Total(h), ItemsAt(h.at, id), multiset{});
  }

  /** What a field without items loses when its bare holding takes the place of what is under its id. */
  function Overwrites(h: Holdings, record: Record, places: Places, f: Field852): multiset<Item>
    requires IsAlma(f)
  {
    if ItemsOf(record, f.eight.value) == [] && !InvalidLocation(places, Some(PermanentCode(f))) then
      ItemsAt(h.at, f.eight.value)
    else multiset{}
  }

  lemma PlacedTotal(h: Holdings, record: Record, places: Places, f: Field852)
    requires WellKeyed(h) && IsAlma(f)
    ensures WellKeyed(PlacedField(h, record, places, f))
    ensures Total(PlacedField(h, record, places, f)) + Overwrites(h, record, places, f) ==
            Total(h) + Bag(record.f876s, (i: Field876) => Located(i, f.eight))
  {
    var items := ItemsOf(record, f.eight.value);
    PlacementsBag(record, places, f);
    if items != [] {
      PlaceAllTotal(h, Placements(f, places, items));
    } else {
      PutTotal(h, f.eight.value, NewHolding(RemoveEmptyCallNumbers(Permanent(f, places))));
      assert Placements(f, places, []) == [];
    }
  }

  lemma FieldTotal(h: Holdings, record: Record, places: Places, f: Field852)
    requires WellKeyed(h) && IsAlma(f)
    ensures WellKeyed(ProcessField(h, record, places, f))
    ensures Total(ProcessField(h, record, places, f)) + Overwrites(h, record, places, f) ==
            Total(h) + Bag(record.f876s, (i: Field876) => Located(i, f.eight))
  {
    PlacedTotal(h, record, places, f);
    var id, placed := f.eight.value, PlacedField(h, record, places, f);
    if id in placed.at { TextualTotal(placed, id, TextualOf(record, id)); }
  }

  /** The items of the record that belong to one of the first `n` fields. */
  function Matched(fs: seq<Field852>, n: nat): Field876 -> bool
    requires n <= |fs|
  {
    (i: Field876) => exists j :: 0 <= j < n && Located(i, fs[j].eight)
  }

  function LocatedAt(fs: seq<Field852>, n: nat): Field876 -> bool
    requires n < |fs|
  {
    (i: Field876) => Located(i, fs[n].eight)
  }

  /** The items of the first `n` fields, field by field. */
  function SumLocated(items: seq<Field876>, fs: seq<Field852>, n: nat): multiset<Item>
    requires n <= |fs|
  {
    if n == 0 then multiset{} else SumLocated(items, fs, n - 1) + Bag(items, LocatedAt(fs, n - 1))
  }

  lemma NoItemsAfter(h: Holdings, record: Record, places: Places, f: Field852)
    requires IsAlma(f) && ItemsOf(record, f.eight.value) == [] && ItemsAt(h.at, f.eight.value) == multiset{}
    ensures ItemsAt(ProcessField(h, record, places, f).at, f.eight.value) == multiset{}
  {
    var placed := PlacedField(h, record, places, f);
    if f.eight.value in placed.at {
      AddTextualItems(placed.at[f.eight.value], TextualOf(record, f.eight.value));
    }
  }

  /** An id without items of its own never holds any. */
  lemma {:induction false} NoItemsAt(record: Record, places: Places, fs: seq<Field852>, n: nat, j: nat)
    requires n <= |fs| && j < |fs| && NoCodeIsId(record, fs) && IsAlma(fs[j])
    requires forall f :: f in fs ==> IsAlma(f)
    requires ItemsOf(record, fs[j].eight.value) == []
    ensures ItemsAt(ProcessFields(record, places, fs[..n]).at, fs[j].eight.value) == multiset{}
    decreases n
  {
    if n > 0 {
      var h := ProcessFields(record, places, fs[..n - 1]);
      NoItemsAt(record, places, fs, n - 1, j);
      ProcessFieldsStep(record, places, fs, n - 1);
      assert fs[n - 1] in fs;
      if fs[n - 1].eight == fs[j].eight {
        NoItemsAfter(h, record, places, fs[n - 1]);
      } else {
        NotTheirCode(record, fs, n - 1, j);
        FieldAtOtherId(h, record, places, fs[n - 1], fs[j].eight.value);
        SameLookupSameItems(h, ProcessField(h, record, places, fs[n - 1]), fs[j].eight.value);
      }
    }
  }

  lemma SameLookupSameItems(h: Holdings, g: Holdings, key: string)
    requires Lookup(h, key) == Lookup(g, key)
    ensures ItemsAt(h.at, key) == ItemsAt(g.at, key)
  {
  }

  /** What is lost in this way, field by field. */
  function Overwritten(record: Record, places: Places, fs: seq<Field852>): multiset<Item>
    requires forall f :: f in fs ==> IsAlma(f)
    decreases |fs|
  {
    if fs == [] then multiset{}
    else
      var init := fs[..|fs| - 1];
      Overwritten(record, places, init)
      + Overwrites(ProcessFields(record, places, init), record, places, fs[|fs| - 1])
  }

  lemma {:induction false} NothingOverwritten(record: Record, places: Places, fs: seq<Field852>, n: nat)
    requires n <= |fs| && NoCodeIsId(record, fs) && forall f :: f in fs ==> IsAlma(f)
    ensures Overwritten(record, places, fs[..n]) == multiset{}
  {
    if n > 0 {
      NothingOverwritten(record, places, fs, n - 1);
      assert fs[..n][..n - 1] == fs[..n - 1] && fs[n - 1] in fs;
      if ItemsOf(record, fs[n - 1].eight.value) == [] { NoItemsAt(record, places, fs, n - 1, n - 1); }
    }
  }

  /** Each of the first `n` fields has contributed its items once. */
  ghost predicate HoldsSum(record: Record, places: Places, fs: seq<Field852>, n: nat)
    requires n <= |fs| && forall f :: f in fs ==> IsAlma(f)
  {
    && WellKeyed(ProcessFields(record, places, fs[..n]))
    && Total(ProcessFields(record, places, fs[..n])) + Overwritten(record, places, fs[..n]) ==
       SumLocated(record.f876s, fs, n)
  }

  lemma MoveLoss(total: multiset<Item>, lost: multiset<Item>, sum: multiset<Item>,
                 after: multiset<Item>, now: multiset<Item>, here: multiset<Item>)
    requires total + lost == sum && after + now == total + here
    ensures after + (lost + now) == sum + here
  {
    assert after + (lost + now) == (after + now) + lost == (total + here) + lost == (total + lost) + here;
  }

  lemma HoldsOneMore(record: Record, places: Places, fs: seq<Field852>, n: nat)
    requires n < |fs| && IsAlma(fs[n]) && forall f :: f in fs ==> IsAlma(f)
    requires HoldsSum(record, places, fs, n)
    ensures HoldsSum(record, places, fs, n + 1)
  {
    var h := ProcessFields(record, places, fs[..n]);
    ProcessFieldsStep(record, places, fs, n);
    FieldTotal(h, record, places, fs[n]);
    assert fs[..n + 1][..n] == fs[..n];
    MoveLoss(Total(h), Overwritten(record, places, fs[..n]), SumLocated(record.f876s, fs, n),
             Total(ProcessField(h, record, places, fs[n])), Overwrites(h, record, places, fs[n]),
             Bag(record.f876s, (i: Field876) => Located(i, fs[n].eight)));
    BagSame(record.f876s, LocatedAt(fs, n), (i: Field876) => Located(i, fs[n].eight));
  }

  lemma HoldsNothing(record: Record, places: Places, fs: seq<Field852>)
    requires forall f :: f in fs ==> IsAlma(f)
    ensures HoldsSum(record, places, fs, 0)
  {
    assert fs[..0] == [];
  }

  lemma FieldsTotal(record: Record, places: Places, fs: seq<Field852>)
    requires forall f :: f in fs ==> IsAlma(f)
    ensures HoldsSum(record, places, fs, |fs|)
  {
    var n := 0;
    HoldsNothing(record, places, fs);
    while n < |fs|
      invariant n <= |fs| && HoldsSum(record, places, fs, n)
    {
      assert fs[n] in fs;
      HoldsOneMore(record, places, fs, n);
      n := n + 1;
    }
  }

  predicate Repeats(fs: seq<Field852>, n: nat)
    requires n < |fs|
  {
    exists k :: 0 <= k < n && fs[k].eight == fs[n].eight
  }

  /** What the fields with a repeated id hold once more. */
  function Surplus(items: seq<Field876>, fs: seq<Field852>, n: nat): multiset<Item>
    requires n <= |fs|
  {
    if n == 0 then multiset{}
    else
      Surplus(items, fs, n - 1) +
      if Repeats(fs, n - 1) then Bag(items, LocatedAt(fs, n - 1)) else multiset{}
  }

  lemma {:induction false} BagSame(items: seq<Field876>, p: Field876 -> bool, q: Field876 -> bool)
    requires forall i :: p(i) <==> q(i)
    ensures Bag(items, p) == Bag(items, q)
  {
    if items != [] { BagSame(items[1..], p, q); }
  }

  lemma OneMoreMatched(items: seq<Field876>, fs: seq<Field852>, n: nat)
    requires n < |fs|
    ensures Bag(items, Matched(fs, n + 1)) ==
            if Repeats(fs, n) then Bag(items, Matched(fs, n))
            else Bag(items, Matched(fs, n)) + Bag(items, LocatedAt(fs, n))
  {
    if Repeats(fs, n) {
      BagSame(items, Matched(fs, n + 1), Matched(fs, n));
    } else {
      BagSplit(items, Matched(fs, n), LocatedAt(fs, n), Matched(fs, n + 1));
    }
  }

  lemma AddToOne(
    sum: multiset<Item>, once: multiset<Item>, surplus: multiset<Item>, here: multiset<Item>, again: bool)
    requires sum == once + surplus
    ensures sum + here ==
            (if again then once else once + here) + (surplus + if again then here else multiset{})
  {
  }

  ghost predicate SumSplits(items: seq<Field876>, fs: seq<Field852>, n: nat) {
    n <= |fs| && SumLocated(items, fs, n) == Bag(items, Matched(fs, n)) + Surplus(items, fs, n)
  }

  lemma SumNone(items: seq<Field876>, fs: seq<Field852>)
    ensures SumSplits(items, fs, 0)
  {
    BagNone(items, Matched(fs, 0));
  }

  lemma SumOneMore(items: seq<Field876>, fs: seq<Field852>, n: nat)
    requires n < |fs| && SumSplits(items, fs, n)
    ensures SumSplits(items, fs, n + 1)
  {
    OneMoreMatched(items, fs, n);
    AddToOne(SumLocated(items, fs, n), Bag(items, Matched(fs, n)), Surplus(items, fs, n),
             Bag(items, LocatedAt(fs, n)), Repeats(fs, n));
  }

  lemma {:induction false} SumIsMatchedAndSurplus(items: seq<Field876>, fs: seq<Field852>)
    ensures SumSplits(items, fs, |fs|)
  {
    SumNone(items, fs);
    var n := 0;
    while n < |fs|
      invariant SumSplits(items, fs, n)
    {
      SumOneMore(items, fs, n);
      n := n + 1;
    }
  }

  lemma {:induction false} BagNone(fields: seq<Field876>, p: Field876 -> bool)
    requires forall i :: !p(i)
    ensures Bag(fields, p) == multiset{}
  {
    if fields != [] { BagNone(fields[1..], p); }
  }

  lemma {:induction false} BagEmpty(fields: seq<Field876>, p: Field876 -> bool)
    ensures Bag(fields, p) == multiset{} <==> forall i :: i in fields ==> !p(i)
  {
    if fields != [] {
      BagEmpty(fields[1..], p);
      assert forall i :: i in fields <==> i == fields[0] || i in fields[1..];
      if p(fields[0]) { assert BuildItem(fields[0]) in Bag(fields, p); }
    }
  }

  /** Some item that has a current location belongs to a field whose id an earlier field has already. */
  predicate LocatedTwice(items: seq<Field876>, fs: seq<Field852>, n: nat)
    requires n <= |fs|
  {
    exists k, i :: 0 <= k < n && Repeats(fs, k) && i in items && Located(i, fs[k].eight)
  }

  lemma {:induction false} SurplusEmpty(items: seq<Field876>, fs: seq<Field852>, n: nat)
    requires n <= |fs|
    ensures Surplus(items, fs, n) == multiset{} <==> !LocatedTwice(items, fs, n)
  {
    if n > 0 {
      SurplusEmpty(items, fs, n - 1);
      BagEmpty(items, LocatedAt(fs, n - 1));
      assert LocatedTwice(items, fs, n) <==>
             || LocatedTwice(items, fs, n - 1)
             || (Repeats(fs, n - 1) && exists i :: i in items && LocatedAt(fs, n - 1)(i));
    }
  }

  /** What all the holdings hold together, and what bare holdings have overwritten, are the items of the
      record whose $0 is the id of an Alma 852 and that have a current location code, and the surplus of
      repeated ids. No key is listed twice. */
  lemma HoldingsTotal(record: Record, places: Places)
    ensures WellKeyed(ProcessHoldings(record, places))
    ensures var fs := AlmaFields(record);
            Total(ProcessHoldings(record, places)) + Overwritten(record, places, fs) ==
              Bag(record.f876s, Matched(fs, |fs|)) + Surplus(record.f876s, fs, |fs|)
  {
    var fs := AlmaFields(record);
    assert fs[..|fs|] == fs;
    FieldsTotal(record, places, fs);
    SumIsMatchedAndSurplus(record.f876s, fs);
  }

  lemma CancelBoth(all: multiset<Item>, lost: multiset<Item>, once: multiset<Item>, surplus: multiset<Item>)
    requires all + lost == once + surplus
    ensures all == once <==> surplus == lost
  {
    assert (all + lost) - lost == all && (once + surplus) - once == surplus;
    if surplus == lost { assert (once + surplus) - surplus == once; }
    if all == once { assert (all + lost) - all == lost; }
  }

  /** Every such item is held exactly once, all holdings together, if and only if repeated ids add exactly
      what bare holdings overwrite. */
  lemma ConservedIffSurplusIsOverwritten(record: Record, places: Places)
    ensures var fs := AlmaFields(record);
            Total(ProcessHoldings(record, places)) == Bag(record.f876s, Matched(fs, |fs|))
            <==> Surplus(record.f876s, fs, |fs|) == Overwritten(record, places, fs)
  {
    var fs := AlmaFields(record);
    HoldingsTotal(record, places);
    CancelBoth(Total(ProcessHoldings(record, places)), Overwritten(record, places, fs),
               Bag(record.f876s, Matched(fs, |fs|)), Surplus(record.f876s, fs, |fs|));
  }

  /** Where no holding id is a location code, if and only if no id with such an item is repeated. */
  lemma ConservedIffNoneLocatedTwice(record: Record, places: Places)
    requires NoCodeIsId(record, AlmaFields(record))
    ensures var fs := AlmaFields(record);
            Total(ProcessHoldings(record, places)) == Bag(record.f876s, Matched(fs, |fs|))
            <==> !LocatedTwice(record.f876s, fs, |fs|)
  {
    var fs := AlmaFields(record);
    assert fs[..|fs|] == fs;
    NothingOverwritten(record, places, fs, |fs|);
    ConservedIffSurplusIsOverwritten(record, places);
    SurplusEmpty(record.f876s, fs, |fs|);
  }

  /** In particular for distinct ids. */
  lemma ItemsConserved(record: Record, places: Places)
    requires DistinctIds(AlmaFields(record)) && NoCodeIsId(record, AlmaFields(record))
    ensures WellKeyed(ProcessHoldings(record, places))
    ensures Total(ProcessHoldings(record, places)) ==
            Bag(record.f876s, Matched(AlmaFields(record), |AlmaFields(record)|))
  {
    HoldingsTotal(record, places);
    ConservedIffNoneLocatedTwice(record, places);
  }

  lemma MoreThanOnce(all: multiset<Item>, once: multiset<Item>, surplus: multiset<Item>)
    requires all + multiset{} == once + surplus && surplus != multiset{}
    ensures all > once
  {
    assert all == once + surplus;
    var x :| x in surplus;
    assert all[x] == once[x] + surplus[x];
  }

  /** An id that two fields share, for every item that has it. */
  lemma RepeatedIdDoublesItems(record: Record, places: Places, j: nat, k: nat, i: Field876)
    requires NoCodeIsId(record, AlmaFields(record)) && j < k < |AlmaFields(record)|
    requires AlmaFields(record)[j].eight == AlmaFields(record)[k].eight
    requires i in record.f876s && Located(i, AlmaFields(record)[k].eight)
    ensures Total(ProcessHoldings(record, places)) >
            Bag(record.f876s, Matched(AlmaFields(record), |AlmaFields(record)|))
  {
    var fs := AlmaFields(record);
    assert Repeats(fs, k);
    assert LocatedTwice(record.f876s, fs, |fs|);
    assert fs[..|fs|] == fs;
    NothingOverwritten(record, places, fs, |fs|);
    HoldingsTotal(record, places);
    SurplusEmpty(record.f876s, fs, |fs|);
    MoreThanOnce(Total(ProcessHoldings(record, places)), Bag(record.f876s, Matched(fs, |fs|)),
                 Surplus(record.f876s, fs, |fs|));
  }

  lemma AwayItemThere(record: Record, places: Places, f: Field852, code: string, i: Field876)
    requires IsAlma(f) && f.eight != Some(code) && PermanentCode(f) != code && code != RES_SHARE
    requires record.f876s == [i] && i.zero == f.eight && CurrentCode(i) == Some(code)
    ensures ItemsAt(ProcessFields(record, places, [f]).at, code) == multiset{BuildItem(i)}
  {
    assert [f][..0] == [] && [i][1..] == [];
    FieldAtCode(NewHash(), record, places, f, code);
    assert Away(record, f, code) == [i];
    assert BuildItems([i]) == [BuildItem(i)] && [] + [BuildItem(i)] == [BuildItem(i)];
  }

  /** A later bare 852 whose id is the location code of an item loses that item. */
  lemma CodeAsIdLosesItem(record: Record, places: Places, f: Field852, bare: Field852, i: Field876)
    requires IsAlma(f) && IsAlma(bare) && f.eight != bare.eight
    requires !InvalidLocation(places, Some(PermanentCode(bare)))
    requires record.f852s == [f, bare] && record.f876s == [i]
    requires i.zero == f.eight && CurrentCode(i) == bare.eight
    requires Some(PermanentCode(f)) != bare.eight && bare.eight != Some(RES_SHARE)
    ensures AlmaFields(record) == [f, bare]
    ensures Overwritten(record, places, [f, bare]) == multiset{BuildItem(i)}
  {
    FilterAll([f, bare], IsAlma);
    AwayItemThere(record, places, f, bare.eight.value, i);
    OverwrittenByTwo(record, places, f, bare);
    FirstIn(ItemsOf(record, bare.eight.value));
    assert i in ItemsOf(record, f.eight.value);
  }

  lemma OverwrittenByTwo(record: Record, places: Places, f: Field852, g: Field852)
    requires IsAlma(f) && IsAlma(g)
    ensures Overwritten(record, places, [f, g]) ==
            Overwrites(NewHash(), record, places, f)
            + Overwrites(ProcessFields(record, places, [f]), record, places, g)
  {
    assert [f, g][..1] == [f] && [f][..0] == [];
    assert Overwritten(record, places, [f]) == multiset{} + Overwrites(NewHash(), record, places, f);
  }

  /** Such a record. */
  lemma CodeAsIdExample()
    ensures var f := Field852(Some("220106421"), Some("firestone"), Some("stacks"), [], None, None, None);
            var bare := f.(eight := Some("22$06421"));
            var i := Field876(f.eight, None, Some("23"), None, None, None, None, Some("22"), Some("06421"));
            && IsAlma(f) && IsAlma(bare) && f.eight != bare.eight && CurrentCode(i) == bare.eight
            && Some(PermanentCode(f)) != bare.eight && bare.eight != Some(RES_SHARE)
  {
    assert "220106421"[|"220106421"| - 5..] == "06421" && "22$06421"[|"22$06421"| - 5..] == "06421";
    assert "22" + "$" + "06421" == "22$06421";
    assert "firestone" + "$" + "stacks" == "firestone$stacks";
    assert "22$06421"[0] != "firestone$stacks"[0] && "22$06421"[0] != RES_SHARE[0];
    assert "22$06421"[2] != "220106421"[2];
  }

  /** Such a record: one 852 twice, and an item at home in it. */
  lemma RepeatedIdExample()
    ensures var f := Field852(Some("220106421"), Some("firestone"), Some("stacks"), [], None, None, None);
            var i := Field876(f.eight, None, Some("23"), None, None, None, None, f.b, f.c);
            var record := Record([f, f], [i], []);
            && NoCodeIsId(record, AlmaFields(record))
            && LocatedTwice(record.f876s, AlmaFields(record), |AlmaFields(record)|)
  {
    assert "220106421"[|"220106421"| - 5..] == "06421";
    var f := Field852(Some("220106421"), Some("firestone"), Some("stacks"), [], None, None, None);
    var i := Field876(f.eight, None, Some("23"), None, None, None, None, f.b, f.c);
    FilterAll([f, f], IsAlma);
    assert Repeats([f, f], 1) && Located(i, [f, f][1].eight) && i in [i];
    assert !InTemporaryLocation(i, f);
  }
}
