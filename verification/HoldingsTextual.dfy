/** Which textual holdings (866, 867 and 868) a holding gets, said of the fields of the record. */
module HoldingsTextual {
  import opened Wrappers
  import opened RubyValues
  import opened HoldingsSpec
  import opened HoldingsTheorems

  /** Under a key the record matters only through its 852s, its 876s and the textual fields with that $8. */
  lemma {:induction false} SameTextualFields(
    record: Record, other: Record, places: Places, fs: seq<Field852>, key: string)
    requires forall f :: f in fs ==> IsAlma(f)
    requires other.f876s == record.f876s && TextualOf(other, key) == TextualOf(record, key)
    ensures AfterFields(other, places, fs, key) == AfterFields(record, places, fs, key)
    decreases |fs|
  {
    if fs != [] {
      SameTextualFields(record, other, places, fs[..|fs| - 1], key);
    }
  }

  /** The textual fields whose $8 is the id, in their order. */
  function OwnTextual(ts: seq<TextualField>, id: string): seq<TextualField> {
    if ts == [] then [] else (if ts[0].eight == Some(id) then [ts[0]] else []) + OwnTextual(ts[1..], id)
  }

  lemma {:induction false} OwnIsFilter(ts: seq<TextualField>, id: string)
    ensures Filter(ts, (t: TextualField) => t.eight == Some(id)) == OwnTextual(ts, id)
  {
    if ts != [] { OwnIsFilter(ts[1..], id); }
  }

  lemma TextualIsOwn(record: Record, id: string)
    ensures TextualOf(record, id) == OwnTextual(record.textual, id)
  {
    OwnIsFilter(record.textual, id);
  }

  lemma {:induction false} OwnAppend(a: seq<TextualField>, b: seq<TextualField>, id: string)
    ensures OwnTextual(a + b, id) == OwnTextual(a, id) + OwnTextual(b, id)
  {
    if a == [] {
      assert a + b == b;
    } else {
      assert (a + b)[0] == a[0] && (a + b)[1..] == a[1..] + b;
      OwnAppend(a[1..], b, id);
      Reassociate(if a[0].eight == Some(id) then [a[0]] else [], OwnTextual(a[1..], id), OwnTextual(b, id));
    }
  }

  lemma OwnWithOneMore(before: seq<TextualField>, t: TextualField, after: seq<TextualField>, id: string)
    ensures OwnTextual(before + after, id) == OwnTextual(before, id) + OwnTextual(after, id)
    ensures OwnTextual(before + [t] + after, id) ==
            OwnTextual(before, id) + (if t.eight == Some(id) then [t] else []) + OwnTextual(after, id)
  {
    OwnAppend(before, after, id);
    OwnAppend(before + [t], after, id);
    OwnAppend(before, [t], id);
    assert OwnTextual([t], id) == if t.eight == Some(id) then [t] else [];
  }

  /** A textual field with another $8, or none, wherever it stands, changes nothing under the key. */
  lemma OtherTextualChangesNothing(
    record: Record, places: Places,
    before: seq<TextualField>, t: TextualField, after: seq<TextualField>, key: string)
    requires record.textual == before + after && t.eight != Some(key)
    ensures Lookup(ProcessHoldings(record.(textual := before + [t] + after), places), key) ==
            Lookup(ProcessHoldings(record, places), key)
  {
    var more := record.(textual := before + [t] + after);
    OwnWithOneMore(before, t, after, key);
    assert OwnTextual(before, key) + [] == OwnTextual(before, key);
    TextualIsOwn(record, key);
    TextualIsOwn(more, key);
    SameTextualFields(record, more, places, AlmaFields(record), key);
    HoldingsEveryKey(record, places, key);
    HoldingsEveryKey(more, places, key);
  }

  /** What a field puts into the list of a tag: nothing under another tag, otherwise its $a and $z with a
      blank. */
  ghost predicate SlotSays(slot: Option<string>, t: TextualField, tag: TextualTag) {
    && (t.tag != tag ==> slot == None)
    && (t.tag == tag ==>
          && (t.a.Some? && t.z.Some? ==> slot == Some(t.a.value + " " + t.z.value))
          && (t.a.Some? && t.z.None? ==> slot == t.a)
          && (t.a.None? ==> slot == t.z))
  }

  /** The list `longer` is `shorter` with one more slot at `k`; a missing list counts as an empty one. */
  ghost predicate OneSlotMore(
    shorter: Option<Slots>, longer: Option<Slots>, k: nat, t: TextualField, tag: TextualTag) {
    var slots := if shorter.Some? then shorter.value else [];
    && longer.Some? && |longer.value| == |slots| + 1 && k < |longer.value|
    && longer.value[..k] == slots[..k] && longer.value[k + 1..] == slots[k..]
    && SlotSays(longer.value[k], t, tag)
  }

  lemma SlotAdded(before: seq<TextualField>, t: TextualField, after: seq<TextualField>, tag: TextualTag)
    ensures OneSlotMore(
              TextualSlots(before + after, tag), TextualSlots(before + [t] + after, tag), |before|, t, tag)
  {
    var shorter, longer := TextualSlots(before + after, tag), TextualSlots(before + [t] + after, tag);
    var slots := if shorter.Some? then shorter.value else [];
    assert (before + [t] + after)[|before|] == t;
    assert longer.value[..|before|] == slots[..|before|];
    assert longer.value[|before| + 1..] == slots[|before|..];
  }

  /** Everything but the textual lists. */
  function Rest(holding: Holding): (Description, Option<seq<Item>>) {
    (holding.description, holding.items)
  }

  ghost predicate OneMoreEverywhere(
    without: Option<Holding>, more: Option<Holding>, k: nat, t: TextualField) {
    && (without.Some? <==> more.Some?)
    && (without.Some? ==>
          && Rest(more.value) == Rest(without.value)
          && OneSlotMore(without.value.locationHas, more.value.locationHas, k, t, Tag866)
          && OneSlotMore(without.value.supplements, more.value.supplements, k, t, Tag867)
          && OneSlotMore(without.value.indexes, more.value.indexes, k, t, Tag868))
  }

  lemma WithOneMore(
    d: Description, items: Option<seq<Item>>,
    before: seq<TextualField>, t: TextualField, after: seq<TextualField>)
    ensures OneMoreEverywhere(
              Some(WithTextual(d, items, before + after)), Some(WithTextual(d, items, before + [t] + after)),
              |before|, t)
  {
    SlotAdded(before, t, after, Tag866);
    SlotAdded(before, t, after, Tag867);
    SlotAdded(before, t, after, Tag868);
  }

  lemma ExpectedIsWithTextual(record: Record, places: Places, f: Field852)
    requires IsAlma(f)
    ensures ExpectedAtId(record, places, f).Some? ==>
            var expected := ExpectedAtId(record, places, f).value;
            expected == WithTextual(expected.description, expected.items, TextualOf(record, f.eight.value))
  {
  }

  lemma ExpectedSameRest(record: Record, other: Record, places: Places, f: Field852)
    requires IsAlma(f) && other.f876s == record.f876s
    ensures var a, b := ExpectedAtId(record, places, f), ExpectedAtId(other, places, f);
            (a.Some? <==> b.Some?) && (a.Some? ==> Rest(a.value) == Rest(b.value))
  {
  }

  lemma ExpectedWithOneMore(
    record: Record, places: Places, f: Field852,
    before: seq<TextualField>, t: TextualField, after: seq<TextualField>)
    requires IsAlma(f) && record.textual == before + after && t.eight == f.eight
    ensures OneMoreEverywhere(
              ExpectedAtId(record, places, f),
              ExpectedAtId(record.(textual := before + [t] + after), places, f),
              |OwnTextual(before, f.eight.value)|, t)
  {
    var id, more := f.eight.value, record.(textual := before + [t] + after);
    OwnWithOneMore(before, t, after, id);
    TextualIsOwn(record, id);
    TextualIsOwn(more, id);
    ExpectedIsWithTextual(record, places, f);
    ExpectedIsWithTextual(more, places, f);
    ExpectedSameRest(record, more, places, f);
    var without := ExpectedAtId(record, places, f);
    if without.Some? {
      WithOneMore(
        without.value.description, without.value.items, OwnTextual(before, id), t, OwnTextual(after, id));
    }
  }

  /** A textual field with the $8 of a holding adds one slot to each of its lists, behind those of the fields
      with the same $8 that stand before it, and changes nothing else. */
  lemma OwnTextualAddsSlot(
    record: Record, places: Places,
    before: seq<TextualField>, t: TextualField, after: seq<TextualField>, j: nat)
    requires DistinctIds(AlmaFields(record)) && NoCodeIsId(record, AlmaFields(record))
    requires j < |AlmaFields(record)| && t.eight == AlmaFields(record)[j].eight
    requires record.textual == before + after
    ensures t.eight.Some?
    ensures OneMoreEverywhere(
              Lookup(ProcessHoldings(record, places), t.eight.value),
              Lookup(ProcessHoldings(record.(textual := before + [t] + after), places), t.eight.value),
              |OwnTextual(before, t.eight.value)|, t)
  {
    var more := record.(textual := before + [t] + after);
    var f := AlmaFields(record)[j];
    assert f in AlmaFields(record);
    assert NoCodeIsId(more, AlmaFields(more));
    HoldingsKeyByKey(record, places, t.eight.value);
    HoldingsKeyByKey(more, places, t.eight.value);
    ExpectedWithOneMore(record, places, f, before, t, after);
  }
}
