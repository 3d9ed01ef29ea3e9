/** A record with one holding and one of everything that can go into it, or not, subfield by subfield. */
module HoldingsExample {
  import opened Wrappers
  import opened RubyValues
  import opened HoldingsSpec
  import opened HoldingsTheorems

  /** An 852 with every subfield; an item at home, one borrowed, one moved and one of another holding; a field
      of each textual tag, and one of another holding. */
  datatype Sample = Sample(
    f: Field852, borrowed: Field876, moved: Field876, home: Field876, elsewhere: Field876,
    statement: TextualField, foreign: TextualField, supplement: TextualField, index: TextualField)

  function RecordOf(s: Sample): Record {
    Record([s.f], [s.borrowed, s.moved, s.home, s.elsewhere], [s.statement, s.foreign, s.supplement, s.index])
  }

  predicate SampleFields(s: Sample) {
    && IsAlma(s.f) && '$' !in s.f.eight.value
    && s.f.b.Some? && s.f.c.Some? && s.f.c.value != ""
    && s.home.zero == s.borrowed.zero == s.moved.zero == s.f.eight && s.elsewhere.zero != s.f.eight
    && s.home.y == s.f.b && s.home.z == s.f.c
    && s.borrowed.y == Some("RES_SHARE") && s.borrowed.z == Some("IN_RS_REQ")
    && s.moved.y.Some? && s.moved.z.Some?
    && s.statement.eight == s.supplement.eight == s.index.eight == s.f.eight && s.foreign.eight != s.f.eight
    && s.statement.tag == Tag866 && s.supplement.tag == Tag867 && s.index.tag == Tag868
  }

  function HomeCode(s: Sample): string
    requires SampleFields(s)
  {
    s.f.b.value + "$" + s.f.c.value
  }

  function MovedCode(s: Sample): string
    requires SampleFields(s)
  {
    s.moved.y.value + "$" + s.moved.z.value
  }

  predicate ThreeLocations(s: Sample)
    requires SampleFields(s)
  {
    && HomeCode(s) != "RES_SHARE$IN_RS_REQ" && MovedCode(s) != "RES_SHARE$IN_RS_REQ"
    && MovedCode(s) != HomeCode(s)
  }

  predicate CallNumberFields(f: Field852) {
    && |f.callNumberParts| == 3 && f.callNumberParts[1] == ""
    && f.callNumberParts[0] != "" && f.callNumberParts[2] != ""
    && f.callNumberParts[0][0] !in {' ', '\t', '\n', '\r'}
  }

  lemma OnlyField(record: Record, places: Places, f: Field852)
    requires AlmaFields(record) == [f] && IsAlma(f) && '$' !in f.eight.value
    ensures Lookup(ProcessHoldings(record, places), f.eight.value) == ExpectedAtId(record, places, f)
    ensures forall code :: f.eight != Some(code) ==>
              Lookup(ProcessHoldings(record, places), code) == ExpectedAtCode(record, places, [f], code)
  {
    PlainIdsAreNoCodes(record, [f]);
    HoldingsKeyByKey(record, places, f.eight.value);
    assert AlmaFields(record)[0].eight == Some(f.eight.value);
    forall code | f.eight != Some(code)
      ensures Lookup(ProcessHoldings(record, places), code) == ExpectedAtCode(record, places, [f], code)
    {
      HoldingsKeyByKey(record, places, code);
    }
  }

  lemma Keep<T(!new)>(before: seq<T>, x: T, after: seq<T>, keep: T -> bool)
    requires (forall y :: y in before ==> !keep(y)) && keep(x) && (forall y :: y in after ==> !keep(y))
    ensures Filter(before + ([x] + after), keep) == [x]
  {
    FilterAppend(before, [x] + after, keep);
    FilterAppend([x], after, keep);
    FilterNone(before, keep);
    FilterNone(after, keep);
    FilterAll([x], keep);
  }

  lemma Drop<T(!new)>(before: seq<T>, x: T, after: seq<T>, keep: T -> bool)
    requires (forall y :: y in before ==> keep(y)) && !keep(x) && (forall y :: y in after ==> keep(y))
    ensures Filter(before + ([x] + after), keep) == before + after
  {
    FilterAppend(before, [x] + after, keep);
    FilterAppend([x], after, keep);
    FilterAll(before, keep);
    FilterAll(after, keep);
    FilterNone([x], keep);
    assert [] + after == after;
  }

  lemma HomeItem(s: Sample)
    requires SampleFields(s) && ThreeLocations(s)
    ensures AtHome(RecordOf(s), s.f) == [s.home]
  {
    assert RecordOf(s).f876s == [s.borrowed, s.moved] + ([s.home] + [s.elsewhere]);
    Keep([s.borrowed, s.moved], s.home, [s.elsewhere], (i: Field876) =>
      i.zero == s.f.eight && CurrentCode(i) == Some(PermanentCode(s.f)));
  }

  lemma BorrowedCode(i: Field876)
    requires i.y == Some("RES_SHARE") && i.z == Some("IN_RS_REQ")
    ensures CurrentCode(i) == Some("RES_SHARE$IN_RS_REQ") == Some(RES_SHARE)
  {
    assert "RES_SHARE" + "$" + "IN_RS_REQ" == "RES_SHARE$IN_RS_REQ";
  }

  lemma BorrowedItem(s: Sample)
    requires SampleFields(s) && ThreeLocations(s)
    ensures Shared(RecordOf(s), s.f) == [s.borrowed]
  {
    BorrowedCode(s.borrowed);
    assert RecordOf(s).f876s == [] + ([s.borrowed] + [s.moved, s.home, s.elsewhere]);
    Keep([], s.borrowed, [s.moved, s.home, s.elsewhere], (i: Field876) =>
      i.zero == s.f.eight && CurrentCode(i) == Some(RES_SHARE) && PermanentCode(s.f) != RES_SHARE);
  }

  lemma MovedItem(s: Sample)
    requires SampleFields(s) && ThreeLocations(s)
    ensures Away(RecordOf(s), s.f, MovedCode(s)) == [s.moved]
  {
    var code := MovedCode(s);
    BorrowedCode(s.borrowed);
    assert RecordOf(s).f876s == [s.borrowed] + ([s.moved] + [s.home, s.elsewhere]);
    Keep([s.borrowed], s.moved, [s.home, s.elsewhere], (i: Field876) =>
      i.zero == s.f.eight && CurrentCode(i) == Some(code) && PermanentCode(s.f) != code && code != RES_SHARE);
  }

  lemma OwnFields(s: Sample)
    requires SampleFields(s)
    ensures TextualOf(RecordOf(s), s.f.eight.value) == [s.statement, s.supplement, s.index]
  {
    assert RecordOf(s).textual == [s.statement] + ([s.foreign] + [s.supplement, s.index]);
    Drop([s.statement], s.foreign, [s.supplement, s.index],
      (t: TextualField) => t.eight == Some(s.f.eight.value));
    assert [s.statement] + [s.supplement, s.index] == [s.statement, s.supplement, s.index];
  }

  lemma CallNumberJoined(f: Field852)
    requires CallNumberFields(f)
    ensures var joined := f.callNumberParts[0] + " " + f.callNumberParts[2];
            CallNumber(f) == Some(joined) && !Blank(joined)
  {
    var h, i := f.callNumberParts[0], f.callNumberParts[2];
    assert f.callNumberParts == [h] + ([""] + [i]);
    Drop([h], "", [i], NotEmpty);
    assert [h] + [i] == [h, i] && [h, i][1..] == [i];
    var joined := h + " " + i;
    assert Join([h, i], " ") == joined && joined[0] == h[0];
  }

  lemma Slots(s: Sample, tag: TextualTag)
    requires SampleFields(s)
    ensures TextualSlots([s.statement, s.supplement, s.index], tag) ==
            Some([ParseTextual(s.statement, tag), ParseTextual(s.supplement, tag), ParseTextual(s.index, tag)])
  {
    var ts := [s.statement, s.supplement, s.index];
    assert TextualSlots(ts, tag).value ==
           [ParseTextual(s.statement, tag), ParseTextual(s.supplement, tag), ParseTextual(s.index, tag)];
  }

  /** $a and $z, or the one that there is. */
  function Joined(t: TextualField): Option<string> {
    match (t.a, t.z)
    case (Some(a), Some(z)) => Some(a + " " + z)
    case (Some(a), None) => Some(a)
    case (None, _) => t.z
  }

  lemma Described(s: Sample, places: Places)
    requires SampleFields(s) && CallNumberFields(s.f)
    ensures var code, number := HomeCode(s), s.f.callNumberParts[0] + " " + s.f.callNumberParts[2];
            RemoveEmptyCallNumbers(Permanent(s.f, places)) ==
              Description(Some(code), true, places.locationLabel(code), places.libraryLabel(code),
                          Some(number), Some(number), s.f.k, s.f.l, s.f.z, None)
    ensures var code, number := MovedCode(s), s.f.callNumberParts[0] + " " + s.f.callNumberParts[2];
            TemporaryDescription(s.f, places, code) ==
              Description(Some(code), false, places.locationLabel(code), places.libraryLabel(code),
                          Some(number), Some(number), s.f.k, s.f.l, s.f.z, Some(code))
  {
    CallNumberJoined(s.f);
  }

  lemma AtId(
    record: Record, places: Places, f: Field852, home: Field876, borrowed: Field876, ts: seq<TextualField>)
    requires IsAlma(f) && AtHome(record, f) == [home] && Shared(record, f) == [borrowed]
    requires TextualOf(record, f.eight.value) == ts
    ensures ExpectedAtId(record, places, f) == Some(Holding(
              RemoveEmptyCallNumbers(Permanent(f, places)), Some([BuildItem(home), BuildItem(borrowed)]),
              TextualSlots(ts, Tag866), TextualSlots(ts, Tag867), TextualSlots(ts, Tag868)))
  {
    assert [home] + [borrowed] == [home, borrowed];
    assert BuildItems([home, borrowed]) == [BuildItem(home), BuildItem(borrowed)];
  }

  lemma AtCode(record: Record, places: Places, f: Field852, code: string, moved: Field876)
    requires Away(record, f, code) == [moved]
    ensures ExpectedAtCode(record, places, [f], code) ==
            Some(Holding(TemporaryDescription(f, places, code), Some([BuildItem(moved)]), None, None, None))
  {
    assert [f][..0] == [];
    assert BuildItems([moved]) == [BuildItem(moved)];
  }

  lemma FoundAtId(s: Sample, places: Places)
    requires SampleFields(s) && ThreeLocations(s)
    ensures var ts := [s.statement, s.supplement, s.index];
            Lookup(ProcessHoldings(RecordOf(s), places), s.f.eight.value) == Some(Holding(
              RemoveEmptyCallNumbers(Permanent(s.f, places)), Some([BuildItem(s.home), BuildItem(s.borrowed)]),
              TextualSlots(ts, Tag866), TextualSlots(ts, Tag867), TextualSlots(ts, Tag868)))
  {
    FilterAll([s.f], IsAlma);
    OnlyField(RecordOf(s), places, s.f);
    HomeItem(s);
    BorrowedItem(s);
    OwnFields(s);
    AtId(RecordOf(s), places, s.f, s.home, s.borrowed, [s.statement, s.supplement, s.index]);
  }

  lemma FoundAtCode(s: Sample, places: Places)
    requires SampleFields(s) && ThreeLocations(s)
    ensures var code := MovedCode(s);
            Lookup(ProcessHoldings(RecordOf(s), places), code) ==
            Some(Holding(TemporaryDescription(s.f, places, code), Some([BuildItem(s.moved)]), None, None, None))
  {
    var code := MovedCode(s);
    FilterAll([s.f], IsAlma);
    assert code[|s.moved.y.value|] == '$';
    OnlyField(RecordOf(s), places, s.f);
    MovedItem(s);
    AtCode(RecordOf(s), places, s.f, code, s.moved);
  }

  lemma SlotsByTag(s: Sample)
    requires SampleFields(s)
    ensures var ts := [s.statement, s.supplement, s.index];
            && TextualSlots(ts, Tag866) == Some([Joined(s.statement), None, None])
            && TextualSlots(ts, Tag867) == Some([None, Joined(s.supplement), None])
            && TextualSlots(ts, Tag868) == Some([None, None, Joined(s.index)])
  {
    Slots(s, Tag866);
    Slots(s, Tag867);
    Slots(s, Tag868);
  }

  /** Under its id: the 852's own data, the item at home, then the borrowed one, and the textual fields with
      this id, tag by tag. */
  lemma HoldingOfSample(s: Sample, places: Places)
    requires SampleFields(s) && ThreeLocations(s) && CallNumberFields(s.f)
    ensures var code, number := HomeCode(s), s.f.callNumberParts[0] + " " + s.f.callNumberParts[2];
            Lookup(ProcessHoldings(RecordOf(s), places), s.f.eight.value) == Some(Holding(
              Description(Some(code), true, places.locationLabel(code), places.libraryLabel(code),
                          Some(number), Some(number), s.f.k, s.f.l, s.f.z, None),
              Some([Item(s.home.zero, s.home.three, s.home.a, s.home.j, s.home.p, s.home.t, s.home.x),
                    Item(s.borrowed.zero, s.borrowed.three, s.borrowed.a, s.borrowed.j, s.borrowed.p,
                         s.borrowed.t, s.borrowed.x)]),
              Some([Joined(s.statement), None, None]),
              Some([None, Joined(s.supplement), None]),
              Some([None, None, Joined(s.index)])))
  {
    FoundAtId(s, places);
    Described(s, places);
    SlotsByTag(s);
  }

  /** Under the code of the item that moved: that item, with the 852's data and the code's labels. */
  lemma MovedItemOfSample(s: Sample, places: Places)
    requires SampleFields(s) && ThreeLocations(s) && CallNumberFields(s.f)
    ensures var code, number := MovedCode(s), s.f.callNumberParts[0] + " " + s.f.callNumberParts[2];
            Lookup(ProcessHoldings(RecordOf(s), places), code) == Some(Holding(
              Description(Some(code), false, places.locationLabel(code), places.libraryLabel(code),
                          Some(number), Some(number), s.f.k, s.f.l, s.f.z, Some(code)),
              Some([Item(s.moved.zero, s.moved.three, s.moved.a, s.moved.j, s.moved.p, s.moved.t, s.moved.x)]),
              None, None, None))
  {
    FoundAtCode(s, places);
    Described(s, places);
  }

  /** There are such records. */
  lemma SampleExists() returns (s: Sample)
    ensures SampleFields(s) && ThreeLocations(s) && CallNumberFields(s.f)
  {
    var id := Some("22123406421");
    var f := Field852(id, Some("firestone"), Some("stacks"), ["QA76", "", "K"], Some("K"), None, None);
    var item := Field876(id, None, None, None, None, None, None, Some("firestone"), Some("stacks"));
    var text := TextualField(Tag866, id, Some("v. 1-5"), None);
    s := Sample(
      f, item.(y := Some("RES_SHARE"), z := Some("IN_RS_REQ")), item.(y := Some("lewis"), z := Some("res")), item,
      item.(zero := None), text, text.(eight := None), text.(tag := Tag867), text.(tag := Tag868));
    assert "22123406421"[|"22123406421"| - 5..] == "06421";
    assert HomeCode(s)[0] == 'f' && MovedCode(s)[0] == 'l';
  }
}
