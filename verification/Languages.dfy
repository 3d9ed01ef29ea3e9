/** The languages of a record without the macrolanguages of others (marc_to_solr/lib/language_service.rb,
    marc_to_solr/lib/language_extractor.rb, lib/bibdata_rs/src/languages.rs). */
module Languages {
  import opened Wrappers
  import opened RubyValues
  import opened MarcFields

  /** The part of an ISO 639-3 entry that matters here. */
  datatype Language = Language(macrolanguage: Option<string>, bibliographic: Option<string>)

  /** `from_iso_639_3_code` */
  type Table = string -> Option<Language>

  /** What `macrolanguage_codes` promises: the code of the macrolanguage and, if it has another one, its ISO
      639-2b code. */
  predicate IsMacrolanguageOf(table: Table, general: string, individual: string) {
    && table(individual).Some? && table(individual).value.macrolanguage.Some?
    && var code := table(individual).value.macrolanguage.value;
       general == code || (table(code).Some? && table(code).value.bibliographic == Some(general))
  }

  method MacrolanguageCodes(table: Table, individual: string) returns (codes: seq<string>)
    ensures forall g :: g in codes <==> IsMacrolanguageOf(table, g, individual)
    ensures Distinct(codes)
  {
    codes := [];
    if table(individual).Some? && table(individual).value.macrolanguage.Some? {
      var code := table(individual).value.macrolanguage.value;
      codes := [code];
      if table(code).Some? && table(code).value.bibliographic.Some? {
        var bibliographic := table(code).value.bibliographic.value;
        if bibliographic != code { codes := codes + [bibliographic]; }
      }
    }
  }

  /** `includes_more_specific_version?` */
  predicate IncludesMoreSpecific(table: Table, codes: seq<string>, code: string) {
    exists individual :: individual in codes && IsMacrolanguageOf(table, code, individual)
  }

  function NotGeneral(table: Table, codes: seq<string>): string -> bool {
    (c: string) => !IncludesMoreSpecific(table, codes, c)
  }

  function Specific(table: Table, codes: seq<string>): (r: seq<string>)
    ensures forall c :: c in r <==> c in codes && !IncludesMoreSpecific(table, codes, c)
  {
    Filter(Uniq(codes), NotGeneral(table, codes))
  }

  // ----- the codes of a record

  type Field041 = seq<Subfield>

  function FirstValue(field: Field041, code: char): Option<string> {
    if field == [] then None
    else if field[0].code == code then Some(field[0].value)
    else FirstValue(field[1..], code)
  }

  predicate IsIso(field: Field041) {
    FirstValue(field, '2') == Some("iso639-3")
  }

  /** `%(a d)` is the string "a d", so a blank code is taken too. */
  const LANGUAGE_SUBFIELDS: set<char> := {'a', ' ', 'd'}

  function CodesIn(fields: seq<Field041>, subfields: set<char>): seq<string> {
    if fields == [] then [] else Values(Chosen(fields[0], subfields)) + CodesIn(fields[1..], subfields)
  }

  function CodesOf(fields: seq<Field041>): seq<string> {
    CodesIn(fields, LANGUAGE_SUBFIELDS)
  }

  /** If a 041 says that its codes are ISO 639-3, only such fields are read. */
  function FieldsRead(fields: seq<Field041>): seq<Field041> {
    if Filter(fields, IsIso) != [] then Filter(fields, IsIso) else fields
  }

  function FixedCode(fixed: Option<string>): seq<string> {
    if fixed.Some? then [fixed.value] else []
  }

  function RecordCodes(fixed: Option<string>, fields: seq<Field041>): seq<string> {
    FixedCode(fixed) + CodesOf(FieldsRead(fields))
  }

  // ----- which fields are read, and in what order

  /** Its first $2 is `iso639-3`. */
  ghost predicate SaysIso(field: Field041) {
    exists n: nat :: FirstAt(field, '2', n) && field[n].value == "iso639-3"
  }

  /** The first subfield with the code stands here. */
  predicate FirstAt(field: Field041, code: char, n: nat) {
    n < |field| && field[n].code == code && forall m :: 0 <= m < n ==> field[m].code != code
  }

  lemma {:induction false} FirstValueAt(field: Field041, code: char, n: nat)
    requires FirstAt(field, code, n)
    ensures FirstValue(field, code) == Some(field[n].value)
  {
    if n > 0 { FirstValueAt(field[1..], code, n - 1); }
  }

  lemma {:induction false} FirstValueNone(field: Field041, code: char)
    requires FirstValue(field, code).Some?
    ensures exists n: nat :: FirstAt(field, code, n)
  {
    if field[0].code == code {
      assert FirstAt(field, code, 0);
    } else {
      FirstValueNone(field[1..], code);
      var n: nat :| FirstAt(field[1..], code, n);
      assert FirstAt(field, code, n + 1);
    }
  }

  lemma IsoMeaning(field: Field041)
    ensures IsIso(field) <==> SaysIso(field)
  {
    if FirstValue(field, '2').Some? {
      FirstValueNone(field, '2');
      var n: nat :| FirstAt(field, '2', n);
      FirstValueAt(field, '2', n);
      assert SaysIso(field) ==> field[n].value == "iso639-3";
    } else if SaysIso(field) {
      var n: nat :| FirstAt(field, '2', n) && field[n].value == "iso639-3";
      FirstValueAt(field, '2', n);
    }
  }

  lemma SomeIso(fields: seq<Field041>)
    ensures Filter(fields, IsIso) != [] <==> exists f :: f in fields && SaysIso(f)
  {
    forall f | f in fields ensures IsIso(f) <==> SaysIso(f) { IsoMeaning(f); }
    FirstIn(Filter(fields, IsIso));
  }

  lemma FilterWithout(before: seq<Field041>, other: Field041, after: seq<Field041>)
    requires !IsIso(other)
    ensures Filter(before + [other] + after, IsIso) == Filter(before + after, IsIso)
  {
    FilterAppend(before + [other], after, IsIso);
    FilterAppend(before, [other], IsIso);
    FilterAppend(before, after, IsIso);
    assert Filter([other], IsIso) == [];
    assert Filter(before, IsIso) + [] == Filter(before, IsIso);
  }

  /** If some 041 says that its codes are ISO 639-3, a 041 that does not contributes nothing, wherever it
      stands. */
  lemma OthersAreNotRead(fixed: Option<string>, before: seq<Field041>, other: Field041, after: seq<Field041>)
    requires !SaysIso(other) && exists f :: f in before + after && SaysIso(f)
    ensures RecordCodes(fixed, before + [other] + after) == RecordCodes(fixed, before + after)
  {
    IsoMeaning(other);
    FilterWithout(before, other, after);
    SomeIso(before + after);
  }

  /** The values of the subfields with an accepted code, in their order. */
  function ValuesRead(field: Field041): seq<string> {
    if field == [] then []
    else
      (if field[0].code == 'a' || field[0].code == 'd' || field[0].code == ' ' then [field[0].value] else [])
      + ValuesRead(field[1..])
  }

  function AllValuesRead(fields: seq<Field041>): seq<string> {
    if fields == [] then [] else ValuesRead(fields[0]) + AllValuesRead(fields[1..])
  }

  lemma {:induction false} ValuesChosen(field: Field041)
    ensures Values(Chosen(field, LANGUAGE_SUBFIELDS)) == ValuesRead(field)
  {
    if field != [] {
      ValuesChosen(field[1..]);
      var rest := Chosen(field[1..], LANGUAGE_SUBFIELDS);
      assert Values([field[0]] + rest) == [field[0].value] + Values(rest);
    }
  }

  lemma {:induction false} CodesAreValuesRead(fields: seq<Field041>)
    ensures CodesOf(fields) == AllValuesRead(fields)
  {
    if fields != [] {
      ValuesChosen(fields[0]);
      CodesAreValuesRead(fields[1..]);
    }
  }

  /** The fixed code comes first, then the fields in their order; all of them if all, or none, say ISO 639-3. */
  lemma CodesFieldByField(fixed: Option<string>, fields: seq<Field041>)
    requires (forall f :: f in fields ==> SaysIso(f)) || (forall f :: f in fields ==> !SaysIso(f))
    ensures RecordCodes(fixed, fields) == (if fixed.Some? then [fixed.value] else []) + AllValuesRead(fields)
  {
    forall f | f in fields ensures IsIso(f) <==> SaysIso(f) { IsoMeaning(f); }
    SomeIso(fields);
    if forall f :: f in fields ==> SaysIso(f) { FilterAll(fields, IsIso); }
    CodesAreValuesRead(fields);
  }

  /** An ISO 639-3 code is preferred to the MARC code of another 041; the code of the 008 stays. */
  lemma IsoIsPreferred()
    ensures var marc, iso := [Subfield('a', "nah")], [Subfield('a', "nuz"), Subfield('2', "iso639-3")];
            RecordCodes(Some("myn"), [marc, iso]) == ["myn", "nuz"]
  {
    IsoFieldAlone([Subfield('a', "nah")], [Subfield('a', "nuz"), Subfield('2', "iso639-3")], "myn", "nuz");
  }

  lemma IsoFieldAlone(marc: Field041, iso: Field041, fixed: string, code: string)
    requires iso == [Subfield('a', code), Subfield('2', "iso639-3")]
    requires forall i :: 0 <= i < |marc| ==> marc[i].code != '2'
    ensures RecordCodes(Some(fixed), [marc, iso]) == [fixed, code]
  {
    assert FirstAt(iso, '2', 1);
    assert iso in [iso];
    assert [] + [marc] + [iso] == [marc, iso] && [] + [iso] == [iso];
    OthersAreNotRead(Some(fixed), [], marc, [iso]);
    CodesFieldByField(Some(fixed), [iso]);
    ReadOneByOne(iso);
    assert [iso][1..] == [];
  }

  lemma ReadOneByOne(iso: Field041)
    requires |iso| == 2 && iso[0].code == 'a' && iso[1].code == '2'
    ensures ValuesRead(iso) == [iso[0].value]
  {
    assert iso[1..][1..] == [] && ValuesRead(iso[1..]) == [] + ValuesRead([]) == [];
  }

  // ----- when only $a and $d are read

  const A_AND_D: set<char> := {'a', 'd'}

  predicate HasBlank(field: Field041) {
    exists i :: 0 <= i < |field| && field[i].code == ' '
  }

  lemma {:induction false} BlankChosen(field: Field041)
    ensures |Chosen(field, LANGUAGE_SUBFIELDS)| >= |Chosen(field, A_AND_D)|
    ensures |Chosen(field, LANGUAGE_SUBFIELDS)| == |Chosen(field, A_AND_D)| <==> !HasBlank(field)
    ensures !HasBlank(field) ==> Chosen(field, LANGUAGE_SUBFIELDS) == Chosen(field, A_AND_D)
  {
    if field != [] {
      BlankChosen(field[1..]);
      if HasBlank(field[1..]) {
        var i :| 0 <= i < |field[1..]| && field[1..][i].code == ' ';
        assert field[i + 1].code == ' ';
      }
      if HasBlank(field) && field[0].code != ' ' {
        var i :| 0 <= i < |field| && field[i].code == ' ';
        assert field[1..][i - 1].code == ' ';
      }
    }
  }

  predicate AnyBlank(fields: seq<Field041>) {
    exists f :: f in fields && HasBlank(f)
  }

  lemma {:induction false} BlankCodes(fields: seq<Field041>)
    ensures |CodesOf(fields)| >= |CodesIn(fields, A_AND_D)|
    ensures |CodesOf(fields)| == |CodesIn(fields, A_AND_D)| <==> !AnyBlank(fields)
    ensures !AnyBlank(fields) ==> CodesOf(fields) == CodesIn(fields, A_AND_D)
  {
    if fields != [] {
      BlankCodes(fields[1..]);
      BlankChosen(fields[0]);
      assert AnyBlank(fields) <==> HasBlank(fields[0]) || AnyBlank(fields[1..]) by {
        assert forall f :: f in fields <==> f == fields[0] || f in fields[1..];
      }
    }
  }

  /** The codes of a record are its fixed code and its $a and $d values if and only if no 041 that is read has
      a subfield with a blank code. */
  lemma OnlyAAndDReadIffNoBlank(fixed: Option<string>, fields: seq<Field041>)
    ensures RecordCodes(fixed, fields) == FixedCode(fixed) + CodesIn(FieldsRead(fields), A_AND_D)
            <==> !AnyBlank(FieldsRead(fields))
  {
    BlankCodes(FieldsRead(fields));
  }

  /** A value with a blank code is taken for a language. */
  lemma BlankCodeIsRead()
    ensures var field := [Subfield('a', "eng"), Subfield(' ', "see note")];
            RecordCodes(None, [field]) == ["eng", "see note"]
  {
    var field: Field041 := [Subfield('a', "eng"), Subfield(' ', "see note")];
    var fields: seq<Field041> := [field];
    assert field[1..][1..] == [] && fields[1..] == [];
    assert FirstValue(field, '2') == None;
    assert Chosen(field, LANGUAGE_SUBFIELDS) == field;
    assert Values(field) == ["eng", "see note"];
  }

  method AnyMoreSpecific(table: Table, codes: seq<string>, code: string) returns (any: bool)
    ensures any == IncludesMoreSpecific(table, codes, code)
  {
    any := false;
    for n := 0 to |codes|
      invariant !any && forall m :: 0 <= m < n ==> !IsMacrolanguageOf(table, code, codes[m])
    {
      var general := MacrolanguageCodes(table, codes[n]);
      if code in general { return true; }
    }
  }

  method SpecificCodes(
    table: Table, fixed: Option<string>, fields: seq<Field041>) returns (specific: seq<string>)
    ensures specific == Specific(table, RecordCodes(fixed, fields))
    ensures forall kept, other :: kept in specific && other in RecordCodes(fixed, fields) ==>
            !IsMacrolanguageOf(table, kept, other)
  {
    var codes: seq<string> := [];
    if fixed.Some? { codes := codes + [fixed.value]; }
    if Filter(fields, IsIso) != [] {
      codes := codes + CodesOf(Filter(fields, IsIso));
    } else if fields != [] {
      codes := codes + CodesOf(fields);
    }
    assert codes == RecordCodes(fixed, fields);
    var distinct := Uniq(codes);
    specific := [];
    for n := 0 to |distinct|
      invariant specific == Filter(distinct[..n], NotGeneral(table, codes))
    {
      var general := AnyMoreSpecific(table, codes, distinct[n]);
      FilterOneMore(distinct, n, NotGeneral(table, codes));
      if !general { specific := specific + [distinct[n]]; }
    }
    assert distinct[..|distinct|] == distinct;
  }

  lemma FilterOneMore(xs: seq<string>, n: nat, keep: string -> bool)
    requires n < |xs|
    ensures Filter(xs[..n + 1], keep) ==
            if keep(xs[n]) then Filter(xs[..n], keep) + [xs[n]] else Filter(xs[..n], keep)
  {
    assert xs[..n + 1] == xs[..n] + [xs[n]];
    FilterAppend(xs[..n], [xs[n]], keep);
    assert [xs[n]][1..] == [];
  }

  // ----- nothing is lost with the macrolanguages

  /** Each code is a macrolanguage of the one before it. */
  predicate Chain(table: Table, path: seq<string>) {
    path != [] && forall i :: 0 < i < |path| ==> IsMacrolanguageOf(table, path[i], path[i - 1])
  }

  /** No chain leads from a code back to itself. */
  ghost predicate Acyclic(table: Table) {
    forall path :: Chain(table, path) && |path| > 1 ==> path[0] != path[|path| - 1]
  }

  ghost predicate Within(path: seq<string>, codes: seq<string>) {
    forall c :: c in path ==> c in codes
  }

  lemma Prepend(table: Table, path: seq<string>, individual: string)
    requires Chain(table, path) && IsMacrolanguageOf(table, path[0], individual)
    ensures Chain(table, [individual] + path)
  {
  }

  lemma CycleThrough(table: Table, path: seq<string>, individual: string, k: nat) returns (cycle: seq<string>)
    requires Chain(table, path) && IsMacrolanguageOf(table, path[0], individual) && k < |path|
    requires path[k] == individual
    ensures Chain(table, cycle) && |cycle| > 1 && cycle[0] == cycle[|cycle| - 1]
  {
    cycle := [individual] + path[..k + 1];
    Prepend(table, path[..k + 1], individual);
  }

  /** A code in front of a chain cannot be on the chain. */
  lemma NewCode(table: Table, path: seq<string>, individual: string)
    requires Acyclic(table) && Chain(table, path) && IsMacrolanguageOf(table, path[0], individual)
    ensures individual !in path
  {
    if k: nat :| k < |path| && path[k] == individual {
      var cycle := CycleThrough(table, path, individual, k);
    }
  }

  /** A chain within the codes, and the codes that it may still be extended with. */
  ghost predicate Open(codes: seq<string>, path: seq<string>, left: set<string>) {
    Within(path, codes) && forall c :: c in codes && c !in path ==> c in left
  }

  lemma OpenPrepend(codes: seq<string>, path: seq<string>, left: set<string>, individual: string)
    requires Open(codes, path, left) && individual in codes
    ensures Open(codes, [individual] + path, left - {individual})
    ensures individual !in path ==> individual in left
  {
  }

  lemma {:induction false} ChainBack(
    table: Table, codes: seq<string>, path: seq<string>, left: set<string>) returns (whole: seq<string>)
    requires Acyclic(table) && Chain(table, path) && Open(codes, path, left)
    ensures Chain(table, whole) && Within(whole, codes)
    ensures whole[0] in Specific(table, codes) && whole[|whole| - 1] == path[|path| - 1]
    decreases left
  {
    if individual :| individual in codes && IsMacrolanguageOf(table, path[0], individual) {
      NewCode(table, path, individual);
      Prepend(table, path, individual);
      OpenPrepend(codes, path, left, individual);
      whole := ChainBack(table, codes, [individual] + path, left - {individual});
    } else {
      assert path[0] in codes;
      whole := path;
    }
  }

  /** Every code of the record is kept, or a chain of codes of the record leads to it from one that is kept. */
  lemma CoverageKept(table: Table, codes: seq<string>, code: string) returns (chain: seq<string>)
    requires Acyclic(table) && code in codes
    ensures Chain(table, chain) && Within(chain, codes)
    ensures chain[0] in Specific(table, codes) && chain[|chain| - 1] == code
  {
    chain := ChainBack(table, codes, [code], set c | c in codes);
  }

  lemma SomethingKept(table: Table, codes: seq<string>)
    requires Acyclic(table) && codes != []
    ensures Specific(table, codes) != []
  {
    var chain := CoverageKept(table, codes, codes[0]);
  }

  lemma {:induction false} FilterKeepsDistinct(xs: seq<string>, keep: string -> bool)
    requires Distinct(xs)
    ensures Distinct(Filter(xs, keep))
  {
    if xs != [] {
      FilterKeepsDistinct(xs[1..], keep);
      assert xs[0] !in xs[1..];
      assert xs[0] !in Filter(xs[1..], keep);
    }
  }

  lemma {:induction false} UniqOfDistinct(xs: seq<string>)
    requires Distinct(xs)
    ensures Uniq(xs) == xs
  {
    if xs != [] {
      UniqOfDistinct(xs[..|xs| - 1]);
      assert xs[|xs| - 1] !in xs[..|xs| - 1];
      assert xs == xs[..|xs| - 1] + [xs[|xs| - 1]];
    }
  }

  /** The macrolanguage of a code is listed with its bibliographic code, if that is another. */
  lemma MacrolanguageByBothCodes(table: Table, individual: string, macro: string, bibliographic: string)
    requires table(individual) == Some(Language(Some(macro), None))
    requires table(macro) == Some(Language(None, Some(bibliographic)))
    ensures forall g :: IsMacrolanguageOf(table, g, individual) <==> g == macro || g == bibliographic
    ensures forall g :: !IsMacrolanguageOf(table, g, macro)
  {
  }

  /** A record whose 008 has the bibliographic code of a macrolanguage, and whose 041 one of its languages. */
  lemma OnlyTheSpecific(table: Table)
    requires table("wuu") == Some(Language(Some("zho"), None))
    requires table("zho") == Some(Language(None, Some("chi"))) && table("chi") == None
    ensures Specific(table, ["chi", "wuu"]) == ["wuu"]
  {
    MacrolanguageByBothCodes(table, "wuu", "zho", "chi");
    SpecificOfTwo(table, "chi", "wuu");
  }

  lemma SpecificOfTwo(table: Table, general: string, individual: string)
    requires IsMacrolanguageOf(table, general, individual) && general != individual
    requires !IsMacrolanguageOf(table, individual, individual)
    requires !IsMacrolanguageOf(table, individual, general)
    ensures Specific(table, [general, individual]) == [individual]
  {
    var codes := [general, individual];
    assert codes[..1] == [general] && [general][..0] == [] && codes[0] == general && codes[1] == individual;
    assert Uniq([general]) == [] + [general] && Uniq(codes) == [general] + [individual];
    assert IncludesMoreSpecific(table, codes, general) && !IncludesMoreSpecific(table, codes, individual);
    assert codes[1..] == [individual] && [individual][1..] == [];
    assert Filter(codes, NotGeneral(table, codes)) == [] + ([individual] + []);
  }

  /** Filtering the kept codes again keeps them all, in order. */
  lemma SpecificTwice(table: Table, codes: seq<string>)
    ensures Specific(table, Specific(table, codes)) == Specific(table, codes)
  {
    var once := Specific(table, codes);
    FilterKeepsDistinct(Uniq(codes), NotGeneral(table, codes));
    UniqOfDistinct(once);
    assert forall c :: IncludesMoreSpecific(table, once, c) ==> IncludesMoreSpecific(table, codes, c);
    FilterAll(once, NotGeneral(table, once));
  }

  /** The codes of a cycle drop each other. */
  lemma CycleLosesAll(table: Table, cycle: seq<string>)
    requires Chain(table, cycle) && |cycle| > 1 && cycle[0] == cycle[|cycle| - 1]
    ensures Specific(table, cycle) == []
  {
    forall c | c in cycle ensures IncludesMoreSpecific(table, cycle, c) {
      var i :| 0 <= i < |cycle| && cycle[i] == c;
      var j := if i == 0 then |cycle| - 1 else i;
      assert cycle[j - 1] in cycle && IsMacrolanguageOf(table, cycle[j], cycle[j - 1]);
    }
    FirstIn(Specific(table, cycle));
  }

  /** That no record with codes loses them all is the same as that the table has no cycle. */
  lemma SomethingKeptIffAcyclic(table: Table)
    ensures Acyclic(table) <==> forall codes :: codes != [] ==> Specific(table, codes) != []
  {
    if Acyclic(table) {
      forall codes: seq<string> | codes != [] ensures Specific(table, codes) != [] {
        SomethingKept(table, codes);
      }
    } else {
      var cycle :| Chain(table, cycle) && |cycle| > 1 && cycle[0] == cycle[|cycle| - 1];
      CycleLosesAll(table, cycle);
    }
  }
}
