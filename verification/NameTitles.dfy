/** Name-title hierarchies and the names in front of a title (marc_to_solr/lib/princeton_marc.rb:39-54,
    229-279). */
module NameTitles {
  import opened Wrappers
  import opened RubyValues
  import opened MarcFields

  /** The position of the first $t, or the end. */
  function FirstTitle(subfields: seq<Subfield>): (n: nat)
    ensures n <= |subfields|
    ensures n < |subfields| ==> subfields[n].code == 't'
    ensures forall i :: 0 <= i < n ==> subfields[i].code != 't'
  {
    if subfields == [] || subfields[0].code == 't' then 0 else 1 + FirstTitle(subfields[1..])
  }

  predicate HasCode(subfields: seq<Subfield>, code: char) {
    exists i :: 0 <= i < |subfields| && subfields[i].code == code
  }

  function BeforeTitle(chosen: seq<Subfield>): seq<string> {
    Values(chosen[..FirstTitle(chosen)])
  }

  function FromTitle(chosen: seq<Subfield>): seq<string> {
    Values(chosen[FirstTitle(chosen)..])
  }

  /** The name in front of the first $t as one string, then the values from the first $t on. */
  function NameTitle(chosen: seq<Subfield>): Option<seq<string>> {
    if HasCode(chosen, 'a') && HasCode(chosen, 't') then
      Some([Join(BeforeTitle(chosen), " ")] + FromTitle(chosen))
    else None
  }

  lemma {:induction false} FirstTitleOneMore(subfields: seq<Subfield>, last: Subfield)
    ensures FirstTitle(subfields + [last]) ==
            if FirstTitle(subfields) < |subfields| || last.code == 't' then FirstTitle(subfields)
            else |subfields| + 1
  {
    if subfields != [] {
      assert (subfields + [last])[1..] == subfields[1..] + [last];
      FirstTitleOneMore(subfields[1..], last);
    } else {
      assert [last][1..] == [];
    }
  }

  lemma HasCodeOneMore(subfields: seq<Subfield>, last: Subfield, code: char)
    ensures HasCode(subfields + [last], code) <==> HasCode(subfields, code) || last.code == code
  {
    var more := subfields + [last];
    if HasCode(subfields, code) {
      var i :| 0 <= i < |subfields| && subfields[i].code == code;
      assert more[i].code == code;
    }
    if last.code == code { assert more[|subfields|].code == code; }
  }

  lemma ValuesOneMore(subfields: seq<Subfield>, last: Subfield)
    ensures Values(subfields + [last]) == Values(subfields) + [last.value]
  {
  }

  lemma NameOneMore(seen: seq<Subfield>, last: Subfield)
    requires FirstTitle(seen) == |seen| && last.code != 't'
    ensures FirstTitle(seen + [last]) == |seen + [last]|
    ensures BeforeTitle(seen + [last]) == BeforeTitle(seen) + [last.value]
    ensures FromTitle(seen + [last]) == FromTitle(seen)
  {
    FirstTitleOneMore(seen, last);
    assert (seen + [last])[..|seen| + 1] == seen + [last] && seen[..|seen|] == seen;
    ValuesOneMore(seen, last);
  }

  lemma TitleOneMore(seen: seq<Subfield>, last: Subfield)
    requires FirstTitle(seen) < |seen| || last.code == 't'
    ensures FirstTitle(seen + [last]) < |seen + [last]|
    ensures BeforeTitle(seen + [last]) == BeforeTitle(seen)
    ensures FromTitle(seen + [last]) == FromTitle(seen) + [last.value]
  {
    FirstTitleOneMore(seen, last);
    var t := FirstTitle(seen);
    assert (seen + [last])[t..] == seen[t..] + [last] && (seen + [last])[..t] == seen[..t];
    ValuesOneMore(seen[t..], last);
  }

  /** The flags and lists of the loop after the chosen subfields `seen`. */
  ghost predicate Collected(
    seen: seq<Subfield>, nonA: bool, nonT: bool, author: seq<string>, title: seq<string>)
  {
    && nonA == !HasCode(seen, 'a') && nonT == (FirstTitle(seen) == |seen|)
    && author == BeforeTitle(seen) && title == FromTitle(seen)
  }

  lemma CollectedOneMore(
    seen: seq<Subfield>, nonA: bool, nonT: bool, author: seq<string>, title: seq<string>, last: Subfield)
    requires Collected(seen, nonA, nonT, author, title)
    ensures var inName := nonT && last.code != 't';
            Collected(seen + [last], nonA && last.code != 'a', inName,
                      if inName then author + [last.value] else author,
                      if inName then title else title + [last.value])
  {
    if nonT && last.code != 't' { NameOneMore(seen, last); } else { TitleOneMore(seen, last); }
    HasCodeOneMore(seen, last, 'a');
  }

  /** One field of `prep_name_title`. */
  method PrepNameTitle(field: seq<Subfield>, spec: set<char>) returns (nameTitle: Option<seq<string>>)
    ensures nameTitle == NameTitle(Chosen(field, spec))
  {
    var title: seq<string>, author: seq<string> := [], [];
    var nonA, nonT := true, true;
    for n := 0 to |field|
      invariant Collected(Chosen(field[..n], spec), nonA, nonT, author, title)
    {
      ChosenOneMore(field, spec, n);
      if field[n].code in spec {
        CollectedOneMore(Chosen(field[..n], spec), nonA, nonT, author, title, field[n]);
        if field[n].code == 'a' { nonA := false; }
        if field[n].code == 't' { nonT := false; }
        if nonT { author := author + [field[n].value]; } else { title := title + [field[n].value]; }
      }
    }
    assert field[..|field|] == field;
    nameTitle := if nonA || nonT then None else Some([Join(author, " ")] + title);
  }

  /** There is a name-title exactly when the chosen subfields have both a $a and a $t. */
  lemma NameTitleIffBoth(chosen: seq<Subfield>)
    ensures NameTitle(chosen).Some? <==>
            (exists s :: s in chosen && s.code == 'a') && (exists s :: s in chosen && s.code == 't')
  {
    HasCodeMeaning(chosen, 'a');
    HasCodeMeaning(chosen, 't');
  }

  lemma HasCodeMeaning(subfields: seq<Subfield>, code: char)
    ensures HasCode(subfields, code) <==> exists s :: s in subfields && s.code == code
  {
    if HasCode(subfields, code) {
      var i :| 0 <= i < |subfields| && subfields[i].code == code;
      assert subfields[i] in subfields;
    }
  }

  /** What the name is, and what follows it. */
  lemma NameTitleAsItReads(a: string, d: string, t: string, n: string)
    ensures var chosen := [Subfield('a', a), Subfield('d', d), Subfield('t', t), Subfield('n', n)];
            NameTitle(chosen) == Some([a + " " + d, t, n])
  {
    var chosen := [Subfield('a', a), Subfield('d', d), Subfield('t', t), Subfield('n', n)];
    assert chosen[0].code == 'a' && chosen[2].code == 't';
    assert FirstTitle(chosen) == 2;
    assert Values(chosen[..2]) == [a, d] && Values(chosen[2..]) == [t, n];
    assert [a, d][1..] == [d] && Join([a, d], " ") == a + " " + d;
    assert BeforeTitle(chosen) == [a, d] && FromTitle(chosen) == [t, n];
    assert HasCode(chosen, 'a') && HasCode(chosen, 't');
    assert [a + " " + d] + [t, n] == [a + " " + d, t, n];
  }

  /** `expand_sublists_for_hierarchy`, for one list. */
  function ExpandSublist(list: seq<string>, trim: string -> string): (levels: seq<string>)
    ensures |levels| == |list|
    ensures forall i :: 0 <= i < |list| ==> levels[i] == trim(Join(list[..i + 1], " "))
  {
    seq(|list|, i requires 0 <= i < |list| => trim(Join(list[..i + 1], " ")))
  }

  /** `join_hierarchy`, for one list. */
  function JoinHierarchy(list: seq<string>, trim: string -> string, includeFirstElement: bool): seq<string>
    requires list != []
  {
    if includeFirstElement then ExpandSublist(list, trim) else ExpandSublist(list, trim)[1..]
  }

  lemma LevelGrows(list: seq<string>, i: nat)
    requires 0 < i < |list|
    ensures Join(list[..i + 1], " ") == Join(list[..i], " ") + " " + list[i]
  {
    assert list[..i + 1] == list[..i] + [list[i]];
    JoinOneMore(list[..i], list[i], " ");
  }

  /** The levels of a name-title before trimming. */
  function Levels(chosen: seq<Subfield>): seq<string>
    requires NameTitle(chosen).Some?
  {
    JoinHierarchy(NameTitle(chosen).value, s => s, false)
  }

  lemma LevelCount(chosen: seq<Subfield>)
    requires NameTitle(chosen).Some?
    ensures |Levels(chosen)| == |chosen| - FirstTitle(chosen) > 0
  {
    var i :| 0 <= i < |chosen| && chosen[i].code == 't';
  }

  lemma LevelIsJoin(chosen: seq<Subfield>, i: nat)
    requires NameTitle(chosen).Some? && i < |Levels(chosen)|
    ensures |NameTitle(chosen).value| == |Levels(chosen)| + 1
    ensures Levels(chosen)[i] == Join(NameTitle(chosen).value[..i + 2], " ")
  {
  }

  lemma LevelZero(chosen: seq<Subfield>)
    requires NameTitle(chosen).Some? && 0 < |Levels(chosen)|
    ensures FirstTitle(chosen) < |chosen|
    ensures Levels(chosen)[0] == Join(BeforeTitle(chosen), " ") + " " + chosen[FirstTitle(chosen)].value
  {
    var list := NameTitle(chosen).value;
    LevelIsJoin(chosen, 0);
    LevelGrows(list, 1);
    assert list[..1] == [list[0]];
  }

  lemma LevelAt(chosen: seq<Subfield>, i: nat)
    requires NameTitle(chosen).Some? && 0 < i < |Levels(chosen)|
    ensures FirstTitle(chosen) + i < |chosen|
    ensures Levels(chosen)[i] == Levels(chosen)[i - 1] + " " + chosen[FirstTitle(chosen) + i].value
  {
    var list := NameTitle(chosen).value;
    LevelIsJoin(chosen, i);
    LevelIsJoin(chosen, i - 1);
    LevelGrows(list, i + 1);
    assert list[i + 1] == chosen[FirstTitle(chosen) + i].value;
  }

  /** One level for each subfield from the first $t on, each of them the one before it (at first the name), a
      space and one more value; the deepest is all the chosen values joined if and only if something comes
      before the $t. */
  lemma NameTitleLevels(chosen: seq<Subfield>)
    requires NameTitle(chosen).Some?
    ensures |Levels(chosen)| == |chosen| - FirstTitle(chosen) > 0
    ensures Levels(chosen)[0] == Join(BeforeTitle(chosen), " ") + " " + chosen[FirstTitle(chosen)].value
    ensures forall i :: 0 < i < |Levels(chosen)| ==>
              Levels(chosen)[i] == Levels(chosen)[i - 1] + " " + chosen[FirstTitle(chosen) + i].value
    ensures Levels(chosen)[|Levels(chosen)| - 1] == Join(Values(chosen), " ") <==> chosen[0].code != 't'
  {
    LevelCount(chosen);
    LevelZero(chosen);
    forall i | 0 < i < |Levels(chosen)|
      ensures Levels(chosen)[i] == Levels(chosen)[i - 1] + " " + chosen[FirstTitle(chosen) + i].value
    {
      LevelAt(chosen, i);
    }
    DeepestLevel(chosen);
  }

  lemma DeepestLevel(chosen: seq<Subfield>)
    requires NameTitle(chosen).Some?
    ensures |Levels(chosen)| > 0
    ensures Levels(chosen)[|Levels(chosen)| - 1] == Join(Values(chosen), " ") <==> chosen[0].code != 't'
  {
    LevelCount(chosen);
    var t := FirstTitle(chosen);
    var name, rest := BeforeTitle(chosen), FromTitle(chosen);
    var list := NameTitle(chosen).value;
    assert list[..|list|] == list;
    assert Values(chosen) == name + rest;
    JoinMore([Join(name, " ")], rest, " ");
    if t > 0 {
      JoinMore(name, rest, " ");
    } else {
      assert name + rest == rest;
      assert |Join(list, " ")| == 1 + |Join(rest, " ")|;
    }
  }

  // ----- process_names

  /** The subfields up to and including the first $t, and those after it. */
  function TitleEnd(field: seq<Subfield>): (n: nat)
    ensures n <= |field|
  {
    if FirstTitle(field) < |field| then FirstTitle(field) + 1 else |field|
  }

  function Kept(field: seq<Subfield>, spec: set<char>): seq<string> {
    Values(Chosen(field[..TitleEnd(field)], spec))
  }

  function AfterTitle(field: seq<Subfield>, spec: set<char>): seq<string> {
    Values(Chosen(field[TitleEnd(field)..], spec))
  }

  /** Every value behind a space. */
  function Spaced(values: seq<string>): string {
    if values == [] then "" else Spaced(values[..|values| - 1]) + (" " + values[|values| - 1])
  }

  function DropNewlines(s: string): string {
    if s == "" || s[|s| - 1] != '\n' then s
    else if |s| > 1 && s[|s| - 2] == '\r' then DropNewlines(s[..|s| - 2])
    else DropNewlines(s[..|s| - 1])
  }

  /** Without a suffix, a newline at the end goes, with a carriage return in front of it as one. */
  lemma NewlineDropped(s: string, t: string)
    requires |t| == |s| + 1 && t[..|s|] == s && t[|s|] == '\n' && (s == "" || s[|s| - 1] != '\r')
    ensures Chomp(t, "") == Chomp(s, "")
  {
  }

  lemma ReturnAndNewlineDropped(s: string, t: string)
    requires |t| == |s| + 2 && t[..|s|] == s && t[|s|] == '\r' && t[|s| + 1] == '\n'
    ensures Chomp(t, "") == Chomp(s, "")
  {
  }

  lemma OtherEndsStay(s: string)
    requires s == "" || s[|s| - 1] != '\n'
    ensures Chomp(s, "") == s
  {
  }

  /** `String#chomp` for an argument that is not a newline: the empty string drops newlines at the end, any
      other its own one occurrence there. */
  function Chomp(s: string, suffix: string): string {
    if suffix == "" then DropNewlines(s)
    else if |suffix| <= |s| && s[|s| - |suffix|..] == suffix then s[..|s| - |suffix|]
    else s
  }

  function AllChosen(field: seq<Subfield>, spec: set<char>): seq<string> {
    Values(Chosen(field, spec))
  }

  /** The suffix as the loop collects it. */
  function RemovedUpTo(field: seq<Subfield>, spec: set<char>, n: nat): string
    requires n <= |field|
  {
    if n == 0 then ""
    else
      RemovedUpTo(field, spec, n - 1) +
      if FirstTitle(field) < n - 1 && field[n - 1].code in spec then " " + field[n - 1].value else ""
  }

  lemma SpacedOneMore(subfields: seq<Subfield>, last: Subfield)
    ensures Spaced(Values(subfields + [last])) == Spaced(Values(subfields)) + (" " + last.value)
  {
    assert Values(subfields + [last])[..|subfields|] == Values(subfields);
  }

  lemma {:induction false} RemovedNothing(field: seq<Subfield>, spec: set<char>, n: nat)
    requires n <= TitleEnd(field)
    ensures RemovedUpTo(field, spec, n) == ""
  {
    if n > 0 { RemovedNothing(field, spec, n - 1); }
  }

  lemma ChosenAfter(field: seq<Subfield>, spec: set<char>, end: nat, n: nat)
    requires end <= n < |field|
    ensures Chosen(field[end..n + 1], spec) ==
            if field[n].code in spec then Chosen(field[end..n], spec) + [field[n]]
            else Chosen(field[end..n], spec)
  {
    assert field[end..n + 1] == field[end..n] + [field[n]];
    ChosenAppend(field[end..n], field[n], spec);
  }

  lemma RemovedStep(field: seq<Subfield>, spec: set<char>, end: nat, n: nat)
    requires end == TitleEnd(field) <= n < |field|
    requires RemovedUpTo(field, spec, n) == Spaced(Values(Chosen(field[end..n], spec)))
    ensures RemovedUpTo(field, spec, n + 1) == Spaced(Values(Chosen(field[end..n + 1], spec)))
  {
    ChosenAfter(field, spec, end, n);
    SpacedOneMore(Chosen(field[end..n], spec), field[n]);
  }

  lemma {:induction false} RemovedMeaning(field: seq<Subfield>, spec: set<char>, end: nat, n: nat)
    requires end == TitleEnd(field) <= n <= |field|
    ensures RemovedUpTo(field, spec, n) == Spaced(Values(Chosen(field[end..n], spec)))
  {
    if n == end {
      RemovedNothing(field, spec, n);
      assert field[end..n] == [];
    } else {
      RemovedMeaning(field, spec, end, n - 1);
      RemovedStep(field, spec, end, n - 1);
    }
  }

  /** One field of `process_names`, before trimming. */
  method ProcessName(field: seq<Subfield>, spec: set<char>) returns (name: Option<string>)
    ensures name == if AllChosen(field, spec) == [] then None
                    else Some(Chomp(Join(AllChosen(field, spec), " "), Spaced(AfterTitle(field, spec))))
  {
    if AllChosen(field, spec) == [] { return None; }
    var remove, afterT := "", false;
    for n := 0 to |field|
      invariant afterT <==> FirstTitle(field) < n
      invariant remove == RemovedUpTo(field, spec, n)
    {
      if afterT && field[n].code in spec { remove := remove + (" " + field[n].value); }
      if field[n].code == 't' { afterT := true; }
    }
    RemovedMeaning(field, spec, TitleEnd(field), |field|);
    assert field[TitleEnd(field)..|field|] == field[TitleEnd(field)..];
    name := Some(Chomp(Join(AllChosen(field, spec), " "), remove));
  }

  // ----- what process_names leaves

  predicate EndsWithNewline(s: string) {
    s != "" && s[|s| - 1] == '\n'
  }

  lemma {:induction false} DropNewlinesShortens(s: string)
    ensures DropNewlines(s) == s <==> !EndsWithNewline(s)
    ensures |DropNewlines(s)| <= |s|
    decreases |s|
  {
    if EndsWithNewline(s) {
      if |s| > 1 && s[|s| - 2] == '\r' {
        DropNewlinesShortens(s[..|s| - 2]);
      } else {
        DropNewlinesShortens(s[..|s| - 1]);
      }
    }
  }

  /** The suffix is what the later values added to the name. */
  lemma {:induction false} JoinSpaced(kept: seq<string>, after: seq<string>)
    ensures kept != [] ==> Join(kept + after, " ") == Join(kept, " ") + Spaced(after)
    ensures kept == [] && after != [] ==> Spaced(after) == " " + Join(after, " ")
    decreases |after|
  {
    if after == [] {
      assert kept + after == kept && Join(kept, " ") + "" == Join(kept, " ");
    } else {
      var n := |after| - 1;
      var init, last := after[..n], after[n];
      JoinSpaced(kept, init);
      if kept != [] {
        assert kept + after == (kept + init) + [last];
        JoinOneMore(kept + init, last, " ");
        Reassociate(Join(kept, " ") + Spaced(init), " ", last);
        Reassociate(Join(kept, " "), Spaced(init), " " + last);
      } else if init != [] {
        assert after == init + [last];
        JoinOneMore(init, last, " ");
        Reassociate(" " + Join(init, " "), " ", last);
        assert " " + (Join(init, " ") + " " + last) == (" " + Join(init, " ")) + " " + last;
      } else {
        assert after == [last];
        assert Spaced(after) == "" + (" " + last);
      }
    }
  }

  lemma AllIsKeptAndAfter(field: seq<Subfield>, spec: set<char>)
    ensures AllChosen(field, spec) == Kept(field, spec) + AfterTitle(field, spec)
  {
    assert field == field[..TitleEnd(field)] + field[TitleEnd(field)..];
    FilterAppend(field[..TitleEnd(field)], field[TitleEnd(field)..], (s: Subfield) => s.code in spec);
  }

  lemma ChompName(kept: seq<string>, after: seq<string>)
    requires kept + after != []
    ensures Chomp(Join(kept + after, " "), Spaced(after)) == Join(kept, " ") <==>
            if kept == [] then Join(after, " ") == ""
            else after != [] || !EndsWithNewline(Join(kept, " "))
  {
    JoinSpaced(kept, after);
    if kept == [] {
      assert kept + after == after;
    } else if after == [] {
      assert kept + after == kept;
      DropNewlinesShortens(Join(kept, " "));
    } else {
      SpacedNotEmpty(after);
    }
  }

  lemma SpacedNotEmpty(values: seq<string>)
    requires values != []
    ensures Spaced(values) != ""
  {
  }

  /** The name without its suffix is the join of the chosen values not after the first $t exactly when: there
      are such values, and some chosen value follows them or they do not end in a newline; or there are none
      and the rest is empty. */
  lemma NameIsKeptValues(field: seq<Subfield>, spec: set<char>)
    requires AllChosen(field, spec) != []
    ensures Chomp(Join(AllChosen(field, spec), " "), Spaced(AfterTitle(field, spec))) ==
            Join(Kept(field, spec), " ") <==>
            if Kept(field, spec) == [] then Join(AfterTitle(field, spec), " ") == ""
            else AfterTitle(field, spec) != [] || !EndsWithNewline(Join(Kept(field, spec), " "))
  {
    AllIsKeptAndAfter(field, spec);
    ChompName(Kept(field, spec), AfterTitle(field, spec));
  }

  /** With nothing to remove, a newline at the end of the name is removed. */
  lemma NewlineChomped()
    ensures var field := [Subfield('a', "Bach\n")];
            && Join(Kept(field, {'a'}), " ") == "Bach\n"
            && Chomp(Join(AllChosen(field, {'a'}), " "), Spaced(AfterTitle(field, {'a'}))) == "Bach"
  {
    var field := [Subfield('a', "Bach\n")];
    assert field[1..] == [] && field[..1] == field;
    assert "Bach\n"[..4] == "Bach";
  }

  /** With nothing but a value after the title, that value becomes the name. */
  lemma ValueAfterTitleIsName()
    ensures var field := [Subfield('t', "Mass"), Subfield('d', "1750")];
            && Kept(field, {'d'}) == []
            && Chomp(Join(AllChosen(field, {'d'}), " "), Spaced(AfterTitle(field, {'d'}))) == "1750"
  {
    var field := [Subfield('t', "Mass"), Subfield('d', "1750")];
    assert field[1..] == [field[1]] && field[1..][1..] == [];
    assert field[..1] == [field[0]] && field[..1][1..] == [];
  }

  /** What is in front of the $t is the name, and what follows it is not. */
  lemma NameAsItReads(a: string, d: string, t: string, k: string)
    ensures var field := [Subfield('a', a), Subfield('d', d), Subfield('t', t), Subfield('k', k)];
            Chomp(Join(AllChosen(field, {'a', 'd', 'k'}), " "), Spaced(AfterTitle(field, {'a', 'd', 'k'}))) ==
            a + " " + d
  {
    var field := [Subfield('a', a), Subfield('d', d), Subfield('t', t), Subfield('k', k)];
    NameOfFour(field);
  }

  lemma NameOfFour(field: seq<Subfield>)
    requires |field| == 4 && field[0].code == 'a' && field[1].code == 'd' && field[2].code == 't'
    requires field[3].code == 'k'
    ensures var spec := {'a', 'd', 'k'};
            Chomp(Join(AllChosen(field, spec), " "), Spaced(AfterTitle(field, spec))) ==
            field[0].value + " " + field[1].value
  {
    var spec := {'a', 'd', 'k'};
    assert FirstTitle(field) == 2;
    ChosenOneMore(field, spec, 0);
    ChosenOneMore(field, spec, 1);
    ChosenOneMore(field, spec, 2);
    assert Chosen(field[..0], spec) == [];
    assert Kept(field, spec) == [field[0].value, field[1].value];
    assert field[3..] == [field[3]] && field[3..][1..] == [];
    assert AfterTitle(field, spec) == [field[3].value];
    assert [field[0].value, field[1].value][1..] == [field[1].value];
    NameIsKeptValues(field, spec);
  }
}
