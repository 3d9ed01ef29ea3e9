/** Hierarchical headings: compiled with two delimiters, split again at one of them, and accumulated level by
    level (marc_to_solr/lib/hierarchical_heading.rb, marc_to_solr/lib/princeton_marc.rb:56-91). */
module Headings {
  import opened Wrappers
  import opened RubyValues
  import opened MarcFields

  const SEPARATOR: char := '\U{2014}'
  const DASH: string := [SEPARATOR]

  /** A subfield of the spec with its trimmed value; `splits` if its code is one that the heading is split on. */
  datatype Part = Part(text: string, splits: bool)

  function Trimmed(subfields: seq<Subfield>, trim: string -> string, splitOn: set<char>): (parts: seq<Part>)
    ensures |parts| == |subfields|
    ensures forall i :: 0 <= i < |parts| ==>
            parts[i] == Part(trim(subfields[i].value), subfields[i].code in splitOn)
  {
    seq(|subfields|, i requires 0 <= i < |subfields| =>
      Part(trim(subfields[i].value), subfields[i].code in splitOn))
  }

  /** The parts cut in front of every part that splits. */
  function Runs(parts: seq<Part>): (runs: seq<seq<Part>>)
    ensures parts != [] ==> runs != []
    decreases |parts|
  {
    if parts == [] then []
    else
      var before, last := Runs(parts[..|parts| - 1]), parts[|parts| - 1];
      if before == [] || last.splits then before + [[last]]
      else before[..|before| - 1] + [before[|before| - 1] + [last]]
  }

  lemma {:induction false} RunsFlatten(parts: seq<Part>)
    ensures Flatten(Runs(parts)) == parts
    decreases |parts|
  {
    if parts != [] {
      var init, last := parts[..|parts| - 1], parts[|parts| - 1];
      RunsFlatten(init);
      var before := Runs(init);
      assert parts == init + [last];
      if before == [] || last.splits {
        FlattenAppend(before, [[last]]);
        assert Flatten([[last]]) == [last];
      } else {
        var n := |before| - 1;
        assert before == before[..n] + [before[n]];
        FlattenLastGrows(before[..n], before[n], last);
      }
    }
  }

  predicate WellCut(runs: seq<seq<Part>>) {
    forall r :: 0 <= r < |runs| ==> IsRun(runs[r]) && (r > 0 ==> runs[r][0].splits)
  }

  lemma LastRunLonger(runs: seq<seq<Part>>, last: Part)
    requires WellCut(runs) && runs != [] && !last.splits
    ensures WellCut(runs[..|runs| - 1] + [runs[|runs| - 1] + [last]])
  {
    assert IsRun(runs[|runs| - 1]);
    assert IsRun(runs[|runs| - 1] + [last]);
  }

  lemma {:induction false} RunsStart(parts: seq<Part>)
    ensures WellCut(Runs(parts))
    decreases |parts|
  {
    if parts != [] {
      var before, last := Runs(parts[..|parts| - 1]), parts[|parts| - 1];
      RunsStart(parts[..|parts| - 1]);
      if before == [] || last.splits {
        assert IsRun([last]);
      } else {
        LastRunLonger(before, last);
      }
    }
  }

  /** Nothing is lost, moved or put together: the runs are the parts in order, a run starts with a part that
      splits (the first run with any part) and goes on with parts that do not. */
  lemma RunsMeaning(parts: seq<Part>)
    ensures Flatten(Runs(parts)) == parts
    ensures WellCut(Runs(parts))
  {
    RunsFlatten(parts);
    RunsStart(parts);
  }

  lemma FlattenLastGrows(runs: seq<seq<Part>>, run: seq<Part>, last: Part)
    ensures Flatten(runs + [run + [last]]) == Flatten(runs + [run]) + [last]
  {
    FlattenAppend(runs, [run]);
    FlattenAppend(runs, [run + [last]]);
    assert Flatten([run]) == run && Flatten([run + [last]]) == run + [last];
    Reassociate(Flatten(runs), run, [last]);
  }

  predicate IsRun(run: seq<Part>) {
    run != [] && forall i :: 0 < i < |run| ==> !run[i].splits
  }

  function Texts(run: seq<Part>): (texts: seq<string>)
    ensures |texts| == |run| && forall i :: 0 <= i < |run| ==> texts[i] == run[i].text
  {
    seq(|run|, i requires 0 <= i < |run| => run[i].text)
  }

  function RunTexts(runs: seq<seq<Part>>): (texts: seq<string>)
    ensures |texts| == |runs| && forall r :: 0 <= r < |runs| ==> texts[r] == Join(Texts(runs[r]), " ")
  {
    seq(|runs|, r requires 0 <= r < |runs| => Join(Texts(runs[r]), " "))
  }

  /** What the heading says: runs joined by spaces, joined by dashes. */
  function Heading(parts: seq<Part>): string {
    Join(RunTexts(Runs(parts)), DASH)
  }

  lemma JoinGrows(init: seq<string>, last: string, more: string)
    ensures Join(init + [last + more], DASH) == Join(init + [last], DASH) + more
  {
    if init == [] {
      assert init + [last + more] == [last + more] && init + [last] == [last];
    } else {
      JoinOneMore(init, last + more, DASH);
      JoinOneMore(init, last, DASH);
      Reassociate(Join(init, DASH) + DASH, last, more);
    }
  }

  lemma LastRunGrows(runs: seq<seq<Part>>, last: Part)
    requires runs != [] && runs[|runs| - 1] != []
    ensures var n := |runs| - 1;
            RunTexts(runs[..n] + [runs[n] + [last]]) ==
              RunTexts(runs[..n]) + [Join(Texts(runs[n]), " ") + (" " + last.text)]
  {
    var n := |runs| - 1;
    assert Texts(runs[n] + [last]) == Texts(runs[n]) + [last.text];
    JoinOneMore(Texts(runs[n]), last.text, " ");
    Reassociate(Join(Texts(runs[n]), " "), " ", last.text);
  }

  /** One more part is another run ... */
  lemma AnotherRun(parts: seq<Part>, last: Part)
    requires parts == [] || last.splits
    ensures RunTexts(Runs(parts + [last])) == RunTexts(Runs(parts)) + [last.text]
  {
    assert (parts + [last])[..|parts|] == parts;
    assert Texts([last]) == [last.text];
    assert RunTexts(Runs(parts) + [[last]]) == RunTexts(Runs(parts)) + [last.text];
  }

  /** ... or makes the last one longer. */
  lemma LongerRun(parts: seq<Part>, last: Part) returns (init: seq<string>, run: string)
    requires parts != [] && !last.splits
    ensures RunTexts(Runs(parts)) == init + [run]
    ensures RunTexts(Runs(parts + [last])) == init + [run + (" " + last.text)]
  {
    assert (parts + [last])[..|parts|] == parts;
    var runs := Runs(parts);
    RunsStart(parts);
    assert IsRun(runs[|runs| - 1]);
    LastRunGrows(runs, last);
    init, run := RunTexts(runs[..|runs| - 1]), Join(Texts(runs[|runs| - 1]), " ");
    assert RunTexts(runs) == init + [run];
  }

  /** Appending delimiter and value to the heading built so far gives the heading of one more part. */
  lemma HeadingOneMore(parts: seq<Part>, last: Part)
    requires parts != []
    ensures Heading(parts + [last]) == Heading(parts) + (if last.splits then DASH else " ") + last.text
  {
    if last.splits {
      AnotherRun(parts, last);
      JoinOneMore(RunTexts(Runs(parts)), last.text, DASH);
    } else {
      var init, run := LongerRun(parts, last);
      JoinGrows(init, run, " " + last.text);
      Reassociate(Join(init + [run], DASH), " ", last.text);
    }
  }

  function DelimiterFor(s: Subfield, splitOn: set<char>): string {
    if s.code in splitOn then DASH else " "
  }

  method CompileString(
    subfields: seq<Subfield>, trim: string -> string, splitOn: set<char>) returns (heading: string)
    requires subfields != []
    ensures heading == Heading(Trimmed(subfields, trim, splitOn))
  {
    heading := trim(subfields[0].value);
    ghost var parts := Trimmed(subfields, trim, splitOn);
    HeadingOfOne(parts[0]);
    assert parts[..1] == [parts[0]];
    for n := 1 to |subfields|
      invariant heading == Heading(parts[..n])
    {
      heading := heading + DelimiterFor(subfields[n], splitOn) + trim(subfields[n].value);
      HeadingOneMore(parts[..n], parts[n]);
      assert parts[..n + 1] == parts[..n] + [parts[n]];
    }
    assert parts[..|parts|] == parts;
  }

  lemma HeadingOfOne(part: Part)
    ensures Heading([part]) == part.text
  {
    assert Texts([part]) == [part.text];
    assert RunTexts(Runs([part])) == [part.text];
  }

  /** `HierarchicalHeading#to_s` */
  method CompileHeading(field: seq<Subfield>, spec: set<char>, trim: string -> string, splitOn: set<char>)
    returns (heading: Option<string>)
    ensures var parts := Trimmed(Chosen(field, spec), trim, splitOn);
            heading == if parts == [] then None else Some(Heading(parts))
  {
    var subfields := Chosen(field, spec);
    if subfields == [] { return None; }
    var compiled := CompileString(subfields, trim, splitOn);
    heading := Some(compiled);
  }

  /** A heading as it reads: an em dash in front of a code that splits, a blank in front of any other, and
      nothing of a subfield outside the spec. */
  lemma HeadingAsItReads(p: string, q: string, r: string, x: string, trim: string -> string)
    ensures var field := [Subfield('a', p), Subfield('2', x), Subfield('x', q), Subfield('b', r)];
            Heading(Trimmed(Chosen(field, {'a', 'b', 'x'}), trim, {'t', 'v', 'x', 'y', 'z'})) ==
            trim(p) + "\U{2014}" + trim(q) + " " + trim(r)
  {
    var field := [Subfield('a', p), Subfield('2', x), Subfield('x', q), Subfield('b', r)];
    var chosen := [Subfield('a', p), Subfield('x', q), Subfield('b', r)];
    ChosenThree(field[0], field[1], field[2], field[3]);
    assert Chosen(field, {'a', 'b', 'x'}) == chosen;
    var parts := [Part(trim(p), false), Part(trim(q), true), Part(trim(r), false)];
    assert Trimmed(chosen, trim, {'t', 'v', 'x', 'y', 'z'}) == parts;
    HeadingOfThree(parts[0], parts[1], parts[2]);
  }

  lemma ChosenThree(a: Subfield, two: Subfield, x: Subfield, b: Subfield)
    requires a.code == 'a' && two.code == '2' && x.code == 'x' && b.code == 'b'
    ensures Chosen([a, two, x, b], {'a', 'b', 'x'}) == [a, x, b]
  {
    var spec := {'a', 'b', 'x'};
    assert [a, two, x, b][..3] == [a, two, x] && [a, two, x][..2] == [a, two] && [a, two][..1] == [a];
    ChosenOneMore([a, two, x, b], spec, 3);
    ChosenOneMore([a, two, x, b], spec, 2);
    ChosenOneMore([a, two, x, b], spec, 1);
    ChosenOneMore([a, two, x, b], spec, 0);
    assert [a, two, x, b][..4] == [a, two, x, b] && Chosen([a, two, x, b][..0], spec) == [];
  }

  lemma HeadingOfThree(a: Part, x: Part, b: Part)
    requires !a.splits && x.splits && !b.splits
    ensures Heading([a, x, b]) == a.text + "\U{2014}" + x.text + " " + b.text
  {
    HeadingOfTwo(a, x);
    AppendBlank([a, x], b);
  }

  lemma HeadingOfTwo(a: Part, x: Part)
    requires x.splits
    ensures Heading([a, x]) == a.text + "\U{2014}" + x.text
  {
    HeadingOfOne(a);
    HeadingOneMore([a], x);
    assert [a] + [x] == [a, x];
  }

  lemma AppendBlank(parts: seq<Part>, b: Part)
    requires |parts| == 2 && !b.splits
    ensures Heading([parts[0], parts[1], b]) == Heading(parts) + " " + b.text
  {
    HeadingOneMore(parts, b);
    assert parts + [b] == [parts[0], parts[1], b];
  }

  // ----- splitting a heading gives its runs back

  predicate Dashless(parts: seq<Part>) {
    forall i :: 0 <= i < |parts| ==> SEPARATOR !in parts[i].text
  }

  predicate AllDashless(texts: seq<string>) {
    forall i :: 0 <= i < |texts| ==> SEPARATOR !in texts[i]
  }

  lemma DashlessOneMore(texts: seq<string>, last: string)
    ensures AllDashless(texts + [last]) <==> AllDashless(texts) && SEPARATOR !in last
  {
    if AllDashless(texts + [last]) {
      assert forall i :: 0 <= i < |texts| ==> texts[i] == (texts + [last])[i];
      assert (texts + [last])[|texts|] == last;
    }
  }

  lemma {:induction false} RunsDashless(parts: seq<Part>)
    ensures Dashless(parts) <==> AllDashless(RunTexts(Runs(parts)))
    decreases |parts|
  {
    if parts != [] {
      var init, last := parts[..|parts| - 1], parts[|parts| - 1];
      RunsDashless(init);
      assert parts == init + [last];
      assert Dashless(parts) <==> Dashless(init) && SEPARATOR !in last.text;
      if init == [] || last.splits {
        AnotherRun(init, last);
        DashlessOneMore(RunTexts(Runs(init)), last.text);
      } else {
        var texts, run := LongerRun(init, last);
        DashlessOneMore(texts, run);
        DashlessOneMore(texts, run + (" " + last.text));
      }
    }
  }

  /** The one run text that can be empty and come last is a lone empty value that splits, or is the only one. */
  lemma LastRunText(parts: seq<Part>)
    requires parts != []
    ensures var texts, last := RunTexts(Runs(parts)), parts[|parts| - 1];
            texts[|texts| - 1] == "" <==> last.text == "" && (last.splits || |parts| == 1)
  {
    var init, last := parts[..|parts| - 1], parts[|parts| - 1];
    assert parts == init + [last];
    if init == [] || last.splits {
      AnotherRun(init, last);
    } else {
      var texts, run := LongerRun(init, last);
    }
  }

  /** Splitting a compiled heading at the dash gives back exactly its runs if and only if no value contains a
      dash and the heading does not end with an empty run. */
  lemma HeadingRoundTrip(parts: seq<Part>)
    requires parts != []
    ensures Split(Heading(parts), SEPARATOR) == RunTexts(Runs(parts)) <==>
            Dashless(parts) && !(parts[|parts| - 1].text == "" && (parts[|parts| - 1].splits || |parts| == 1))
  {
    SplitUndoesJoin(RunTexts(Runs(parts)), SEPARATOR);
    RunsDashless(parts);
    LastRunText(parts);
  }

  /** A dash inside a value cuts it in two. */
  lemma DashInValueSplits()
    ensures var parts := [Part("Mass" + DASH + "Latin", false)];
            && RunTexts(Runs(parts)) == ["Mass" + DASH + "Latin"]
            && Split(Heading(parts), SEPARATOR) == ["Mass", "Latin"]
  {
    var parts, texts := [Part("Mass" + DASH + "Latin", false)], ["Mass", "Latin"];
    OneRun(parts[0]);
    SplitUndoesJoin(texts, SEPARATOR);
    assert Join(texts, DASH) == "Mass" + DASH + "Latin";
  }

  lemma OneRun(part: Part)
    ensures RunTexts(Runs([part])) == [part.text] && Heading([part]) == part.text
  {
    assert [part][..0] == [] && [[part]][..1] == [[part]];
    assert Runs([part]) == [[part]];
    assert Texts([part]) == [part.text];
  }

  lemma EmptyRunAtEnd(part: Part, last: Part)
    requires SEPARATOR !in part.text && part.text != "" && last == Part("", true)
    ensures RunTexts(Runs([part] + [last])) == [part.text, ""]
    ensures Split(Heading([part] + [last]), SEPARATOR) == [part.text]
  {
    OneRun(part);
    AnotherRun([part], last);
    PiecesOfJoin([part.text, ""], SEPARATOR);
    assert [part.text, ""][..1] == [part.text] == DropTrailingEmpty([part.text]);
  }

  /** An empty value at the end that splits is dropped. */
  lemma EmptyLastRunDropped()
    ensures var parts := [Part("Mass", false), Part("", true)];
            && RunTexts(Runs(parts)) == ["Mass", ""]
            && Split(Heading(parts), SEPARATOR) == ["Mass"]
  {
    var parts := [Part("Mass", false), Part("", true)];
    EmptyRunAtEnd(parts[0], parts[1]);
    assert [parts[0]] + [parts[1]] == parts;
  }

  // ----- levels

  /** `accumulate_subheading` */
  function AccumulateSubheading(pieces: seq<string>): (levels: seq<string>)
    ensures |levels| == |pieces|
    decreases |pieces|
  {
    if pieces == [] then []
    else
      var accumulator, subheading := AccumulateSubheading(pieces[..|pieces| - 1]), pieces[|pieces| - 1];
      accumulator +
      [Join((if accumulator == [] then [] else [accumulator[|accumulator| - 1]]) + [subheading], DASH)]
  }

  lemma {:induction false} LevelIsJoin(pieces: seq<string>, i: nat)
    requires i < |pieces|
    ensures AccumulateSubheading(pieces)[i] == Join(pieces[..i + 1], DASH)
    decreases |pieces|
  {
    var n := |pieces| - 1;
    var init := pieces[..n];
    if i < n {
      LevelIsJoin(init, i);
      assert init[..i + 1] == pieces[..i + 1];
    } else if n > 0 {
      LevelIsJoin(init, n - 1);
      assert init[..n] == init && pieces[..n + 1] == init + [pieces[n]];
      JoinOneMore(init, pieces[n], DASH);
      JoinOneMore([AccumulateSubheading(init)[n - 1]], pieces[n], DASH);
    } else {
      assert AccumulateSubheading([]) == [];
      assert [] + [pieces[0]] == [pieces[0]] && pieces[..1] == [pieces[0]];
    }
  }

  /** The levels of any string split at the dash end with the string itself, unless it ends with a dash. */
  lemma LastLevel(heading: string)
    requires Split(heading, SEPARATOR) != []
    ensures var levels := AccumulateSubheading(Split(heading, SEPARATOR));
            levels[|levels| - 1] == heading <==> heading[|heading| - 1] != SEPARATOR
  {
    var pieces := Split(heading, SEPARATOR);
    LevelIsJoin(pieces, |pieces| - 1);
    assert pieces[..|pieces|] == pieces;
    JoinUndoesSplit(heading, SEPARATOR);
  }

  lemma LevelsOfRuns(runs: seq<seq<Part>>)
    ensures forall i :: 0 <= i < |runs| ==>
            AccumulateSubheading(RunTexts(runs))[i] == Join(RunTexts(runs[..i + 1]), DASH)
  {
    forall i | 0 <= i < |runs|
      ensures AccumulateSubheading(RunTexts(runs))[i] == Join(RunTexts(runs[..i + 1]), DASH)
    {
      LevelIsJoin(RunTexts(runs), i);
      assert RunTexts(runs)[..i + 1] == RunTexts(runs[..i + 1]);
    }
  }

  /** `accumulate_hierarchy_per_field` on a compiled heading: level i is the first i + 1 runs, the last the
      heading. */
  lemma LevelsOfHeading(parts: seq<Part>)
    requires parts != [] && Dashless(parts)
    requires !(parts[|parts| - 1].text == "" && (parts[|parts| - 1].splits || |parts| == 1))
    ensures var levels, runs := AccumulateSubheading(Split(Heading(parts), SEPARATOR)), Runs(parts);
            && |levels| == |runs|
            && (forall i :: 0 <= i < |runs| ==> levels[i] == Join(RunTexts(runs[..i + 1]), DASH))
            && levels[|levels| - 1] == Heading(parts)
  {
    HeadingRoundTrip(parts);
    var runs := Runs(parts);
    LevelsOfRuns(runs);
    assert runs[..|runs|] == runs;
  }
}
