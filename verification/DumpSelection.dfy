/** Which dump comes next (app/models/index_manager.rb:70-100), and in what order a whole catch-up takes them. */
module DumpSelection {
  import opened Wrappers
  import opened SolrIndex

  /** OtherDump stands for the dump types that no selector asks for. */
  datatype DumpKind = FullDump | ChangedRecords | OtherDump

  datatype Dump = Dump(id: nat, kind: DumpKind, start: int, files: seq<DumpFile>)

  /** The dumps table joined with its events. */
  type Table = seq<Dump>

  predicate IsIncremental(d: Dump) { d.kind == ChangedRecords }

  predicate IsFull(d: Dump) { d.kind == FullDump }

  /** `order('events.start' => 'ASC').first` */
  function Earliest(ds: seq<Dump>): (r: Option<Dump>)
    ensures r.None? <==> ds == []
    ensures r.Some? ==> r.value in ds && forall d :: d in ds ==> r.value.start <= d.start
  {
    if ds == [] then None
    else
      var rest := Earliest(ds[1..]);
      if rest.Some? && rest.value.start < ds[0].start then rest else Some(ds[0])
  }

  /** `order('events.start' => 'DESC').first` */
  function Latest(ds: seq<Dump>): (r: Option<Dump>)
    ensures r.None? <==> ds == []
    ensures r.Some? ==> r.value in ds && forall d :: d in ds ==> d.start <= r.value.start
  {
    if ds == [] then None
    else
      var rest := Latest(ds[1..]);
      if rest.Some? && rest.value.start > ds[0].start then rest else Some(ds[0])
  }

  function RecentFullDump(table: Table): (r: Option<Dump>)
    ensures r.None? ==> forall d :: d in table ==> !IsFull(d)
    ensures r.Some? ==> r.value in table && IsFull(r.value)
    ensures r.Some? ==> forall d :: d in table && IsFull(d) ==> d.start <= r.value.start
  {
    var fulls := Filter(table, IsFull);
    assert forall d :: d in table && IsFull(d) ==> d in fulls;
    Latest(fulls)
  }

  function FirstIncremental(table: Table): (r: Option<Dump>)
    ensures r.None? ==> forall d :: d in table ==> !IsIncremental(d)
    ensures r.Some? ==> r.value in table && IsIncremental(r.value)
    ensures r.Some? ==> forall d :: d in table && IsIncremental(d) ==> r.value.start <= d.start
  {
    var incrementals := Filter(table, IsIncremental);
    assert forall d :: d in table && IsIncremental(d) ==> d in incrementals;
    Earliest(incrementals)
  }

  predicate Before(d: Dump, last: Dump) {
    IsIncremental(d) && d.start < last.start && d.id != last.id
  }

  function PreviousToFullIncremental(table: Table, last: Dump): (r: Option<Dump>)
    ensures r.None? ==> forall d :: d in table ==> !Before(d, last)
    ensures r.Some? ==> r.value in table && Before(r.value, last)
    ensures r.Some? ==> forall d :: d in table && Before(d, last) ==> d.start <= r.value.start
  {
    var earlier := Filter(table, (d: Dump) => Before(d, last));
    assert forall d :: d in table && Before(d, last) ==> d in earlier;
    Latest(earlier)
  }

  predicate NotBefore(d: Dump, last: Dump) {
    IsIncremental(d) && d.start >= last.start && d.id != last.id
  }

  /** The query inside `next_incremental`, before empty dumps are skipped. */
  function IncrementalFrom(table: Table, last: Dump): (r: Option<Dump>)
    ensures r.None? ==> forall d :: d in table ==> !NotBefore(d, last)
    ensures r.Some? ==> r.value in table && NotBefore(r.value, last)
    ensures r.Some? ==> forall d :: d in table && NotBefore(d, last) ==> r.value.start <= d.start
  {
    var later := Filter(table, (d: Dump) => NotBefore(d, last));
    assert forall d :: d in table && NotBefore(d, last) ==> d in later;
    Earliest(later)
  }

  ghost predicate UniqueIds(table: Table) {
    forall d, e :: d in table && e in table && d.id == e.id ==> d == e
  }

  ghost predicate DistinctStarts(table: Table) {
    forall d, e :: d in table && e in table && IsIncremental(d) && IsIncremental(e) && d.start == e.start ==>
      d == e
  }

  ghost predicate WellFormed(table: Table) {
    UniqueIds(table) && DistinctStarts(table)
  }

  /** The incrementals the query can still choose from. */
  ghost function Ahead(table: Table, last: Dump): set<Dump> {
    set d | d in table && NotBefore(d, last)
  }

  lemma AheadShrinks(table: Table, last: Dump, next: Dump)
    requires WellFormed(table) && last in table && IncrementalFrom(table, last) == Some(next)
    ensures Ahead(table, next) < Ahead(table, last)
    ensures Ahead(table, next) == Ahead(table, last) - {next}
    ensures IsIncremental(last) ==> last.start < next.start
  {
    assert next in Ahead(table, last);
    assert forall d :: d in Ahead(table, next) <==> d in Ahead(table, last) && d != next;
  }

  /** `next_incremental`: the dump to index, and where the skipping of empty dumps leaves
      `last_dump_completed`. */
  ghost function NextIncremental(table: Table, last: Dump): (r: (Option<Dump>, Dump))
    requires WellFormed(table) && last in table
    decreases Ahead(table, last)
    ensures r.1 in table
    ensures r.0.Some? ==> r.0.value in table && IsIncremental(r.0.value) && r.0.value.files != []
    ensures r.1 == last || (IsIncremental(r.1) && r.1.files == [])
    ensures r.0.Some? ==> Ahead(table, r.0.value) < Ahead(table, last)
  {
    match IncrementalFrom(table, last)
    case None => (None, last)
    case Some(d) =>
      AheadShrinks(table, last, d);
      if d.files == [] then NextIncremental(table, d) else (Some(d), last)
  }

  predicate CanResume(table: Table, last: Option<Dump>) {
    last.Some? ==> last.value in table && (IsFull(last.value) || IsIncremental(last.value))
  }

  /** `next_dump`, with the value `last_dump_completed` has afterwards. */
  ghost function NextDump(table: Table, last: Option<Dump>): (r: (Option<Dump>, Option<Dump>))
    requires WellFormed(table) && CanResume(table, last)
    ensures CanResume(table, r.0) && CanResume(table, r.1)
    ensures r.1 == last || (r.1.Some? && r.1.value.files == [])
  {
    if last.None? then
      (if RecentFullDump(table).Some? then RecentFullDump(table) else FirstIncremental(table), last)
    else if IsFull(last.value) && PreviousToFullIncremental(table, last.value).Some? then
      (PreviousToFullIncremental(table, last.value), last)
    else
      var (d, l) := NextIncremental(table, last.value);
      (d, Some(l))
  }

  /** Computing the next dump again from the skipped-to position gives the same dump. */
  lemma NextDumpAgain(table: Table, last: Option<Dump>)
    requires WellFormed(table) && CanResume(table, last) && NextDump(table, last).0.Some?
    ensures NextDump(table, NextDump(table, last).1) == NextDump(table, last)
  {
    if last.Some? && NextDump(table, last).1 != last {
      SkipAgain(table, last.value);
    }
  }

  lemma {:induction false} SkipAgain(table: Table, last: Dump)
    requires WellFormed(table) && last in table
    ensures NextIncremental(table, NextIncremental(table, last).1) == NextIncremental(table, last)
    decreases Ahead(table, last)
  {
    if IncrementalFrom(table, last).Some? {
      AheadShrinks(table, last, IncrementalFrom(table, last).value);
      if IncrementalFrom(table, last).value.files == [] {
        SkipAgain(table, IncrementalFrom(table, last).value);
      }
    }
  }

  ghost function Stage(last: Option<Dump>): nat {
    if last.None? then 2 else if IsFull(last.value) then 1 else 0
  }

  /** All the dumps a catch-up indexes from a resume point, in order. */
  ghost function Remaining(table: Table, last: Option<Dump>): (r: seq<Dump>)
    requires WellFormed(table) && CanResume(table, last)
    decreases Stage(last), if last.Some? then Ahead(table, last.value) else {}
  {
    var next := NextDump(table, last).0;
    if next.None? then [] else [next.value] + Remaining(table, next)
  }

  // ----- the order, stated without the selectors

  ghost predicate Ascending(ds: seq<Dump>) {
    forall i, j :: 0 <= i < j < |ds| ==> ds[i].start < ds[j].start
  }

  /** Exactly the non-empty incrementals that start later than `time`, oldest first, each once. */
  ghost predicate LaterIncrementals(table: Table, time: int, ds: seq<Dump>) {
    && Ascending(ds)
    && forall d :: d in ds <==> d in table && IsIncremental(d) && d.files != [] && d.start > time
  }

  lemma {:induction false} RemainingAfterIncremental(table: Table, last: Dump)
    requires WellFormed(table) && last in table && IsIncremental(last)
    ensures LaterIncrementals(table, last.start, Remaining(table, Some(last)))
    decreases Ahead(table, last)
  {
    RemainingFrom(table, last, last.start);
  }

  /** From `last`, if the query sees exactly the incrementals later than `time`. */
  lemma {:induction false} RemainingFrom(table: Table, last: Dump, time: int)
    requires WellFormed(table) && last in table && CanResume(table, Some(last))
    requires IsFull(last) ==> PreviousToFullIncremental(table, last).None?
    requires forall d :: d in Ahead(table, last) <==> d in table && IsIncremental(d) && d.start > time
    ensures LaterIncrementals(table, time, Remaining(table, Some(last)))
    decreases Ahead(table, last)
  {
    var query := IncrementalFrom(table, last);
    if query.None? {
      assert Ahead(table, last) == {};
      assert Remaining(table, Some(last)) == [];
    } else {
      var d := query.value;
      AheadShrinks(table, last, d);
      assert d in Ahead(table, last);
      RemainingFrom(table, d, d.start);
      forall e | e in table && IsIncremental(e) && e.start > time && e != d ensures e.start > d.start {
        assert e in Ahead(table, last);
      }
      LaterIncrementalsStep(table, time, d, Remaining(table, Some(d)));
    }
  }

  lemma LaterIncrementalsStep(table: Table, time: int, d: Dump, rest: seq<Dump>)
    requires d in table && IsIncremental(d) && d.start > time
    requires forall e :: e in table && IsIncremental(e) && e.start > time && e != d ==> e.start > d.start
    requires LaterIncrementals(table, d.start, rest)
    ensures LaterIncrementals(table, time, (if d.files == [] then [] else [d]) + rest)
  {
    if d.files == [] {
      assert [] + rest == rest;
    } else {
      assert forall e :: e in rest ==> e.start > d.start;
    }
  }

  /** The order of a whole reindex: the latest full dump, the incremental just before it if there is one, then
      every later non-empty incremental; without a full dump, the oldest incremental and every later non-empty
      one. */
  ghost predicate ReindexOrder(table: Table, order: seq<Dump>) {
    if exists f :: f in table && IsFull(f) then
      && |order| > 0
      && order[0] in table && IsFull(order[0])
      && (forall f :: f in table && IsFull(f) ==> f.start <= order[0].start)
      && OrderAfterFull(table, order[0], order[1..])
    else if exists d :: d in table && IsIncremental(d) then
      && |order| > 0
      && order[0] in table && IsIncremental(order[0])
      && (forall d :: d in table && IsIncremental(d) ==> order[0].start <= d.start)
      && LaterIncrementals(table, order[0].start, order[1..])
    else order == []
  }

  ghost predicate OrderAfterFull(table: Table, full: Dump, order: seq<Dump>) {
    if exists d :: d in table && IsIncremental(d) && d.start < full.start then
      && |order| > 0
      && order[0] in table && IsIncremental(order[0]) && order[0].start < full.start
      && (forall d :: d in table && IsIncremental(d) && d.start < full.start ==> d.start <= order[0].start)
      && LaterIncrementals(table, order[0].start, order[1..])
    else LaterIncrementals(table, full.start - 1, order)
  }

  lemma RemainingIsReindexOrder(table: Table)
    requires WellFormed(table)
    ensures ReindexOrder(table, Remaining(table, None))
  {
    var order := Remaining(table, None);
    if RecentFullDump(table).Some? {
      var full := RecentFullDump(table).value;
      assert order[1..] == Remaining(table, Some(full));
      RemainingAfterFull(table, full);
    } else if FirstIncremental(table).Some? {
      var first := FirstIncremental(table).value;
      RemainingAfterIncremental(table, first);
      assert order[1..] == Remaining(table, Some(first));
    }
  }

  lemma RemainingAfterFull(table: Table, full: Dump)
    requires WellFormed(table) && full in table && IsFull(full)
    ensures OrderAfterFull(table, full, Remaining(table, Some(full)))
  {
    assert forall d :: d in table && IsIncremental(d) && d.start < full.start ==> Before(d, full);
    match PreviousToFullIncremental(table, full)
    case Some(before) =>
      RemainingAfterIncremental(table, before);
      assert Remaining(table, Some(full))[1..] == Remaining(table, Some(before));
    case None =>
      RemainingFrom(table, full, full.start - 1);
  }

  // ----- start ties: exactly when the chain of queries ends

  /** The query can be followed `steps` times. */
  predicate Continues(table: Table, last: Dump, steps: nat)
    decreases steps
  {
    steps > 0 ==>
      var next := IncrementalFrom(table, last);
      next.Some? && Continues(table, next.value, steps - 1)
  }

  predicate Tied(table: Table, a: Dump, b: Dump, time: int) {
    a in table && b in table && IsIncremental(a) && IsIncremental(b) && a.id != b.id &&
      a.start == b.start >= time
  }

  ghost predicate TieAhead(table: Table, time: int) {
    exists a, b :: Tied(table, a, b, time)
  }

  lemma TieSeen(table: Table, last: Dump, a: Dump, b: Dump) returns (next: Dump)
    requires Tied(table, a, b, last.start)
    ensures IncrementalFrom(table, last) == Some(next) && Tied(table, a, b, next.start)
  {
    assert NotBefore(if a.id != last.id then a else b, last);
    next := IncrementalFrom(table, last).value;
  }

  lemma {:induction false} TieNeverEnds(table: Table, last: Dump, a: Dump, b: Dump, steps: nat)
    requires Tied(table, a, b, last.start)
    ensures Continues(table, last, steps)
    decreases steps
  {
    if steps > 0 {
      var next := TieSeen(table, last, a, b);
      TieNeverEnds(table, next, a, b, steps - 1);
    }
  }

  ghost predicate Untied(table: Table, last: Dump) {
    UniqueIds(table) && last in table && !TieAhead(table, last.start)
  }

  lemma UntiedNext(table: Table, last: Dump, next: Dump)
    requires Untied(table, last) && IncrementalFrom(table, last) == Some(next)
    ensures Untied(table, next)
    ensures Ahead(table, next) < Ahead(table, last)
  {
    assert next in Ahead(table, last);
    forall e | e in Ahead(table, next) ensures e in Ahead(table, last) {
      assert e.id == last.id ==> Tied(table, e, next, last.start);
    }
    assert forall a, b :: Tied(table, a, b, next.start) ==> Tied(table, a, b, last.start);
  }

  lemma {:induction false} UntiedEnds(table: Table, last: Dump) returns (steps: nat)
    requires Untied(table, last)
    ensures !Continues(table, last, steps)
    decreases Ahead(table, last)
  {
    if IncrementalFrom(table, last).None? {
      steps := 1;
    } else {
      var next := IncrementalFrom(table, last).value;
      UntiedNext(table, last, next);
      var rest := UntiedEnds(table, next);
      steps := rest + 1;
    }
  }

  /** The chain of queries, which both the skipping recursion and the success callbacks follow, ends exactly
      when no two incrementals at or after the current position start at the same second. */
  lemma ChainEndsIffNoTie(table: Table, last: Dump)
    requires UniqueIds(table) && last in table
    ensures (exists steps :: !Continues(table, last, steps)) <==> !TieAhead(table, last.start)
  {
    if a, b :| Tied(table, a, b, last.start) {
      forall steps ensures Continues(table, last, steps) {
        TieNeverEnds(table, last, a, b, steps);
      }
    } else {
      var steps := UntiedEnds(table, last);
    }
  }

  /** Two incrementals with one start time send the query back and forth between them. */
  lemma TiedIncrementalsPingPong()
    ensures var a, b := Dump(1, ChangedRecords, 7, []), Dump(2, ChangedRecords, 7, []);
            IncrementalFrom([a, b], a) == Some(b) && IncrementalFrom([a, b], b) == Some(a)
  {
    var a, b := Dump(1, ChangedRecords, 7, []), Dump(2, ChangedRecords, 7, []);
    assert a in [a, b] && NotBefore(a, b);
    assert b in [a, b] && NotBefore(b, a);
  }
}
