/** What a whole catch-up after `reindex!` indexes, in what order, and what that leaves in Solr, for every
    interleaving of its steps and whatever dumps arrive meanwhile. */
module CatchUpOrder {
  import opened Wrappers
  import opened SolrIndex
  import opened DumpSelection
  import opened CatchUp
  import FileJobs

  /** The dump from which the next one is computed once the open batch, if any, succeeds. */
  function Resume(s: State): Option<Dump> {
    if s.row.current.Some? then s.row.current else s.row.last
  }

  /** Every step except a second `reindex!` that is not refused. */
  predicate Follows(s: State, a: Action) {
    a.Reindex? ==> s.row.inProgress
  }

  ghost predicate Following(s: State, acts: seq<Action>)
    requires Ready(s) && Valid(s, acts)
    decreases |acts|
  {
    acts == [] || (Follows(s, acts[0]) && Following(Step(s, acts[0]), acts[1..]))
  }

  /** An incremental that arrives when a later one has been batched already. */
  predicate IsLate(resume: Option<Dump>, d: Dump) {
    resume.Some? && IsIncremental(resume.value) && IsIncremental(d) && d.start < resume.value.start
  }

  function LateArrival(s: State, a: Action): set<Dump> {
    if a.Arrive? && IsLate(Resume(s), a.dump) then {a.dump} else {}
  }

  /** The incrementals that arrive late in a run. */
  ghost function Late(s: State, acts: seq<Action>): set<Dump>
    requires Ready(s) && Valid(s, acts)
    decreases |acts|
  {
    if acts == [] then {} else LateArrival(s, acts[0]) + Late(Step(s, acts[0]), acts[1..])
  }

  // ----- the order, stated without the steps

  /** The run began with a full dump and went back to an incremental before it. */
  predicate WentBack(done: seq<Dump>) {
    |done| > 1 && IsFull(done[0]) && done[1].start < done[0].start
  }

  /** What follows the one or two opening dumps. */
  function Rest(done: seq<Dump>): seq<Dump>
    requires done != []
  {
    if WentBack(done) then done[2..] else done[1..]
  }

  /** The incrementals later than this moment are the ones to take up after the opening. */
  function Since(done: seq<Dump>): int
    requires done != []
  {
    if WentBack(done) then done[1].start else if IsFull(done[0]) then done[0].start - 1 else done[0].start
  }

  function Reached(done: seq<Dump>): int
    requires done != []
  {
    var last := done[|done| - 1];
    if IsFull(last) then last.start - 1 else last.start
  }

  /** `d` was the next dump when the table, which only grows, was somewhere between its first `from` rows and
      now. */
  ghost predicate ChosenFrom(table: Table, from: nat, last: Option<Dump>, d: Dump) {
    exists n :: from <= n <= |table| && ChosenAt(table[..n], last, d)
  }

  ghost predicate ChosenAt(table: Table, last: Option<Dump>, d: Dump) {
    WellFormed(table) && CanResume(table, last) && NextDump(table, last).0 == Some(d)
  }

  /** The opening dumps were the choice of the selectors when they were batched. */
  ghost predicate Opening(table: Table, from: nat, done: seq<Dump>) {
    done != [] ==>
      && ChosenFrom(table, from, None, done[0])
      && (WentBack(done) ==> ChosenFrom(table, from, Some(done[0]), done[1]))
  }

  /** A full dump or an incremental first, then incrementals only, all in the table. */
  ghost predicate Shape(table: Table, done: seq<Dump>) {
    && (forall d :: d in done ==> d in table)
    && (forall i :: 0 <= i < |done| ==> IsIncremental(done[i]) || (i == 0 && IsFull(done[i])))
  }

  ghost predicate NoneIn(late: set<Dump>, done: seq<Dump>) {
    forall d :: d in done ==> d !in late
  }

  ghost predicate Behind(late: set<Dump>, to: int) {
    forall d :: d in late ==> d.start < to
  }

  /** Exactly the non-empty incrementals of the interval that were not late, oldest first, each once. */
  ghost predicate TimelyIncrementals(table: Table, late: set<Dump>, since: int, to: int, ds: seq<Dump>) {
    && Ascending(ds)
    && forall d :: d in ds <==>
         d in table && IsIncremental(d) && d.files != [] && d !in late && since < d.start <= to
  }

  /** Nothing in the table is older than what the run began with, except what was late. */
  ghost predicate NoneOlder(table: Table, late: set<Dump>, done: seq<Dump>)
    requires done != []
  {
    forall d :: d in table && IsIncremental(d) && d.start < done[0].start ==> d in late
  }

  ghost predicate OnlyFull(done: seq<Dump>) {
    |done| == 1 && IsFull(done[0])
  }

  /** What has been batched so far. */
  ghost predicate Track(table: Table, late: set<Dump>, done: seq<Dump>) {
    && WellFormed(table)
    && Shape(table, done)
    && NoneIn(late, done)
    && (done == [] || OnlyFull(done) ==> late == {})
    && (done != [] ==>
          && TimelyIncrementals(table, late, Since(done), Reached(done), Rest(done))
          && Since(done) <= Reached(done)
          && Behind(late, Reached(done))
          && (WentBack(done) || OnlyFull(done) || NoneOlder(table, late, done)))
  }

  function LastOf(done: seq<Dump>): Option<Dump> {
    if done == [] then None else Some(done[|done| - 1])
  }

  // ----- one more batch

  /** Skipping the empty ones, `next_incremental` finds the earliest non-empty dump of its query. */
  lemma {:induction false} NextIncrementalMeaning(table: Table, last: Dump)
    requires WellFormed(table) && last in table
    ensures var next := NextIncremental(table, last).0;
            && (next.Some? ==> NotBefore(next.value, last))
            && forall d :: d in table && NotBefore(d, last) && d.files != [] ==>
                 next.Some? && next.value.start <= d.start
    decreases Ahead(table, last)
  {
    var query := IncrementalFrom(table, last);
    if query.Some? {
      AheadShrinks(table, last, query.value);
      assert query.value in Ahead(table, last);
      if query.value.files == [] {
        NextIncrementalMeaning(table, query.value);
        AheadStep(table, last, query.value);
      }
    }
  }

  lemma AheadStep(table: Table, last: Dump, next: Dump)
    requires Ahead(table, next) == Ahead(table, last) - {next}
    ensures forall d :: d in table && NotBefore(d, last) && d != next ==> NotBefore(d, next)
    ensures forall d :: d in table && NotBefore(d, next) ==> NotBefore(d, last)
  {
    forall d | d in table && NotBefore(d, last) && d != next ensures NotBefore(d, next) {
      assert d in Ahead(table, last);
      assert d in Ahead(table, next);
    }
    forall d | d in table && NotBefore(d, next) ensures NotBefore(d, last) {
      assert d in Ahead(table, next);
    }
  }

  lemma TrackFirst(table: Table, late: set<Dump>, next: Dump)
    requires Track(table, late, []) && NextDump(table, None).0 == Some(next)
    ensures Track(table, late, [next])
  {
  }

  /** The earliest non-empty incremental beyond `to` extends what was taken up to there. */
  lemma TimelyNext(table: Table, late: set<Dump>, since: int, to: int, ds: seq<Dump>, next: Dump)
    requires WellFormed(table) && TimelyIncrementals(table, late, since, to, ds)
    requires next in table && IsIncremental(next) && next.files != [] && next !in late
    requires since <= to < next.start
    requires forall d :: d in table && IsIncremental(d) && d.files != [] && d.start > to ==>
             next.start <= d.start
    ensures TimelyIncrementals(table, late, since, next.start, ds + [next])
  {
    assert forall d :: d in ds + [next] <==> d in ds || d == next;
    assert forall d :: d in table && IsIncremental(d) && d.start == next.start ==> d == next;
  }

  lemma ShapeNext(table: Table, done: seq<Dump>, next: Dump)
    requires done != [] && Shape(table, done) && next in table && IsIncremental(next)
    ensures Shape(table, done + [next]) && (done + [next])[0] == done[0]
  {
  }

  lemma RestNext(done: seq<Dump>, next: Dump)
    requires done != [] && !(OnlyFull(done) && next.start < done[0].start)
    ensures WentBack(done + [next]) == WentBack(done) && Since(done + [next]) == Since(done)
    ensures Rest(done + [next]) == Rest(done) + [next]
  {
    assert |done| > 1 ==> (done + [next])[1] == done[1];
  }

  /** The earliest non-empty incremental beyond `to`. */
  ghost predicate FirstBeyond(table: Table, to: int, next: Dump) {
    && next in table && IsIncremental(next) && next.files != [] && next.start > to
    && forall d :: d in table && IsIncremental(d) && d.files != [] && d.start > to ==> next.start <= d.start
  }

  lemma TimelyRest(table: Table, late: set<Dump>, done: seq<Dump>, next: Dump)
    requires Track(table, late, done) && done != [] && FirstBeyond(table, Reached(done), next)
    requires OnlyFull(done) ==> next.start >= done[0].start
    ensures var more := done + [next]; TimelyIncrementals(table, late, Since(more), Reached(more), Rest(more))
    ensures var more := done + [next]; Since(more) <= Reached(more) && Behind(late, Reached(more))
  {
    RestNext(done, next);
    TimelyNext(table, late, Since(done), Reached(done), Rest(done), next);
  }

  lemma NoneInNext(late: set<Dump>, done: seq<Dump>, next: Dump)
    requires NoneIn(late, done) && next !in late
    ensures NoneIn(late, done + [next])
  {
  }

  /** `next_incremental` continues from where the run stands. */
  lemma TrackIncremental(table: Table, late: set<Dump>, done: seq<Dump>, next: Dump)
    requires Track(table, late, done) && done != [] && FirstBeyond(table, Reached(done), next)
    requires OnlyFull(done) ==> next.start >= done[0].start && NoneOlder(table, late, done)
    ensures Track(table, late, done + [next])
  {
    TimelyRest(table, late, done, next);
    RestNext(done, next);
    ShapeNext(table, done, next);
    NoneInNext(late, done, next);
  }

  lemma TrackBack(table: Table, late: set<Dump>, full: Dump, next: Dump)
    requires Track(table, late, [full]) && IsFull(full)
    requires PreviousToFullIncremental(table, full) == Some(next)
    ensures Track(table, late, [full, next])
  {
    assert [full][0] == full;
  }

  lemma TrackAfterFull(table: Table, late: set<Dump>, full: Dump, next: Dump)
    requires Track(table, late, [full]) && IsFull(full) && full in table
    requires PreviousToFullIncremental(table, full).None? && NextIncremental(table, full).0 == Some(next)
    ensures Track(table, late, [full] + [next])
  {
    NextIncrementalMeaning(table, full);
    assert [full][0] == full;
    forall d | d in table && IsIncremental(d) ensures d.start >= full.start && NotBefore(d, full) {
      assert !Before(d, full);
    }
    TrackIncremental(table, late, [full], next);
  }

  lemma TrackFull(table: Table, late: set<Dump>, full: Dump, next: Dump)
    requires Track(table, late, [full]) && IsFull(full) && full in table
    requires NextDump(table, Some(full)).0 == Some(next)
    ensures Track(table, late, [full] + [next])
  {
    if PreviousToFullIncremental(table, full).Some? {
      TrackBack(table, late, full, next);
      assert [full] + [next] == [full, next];
    } else {
      TrackAfterFull(table, late, full, next);
    }
  }

  lemma BeyondIncremental(table: Table, last: Dump, next: Dump)
    requires WellFormed(table) && last in table && IsIncremental(last)
    requires NextIncremental(table, last).0 == Some(next)
    ensures FirstBeyond(table, last.start, next)
  {
    NextIncrementalMeaning(table, last);
    assert NotBefore(next, last);
    forall d | d in table && IsIncremental(d) && d.files != [] && d.start > last.start
      ensures next.start <= d.start
    {
      assert NotBefore(d, last);
    }
  }

  lemma TrackLater(table: Table, late: set<Dump>, done: seq<Dump>, last: Dump, next: Dump)
    requires Track(table, late, done) && LastOf(done) == Some(last) && IsIncremental(last)
    requires last in table && NextIncremental(table, last).0 == Some(next)
    ensures Track(table, late, done + [next])
  {
    BeyondIncremental(table, last, next);
    TrackIncremental(table, late, done, next);
  }

  lemma TrackNext(table: Table, late: set<Dump>, done: seq<Dump>, next: Dump)
    requires Track(table, late, done) && CanResume(table, LastOf(done))
    requires NextDump(table, LastOf(done)).0 == Some(next)
    ensures Track(table, late, done + [next])
  {
    if done == [] {
      TrackFirst(table, late, next);
      assert [] + [next] == [next];
    } else if OnlyFull(done) {
      assert done == [done[0]];
      TrackFull(table, late, done[0], next);
    } else {
      TrackLater(table, late, done, done[|done| - 1], next);
    }
  }

  // ----- one more dump

  lemma TimelyArrive(
    table: Table, late: set<Dump>, now: set<Dump>, since: int, to: int, ds: seq<Dump>, d: Dump)
    requires TimelyIncrementals(table, late, since, to, ds) && d !in table && now <= {d}
    requires IsIncremental(d) ==> d in now || d.start <= since || d.start > to
    ensures TimelyIncrementals(table + [d], late + now, since, to, ds)
  {
    assert forall e :: e in table + [d] <==> e in table || e == d;
  }

  function Now(done: seq<Dump>, d: Dump): set<Dump> {
    if IsLate(LastOf(done), d) then {d} else {}
  }

  lemma LateArrive(table: Table, late: set<Dump>, done: seq<Dump>, d: Dump)
    requires Track(table, late, done) && done != [] && d !in table && WellFormed(table + [d])
    ensures Behind(late + Now(done, d), Reached(done))
    ensures OnlyFull(done) ==> late + Now(done, d) == {}
    ensures IsIncremental(d) ==> d in Now(done, d) || OnlyFull(done) || d.start > Reached(done)
  {
    var last := done[|done| - 1];
    assert last in table + [d] && d in table + [d];
    assert IsIncremental(d) && IsIncremental(last) ==> d.start != last.start;
  }

  lemma OlderArrive(table: Table, late: set<Dump>, done: seq<Dump>, d: Dump)
    requires done != [] && NoneOlder(table, late, done)
    requires IsIncremental(d) ==> d in Now(done, d) || d.start >= done[0].start
    ensures NoneOlder(table + [d], late + Now(done, d), done)
  {
  }

  lemma FirstReached(table: Table, late: set<Dump>, done: seq<Dump>)
    requires Track(table, late, done) && done != [] && !WentBack(done) && !OnlyFull(done)
    ensures done[0].start <= Reached(done)
  {
  }

  lemma ShapeArrive(table: Table, done: seq<Dump>, d: Dump)
    requires Shape(table, done)
    ensures Shape(table + [d], done)
  {
  }

  lemma NoneInArrive(table: Table, late: set<Dump>, done: seq<Dump>, d: Dump)
    requires Shape(table, done) && NoneIn(late, done) && d !in table
    ensures NoneIn(late + Now(done, d), done)
  {
  }

  lemma TrackArrive(table: Table, late: set<Dump>, done: seq<Dump>, d: Dump)
    requires Track(table, late, done) && d !in table && WellFormed(table + [d])
    ensures Track(table + [d], late + Now(done, d), done)
  {
    ShapeArrive(table, done, d);
    NoneInArrive(table, late, done, d);
    if done != [] {
      LateArrive(table, late, done, d);
      TimelyArrive(table, late, Now(done, d), Since(done), Reached(done), Rest(done), d);
      if !WentBack(done) && !OnlyFull(done) {
        FirstReached(table, late, done);
        OlderArrive(table, late, done, d);
      }
    }
  }

  // ----- every step

  ghost predicate SameBatches(s: State, t: State) {
    t.table == s.table && t.batched == s.batched && Resume(t) == Resume(s)
  }

  ghost predicate TakesNext(s: State, t: State) {
    && WellFormed(s.table) && CanResume(s.table, Resume(s))
    && var next := NextDump(s.table, Resume(s)).0;
       next.Some? && t.table == s.table && t.batched == s.batched + [next.value] && Resume(t) == next
  }

  lemma StartTakes(s: State)
    requires Invariant(s)
    ensures SameBatches(s, StartCatchUp(s)) || TakesNext(s, StartCatchUp(s))
  {
    if !s.row.inProgress && NextDump(s.table, s.row.last).0.Some? { StartCatchUpOpensNext(s); }
  }

  lemma StepTakes(s: State, a: Action)
    requires Invariant(s) && Enabled(s, a) && Follows(s, a) && !a.Arrive?
    ensures SameBatches(s, Step(s, a)) || TakesNext(s, Step(s, a))
  {
    match a
    case IndexRemaining => StartTakes(s);
    case BatchSuccess(b) => FinishBatchKeeps(s, b);
    case _ =>
  }

  /** Since the `reindex!` that found `start` batches opened, the run is on track. */
  ghost predicate OnTrack(s: State, start: nat, late: set<Dump>) {
    && start <= |s.batched|
    && Resume(s) == LastOf(s.batched[start..])
    && Track(s.table, late, s.batched[start..])
  }

  lemma DropAppend(xs: seq<Dump>, x: Dump, start: nat)
    requires start <= |xs|
    ensures (xs + [x])[start..] == xs[start..] + [x]
  {
  }

  lemma TakesKeepsTrack(s: State, t: State, start: nat, late: set<Dump>)
    requires OnTrack(s, start, late) && TakesNext(s, t)
    ensures OnTrack(t, start, late)
  {
    var next := Resume(t).value;
    DropAppend(s.batched, next, start);
    TrackNext(s.table, late, s.batched[start..], next);
  }

  lemma ArriveKeepsTrack(s: State, d: Dump, start: nat, late: set<Dump>)
    requires OnTrack(s, start, late) && d !in s.table && WellFormed(s.table + [d])
    ensures OnTrack(s.(table := s.table + [d]), start, late + LateArrival(s, Arrive(d)))
  {
    TrackArrive(s.table, late, s.batched[start..], d);
  }

  lemma NoneAdded(late: set<Dump>)
    ensures late + {} == late && {} + late == late
  {
  }

  lemma StepKeepsTrack(s: State, a: Action, start: nat, late: set<Dump>)
    requires Invariant(s) && OnTrack(s, start, late) && Enabled(s, a) && Follows(s, a)
    ensures OnTrack(Step(s, a), start, late + LateArrival(s, a))
  {
    if a.Arrive? {
      ArriveKeepsTrack(s, a.dump, start, late);
    } else {
      StepTakes(s, a);
      NoneAdded(late);
      if TakesNext(s, Step(s, a)) { TakesKeepsTrack(s, Step(s, a), start, late); }
    }
  }

  lemma ReindexOnTrack(s: State)
    requires Invariant(s) && !s.row.inProgress
    ensures Invariant(StartReindex(s)) && OnTrack(StartReindex(s), |s.batched|, {})
  {
    var wiped := s.(row := s.row.(last := None), solr := map[]);
    StartTakes(wiped);
    StartCatchUpKeeps(wiped);
    if TakesNext(wiped, StartReindex(s)) { TakesKeepsTrack(wiped, StartReindex(s), |s.batched|, {}); }
  }

  lemma UnionAssociates(a: set<Dump>, b: set<Dump>, c: set<Dump>)
    ensures (a + b) + c == a + (b + c)
  {
  }

  lemma {:induction false} RunKeepsTrack(s: State, acts: seq<Action>, start: nat, late: set<Dump>)
    requires Invariant(s) && OnTrack(s, start, late) && Valid(s, acts) && Following(s, acts)
    ensures Invariant(Run(s, acts)) && OnTrack(Run(s, acts), start, late + Late(s, acts))
    decreases |acts|
  {
    if acts == [] {
      NoneAdded(late);
    } else {
      var now := LateArrival(s, acts[0]);
      StepKeepsInvariant(s, acts[0]);
      StepKeepsTrack(s, acts[0], start, late);
      RunKeepsTrack(Step(s, acts[0]), acts[1..], start, late + now);
      UnionAssociates(late, now, Late(Step(s, acts[0]), acts[1..]));
    }
  }

  // ----- how the run opened

  lemma ChosenNow(table: Table, from: nat, last: Option<Dump>, d: Dump)
    requires from <= |table| && ChosenAt(table, last, d)
    ensures ChosenFrom(table, from, last, d)
  {
    assert table[..|table|] == table;
  }

  lemma ChosenStill(table: Table, from: nat, last: Option<Dump>, d: Dump, more: Dump)
    requires ChosenFrom(table, from, last, d)
    ensures ChosenFrom(table + [more], from, last, d)
  {
    var n :| from <= n <= |table| && ChosenAt(table[..n], last, d);
    assert (table + [more])[..n] == table[..n];
  }

  lemma OpeningArrive(table: Table, from: nat, done: seq<Dump>, d: Dump)
    requires Opening(table, from, done)
    ensures Opening(table + [d], from, done)
  {
    if done != [] {
      ChosenStill(table, from, None, done[0], d);
      if WentBack(done) { ChosenStill(table, from, Some(done[0]), done[1], d); }
    }
  }

  lemma OpeningNext(table: Table, from: nat, done: seq<Dump>, next: Dump)
    requires from <= |table| && Opening(table, from, done) && ChosenAt(table, LastOf(done), next)
    ensures Opening(table, from, done + [next])
  {
    ChosenNow(table, from, LastOf(done), next);
    if done != [] {
      assert (done + [next])[0] == done[0];
      assert |done| > 1 ==> (done + [next])[1] == done[1];
    }
  }

  ghost predicate Opened(s: State, start: nat, from: nat) {
    && start <= |s.batched| && from <= |s.table|
    && Resume(s) == LastOf(s.batched[start..])
    && Opening(s.table, from, s.batched[start..])
  }

  lemma TakesKeepsOpened(s: State, t: State, start: nat, from: nat)
    requires Opened(s, start, from) && TakesNext(s, t)
    ensures Opened(t, start, from)
  {
    DropAppend(s.batched, Resume(t).value, start);
    OpeningNext(s.table, from, s.batched[start..], Resume(t).value);
  }

  lemma StepKeepsOpened(s: State, a: Action, start: nat, from: nat)
    requires Invariant(s) && Opened(s, start, from) && Enabled(s, a) && Follows(s, a)
    ensures Opened(Step(s, a), start, from)
  {
    if a.Arrive? {
      OpeningArrive(s.table, from, s.batched[start..], a.dump);
    } else {
      StepTakes(s, a);
      if TakesNext(s, Step(s, a)) { TakesKeepsOpened(s, Step(s, a), start, from); }
    }
  }

  lemma ReindexOpened(s: State)
    requires Invariant(s) && !s.row.inProgress
    ensures Opened(StartReindex(s), |s.batched|, |s.table|)
  {
    var wiped := s.(row := s.row.(last := None), solr := map[]);
    StartTakes(wiped);
    if TakesNext(wiped, StartReindex(s)) { TakesKeepsOpened(wiped, StartReindex(s), |s.batched|, |s.table|); }
  }

  lemma {:induction false} RunKeepsOpened(s: State, acts: seq<Action>, start: nat, from: nat)
    requires Invariant(s) && Opened(s, start, from) && Valid(s, acts) && Following(s, acts)
    ensures Opened(Run(s, acts), start, from) && s.table <= Run(s, acts).table
    decreases |acts|
  {
    if acts != [] {
      StepKeepsInvariant(s, acts[0]);
      StepKeepsOpened(s, acts[0], start, from);
      StepGrows(s, acts[0]);
      RunKeepsOpened(Step(s, acts[0]), acts[1..], start, from);
    }
  }

  lemma StepGrows(s: State, a: Action)
    requires Ready(s) && Enabled(s, a)
    ensures s.table <= Step(s, a).table
  {
  }

  /** The manager is idle and `next_dump` finds nothing. */
  ghost predicate CaughtUp(s: State)
    requires Ready(s)
  {
    s.open == [] && NextDump(s.table, s.row.last).0.None?
  }

  /** All of the table is taken: nothing only when there was nothing to choose; otherwise, after the opening,
      exactly the non-empty incrementals that start later and were not late, oldest first, each once. None of
      the late ones is taken. */
  ghost predicate WholeOrder(table: Table, late: set<Dump>, done: seq<Dump>) {
    if done == [] then forall d :: d in table ==> !IsFull(d) && !IsIncremental(d)
    else
      && Shape(table, done)
      && NoneIn(late, done)
      && Ascending(Rest(done))
      && (forall d :: d in Rest(done) <==>
            d in table && IsIncremental(d) && d.files != [] && d !in late && d.start > Since(done))
      && (WentBack(done) || NoneOlder(table, late, done))
  }

  lemma AllTaken(table: Table, late: set<Dump>, done: seq<Dump>)
    requires done != [] && TimelyIncrementals(table, late, Since(done), Reached(done), Rest(done))
    requires forall d :: d in table && IsIncremental(d) && d.files != [] ==> d.start <= Reached(done)
    ensures forall d :: d in Rest(done) <==>
              d in table && IsIncremental(d) && d.files != [] && d !in late && d.start > Since(done)
  {
  }

  lemma NothingBeyond(table: Table, late: set<Dump>, done: seq<Dump>, last: Dump)
    requires Track(table, late, done) && LastOf(done) == Some(last) && CanResume(table, Some(last))
    requires NextDump(table, Some(last)).0.None?
    ensures forall d :: d in table && IsIncremental(d) && d.files != [] ==> d.start <= Reached(done)
    ensures WentBack(done) || NoneOlder(table, late, done)
  {
    NextIncrementalMeaning(table, last);
    if IsFull(last) {
      forall d | d in table && IsIncremental(d) ensures d.start >= last.start && NotBefore(d, last) {
        assert !Before(d, last);
      }
    } else {
      assert forall d :: d in table && IsIncremental(d) && d.start > last.start ==> NotBefore(d, last);
    }
  }

  lemma TrackEnd(table: Table, late: set<Dump>, done: seq<Dump>)
    requires Track(table, late, done) && CanResume(table, LastOf(done))
    requires NextDump(table, LastOf(done)).0.None?
    ensures WholeOrder(table, late, done)
  {
    if done != [] {
      NothingBeyond(table, late, done, done[|done| - 1]);
      AllTaken(table, late, done);
    }
  }

  /** Whatever dumps arrive during a reindex, in whatever order: once the manager is caught up, the batches it
      has opened since are the whole order, without the late incrementals, and they open as chosen at the
      time. */
  lemma CaughtUpOrder(s: State, acts: seq<Action>)
    requires Invariant(s) && !s.row.inProgress
    requires Valid(StartReindex(s), acts) && Following(StartReindex(s), acts)
    requires CaughtUp(Run(StartReindex(s), acts))
    ensures var t := Run(StartReindex(s), acts);
            && |s.batched| <= |t.batched| && s.table <= t.table
            && WholeOrder(t.table, Late(StartReindex(s), acts), t.batched[|s.batched|..])
            && Opening(t.table, |s.table|, t.batched[|s.batched|..])
  {
    ReindexTracked(s, acts);
    ReindexOpens(s, acts);
    AtEnd(s, Run(StartReindex(s), acts), Late(StartReindex(s), acts));
  }

  lemma ReindexTracked(s: State, acts: seq<Action>)
    requires Invariant(s) && !s.row.inProgress
    requires Valid(StartReindex(s), acts) && Following(StartReindex(s), acts)
    ensures var t := Run(StartReindex(s), acts);
            Invariant(t) && OnTrack(t, |s.batched|, Late(StartReindex(s), acts))
  {
    ReindexOnTrack(s);
    RunKeepsTrack(StartReindex(s), acts, |s.batched|, {});
    NoneAdded(Late(StartReindex(s), acts));
  }

  lemma ReindexOpens(s: State, acts: seq<Action>)
    requires Invariant(s) && !s.row.inProgress
    requires Valid(StartReindex(s), acts) && Following(StartReindex(s), acts)
    ensures var t := Run(StartReindex(s), acts);
            StartReindex(s).table == s.table <= t.table && Opened(t, |s.batched|, |s.table|)
  {
    StepKeepsInvariant(s, Reindex);
    ReindexOpened(s);
    RunKeepsOpened(StartReindex(s), acts, |s.batched|, |s.table|);
  }

  lemma AtEnd(s: State, t: State, late: set<Dump>)
    requires Invariant(t) && OnTrack(t, |s.batched|, late) && CaughtUp(t)
    ensures WholeOrder(t.table, late, t.batched[|s.batched|..])
  {
    TrackEnd(t.table, late, t.batched[|s.batched|..]);
  }

  ghost predicate NoneLate(table: Table, late: set<Dump>, done: seq<Dump>)
    requires done != []
  {
    forall d :: d in table && d in late && IsIncremental(d) && d.files != [] ==> d.start <= Since(done)
  }

  /** No full dump newer than the one begun with, no incremental that would have been chosen to open with, and
      no late one with files after the opening. */
  ghost predicate Undisturbed(table: Table, late: set<Dump>, done: seq<Dump>) {
    done != [] ==>
      && (forall f :: f in table && IsFull(f) ==> IsFull(done[0]) && f.start <= done[0].start)
      && (forall d :: d in table && IsIncremental(d) && d.start < done[0].start ==>
            WentBack(done) && d.start <= done[1].start)
      && NoneLate(table, late, done)
  }

  lemma LaterIffNoneLate(table: Table, late: set<Dump>, done: seq<Dump>)
    requires done != [] && WholeOrder(table, late, done)
    ensures LaterIncrementals(table, Since(done), Rest(done)) <==> NoneLate(table, late, done)
  {
    if !NoneLate(table, late, done) {
      var d :| d in table && d in late && IsIncremental(d) && d.files != [] && d.start > Since(done);
      assert d !in Rest(done);
    }
  }

  lemma BegunWithIncremental(table: Table, done: seq<Dump>)
    requires done != [] && done[0] in table && IsIncremental(done[0]) && !IsFull(done[0])
    ensures ReindexOrder(table, done) <==>
            && (forall f :: f in table ==> !IsFull(f))
            && (forall d :: d in table && IsIncremental(d) ==> d.start >= done[0].start)
            && LaterIncrementals(table, Since(done), Rest(done))
  {
    assert Rest(done) == done[1..];
  }

  lemma BegunWithFull(table: Table, done: seq<Dump>)
    requires done != [] && IsFull(done[0]) && !WentBack(done)
    ensures OrderAfterFull(table, done[0], done[1..]) <==>
            && (forall d :: d in table && IsIncremental(d) ==> d.start >= done[0].start)
            && LaterIncrementals(table, Since(done), Rest(done))
  {
    assert Rest(done) == done[1..];
    assert |done| > 1 ==> done[1..][0] == done[1];
  }

  lemma WentBackFromFull(table: Table, done: seq<Dump>)
    requires WentBack(done) && done[1] in table && IsIncremental(done[1])
    ensures OrderAfterFull(table, done[0], done[1..]) <==>
            && (forall d :: d in table && IsIncremental(d) && d.start < done[0].start ==>
                  d.start <= done[1].start)
            && LaterIncrementals(table, Since(done), Rest(done))
  {
    assert done[1..][0] == done[1] && done[1..][1..] == Rest(done);
  }

  /** Exactly when what arrived meanwhile leaves the order as it would be had everything been there from the
      start. */
  lemma ReindexOrderIffUndisturbed(table: Table, late: set<Dump>, done: seq<Dump>)
    requires WholeOrder(table, late, done)
    ensures ReindexOrder(table, done) <==> Undisturbed(table, late, done)
  {
    if done != [] {
      assert done[0] in done;
      LaterIffNoneLate(table, late, done);
      if !IsFull(done[0]) {
        BegunWithIncremental(table, done);
      } else if WentBack(done) {
        assert done[1] in done;
        WentBackFromFull(table, done);
      } else {
        BegunWithFull(table, done);
      }
    }
  }

  // ----- a late incremental

  const ON_TIME := Dump(1, ChangedRecords, 10, [])
  const TOO_LATE := Dump(2, ChangedRecords, 5, [[[Live("7", "new")]]])
  const IDLE: State := State([ON_TIME], Row(None, None, false), 0, [], map[], [], [])
  const OPENED: State := State(
    [ON_TIME], Row(None, Some(ON_TIME), true), 1, [Batch(ON_TIME, [], true)], map[], [ON_TIME], [])
  const FINISHED: State := OPENED.(
    table := [ON_TIME, TOO_LATE], row := Row(Some(ON_TIME), None, true), open := [], completed := [ON_TIME])
  const MISSING: seq<Action> := [Arrive(TOO_LATE), BatchSuccess(0), OverallSuccess]

  lemma FirstIsOnTime()
    ensures Invariant(IDLE) && NextDump(IDLE.table, None) == (Some(ON_TIME), None)
  {
    assert ON_TIME in IDLE.table;
  }

  lemma OpenedByReindex()
    ensures Invariant(IDLE) && StartReindex(IDLE) == OPENED
  {
    FirstIsOnTime();
    StartCatchUpOpensNext(IDLE);
    assert seq(|ON_TIME.files|, _ => FileJobs.FRESH) == [];
  }

  lemma NothingAfterOnTime()
    ensures var table := [ON_TIME, TOO_LATE];
            WellFormed(table) && CanResume(table, Some(ON_TIME)) && NextDump(table, Some(ON_TIME)).0.None?
  {
    var table := [ON_TIME, TOO_LATE];
    assert table[0] == ON_TIME;
    assert IncrementalFrom(table, ON_TIME).None?;
  }

  lemma FinishedAfterArrival()
    ensures Ready(OPENED) && Enabled(OPENED, Arrive(TOO_LATE))
    ensures var s := Step(OPENED, Arrive(TOO_LATE));
            Enabled(s, BatchSuccess(0)) && Step(s, BatchSuccess(0)) == FINISHED
  {
    OpenedByReindex();
    NothingAfterOnTime();
    assert OPENED.table + [TOO_LATE] == [ON_TIME, TOO_LATE];
    assert OPENED.open[..0] + OPENED.open[0 + 1..] == [];
    assert OPENED.completed + [ON_TIME] == [ON_TIME];
  }

  /** A reindex can be caught up and leave out for good an incremental with files. */
  lemma LateIncrementalMissed()
    ensures Invariant(IDLE) && !IDLE.row.inProgress && Valid(StartReindex(IDLE), MISSING)
    ensures var t := Run(StartReindex(IDLE), MISSING);
            CaughtUp(t) && TOO_LATE in t.table && t.batched == [ON_TIME] && t.solr == map[]
  {
    OpenedByReindex();
    FinishedAfterArrival();
    NothingAfterOnTime();
    ThreeSteps(
      OPENED, Arrive(TOO_LATE), BatchSuccess(0), OverallSuccess, Step(OPENED, Arrive(TOO_LATE)), FINISHED);
    assert TOO_LATE in [ON_TIME, TOO_LATE];
  }

  lemma OneStep(s: State, a: Action, rest: seq<Action>, acts: seq<Action>, t: State)
    requires Ready(s) && Enabled(s, a) && Step(s, a) == t && Valid(t, rest)
    requires acts != [] && acts[0] == a && acts[1..] == rest
    ensures Valid(s, acts) && Run(s, acts) == Run(t, rest)
  {
  }

  lemma TwoSteps(s: State, a: Action, b: Action, t: State)
    requires Ready(s) && Enabled(s, a) && Step(s, a) == t && Enabled(t, b)
    ensures Valid(s, [a, b]) && Run(s, [a, b]) == Step(t, b)
  {
    OneStep(t, b, [], [b], Step(t, b));
    OneStep(s, a, [b], [a, b], t);
  }

  lemma ThreeSteps(s: State, a: Action, b: Action, c: Action, u: State, t: State)
    requires Ready(s) && Enabled(s, a) && Step(s, a) == u
    requires Enabled(u, b) && Step(u, b) == t && Enabled(t, c)
    ensures Valid(s, [a, b, c]) && Run(s, [a, b, c]) == Step(t, c)
  {
    TwoSteps(u, b, c, t);
    OneStep(s, a, [b, c], [a, b, c], u);
  }

  // ----- what Solr holds

  function Replay(dumps: seq<Dump>): Index {
    if dumps == [] then map[] else Apply(FilesPatch(dumps[|dumps| - 1].files), Replay(dumps[..|dumps| - 1]))
  }

  ghost predicate FilesAgree(table: Table) {
    forall d :: d in table ==> FileJobs.Agree(FileJobs.Jobs(d.files))
  }

  /** Solr holds the replay of the finished dumps, or is on the way from there to the replay of the one in
      progress. */
  ghost predicate Replays(open: seq<Batch>, solr: Index, done: seq<Dump>) {
    if open == [] then solr == Replay(done)
    else
      && done != []
      && FileJobs.Invariant(JobsOf(open[0]), Replay(done[..|done| - 1]), Working(open[0], solr))
  }

  ghost predicate SolrOnTrack(s: State, start: nat) {
    && Invariant(s)
    && start <= |s.batched|
    && FilesAgree(s.table)
    && Replays(s.open, s.solr, s.batched[start..])
  }

  /** Steps that leave the table alone or add a dump whose files agree. */
  ghost predicate FollowsSoundly(s: State, a: Action) {
    Follows(s, a) && (a.Arrive? ==> FileJobs.Agree(FileJobs.Jobs(a.dump.files)))
  }

  lemma ReplaysNext(solr: Index, done: seq<Dump>, b: Batch)
    requires solr == Replay(done) && b.progress == seq(|b.dump.files|, _ => FileJobs.FRESH)
    ensures Replays([b], solr, done + [b.dump])
  {
    assert (done + [b.dump])[..|done + [b.dump]| - 1] == done;
    FileJobs.StartInvariant(JobsOf(b), solr);
    assert Working(b, solr) == FileJobs.Start(JobsOf(b), solr);
  }

  lemma ReplaysFinished(b: Batch, solr: Index, done: seq<Dump>)
    requires Replays([b], solr, done) && done[|done| - 1] == b.dump
    requires |b.progress| == |b.dump.files| && FileJobs.AllFinished(JobsOf(b), Working(b, solr))
    requires FileJobs.Agree(JobsOf(b))
    ensures solr == Replay(done)
  {
    FileJobs.FinishedIsReplay(JobsOf(b), Replay(done[..|done| - 1]), Working(b, solr));
    FileJobs.JobsPatchIsFilesPatch(b.dump.files);
  }

  lemma StartKeepsSolr(s: State, start: nat)
    requires SolrOnTrack(s, start)
    ensures SolrOnTrack(StartCatchUp(s), start)
  {
    StartCatchUpKeeps(s);
    var next := NextDump(s.table, s.row.last).0;
    if !s.row.inProgress && next.Some? {
      StartCatchUpOpensNext(s);
      DropAppend(s.batched, next.value, start);
      ReplaysNext(s.solr, s.batched[start..], StartCatchUp(s).open[0]);
    }
  }

  lemma FinishKeepsSolr(s: State, b: nat, start: nat)
    requires SolrOnTrack(s, start) && Enabled(s, BatchSuccess(b))
    ensures SolrOnTrack(FinishBatch(s, b), start)
  {
    FinishBatchKeeps(s, b);
    var d := s.open[b].dump;
    assert s.open == [s.open[0]];
    assert s.batched[start..][|s.batched[start..]| - 1] == d;
    ReplaysFinished(s.open[0], s.solr, s.batched[start..]);
    var next := NextDump(s.table, Some(d)).0;
    if next.Some? {
      DropAppend(s.batched, next.value, start);
      ReplaysNext(s.solr, s.batched[start..], FinishBatch(s, b).open[0]);
    }
  }

  lemma JobKeepsReplays(s: State, b: nat, a: FileJobs.Action, done: seq<Dump>)
    requires Invariant(s) && Enabled(s, Job(b, a)) && Replays(s.open, s.solr, done)
    ensures Replays(JobStep(s, b, a).open, JobStep(s, b, a).solr, done)
  {
    FileJobs.StepInvariant(JobsOf(s.open[0]), Replay(done[..|done| - 1]), Working(s.open[0], s.solr), a);
  }

  lemma StepKeepsSolr(s: State, a: Action, start: nat)
    requires SolrOnTrack(s, start) && Enabled(s, a) && FollowsSoundly(s, a)
    ensures SolrOnTrack(Step(s, a), start)
  {
    StepKeepsInvariant(s, a);
    match a
    case IndexRemaining => StartKeepsSolr(s, start);
    case BatchSuccess(b) => FinishKeepsSolr(s, b, start);
    case Job(b, action) => JobKeepsReplays(s, b, action, s.batched[start..]);
    case _ =>
  }

  ghost predicate FollowingSoundly(s: State, acts: seq<Action>)
    requires Ready(s) && Valid(s, acts)
    decreases |acts|
  {
    acts == [] || (FollowsSoundly(s, acts[0]) && FollowingSoundly(Step(s, acts[0]), acts[1..]))
  }

  lemma {:induction false} RunKeepsSolr(s: State, acts: seq<Action>, start: nat)
    requires SolrOnTrack(s, start) && Valid(s, acts) && FollowingSoundly(s, acts)
    ensures SolrOnTrack(Run(s, acts), start) && Following(s, acts)
    decreases |acts|
  {
    if acts != [] {
      StepKeepsSolr(s, acts[0], start);
      RunKeepsSolr(Step(s, acts[0]), acts[1..], start);
    }
  }

  /** ... and Solr holds what reading those dumps one after another gives. */
  lemma CaughtUpSolr(s: State, acts: seq<Action>)
    requires Invariant(s) && !s.row.inProgress && FilesAgree(s.table)
    requires Valid(StartReindex(s), acts) && FollowingSoundly(StartReindex(s), acts)
    requires CaughtUp(Run(StartReindex(s), acts))
    ensures var t := Run(StartReindex(s), acts);
            && |s.batched| <= |t.batched| && s.table <= t.table
            && WholeOrder(t.table, Late(StartReindex(s), acts), t.batched[|s.batched|..])
            && Opening(t.table, |s.table|, t.batched[|s.batched|..])
            && t.solr == Replay(t.batched[|s.batched|..])
  {
    StartKeepsSolr(s.(row := s.row.(last := None), solr := map[]), |s.batched|);
    RunKeepsSolr(StartReindex(s), acts, |s.batched|);
    CaughtUpOrder(s, acts);
  }
}
