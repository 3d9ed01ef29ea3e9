/** Every catch-up ends: every step uses up one unit of a work measure, a crash gives back at most the work of
    its own file, an arriving dump adds at most its own, triggers meanwhile change nothing, and while the
    manager is in progress some step can always be taken. Where a catch-up ends it has taken up everything,
    except dumps that arrived after its last batch. */
module CatchUpTermination {
  import opened Wrappers
  import opened SolrIndex
  import opened DumpSelection
  import opened CatchUp
  import opened CatchUpOrder
  import FileJobs

  /** Requests to send and phases to close, from phase `k` on. */
  function WorkFrom(job: Job, k: nat): nat
    decreases |job| - k
  {
    if k >= |job| then 0 else |job[k]| + 1 + WorkFrom(job, k + 1)
  }

  function JobWork(job: Job, p: FileJobs.Progress): int {
    WorkFrom(job, p.phase) - |p.sent|
  }

  function JobsWork(jobs: seq<Job>, progress: seq<FileJobs.Progress>): int
    requires |jobs| == |progress|
  {
    if jobs == [] then 0
    else
      JobsWork(jobs[..|jobs| - 1], progress[..|jobs| - 1])
      + JobWork(jobs[|jobs| - 1], progress[|jobs| - 1])
  }

  function BatchWork(b: Batch): int
    requires |b.progress| == |b.dump.files|
  {
    JobsWork(JobsOf(b), b.progress) + 1
  }

  function FreshBatchWork(d: Dump): int {
    JobsWork(FileJobs.Jobs(d.files), seq(|d.files|, _ => FileJobs.FRESH)) + 1
  }

  function DumpsWork(dumps: seq<Dump>): int {
    if dumps == [] then 0 else FreshBatchWork(dumps[0]) + DumpsWork(dumps[1..])
  }

  /** Everything left to do: open batches, the dumps still to come, and the overall callback. */
  ghost function Work(s: State): int
    requires Invariant(s)
  {
    if s.open == [] then
      s.overalls + (if s.row.inProgress then DumpsWork(Remaining(s.table, s.row.last)) else 0)
    else s.overalls + BatchWork(s.open[0]) + DumpsWork(Remaining(s.table, s.row.current))
  }

  lemma {:induction false} SubsetSize(sent: set<nat>, n: nat)
    requires forall i :: i in sent ==> i < n
    ensures |sent| <= n
  {
    if n > 0 {
      SubsetSize(sent - {n - 1}, n - 1);
    } else {
      assert sent == {};
    }
  }

  lemma JobWorkNatural(job: Job, p: FileJobs.Progress)
    requires p.phase <= |job| && (p.phase == |job| ==> p.sent == {})
    requires p.phase < |job| ==> forall i :: i in p.sent ==> i < |job[p.phase]|
    ensures JobWork(job, p) >= 0
    ensures p.phase < |job| ==> JobWork(job, p) > 0
  {
    if p.phase < |job| { SubsetSize(p.sent, |job[p.phase]|); }
  }

  lemma {:induction false} JobsWorkNatural(jobs: seq<Job>, progress: seq<FileJobs.Progress>, solr: Index)
    requires FileJobs.Fits(jobs, FileJobs.State(progress, solr))
    ensures JobsWork(jobs, progress) >= 0
  {
    if jobs != [] {
      var n := |jobs| - 1;
      JobWorkNatural(jobs[n], progress[n]);
      JobsWorkNatural(jobs[..n], progress[..n], solr);
    }
  }

  lemma {:induction false} JobsWorkFinished(jobs: seq<Job>, progress: seq<FileJobs.Progress>, solr: Index)
    requires FileJobs.Fits(jobs, FileJobs.State(progress, solr))
    requires FileJobs.AllFinished(jobs, FileJobs.State(progress, solr))
    ensures JobsWork(jobs, progress) == 0
  {
    if jobs != [] {
      var n := |jobs| - 1;
      assert FileJobs.Finished(jobs[n], progress[n]);
      forall f | 0 <= f < n ensures FileJobs.Finished(jobs[..n][f], progress[..n][f]) {
        assert FileJobs.Finished(jobs[f], progress[f]);
      }
      JobsWorkFinished(jobs[..n], progress[..n], solr);
    }
  }

  lemma {:induction false} JobsWorkUpdate(
    jobs: seq<Job>, progress: seq<FileJobs.Progress>, f: nat, p: FileJobs.Progress)
    requires |jobs| == |progress| && f < |jobs|
    ensures JobsWork(jobs, progress[f := p]) ==
            JobsWork(jobs, progress) - JobWork(jobs[f], progress[f]) + JobWork(jobs[f], p)
  {
    var n := |jobs| - 1;
    if f == n {
      assert progress[f := p][..n] == progress[..n];
    } else {
      assert progress[f := p][..n] == progress[..n][f := p];
      JobsWorkUpdate(jobs[..n], progress[..n], f, p);
    }
  }

  /** One unit per request or phase; a crash gives back no more than the whole file. */
  lemma JobStepWork(jobs: seq<Job>, s: FileJobs.State, a: FileJobs.Action)
    requires FileJobs.Fits(jobs, s) && FileJobs.Enabled(jobs, s, a)
    ensures var t := FileJobs.Step(jobs, s, a);
            JobsWork(jobs, t.progress) ==
            JobsWork(jobs, s.progress)
            - (if a.Crash? then JobWork(jobs[a.job], s.progress[a.job]) - WorkFrom(jobs[a.job], 0) else 1)
  {
    var p, job := s.progress[a.job], jobs[a.job];
    JobsWorkUpdate(jobs, s.progress, a.job, FileJobs.Step(jobs, s, a).progress[a.job]);
    if a.Advance? {
      assert p.sent == FileJobs.UpTo(|job[p.phase]|);
      UpToSize(|job[p.phase]|);
    }
  }

  lemma {:induction false} UpToSize(n: nat)
    ensures |FileJobs.UpTo(n)| == n
  {
    if n > 0 { UpToSize(n - 1); }
  }

  predicate Internal(a: Action) {
    a.Job? || a.BatchSuccess? || a.OverallSuccess?
  }

  predicate IsCrash(a: Action) {
    a.Job? && a.action.Crash?
  }

  /** The work a step may give back: nothing, unless it is a crash. */
  function GivenBack(s: State, a: Action): nat
    requires a.Job? ==> a.batch < |s.open| && a.action.job < |s.open[a.batch].dump.files|
  {
    if IsCrash(a) then 1 + WorkFrom(JobsOf(s.open[a.batch])[a.action.job], 0) else 0
  }

  lemma NextWork(table: Table, last: Option<Dump>)
    requires WellFormed(table) && CanResume(table, last)
    ensures var next := NextDump(table, last).0;
            DumpsWork(Remaining(table, last)) ==
            if next.None? then 0 else FreshBatchWork(next.value) + DumpsWork(Remaining(table, next))
  {
    var next := NextDump(table, last).0;
    if next.Some? {
      assert Remaining(table, last) == [next.value] + Remaining(table, next);
    }
  }

  lemma FinishWork(s: State, b: nat)
    requires Invariant(s) && Enabled(s, BatchSuccess(b)) && Invariant(FinishBatch(s, b))
    ensures Work(FinishBatch(s, b)) == Work(s) - 1
  {
    JobsWorkFinished(JobsOf(s.open[0]), s.open[0].progress, s.solr);
    NextWork(s.table, s.row.current);
  }

  lemma StepWork(s: State, a: Action)
    requires Invariant(s) && Internal(a) && Enabled(s, a)
    ensures Invariant(Step(s, a))
    ensures Work(Step(s, a)) <= Work(s) - 1 + GivenBack(s, a)
    ensures !IsCrash(a) && (a.OverallSuccess? ==> NextDump(s.table, s.row.last).0.None?) ==>
              Work(Step(s, a)) == Work(s) - 1
  {
    StepKeepsInvariant(s, a);
    match a
    case Job(b, action) =>
      var batch := s.open[0];
      JobStepWork(JobsOf(batch), Working(batch, s.solr), action);
      if action.Crash? { JobWorkNatural(JobsOf(batch)[action.job], batch.progress[action.job]); }
    case BatchSuccess(b) => FinishWork(s, b);
    case OverallSuccess =>
      NextWork(s.table, s.row.last);
      DumpsWorkNatural(Remaining(s.table, s.row.last));
  }

  /** The overall batch is only left alone with its callback when no dump is left. */
  ghost predicate Drained(s: State)
    requires Ready(s)
  {
    s.open == [] ==> NextDump(s.table, s.row.last).0.None?
  }

  predicate AllInternal(acts: seq<Action>) {
    forall a :: a in acts ==> Internal(a)
  }

  predicate NoArrivals(acts: seq<Action>) {
    forall a :: a in acts ==> !a.Arrive?
  }

  function InternalSteps(acts: seq<Action>): nat {
    if acts == [] then 0 else (if Internal(acts[0]) then 1 else 0) + InternalSteps(acts[1..])
  }

  function Crashes(acts: seq<Action>): nat {
    if acts == [] then 0 else (if IsCrash(acts[0]) then 1 else 0) + Crashes(acts[1..])
  }

  lemma StepKeepsDrained(s: State, a: Action)
    requires Invariant(s) && Drained(s) && Internal(a) && Enabled(s, a)
    ensures Invariant(Step(s, a)) && Drained(Step(s, a)) && Step(s, a).table == s.table
  {
    StepKeepsInvariant(s, a);
  }

  /** `index_remaining!` and `reindex!` do nothing to a manager in progress, nor the former to one that has no
      dump left. */
  lemma TriggerChangesNothing(s: State, a: Action)
    requires Invariant(s) && Drained(s) && !Internal(a) && !a.Arrive? && Follows(s, a)
    ensures Enabled(s, a) && Step(s, a) == s
  {
  }

  // ----- arrivals

  ghost predicate NoRepeats(ds: seq<Dump>) {
    forall i, j :: 0 <= i < j < |ds| ==> ds[i] != ds[j]
  }

  lemma {:induction false} DumpsWorkAppend(a: seq<Dump>, b: seq<Dump>)
    ensures DumpsWork(a + b) == DumpsWork(a) + DumpsWork(b)
  {
    if a == [] {
      assert a + b == b;
    } else {
      assert (a + b)[1..] == a[1..] + b;
      DumpsWorkAppend(a[1..], b);
    }
  }

  lemma DumpsWorkWithout(ds: seq<Dump>, k: nat)
    requires k < |ds|
    ensures DumpsWork(ds) == FreshBatchWork(ds[k]) + DumpsWork(ds[..k] + ds[k + 1..])
  {
    assert ds == ds[..k] + ([ds[k]] + ds[k + 1..]);
    DumpsWorkAppend(ds[..k], [ds[k]] + ds[k + 1..]);
    DumpsWorkAppend(ds[..k], ds[k + 1..]);
  }

  lemma {:induction false} FewerDumps(fewer: seq<Dump>, more: seq<Dump>)
    requires NoRepeats(fewer) && forall d :: d in fewer ==> d in more
    ensures DumpsWork(fewer) <= DumpsWork(more)
  {
    if fewer == [] {
      DumpsWorkNatural(more);
    } else {
      assert fewer[0] in more;
      var k :| 0 <= k < |more| && more[k] == fewer[0];
      var rest := more[..k] + more[k + 1..];
      forall d | d in fewer[1..] ensures d in rest {
        assert d in fewer && d != fewer[0];
        StillIn(more, k, d);
      }
      FewerDumps(fewer[1..], rest);
      DumpsWorkWithout(more, k);
    }
  }

  lemma StillIn(ds: seq<Dump>, k: nat, d: Dump)
    requires k < |ds| && d in ds && d != ds[k]
    ensures d in ds[..k] + ds[k + 1..]
  {
    assert ds == ds[..k] + [ds[k]] + ds[k + 1..];
  }

  lemma AscendingHasNoRepeats(ds: seq<Dump>)
    requires Ascending(ds)
    ensures NoRepeats(ds)
  {
  }

  lemma ArrivalAfterIncremental(table: Table, d: Dump, last: Dump)
    requires WellFormed(table) && WellFormed(table + [d]) && last in table && IsIncremental(last)
    ensures NoRepeats(Remaining(table + [d], Some(last)))
    ensures forall e :: e in Remaining(table + [d], Some(last)) ==> e == d || e in Remaining(table, Some(last))
  {
    RemainingAfterIncremental(table, last);
    RemainingAfterIncremental(table + [d], last);
    AscendingHasNoRepeats(Remaining(table + [d], Some(last)));
  }

  lemma OrderHasNoRepeats(table: Table, full: Dump, order: seq<Dump>)
    requires OrderAfterFull(table, full, order)
    ensures NoRepeats(order)
  {
    if exists d :: d in table && IsIncremental(d) && d.start < full.start {
      AscendingHasNoRepeats(order[1..]);
      forall i, j | 0 <= i < j < |order| ensures order[i] != order[j] {
        if i > 0 {
          assert order[1..][i - 1] != order[1..][j - 1];
        } else {
          assert order[1..][j - 1] in order[1..];
        }
      }
    } else {
      AscendingHasNoRepeats(order);
    }
  }

  ghost predicate HasOlder(table: Table, full: Dump) {
    exists d :: d in table && IsIncremental(d) && d.start < full.start
  }

  /** The incremental that the order goes back to is the same, unless it is the one that arrived. */
  lemma SameOldest(table: Table, d: Dump, full: Dump, order: seq<Dump>, before: seq<Dump>)
    requires WellFormed(table) && OrderAfterFull(table, full, before)
    requires OrderAfterFull(table + [d], full, order)
    requires HasOlder(table + [d], full) && order[0] != d
    ensures HasOlder(table, full) && order[0] == before[0]
  {
    assert order[0] in table;
    assert before[0] in table + [d];
  }

  lemma TakenBefore(table: Table, d: Dump, full: Dump, order: seq<Dump>, before: seq<Dump>, e: Dump)
    requires OrderAfterFull(table, full, before) && OrderAfterFull(table + [d], full, order)
    requires e in (if HasOlder(table + [d], full) then order[1..] else order) && e != d
    ensures e in before
  {
    assert e in table;
    if HasOlder(table, full) {
      assert forall x :: x in table ==> x in table + [d];
      assert before[0] in table + [d];
      assert e in before[1..];
    }
  }

  lemma ArrivalAfterFull(table: Table, d: Dump, full: Dump)
    requires WellFormed(table) && WellFormed(table + [d]) && full in table && IsFull(full)
    ensures NoRepeats(Remaining(table + [d], Some(full)))
    ensures forall e :: e in Remaining(table + [d], Some(full)) ==> e == d || e in Remaining(table, Some(full))
  {
    var order, before := Remaining(table + [d], Some(full)), Remaining(table, Some(full));
    RemainingAfterFull(table, full);
    RemainingAfterFull(table + [d], full);
    OrderHasNoRepeats(table + [d], full, order);
    forall e | e in order && e != d ensures e in before {
      if HasOlder(table + [d], full) && e == order[0] {
        SameOldest(table, d, full, order, before);
      } else {
        TakenBefore(table, d, full, order, before, e);
      }
    }
  }

  /** A dump that arrives adds no more than its own work to what remains after a dump. */
  lemma ArrivalWork(table: Table, d: Dump, last: Dump)
    requires WellFormed(table) && WellFormed(table + [d]) && last in table && CanResume(table, Some(last))
    ensures DumpsWork(Remaining(table + [d], Some(last))) <=
            DumpsWork(Remaining(table, Some(last))) + FreshBatchWork(d)
  {
    if IsFull(last) {
      ArrivalAfterFull(table, d, last);
    } else {
      ArrivalAfterIncremental(table, d, last);
    }
    FewerDumps(Remaining(table + [d], Some(last)), [d] + Remaining(table, Some(last)));
    DumpsWorkAppend([d], Remaining(table, Some(last)));
    assert [d][1..] == [];
  }

  lemma {:induction false} DumpsWorkNatural(dumps: seq<Dump>)
    ensures DumpsWork(dumps) >= 0
  {
    if dumps != [] {
      var d := dumps[0];
      JobsWorkNatural(FileJobs.Jobs(d.files), seq(|d.files|, _ => FileJobs.FRESH), map[]);
      DumpsWorkNatural(dumps[1..]);
    }
  }

  lemma WorkNatural(s: State)
    requires Invariant(s)
    ensures Work(s) >= 0
  {
    DumpsWorkNatural(Remaining(s.table, s.row.last));
    if s.open != [] {
      JobsWorkNatural(JobsOf(s.open[0]), s.open[0].progress, s.solr);
      DumpsWorkNatural(Remaining(s.table, s.row.current));
    }
  }

  lemma UnfinishedJobCanStep(jobs: seq<Job>, s: FileJobs.State, f: nat) returns (a: FileJobs.Action)
    requires FileJobs.Fits(jobs, s) && f < |jobs| && !FileJobs.Finished(jobs[f], s.progress[f])
    ensures !a.Crash? && FileJobs.Enabled(jobs, s, a)
  {
    var p := s.progress[f];
    if i: nat :| i < |jobs[f][p.phase]| && i !in p.sent {
      a := FileJobs.Send(f, i);
    } else {
      a := FileJobs.Advance(f);
    }
  }

  /** No deadlock: an in-progress manager always has a step other than a crash. */
  lemma InProgressCanStep(s: State) returns (a: Action)
    requires Invariant(s) && s.row.inProgress
    ensures Internal(a) && !IsCrash(a) && Enabled(s, a)
  {
    if s.open == [] {
      a := OverallSuccess;
    } else if f :|
      0 <= f < |JobsOf(s.open[0])| && !FileJobs.Finished(JobsOf(s.open[0])[f], s.open[0].progress[f]) {
      var action := UnfinishedJobCanStep(JobsOf(s.open[0]), Working(s.open[0], s.solr), f);
      a := Job(0, action);
    } else {
      a := BatchSuccess(0);
    }
  }

  ghost predicate Stopped(s: State)
    requires Ready(s)
  {
    forall a :: Internal(a) && !IsCrash(a) ==> !Enabled(s, a)
  }

  // ----- every run

  /** What a step adds to the work: a crash what it gives back, an arrival at most a fresh batch, a trigger of
      an idle manager the catch-up that it starts. */
  ghost function Added(s: State, a: Action): int
    requires Invariant(s) && Enabled(s, a) && Invariant(Step(s, a))
  {
    match a
    case Arrive(d) => if s.row.inProgress then FreshBatchWork(d) else 0
    case IndexRemaining => if s.row.inProgress then 0 else Work(Step(s, a))
    case Reindex => if s.row.inProgress then 0 else Work(Step(s, a))
    case _ => GivenBack(s, a)
  }

  ghost function TotalAdded(s: State, acts: seq<Action>): int
    requires Invariant(s) && Valid(s, acts)
    decreases |acts|
  {
    if acts == [] then 0
    else
      StepKeepsInvariant(s, acts[0]);
      Added(s, acts[0]) + TotalAdded(Step(s, acts[0]), acts[1..])
  }

  lemma ArrivalAdds(s: State, d: Dump)
    requires Invariant(s) && Enabled(s, Arrive(d)) && Invariant(Step(s, Arrive(d)))
    ensures Work(Step(s, Arrive(d))) <= Work(s) + Added(s, Arrive(d))
  {
    if s.open != [] {
      ArrivalWork(s.table, d, s.row.current.value);
    } else if s.row.inProgress {
      ArrivalWork(s.table, d, s.row.last.value);
    }
  }

  lemma StepAdds(s: State, a: Action)
    requires Invariant(s) && Enabled(s, a)
    ensures Invariant(Step(s, a))
    ensures (if Internal(a) then 1 else 0) + Work(Step(s, a)) <= Work(s) + Added(s, a)
  {
    StepKeepsInvariant(s, a);
    match a
    case Arrive(d) => ArrivalAdds(s, d);
    case IndexRemaining => WorkNatural(s);
    case Reindex => WorkNatural(s);
    case _ => StepWork(s, a);
  }

  /** Over every run, whatever is interleaved with it, the steps taken are bounded by the work at the start
      and what crashes, arrivals and new starts add. */
  lemma {:induction false} RunLength(s: State, acts: seq<Action>)
    requires Invariant(s) && Valid(s, acts)
    ensures Invariant(Run(s, acts))
    ensures InternalSteps(acts) + Work(Run(s, acts)) <= Work(s) + TotalAdded(s, acts)
    decreases |acts|
  {
    if acts != [] {
      StepAdds(s, acts[0]);
      RunLength(Step(s, acts[0]), acts[1..]);
    }
  }

  /** Over a fixed table, without crashes and with triggers that are refused, it is exact. */
  lemma {:induction false} ExactRunLength(s: State, acts: seq<Action>)
    requires Invariant(s) && Drained(s) && Valid(s, acts)
    requires Following(s, acts) && NoArrivals(acts) && Crashes(acts) == 0
    ensures Invariant(Run(s, acts)) && InternalSteps(acts) + Work(Run(s, acts)) == Work(s)
    decreases |acts|
  {
    if acts != [] {
      assert acts[0] in acts;
      if Internal(acts[0]) {
        StepKeepsDrained(s, acts[0]);
        StepWork(s, acts[0]);
      } else {
        TriggerChangesNothing(s, acts[0]);
      }
      ExactRunLength(Step(s, acts[0]), acts[1..]);
    }
  }

  // ----- where a run ends

  /** `next_dump` would take it up from there. */
  predicate Takeable(last: Option<Dump>, d: Dump) {
    match last
    case None => IsFull(d) || IsIncremental(d)
    case Some(l) =>
      IsIncremental(d)
      && (if IsFull(l) then d.start < l.start || d.files != [] else d.start > l.start && d.files != [])
  }

  ghost predicate SomeTakeable(table: Table, last: Option<Dump>) {
    exists d :: d in table && Takeable(last, d)
  }

  lemma NextAfterFull(table: Table, full: Dump)
    requires WellFormed(table) && full in table && IsFull(full)
    ensures NextDump(table, Some(full)).0.Some? <==> SomeTakeable(table, Some(full))
  {
    NextIncrementalMeaning(table, full);
    if SomeTakeable(table, Some(full)) {
      var d :| d in table && Takeable(Some(full), d);
      assert Before(d, full) || NotBefore(d, full);
    }
  }

  lemma NextAfterIncremental(table: Table, last: Dump)
    requires WellFormed(table) && last in table && IsIncremental(last)
    ensures NextDump(table, Some(last)).0.Some? <==> SomeTakeable(table, Some(last))
  {
    var next := NextIncremental(table, last).0;
    NextIncrementalMeaning(table, last);
    if next.Some? {
      assert Takeable(Some(last), next.value);
    }
    if SomeTakeable(table, Some(last)) {
      var d :| d in table && Takeable(Some(last), d);
      assert NotBefore(d, last);
    }
  }

  /** There is a next dump exactly when some dump of the table can be taken up. */
  lemma NextIffTakeable(table: Table, last: Option<Dump>)
    requires WellFormed(table) && CanResume(table, last)
    ensures NextDump(table, last).0.Some? <==> SomeTakeable(table, last)
  {
    if last.Some? {
      if IsFull(last.value) {
        NextAfterFull(table, last.value);
      } else {
        NextAfterIncremental(table, last.value);
      }
    }
  }

  lemma TakeableArrival(table: Table, last: Option<Dump>, d: Dump)
    ensures SomeTakeable(table + [d], last) <==> SomeTakeable(table, last) || Takeable(last, d)
  {
    if SomeTakeable(table, last) {
      var e :| e in table && Takeable(last, e);
      assert e in table + [d];
    }
    assert d in table + [d];
  }

  /** Whether a dump waits, for which no job will ask: one that arrived when no batch was open and that could
      be taken up, until a trigger starts the idle manager again. */
  predicate StillWaiting(s: State, a: Action, waiting: bool) {
    match a
    case Arrive(d) => waiting || (s.open == [] && Takeable(s.row.last, d))
    case IndexRemaining => waiting && s.row.inProgress
    case Reindex => waiting && s.row.inProgress
    case _ => waiting
  }

  ghost predicate LeftWaiting(s: State, acts: seq<Action>, waiting: bool)
    requires Ready(s) && Valid(s, acts)
    decreases |acts|
  {
    if acts == [] then waiting
    else LeftWaiting(Step(s, acts[0]), acts[1..], StillWaiting(s, acts[0], waiting))
  }

  ghost predicate Waits(s: State)
    requires Ready(s)
  {
    s.open == [] && NextDump(s.table, s.row.last).0.Some?
  }

  lemma StartWaits(s: State)
    requires Invariant(s) && !s.row.inProgress
    ensures !Waits(StartCatchUp(s))
  {
    if NextDump(s.table, s.row.last).0.Some? { StartCatchUpOpensNext(s); }
  }

  lemma StepWaits(s: State, a: Action)
    requires Invariant(s) && Enabled(s, a)
    ensures Waits(Step(s, a)) <==> StillWaiting(s, a, Waits(s))
  {
    match a
    case Arrive(d) =>
      NextIffTakeable(s.table, s.row.last);
      NextIffTakeable(s.table + [d], s.row.last);
      TakeableArrival(s.table, s.row.last, d);
    case IndexRemaining => if !s.row.inProgress { StartWaits(s); }
    case Reindex => if !s.row.inProgress { StartWaits(s.(row := s.row.(last := None), solr := map[])); }
    case BatchSuccess(b) => FinishBatchKeeps(s, b);
    case _ =>
  }

  lemma {:induction false} RunWaits(s: State, acts: seq<Action>)
    requires Invariant(s) && Valid(s, acts)
    ensures Waits(Run(s, acts)) <==> LeftWaiting(s, acts, Waits(s))
    decreases |acts|
  {
    if acts != [] {
      StepKeepsInvariant(s, acts[0]);
      StepWaits(s, acts[0]);
      RunWaits(Step(s, acts[0]), acts[1..]);
    }
  }

  /** Every run, whatever arrives and is triggered meanwhile, takes no more steps than the work at its start
      and what was added to it. Where it can go no further the manager is idle, and there is something left to
      index if and only if a dump was left waiting. */
  lemma CatchUpEnds(s: State, acts: seq<Action>)
    requires Invariant(s) && Valid(s, acts)
    ensures InternalSteps(acts) <= Work(s) + TotalAdded(s, acts)
    ensures var t := Run(s, acts);
            Stopped(t) ==>
              && !t.row.inProgress && t.row.current.None? && t.open == []
              && (NextDump(t.table, t.row.last).0.Some? <==> LeftWaiting(s, acts, Waits(s)))
  {
    RunLength(s, acts);
    RunWaits(s, acts);
    WorkNatural(Run(s, acts));
    if Stopped(Run(s, acts)) && Run(s, acts).row.inProgress {
      var a := InProgressCanStep(Run(s, acts));
    }
  }

  /** A dump that arrives between the last batch and the callback of the overall batch is left waiting. */
  lemma ArrivalBeforeCallbackWaits(s: State, d: Dump)
    requires Invariant(s) && s.row.inProgress && s.open == [] && Enabled(s, Arrive(d))
    requires Takeable(s.row.last, d)
    ensures Enabled(Step(s, Arrive(d)), OverallSuccess)
    ensures var t := Step(Step(s, Arrive(d)), OverallSuccess);
            !t.row.inProgress && t.open == [] && NextDump(t.table, t.row.last).0.Some?
  {
    StepKeepsInvariant(s, Arrive(d));
    StepWaits(s, Arrive(d));
  }

  /** An end can be reached, without a crash, from every state; one with nothing left to index unless a dump
      waits. */
  lemma {:induction false} RunToEnd(s: State) returns (acts: seq<Action>)
    requires Invariant(s)
    ensures Valid(s, acts) && AllInternal(acts) && Crashes(acts) == 0 && Invariant(Run(s, acts))
    ensures var t := Run(s, acts);
            && !t.row.inProgress && t.row.current.None? && t.open == []
            && (Drained(s) ==> NextDump(t.table, t.row.last).0.None?)
    decreases Work(s)
  {
    WorkNatural(s);
    if !s.row.inProgress {
      acts := [];
    } else {
      var a := InProgressCanStep(s);
      StepWork(s, a);
      if Drained(s) { StepKeepsDrained(s, a); }
      WorkNatural(Step(s, a));
      var rest := RunToEnd(Step(s, a));
      acts := [a] + rest;
      assert acts[1..] == rest;
    }
  }

  /** If one waits, another `index_remaining!` leads to an end with nothing left. */
  lemma RunToCaughtUp(s: State) returns (first: seq<Action>, second: seq<Action>)
    requires Invariant(s)
    ensures Valid(s, first) && AllInternal(first) && Crashes(first) == 0
    ensures var t := StartCatchUp(Run(s, first));
            && Valid(t, second) && AllInternal(second) && Crashes(second) == 0
            && !Run(t, second).row.inProgress && CaughtUp(Run(t, second))
  {
    first := RunToEnd(s);
    StartedIsDrained(Run(s, first));
    second := RunToEnd(StartCatchUp(Run(s, first)));
  }

  /** What `index_remaining!` and `reindex!` start on an idle manager meets the condition above. */
  lemma StartedIsDrained(s: State)
    requires Invariant(s) && !s.row.inProgress
    ensures Invariant(StartCatchUp(s)) && Drained(StartCatchUp(s))
    ensures Invariant(StartReindex(s)) && Drained(StartReindex(s))
  {
    StartCatchUpKeeps(s);
    StepKeepsInvariant(s, Reindex);
  }
}
