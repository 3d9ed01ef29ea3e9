/** The catch-up protocol as a transition system: the manager's row, the open batches, their file jobs and
    Solr (app/models/index_manager.rb, app/jobs/index/remaining_dumps_job.rb,
    app/jobs/index/dump_file_job.rb). */
module CatchUp {
  import opened Wrappers
  import opened SolrIndex
  import opened DumpSelection
  import FileJobs

  /** The persisted columns of one manager. */
  datatype Row = Row(last: Option<Dump>, current: Option<Dump>, inProgress: bool)

  /** An open batch of file jobs; `parent` says that it was opened inside an overall catch-up batch. */
  datatype Batch = Batch(dump: Dump, progress: seq<FileJobs.Progress>, parent: bool)

  /** `batched` and `completed` record every batch opened and every batch that succeeded so far. */
  datatype State = State(
    table: Table,
    row: Row,
    overalls: nat,
    open: seq<Batch>,
    solr: Index,
    batched: seq<Dump>,
    completed: seq<Dump>)

  datatype Action =
    | IndexRemaining
    | Reindex
    | Job(batch: nat, action: FileJobs.Action)
    | BatchSuccess(batch: nat)
    | OverallSuccess
    | Arrive(dump: Dump)

  function JobsOf(b: Batch): seq<Job> { FileJobs.Jobs(b.dump.files) }

  function Working(b: Batch, solr: Index): FileJobs.State { FileJobs.State(b.progress, solr) }

  ghost predicate Ready(s: State) {
    && WellFormed(s.table)
    && CanResume(s.table, s.row.last)
    && forall b :: b in s.open ==>
         FileJobs.Fits(JobsOf(b), Working(b, s.solr)) && CanResume(s.table, Some(b.dump))
  }

  /** `index_next_dump!` on a manager just loaded from its row. */
  ghost function IndexNextDump(s: State): (t: State)
    requires Ready(s)
    ensures Ready(t)
  {
    var (next, last) := NextDump(s.table, s.row.last);
    if next.None? then s
    else
      var batch := Batch(next.value, seq(|next.value.files|, _ => FileJobs.FRESH), s.overalls > 0);
      s.(row := Row(last, next, true), open := s.open + [batch], batched := s.batched + [next.value])
  }

  /** `index_remaining!` together with the job it enqueues. */
  ghost function StartCatchUp(s: State): (t: State)
    requires Ready(s)
    ensures Ready(t)
  {
    var (next, last) := NextDump(s.table, s.row.last);
    if s.row.inProgress || next.None? then s
    else IndexNextDump(s.(row := s.row.(last := last), overalls := s.overalls + 1))
  }

  /** `reindex!` */
  ghost function StartReindex(s: State): (t: State)
    requires Ready(s)
    ensures Ready(t)
  {
    if s.row.inProgress then s else StartCatchUp(s.(row := s.row.(last := None), solr := map[]))
  }

  /** `Workflow#on_success` */
  ghost function FinishBatch(s: State, b: nat): (t: State)
    requires Ready(s) && b < |s.open|
    ensures Ready(t)
  {
    var batch := s.open[b];
    var saved := s.(
      row := Row(Some(batch.dump), None, s.row.inProgress),
      open := s.open[..b] + s.open[b + 1..],
      completed := s.completed + [batch.dump]);
    if batch.parent then IndexNextDump(saved)
    else saved.(row := saved.row.(inProgress := false))
  }

  /** A batch opened outside an overall batch has no parent, and its success ends the catch-up; inside one it
      goes on with the next dump, or leaves the overall batch to its callback. */
  lemma ParentDecides(s: State, b: nat)
    requires Ready(s)
    ensures NextDump(s.table, s.row.last).0.Some? ==>
              var after := IndexNextDump(s).open;
              |after| == |s.open| + 1 && (after[|s.open|].parent <==> s.overalls > 0)
    ensures b < |s.open| && !s.open[b].parent ==>
              && FinishBatch(s, b).row == Row(Some(s.open[b].dump), None, false)
              && FinishBatch(s, b).open == s.open[..b] + s.open[b + 1..]
    ensures b < |s.open| && s.open[b].parent ==>
              var next := NextDump(s.table, Some(s.open[b].dump)).0;
              && FinishBatch(s, b).row.current == next
              && (next.None? ==> FinishBatch(s, b).row == Row(Some(s.open[b].dump), None, s.row.inProgress))
  {
  }

  /** `Workflow#indexed_remaining` */
  function FinishOverall(s: State): State
    requires s.overalls > 0
  {
    s.(row := s.row.(current := None, inProgress := false), overalls := s.overalls - 1)
  }

  function JobStep(s: State, b: nat, a: FileJobs.Action): State
    requires b < |s.open| && FileJobs.Fits(JobsOf(s.open[b]), Working(s.open[b], s.solr))
    requires FileJobs.Enabled(JobsOf(s.open[b]), Working(s.open[b], s.solr), a)
  {
    var t := FileJobs.Step(JobsOf(s.open[b]), Working(s.open[b], s.solr), a);
    s.(open := s.open[b := s.open[b].(progress := t.progress)], solr := t.solr)
  }

  ghost predicate Enabled(s: State, a: Action)
    requires Ready(s)
  {
    match a
    case IndexRemaining => true
    case Reindex => true
    case Job(b, action) =>
      b < |s.open| && FileJobs.Enabled(JobsOf(s.open[b]), Working(s.open[b], s.solr), action)
    case BatchSuccess(b) =>
      b < |s.open| && FileJobs.AllFinished(JobsOf(s.open[b]), Working(s.open[b], s.solr))
    case OverallSuccess => s.overalls > 0 && s.open == []
    case Arrive(d) => d !in s.table && WellFormed(s.table + [d])
  }

  ghost function Step(s: State, a: Action): (t: State)
    requires Ready(s) && Enabled(s, a)
    ensures Ready(t)
  {
    match a
    case IndexRemaining => StartCatchUp(s)
    case Reindex => StartReindex(s)
    case Job(b, action) => JobStep(s, b, action)
    case BatchSuccess(b) => FinishBatch(s, b)
    case OverallSuccess => FinishOverall(s)
    case Arrive(d) => s.(table := s.table + [d])
  }

  ghost predicate Valid(s: State, acts: seq<Action>)
    requires Ready(s)
    decreases |acts|
  {
    acts == [] || (Enabled(s, acts[0]) && Valid(Step(s, acts[0]), acts[1..]))
  }

  ghost function Run(s: State, acts: seq<Action>): (t: State)
    requires Ready(s) && Valid(s, acts)
    ensures Ready(t)
    decreases |acts|
  {
    if acts == [] then s else Run(Step(s, acts[0]), acts[1..])
  }

  /** A manager nobody has used yet. */
  function Fresh(solr: Index): State {
    State([], Row(None, None, false), 0, [], solr, [], [])
  }

  // ----- the step invariant

  ghost predicate Invariant(s: State) {
    && Ready(s)
    && s.overalls == (if s.row.inProgress then 1 else 0)
    && (match s.row.current
        case None => s.open == [] && (s.row.inProgress ==> s.row.last.Some?)
        case Some(d) => s.row.inProgress && |s.open| == 1 && s.open[0].dump == d && s.open[0].parent)
    && s.batched == s.completed + (if s.row.current.Some? then [s.row.current.value] else [])
    && (s.row.last.Some? ==> s.row.last.value in s.completed || s.row.last.value.files == [])
  }

  lemma IndexNextDumpKeeps(s: State)
    requires Invariant(s) && s.row.current.None? && s.overalls == 1
    ensures Invariant(IndexNextDump(s))
  {
  }

  lemma StartCatchUpOpensNext(s: State)
    requires Ready(s) && !s.row.inProgress && s.overalls == 0 && NextDump(s.table, s.row.last).0.Some?
    ensures StartCatchUp(s) == IndexNextDump(s.(overalls := 1))
  {
    NextDumpAgain(s.table, s.row.last);
  }

  lemma StartCatchUpKeeps(s: State)
    requires Invariant(s)
    ensures Invariant(StartCatchUp(s))
  {
    if !s.row.inProgress && NextDump(s.table, s.row.last).0.Some? {
      StartCatchUpOpensNext(s);
    }
  }

  lemma FinishBatchKeeps(s: State, b: nat)
    requires Invariant(s) && Enabled(s, BatchSuccess(b))
    ensures Invariant(FinishBatch(s, b))
  {
    var d := s.open[b].dump;
    var saved := s.(row := Row(Some(d), None, true), open := [], completed := s.completed + [d]);
    assert s.open[..b] + s.open[b + 1..] == [];
    assert Invariant(saved);
    IndexNextDumpKeeps(saved);
  }

  lemma StepKeepsInvariant(s: State, a: Action)
    requires Invariant(s) && Enabled(s, a)
    ensures Invariant(Step(s, a))
  {
    match a
    case IndexRemaining => StartCatchUpKeeps(s);
    case Reindex =>
      if !s.row.inProgress {
        StartCatchUpKeeps(s.(row := s.row.(last := None), solr := map[]));
      }
    case BatchSuccess(b) => FinishBatchKeeps(s, b);
    case _ =>
  }

  /** What holds whatever triggers, arrivals, file jobs, crashes and callbacks have happened, in whatever
      order. */
  lemma {:induction false} ManagerInvariant(s: State, acts: seq<Action>)
    requires Invariant(s) && Valid(s, acts)
    ensures var t := Run(s, acts);
            && (t.row.current.Some? ==>
                  t.row.inProgress && |t.open| == 1 && t.open[0].dump == t.row.current.value)
            && (!t.row.inProgress ==> t.open == [] && t.overalls == 0)
            && (t.row.last.Some? ==> t.row.last.value in t.completed || t.row.last.value.files == [])
            && Invariant(t)
    decreases |acts|
  {
    if acts != [] {
      StepKeepsInvariant(s, acts[0]);
      ManagerInvariant(Step(s, acts[0]), acts[1..]);
    }
  }

  /** ... in particular for a manager that has just been created. */
  lemma FreshManagerInvariant(solr: Index, acts: seq<Action>)
    requires Valid(Fresh(solr), acts)
    ensures Invariant(Run(Fresh(solr), acts))
  {
    ManagerInvariant(Fresh(solr), acts);
  }
}
