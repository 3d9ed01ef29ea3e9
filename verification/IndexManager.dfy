/** The manager, its jobs and its callbacks as the objects they are: each call is shown to take exactly the
    step of the transition system that it stands for (app/models/index_manager.rb,
    app/jobs/index/remaining_dumps_job.rb). */
module IndexManagers {
  import opened Wrappers
  import opened SolrIndex
  import opened DumpSelection
  import opened CatchUp
  import FileJobs

  /** The database, Sidekiq and Solr, as far as one manager sees them. */
  class Site {
    var table: Table
    var row: Row
    var overalls: nat
    var open: seq<Batch>
    var solr: Index
    var batched: seq<Dump>
    var completed: seq<Dump>

    constructor (table: Table, solr: Index)
      ensures Current() == Fresh(solr).(table := table)
    {
      this.table, row, overalls, open, this.solr := table, Row(None, None, false), 0, [], solr;
      batched, completed := [], [];
    }

    function Current(): State
      reads this
    {
      State(table, row, overalls, open, solr, batched, completed)
    }
  }

  class IndexManager {
    const site: Site
    var lastDumpCompleted: Option<Dump>
    var dumpInProgress: Option<Dump>
    var inProgress: bool
    /** The memo `@next_dump`; a nil result is not kept. */
    var nextDump: Option<Dump>

    constructor Find(site: Site)
      ensures this.site == site && Loaded()
    {
      this.site := site;
      lastDumpCompleted, dumpInProgress, inProgress := site.row.last, site.row.current, site.row.inProgress;
      nextDump := None;
    }

    /** Nothing has been changed or memoized since the row was read. */
    predicate Loaded()
      reads this, site
    {
      nextDump.None? && site.row == Row(lastDumpCompleted, dumpInProgress, inProgress)
    }

    method Save()
      modifies site`row
      ensures site.row == Row(lastDumpCompleted, dumpInProgress, inProgress)
    {
      site.row := Row(lastDumpCompleted, dumpInProgress, inProgress);
    }

    method SelectNextIncremental() returns (d: Option<Dump>)
      requires WellFormed(site.table) && lastDumpCompleted.Some? && lastDumpCompleted.value in site.table
      modifies this`lastDumpCompleted
      decreases Ahead(site.table, lastDumpCompleted.value)
      ensures lastDumpCompleted.Some?
      ensures (d, lastDumpCompleted.value) == NextIncremental(site.table, old(lastDumpCompleted.value))
    {
      d := IncrementalFrom(site.table, lastDumpCompleted.value);
      if d.Some? && d.value.files == [] {
        AheadShrinks(site.table, lastDumpCompleted.value, d.value);
        lastDumpCompleted := d;
        d := SelectNextIncremental();
      }
    }

    method SelectNextDump() returns (d: Option<Dump>)
      requires WellFormed(site.table) && CanResume(site.table, lastDumpCompleted)
      modifies this`lastDumpCompleted, this`nextDump
      ensures d == nextDump
      ensures old(nextDump).Some? ==> d == old(nextDump) && lastDumpCompleted == old(lastDumpCompleted)
      ensures old(nextDump).None? ==> (d, lastDumpCompleted) == NextDump(site.table, old(lastDumpCompleted))
    {
      if nextDump.None? {
        if lastDumpCompleted.Some? && IsFull(lastDumpCompleted.value) {
          nextDump := PreviousToFullIncremental(site.table, lastDumpCompleted.value);
          if nextDump.None? { nextDump := SelectNextIncremental(); }
        } else if lastDumpCompleted.Some? {
          nextDump := SelectNextIncremental();
        } else {
          nextDump := RecentFullDump(site.table);
          if nextDump.None? { nextDump := FirstIncremental(site.table); }
        }
      }
      d := nextDump;
    }

    /** The memo and the skipped-to position agree with the saved row. */
    ghost predicate Selected()
      reads this, site
    {
      && WellFormed(site.table) && CanResume(site.table, site.row.last)
      && nextDump.Some?
      && (nextDump, lastDumpCompleted) == NextDump(site.table, site.row.last)
    }

    method GenerateBatch(dump: Dump)
      modifies site`open, site`batched
      ensures site.open == old(site.open) +
              [Batch(dump, seq(|dump.files|, _ => FileJobs.FRESH), site.overalls > 0)]
      ensures site.batched == old(site.batched) + [dump]
    {
      var jobs: seq<FileJobs.Progress> := [];
      for f := 0 to |dump.files|
        invariant jobs == seq(f, _ => FileJobs.FRESH)
      {
        jobs := jobs + [FileJobs.FRESH];
      }
      site.open := site.open + [Batch(dump, jobs, site.overalls > 0)];
      site.batched := site.batched + [dump];
    }

    method IndexNextDump()
      requires Ready(site.Current()) && (Loaded() || Selected())
      modifies this, site`row, site`open, site`batched
      ensures site.Current() == CatchUp.IndexNextDump(old(site.Current()))
    {
      var next := SelectNextDump();
      if next.Some? {
        dumpInProgress := next;
        inProgress := true;
        Save();
        GenerateBatch(next.value);
      }
    }

    /** `index_remaining!`, with the RemainingDumpsJob it enqueues run in place. */
    method IndexRemaining()
      requires Ready(site.Current()) && Loaded()
      modifies this, site`row, site`overalls, site`open, site`batched
      ensures site.Current() == StartCatchUp(old(site.Current()))
    {
      var next := SelectNextDump();
      if next.Some? && !inProgress {
        NextDumpAgain(site.table, site.row.last);
        Save();
        site.overalls := site.overalls + 1;
        PerformRemainingDumps(site);
      }
    }

    static method PerformRemainingDumps(site: Site)
      requires Ready(site.Current())
      modifies site`row, site`open, site`batched
      ensures site.Current() == CatchUp.IndexNextDump(old(site.Current()))
    {
      var manager := new IndexManager.Find(site);
      var next := manager.SelectNextDump();
      if next.Some? {
        manager.IndexNextDump();
      }
    }

    static method ReindexAll(site: Site) returns (started: bool)
      requires Ready(site.Current())
      modifies site`row, site`overalls, site`open, site`batched, site`solr
      ensures started == !old(site.row.inProgress)
      ensures site.Current() == StartReindex(old(site.Current()))
    {
      var manager := new IndexManager.Find(site);
      if manager.inProgress {
        return false;
      }
      manager.lastDumpCompleted := None;
      manager.Save();
      site.solr := map[];
      manager.IndexRemaining();
      return true;
    }

    /** Sidekiq closes the batch and calls `Workflow#on_success`. */
    static method OnSuccess(site: Site, b: nat)
      requires Ready(site.Current()) && b < |site.open| && (site.open[b].parent ==> site.overalls > 0)
      modifies site`row, site`open, site`batched, site`completed
      ensures site.Current() == FinishBatch(old(site.Current()), b)
    {
      var batch := site.open[b];
      site.open := site.open[..b] + site.open[b + 1..];
      site.completed := site.completed + [batch.dump];
      var manager := new IndexManager.Find(site);
      manager.lastDumpCompleted := Some(batch.dump);
      manager.dumpInProgress := None;
      manager.Save();
      if batch.parent {
        var next := manager.SelectNextDump();
        if next.Some? {
          manager.IndexNextDump();
        }
      } else {
        manager.inProgress := false;
        manager.Save();
      }
    }

    /** Sidekiq closes the overall batch and calls `Workflow#indexed_remaining`. */
    static method IndexedRemaining(site: Site)
      requires site.overalls > 0
      modifies site`row, site`overalls
      ensures site.Current() == FinishOverall(old(site.Current()))
    {
      site.overalls := site.overalls - 1;
      var manager := new IndexManager.Find(site);
      manager.dumpInProgress := None;
      manager.inProgress := false;
      manager.Save();
    }
  }
}
