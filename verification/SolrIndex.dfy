/** Solr as a map from document id to document, and what one indexing job asks of it
    (marc_to_solr/lib/traject_config.rb, marc_to_solr/lib/solr_deleter.rb). */
module SolrIndex {
  import opened Wrappers

  type Index = map<string, string>

  /** One acknowledged update request: the last write it makes to each id it mentions. */
  type Patch = map<string, Option<string>>

  function Get(solr: Index, id: string): Option<string> {
    if id in solr then Some(solr[id]) else None
  }

  function Apply(patch: Patch, solr: Index): (r: Index)
    ensures forall id :: Get(r, id) == if id in patch then patch[id] else Get(solr, id)
  {
    var touched := map id | id in patch && patch[id].Some? :: patch[id].value;
    (solr - patch.Keys) + touched
  }

  lemma IndexEquality(a: Index, b: Index)
    requires forall id :: Get(a, id) == Get(b, id)
    ensures a == b
  {
    assert forall id :: id in a <==> Get(a, id).Some?;
    assert forall id :: id in b <==> Get(b, id).Some?;
    forall id | id in a ensures id in b && a[id] == b[id] {
      assert Get(a, id) == Get(b, id);
    }
  }

  lemma ApplyApply(p: Patch, q: Patch, solr: Index)
    ensures Apply(q, Apply(p, solr)) == Apply(p + q, solr)
  {
    IndexEquality(Apply(q, Apply(p, solr)), Apply(p + q, solr));
  }

  /** What one record contributes to a traject run: a document to add, or (Leader/05 = d) an id to delete. */
  datatype MarcRecord = Live(id: string, doc: string) | Deleted(id001: Option<string>)

  type TrajectRun = seq<MarcRecord>
  type DumpFile = seq<TrajectRun>

  function LiveRecords(run: TrajectRun): seq<MarcRecord> {
    Filter(run, (r: MarcRecord) => r.Live?)
  }

  /** The shared `deleted_ids` set, in insertion order. */
  function DeletedIds(run: TrajectRun): (ids: seq<string>)
    ensures forall id :: id in ids <==> Deleted(Some(id)) in run
    ensures forall i, j :: 0 <= i < j < |ids| ==> ids[i] != ids[j]
  {
    if run == [] then []
    else
      var r := run[|run| - 1];
      var before := DeletedIds(run[..|run| - 1]);
      assert run == run[..|run| - 1] + [r];
      if r.Deleted? && r.id001.Some? && r.id001.value !in before then before + [r.id001.value] else before
  }

  function RecordPatch(r: MarcRecord): (p: Patch)
    ensures forall id :: id in p ==> p[id].Some?
  {
    if r.Live? then map[r.id := Some(r.doc)] else map[]
  }

  function AddPatch(records: seq<MarcRecord>): (p: Patch)
    ensures forall id :: id in p ==> p[id].Some?
  {
    if records == [] then map[]
    else
      AddPatch(records[..|records| - 1]) + RecordPatch(records[|records| - 1])
  }

  function DeletePatch(ids: seq<string>): Patch {
    map id | id in ids :: None
  }

  /** The record-level meaning of a run: every live record in order, then every deletion. */
  function RunPatch(run: TrajectRun): Patch {
    AddPatch(run) + DeletePatch(DeletedIds(run))
  }

  /** The last live record of the run with this id. */
  predicate LastLive(run: TrajectRun, id: string, k: int, doc: string) {
    && 0 <= k < |run| && run[k] == Live(id, doc)
    && forall j :: k < j < |run| ==> !(run[j].Live? && run[j].id == id)
  }

  /** A deletion wins over every live record of the run with the same id; otherwise the last live record does. */
  lemma RunPatchMeaning(run: TrajectRun, id: string)
    ensures Deleted(Some(id)) in run ==> id in RunPatch(run) && RunPatch(run)[id] == None
    ensures Deleted(Some(id)) !in run && (exists doc :: Live(id, doc) in run) ==>
              exists k, doc ::
                LastLive(run, id, k, doc) && id in RunPatch(run) && RunPatch(run)[id] == Some(doc)
    ensures Deleted(Some(id)) !in run && (forall doc :: Live(id, doc) !in run) ==> id !in RunPatch(run)
  {
    AddedIds(run, id);
    if id in AddPatch(run) {
      var k, doc := LastLiveWins(run, id);
    }
  }

  lemma {:induction false} AddedIds(run: TrajectRun, id: string)
    ensures id in AddPatch(run) <==> exists doc :: Live(id, doc) in run
  {
    if run != [] {
      var init, last := run[..|run| - 1], run[|run| - 1];
      assert run == init + [last];
      AddedIds(init, id);
    }
  }

  lemma {:induction false} LastLiveWins(run: TrajectRun, id: string) returns (k: nat, doc: string)
    requires id in AddPatch(run)
    ensures LastLive(run, id, k, doc) && AddPatch(run)[id] == Some(doc)
  {
    var init, last := run[..|run| - 1], run[|run| - 1];
    if last.Live? && last.id == id {
      k, doc := |run| - 1, last.doc;
    } else {
      k, doc := LastLiveWins(init, id);
      assert forall j :: k < j < |init| ==> run[j] == init[j];
    }
  }

  function FilePatch(file: DumpFile): Patch {
    if file == [] then map[] else FilePatch(file[..|file| - 1]) + RunPatch(file[|file| - 1])
  }

  function FilesPatch(files: seq<DumpFile>): Patch {
    if files == [] then map[] else FilesPatch(files[..|files| - 1]) + FilePatch(files[|files| - 1])
  }

  /** Requests that may reach Solr in any order; the next phase starts when all are acknowledged. */
  type Phase = seq<Patch>
  type Job = seq<Phase>

  function BatchPatches(batches: seq<seq<MarcRecord>>): (r: Phase)
    ensures |r| == |batches| && forall i :: 0 <= i < |r| ==> r[i] == AddPatch(batches[i])
  {
    seq(|batches|, i requires 0 <= i < |batches| => AddPatch(batches[i]))
  }

  function DeletePatches(slices: seq<seq<string>>): (r: Phase)
    ensures |r| == |slices| && forall i :: 0 <= i < |r| ==> r[i] == DeletePatch(slices[i])
  {
    seq(|slices|, i requires 0 <= i < |slices| => DeletePatch(slices[i]))
  }

  const WRITER_BATCH: nat := 100
  const DELETE_SLICE: nat := 100

  /** What a run really sends: batches of adds from a thread pool, then, after the writer is closed, slices of
      deletes. */
  function RunPhases(run: TrajectRun): seq<Phase> {
    [BatchPatches(Slices(LiveRecords(run), WRITER_BATCH)),
      DeletePatches(Slices(DeletedIds(run), DELETE_SLICE))]
  }

  /** A run's requests: batches of a hundred live records and slices of a hundred ids, the last of each
      perhaps smaller. */
  lemma RequestSizes(run: TrajectRun)
    ensures var batches := Slices(LiveRecords(run), WRITER_BATCH);
            RunPhases(run)[0] == BatchPatches(batches)
            && forall i :: 0 <= i < |batches| - 1 ==> |batches[i]| == 100
    ensures var slices := Slices(DeletedIds(run), DELETE_SLICE);
            RunPhases(run)[1] == DeletePatches(slices) && |RunPhases(run)| == 2
            && forall i :: 0 <= i < |slices| - 1 ==> |slices[i]| == 100
  {
  }

  function FileJob(file: DumpFile): Job {
    if file == [] then [] else FileJob(file[..|file| - 1]) + RunPhases(file[|file| - 1])
  }

  function PhasePatch(phase: Phase): Patch {
    if phase == [] then map[] else PhasePatch(phase[..|phase| - 1]) + phase[|phase| - 1]
  }

  function JobPatch(job: Job): Patch {
    if job == [] then map[] else JobPatch(job[..|job| - 1]) + PhasePatch(job[|job| - 1])
  }

  lemma PatchesAssociate(p: Patch, q: Patch, r: Patch)
    ensures p + (q + r) == (p + q) + r
  {
  }

  lemma {:induction false} AddPatchAppend(a: seq<MarcRecord>, b: seq<MarcRecord>)
    ensures AddPatch(a + b) == AddPatch(a) + AddPatch(b)
  {
    if b == [] {
      assert a + b == a;
    } else {
      assert (a + b)[..|a + b| - 1] == a + b[..|b| - 1];
      AddPatchAppend(a, b[..|b| - 1]);
      PatchesAssociate(AddPatch(a), AddPatch(b[..|b| - 1]), RecordPatch(b[|b| - 1]));
    }
  }

  lemma {:induction false} AddPatchLive(run: TrajectRun)
    ensures AddPatch(LiveRecords(run)) == AddPatch(run)
  {
    if run != [] {
      var init, last := run[..|run| - 1], run[|run| - 1];
      assert run == init + [last];
      FilterAppend(init, [last], (r: MarcRecord) => r.Live?);
      AddPatchAppend(LiveRecords(init), LiveRecords([last]));
      AddPatchLive(init);
      assert LiveRecords([last]) == if last.Live? then [last] else [];
      assert [last][..0] == [];
      assert AddPatch([last]) == AddPatch([]) + RecordPatch(last);
    }
  }

  lemma {:induction false} BatchPatchesSum(batches: seq<seq<MarcRecord>>)
    ensures PhasePatch(BatchPatches(batches)) == AddPatch(Flatten(batches))
  {
    if batches != [] {
      var init, last := batches[..|batches| - 1], batches[|batches| - 1];
      assert batches == init + [last];
      FlattenAppend(init, [last]);
      assert Flatten([last]) == last;
      AddPatchAppend(Flatten(init), last);
      BatchPatchesSum(init);
      assert BatchPatches(batches)[..|batches| - 1] == BatchPatches(init);
    }
  }

  lemma {:induction false} DeletePatchesSum(slices: seq<seq<string>>)
    ensures PhasePatch(DeletePatches(slices)) == DeletePatch(Flatten(slices))
  {
    if slices != [] {
      var init, last := slices[..|slices| - 1], slices[|slices| - 1];
      assert slices == init + [last];
      FlattenAppend(init, [last]);
      assert Flatten([last]) == last;
      DeletePatchesSum(init);
      assert DeletePatches(slices)[..|slices| - 1] == DeletePatches(init);
    }
  }

  lemma {:induction false} JobPatchAppend(a: Job, b: Job)
    ensures JobPatch(a + b) == JobPatch(a) + JobPatch(b)
  {
    if b == [] {
      assert a + b == a;
    } else {
      assert (a + b)[..|a + b| - 1] == a + b[..|b| - 1];
      JobPatchAppend(a, b[..|b| - 1]);
      PatchesAssociate(JobPatch(a), JobPatch(b[..|b| - 1]), PhasePatch(b[|b| - 1]));
    }
  }

  lemma JobPatchTwo(adds: Phase, deletes: Phase)
    ensures JobPatch([adds, deletes]) == PhasePatch(adds) + PhasePatch(deletes)
  {
    assert [adds, deletes][..1] == [adds];
    assert [adds][..0] == [];
    assert JobPatch([adds]) == JobPatch([]) + PhasePatch(adds);
  }

  /** Cutting a run into batches and delete slices, sent in order, changes nothing. */
  lemma RunPhasesPatch(run: TrajectRun)
    ensures JobPatch(RunPhases(run)) == RunPatch(run)
  {
    var batches := Slices(LiveRecords(run), WRITER_BATCH);
    var slices := Slices(DeletedIds(run), DELETE_SLICE);
    JobPatchTwo(BatchPatches(batches), DeletePatches(slices));
    BatchPatchesSum(batches);
    DeletePatchesSum(slices);
    AddPatchLive(run);
  }

  /** The requests of a whole file, taken in order, mean what its records mean. */
  lemma {:induction false} FileJobPatch(file: DumpFile)
    ensures JobPatch(FileJob(file)) == FilePatch(file)
  {
    if file != [] {
      FileJobPatch(file[..|file| - 1]);
      JobPatchAppend(FileJob(file[..|file| - 1]), RunPhases(file[|file| - 1]));
      RunPhasesPatch(file[|file| - 1]);
    }
  }
}
