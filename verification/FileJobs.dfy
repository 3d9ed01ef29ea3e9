/** The file jobs of one dump, run side by side: any interleaving, any number of crashes and restarts
    (app/jobs/index/dump_file_job.rb, app/models/index_manager.rb#generate_batch). */
module FileJobs {
  import opened Wrappers
  import opened SolrIndex

  /** The phase a job is in and which of its requests Solr has acknowledged. */
  datatype Progress = Progress(phase: nat, sent: set<nat>)

  datatype State = State(progress: seq<Progress>, solr: Index)

  /** A crash sends the job back to the queue; the retry starts over from its first record. */
  datatype Action = Send(job: nat, request: nat) | Advance(job: nat) | Crash(job: nat)

  const FRESH := Progress(0, {})

  function Start(jobs: seq<Job>, solr: Index): State {
    State(seq(|jobs|, _ => FRESH), solr)
  }

  predicate Fits(jobs: seq<Job>, s: State) {
    && |s.progress| == |jobs|
    && forall f :: 0 <= f < |jobs| ==>
         && s.progress[f].phase <= |jobs[f]|
         && (s.progress[f].phase == |jobs[f]| ==> s.progress[f].sent == {})
         && (s.progress[f].phase < |jobs[f]| ==>
               forall i :: i in s.progress[f].sent ==> i < |jobs[f][s.progress[f].phase]|)
  }

  predicate Finished(job: Job, p: Progress) {
    p.phase == |job|
  }

  predicate AllFinished(jobs: seq<Job>, s: State)
    requires |s.progress| == |jobs|
  {
    forall f :: 0 <= f < |jobs| ==> Finished(jobs[f], s.progress[f])
  }

  predicate Enabled(jobs: seq<Job>, s: State, a: Action)
    requires Fits(jobs, s)
  {
    && a.job < |jobs|
    && var p, job := s.progress[a.job], jobs[a.job];
       match a
       case Send(_, i) => p.phase < |job| && i < |job[p.phase]| && i !in p.sent
       case Advance(_) => p.phase < |job| && forall i :: 0 <= i < |job[p.phase]| ==> i in p.sent
       case Crash(_) => true
  }

  function Step(jobs: seq<Job>, s: State, a: Action): (t: State)
    requires Fits(jobs, s) && Enabled(jobs, s, a)
    ensures Fits(jobs, t)
  {
    var p := s.progress[a.job];
    match a
    case Send(f, i) =>
      State(s.progress[f := p.(sent := p.sent + {i})], Apply(jobs[f][p.phase][i], s.solr))
    case Advance(f) => s.(progress := s.progress[f := Progress(p.phase + 1, {})])
    case Crash(f) => s.(progress := s.progress[f := FRESH])
  }

  predicate Valid(jobs: seq<Job>, s: State, acts: seq<Action>)
    requires Fits(jobs, s)
    decreases |acts|
  {
    acts == [] || (Enabled(jobs, s, acts[0]) && Valid(jobs, Step(jobs, s, acts[0]), acts[1..]))
  }

  function Run(jobs: seq<Job>, s: State, acts: seq<Action>): (t: State)
    requires Fits(jobs, s) && Valid(jobs, s, acts)
    ensures Fits(jobs, t)
    decreases |acts|
  {
    if acts == [] then s else Run(jobs, Step(jobs, s, acts[0]), acts[1..])
  }

  /** A schedule that the batch's success callback can follow: every job ends finished. */
  predicate Complete(jobs: seq<Job>, base: Index, acts: seq<Action>) {
    Valid(jobs, Start(jobs, base), acts) && AllFinished(jobs, Run(jobs, Start(jobs, base), acts))
  }

  // ----- which writes can be the last word on an id

  ghost predicate PhaseTouches(phase: Phase, id: string) {
    exists i :: 0 <= i < |phase| && id in phase[i]
  }

  ghost predicate Touches(job: Job, id: string) {
    exists k :: 0 <= k < |job| && PhaseTouches(job[k], id)
  }

  /** Request `i` of phase `k` writes `id`, and no later phase does. */
  ghost predicate FinalAt(job: Job, id: string, k: int, i: int) {
    && 0 <= k < |job| && 0 <= i < |job[k]| && id in job[k][i]
    && forall later :: k < later < |job| ==> !PhaseTouches(job[later], id)
  }

  ghost predicate FinalWrite(job: Job, id: string, value: Option<string>) {
    exists k, i :: FinalAt(job, id, k, i) && job[k][i][id] == value
  }

  ghost predicate Candidate(jobs: seq<Job>, id: string, value: Option<string>) {
    exists f :: 0 <= f < |jobs| && FinalWrite(jobs[f], id, value)
  }

  /** Wherever two files of the dump, or two requests of one phase, have the last word on an id, they say the
      same. */
  ghost predicate Agree(jobs: seq<Job>) {
    forall id, v, w :: Candidate(jobs, id, v) && Candidate(jobs, id, w) ==> v == w
  }

  /** Some final request for `id` is still to be acknowledged. */
  ghost predicate Outstanding(job: Job, p: Progress, id: string) {
    exists k, i :: FinalAt(job, id, k, i) && (p.phase < k || (p.phase == k && i !in p.sent))
  }

  ghost predicate Settled(jobs: seq<Job>, base: Index, s: State, id: string)
    requires |s.progress| == |jobs|
  {
    if exists f :: 0 <= f < |jobs| && Touches(jobs[f], id) then
      || (exists f :: 0 <= f < |jobs| && Outstanding(jobs[f], s.progress[f], id))
      || Candidate(jobs, id, Get(s.solr, id))
    else Get(s.solr, id) == Get(base, id)
  }

  ghost predicate Invariant(jobs: seq<Job>, base: Index, s: State) {
    Fits(jobs, s) && forall id :: Settled(jobs, base, s, id)
  }

  lemma {:induction false} LastTouch(job: Job, id: string, upTo: nat) returns (k: nat, i: nat)
    requires upTo <= |job|
    requires exists k :: 0 <= k < upTo && PhaseTouches(job[k], id)
    requires forall later :: upTo <= later < |job| ==> !PhaseTouches(job[later], id)
    ensures k < upTo && FinalAt(job, id, k, i)
  {
    if PhaseTouches(job[upTo - 1], id) {
      k := upTo - 1;
      i :| 0 <= i < |job[k]| && id in job[k][i];
    } else {
      k, i := LastTouch(job, id, upTo - 1);
    }
  }

  lemma StartInvariant(jobs: seq<Job>, base: Index)
    ensures Invariant(jobs, base, Start(jobs, base))
  {
    forall id ensures Settled(jobs, base, Start(jobs, base), id) {
      if f :| 0 <= f < |jobs| && Touches(jobs[f], id) {
        var k, i := LastTouch(jobs[f], id, |jobs[f]|);
        assert Outstanding(jobs[f], FRESH, id);
      }
    }
  }

  /** Advancing past a fully acknowledged phase leaves the same final requests outstanding. */
  lemma AdvanceOutstanding(job: Job, p: Progress, id: string)
    requires p.phase < |job| && forall i :: 0 <= i < |job[p.phase]| ==> i in p.sent
    requires Outstanding(job, p, id)
    ensures Outstanding(job, Progress(p.phase + 1, {}), id)
  {
    var k, i :| FinalAt(job, id, k, i) && (p.phase < k || (p.phase == k && i !in p.sent));
    assert FinalAt(job, id, k, i);
  }

  lemma SendSettles(jobs: seq<Job>, base: Index, s: State, f: nat, i: nat, id: string)
    requires Fits(jobs, s) && Enabled(jobs, s, Send(f, i)) && Settled(jobs, base, s, id)
    ensures Settled(jobs, base, Step(jobs, s, Send(f, i)), id)
  {
    var p, job := s.progress[f], jobs[f];
    var t := Step(jobs, s, Send(f, i));
    if id in job[p.phase][i] {
      assert PhaseTouches(job[p.phase], id);
      assert Touches(job, id);
      var k, j := LastTouch(job, id, |job|);
      if k == p.phase {
        assert FinalAt(job, id, k, i);
        assert FinalWrite(job, id, Get(t.solr, id));
      } else {
        assert k > p.phase;
        assert Outstanding(job, t.progress[f], id);
      }
    } else if g :| 0 <= g < |jobs| && Outstanding(jobs[g], s.progress[g], id) {
      var k, j :| FinalAt(jobs[g], id, k, j) &&
        (s.progress[g].phase < k || (s.progress[g].phase == k && j !in s.progress[g].sent));
      assert Outstanding(jobs[g], t.progress[g], id);
    }
  }

  lemma CrashSettles(jobs: seq<Job>, base: Index, s: State, f: nat, id: string)
    requires Fits(jobs, s) && Enabled(jobs, s, Crash(f)) && Settled(jobs, base, s, id)
    ensures Settled(jobs, base, Step(jobs, s, Crash(f)), id)
  {
    var t := Step(jobs, s, Crash(f));
    if Touches(jobs[f], id) {
      var k, i := LastTouch(jobs[f], id, |jobs[f]|);
      assert Outstanding(jobs[f], t.progress[f], id);
    } else if g :| 0 <= g < |jobs| && Outstanding(jobs[g], s.progress[g], id) {
      var k, j :| FinalAt(jobs[g], id, k, j) &&
        (s.progress[g].phase < k || (s.progress[g].phase == k && j !in s.progress[g].sent));
      assert PhaseTouches(jobs[g][k], id);
      assert g != f;
      assert Outstanding(jobs[g], t.progress[g], id);
    }
  }

  /** Every step, a crash included, keeps the invariant. */
  lemma StepInvariant(jobs: seq<Job>, base: Index, s: State, a: Action)
    requires Invariant(jobs, base, s) && Enabled(jobs, s, a)
    ensures Invariant(jobs, base, Step(jobs, s, a))
  {
    var t := Step(jobs, s, a);
    forall id ensures Settled(jobs, base, t, id) {
      assert Settled(jobs, base, s, id);
      match a
      case Send(f, i) => SendSettles(jobs, base, s, f, i, id);
      case Crash(f) => CrashSettles(jobs, base, s, f, id);
      case Advance(f) =>
        if g :| 0 <= g < |jobs| && Outstanding(jobs[g], s.progress[g], id) {
          if g == f { AdvanceOutstanding(jobs[f], s.progress[f], id); }
          assert Outstanding(jobs[g], t.progress[g], id);
        }
    }
  }

  lemma {:induction false} RunInvariant(jobs: seq<Job>, base: Index, s: State, acts: seq<Action>)
    requires Invariant(jobs, base, s) && Valid(jobs, s, acts)
    ensures Invariant(jobs, base, Run(jobs, s, acts))
    decreases |acts|
  {
    if acts != [] {
      StepInvariant(jobs, base, s, acts[0]);
      RunInvariant(jobs, base, Step(jobs, s, acts[0]), acts[1..]);
    }
  }

  /** Finished jobs leave each id either untouched or with the last word of some file. */
  lemma FinishedSettled(jobs: seq<Job>, base: Index, s: State, id: string)
    requires Invariant(jobs, base, s) && AllFinished(jobs, s)
    ensures (exists f :: 0 <= f < |jobs| && Touches(jobs[f], id)) ==> Candidate(jobs, id, Get(s.solr, id))
    ensures !(exists f :: 0 <= f < |jobs| && Touches(jobs[f], id)) ==> Get(s.solr, id) == Get(base, id)
  {
    assert Settled(jobs, base, s, id);
    forall f | 0 <= f < |jobs| ensures !Outstanding(jobs[f], s.progress[f], id) {
      assert Finished(jobs[f], s.progress[f]);
    }
  }

  // ----- the sequential replay

  function JobsPatch(jobs: seq<Job>): Patch {
    if jobs == [] then map[] else JobsPatch(jobs[..|jobs| - 1]) + JobPatch(jobs[|jobs| - 1])
  }

  lemma {:induction false} PhasePatchTouches(phase: Phase, id: string)
    ensures id in PhasePatch(phase) <==> PhaseTouches(phase, id)
    ensures id in PhasePatch(phase) ==>
            exists i :: 0 <= i < |phase| && id in phase[i] && phase[i][id] == PhasePatch(phase)[id]
  {
    if phase != [] {
      var n := |phase| - 1;
      PhasePatchTouches(phase[..n], id);
      if i :| 0 <= i < |phase| && id in phase[i] {
        if i < n { assert phase[..n][i] == phase[i]; }
      }
      if id !in phase[n] && id in PhasePatch(phase[..n]) {
        var i :| 0 <= i < n && id in phase[..n][i] && phase[..n][i][id] == PhasePatch(phase[..n])[id];
        assert phase[i] == phase[..n][i];
      }
    }
  }

  lemma UntouchedLast(job: Job, id: string)
    requires job != [] && !PhaseTouches(job[|job| - 1], id)
    ensures Touches(job, id) <==> Touches(job[..|job| - 1], id)
    ensures forall value :: FinalWrite(job[..|job| - 1], id, value) ==> FinalWrite(job, id, value)
  {
    var n := |job| - 1;
    var init := job[..n];
    if k :| 0 <= k < |job| && PhaseTouches(job[k], id) {
      assert init[k] == job[k];
    }
    if k :| 0 <= k < n && PhaseTouches(init[k], id) {
      assert PhaseTouches(job[k], id);
    }
    forall value | FinalWrite(init, id, value) ensures FinalWrite(job, id, value) {
      var k, i :| FinalAt(init, id, k, i) && init[k][i][id] == value;
      forall later | k < later < |job| ensures !PhaseTouches(job[later], id) {
        if later < n { assert job[later] == init[later]; }
      }
      assert FinalAt(job, id, k, i);
    }
  }

  lemma {:induction false} JobPatchTouches(job: Job, id: string)
    ensures id in JobPatch(job) <==> Touches(job, id)
    ensures id in JobPatch(job) ==> FinalWrite(job, id, JobPatch(job)[id])
  {
    if job != [] {
      var n := |job| - 1;
      var init := job[..n];
      PhasePatchTouches(job[n], id);
      JobPatchTouches(init, id);
      if id in PhasePatch(job[n]) {
        var i :| 0 <= i < |job[n]| && id in job[n][i] && job[n][i][id] == PhasePatch(job[n])[id];
        assert FinalAt(job, id, n, i);
      } else {
        UntouchedLast(job, id);
      }
    }
  }

  lemma {:induction false} JobsPatchTouches(jobs: seq<Job>, id: string)
    ensures id in JobsPatch(jobs) <==> exists f :: 0 <= f < |jobs| && Touches(jobs[f], id)
    ensures id in JobsPatch(jobs) ==> Candidate(jobs, id, JobsPatch(jobs)[id])
  {
    if jobs != [] {
      var n := |jobs| - 1;
      var init := jobs[..n];
      JobPatchTouches(jobs[n], id);
      JobsPatchTouches(init, id);
      if f :| 0 <= f < |jobs| && Touches(jobs[f], id) {
        if f < n { assert init[f] == jobs[f]; }
      }
      if id in JobPatch(jobs[n]) {
        assert Touches(jobs[n], id);
      } else if id in JobsPatch(init) {
        var f :| 0 <= f < n && FinalWrite(init[f], id, JobsPatch(init)[id]);
        assert jobs[f] == init[f];
        var g :| 0 <= g < n && Touches(init[g], id);
        assert jobs[g] == init[g];
      }
    }
  }

  /** Every complete schedule, retries included, ends with what sending file after file gives. */
  lemma FinishedIsReplay(jobs: seq<Job>, base: Index, s: State)
    requires Invariant(jobs, base, s) && AllFinished(jobs, s) && Agree(jobs)
    ensures s.solr == Apply(JobsPatch(jobs), base)
  {
    forall id ensures Get(s.solr, id) == Get(Apply(JobsPatch(jobs), base), id) {
      FinishedSettled(jobs, base, s, id);
      JobsPatchTouches(jobs, id);
    }
    IndexEquality(s.solr, Apply(JobsPatch(jobs), base));
  }

  lemma Confluence(jobs: seq<Job>, base: Index, acts: seq<Action>)
    requires Complete(jobs, base, acts) && Agree(jobs)
    ensures Run(jobs, Start(jobs, base), acts).solr == Apply(JobsPatch(jobs), base)
  {
    StartInvariant(jobs, base);
    RunInvariant(jobs, base, Start(jobs, base), acts);
    FinishedIsReplay(jobs, base, Run(jobs, Start(jobs, base), acts));
  }

  // ----- when two files, or two batches of one run, disagree: two schedules that end differently

  lemma {:induction false} RunAppend(jobs: seq<Job>, s: State, a: seq<Action>, b: seq<Action>)
    requires Fits(jobs, s) && Valid(jobs, s, a) && Valid(jobs, Run(jobs, s, a), b)
    ensures Valid(jobs, s, a + b) && Run(jobs, s, a + b) == Run(jobs, Run(jobs, s, a), b)
    decreases |a|
  {
    if a == [] {
      assert a + b == b;
    } else {
      assert (a + b)[1..] == a[1..] + b;
      RunAppend(jobs, Step(jobs, s, a[0]), a[1..], b);
    }
  }

  lemma OneStep(jobs: seq<Job>, s: State, a: Action)
    requires Fits(jobs, s) && Enabled(jobs, s, a)
    ensures Valid(jobs, s, [a]) && Run(jobs, s, [a]) == Step(jobs, s, a)
  {
    assert [a][1..] == [];
    assert Valid(jobs, Step(jobs, s, a), []);
  }

  lemma {:induction false} SendAll(
    jobs: seq<Job>, s: State, f: nat, todo: set<nat>, id: string) returns (acts: seq<Action>)
    requires Fits(jobs, s) && f < |jobs| && s.progress[f].phase < |jobs[f]|
    requires todo !! s.progress[f].sent && forall i :: i in todo ==> i < |jobs[f][s.progress[f].phase]|
    ensures Valid(jobs, s, acts)
    ensures var p := s.progress[f];
            Run(jobs, s, acts).progress == s.progress[f := p.(sent := p.sent + todo)]
    ensures !PhaseTouches(jobs[f][s.progress[f].phase], id) ==>
            Get(Run(jobs, s, acts).solr, id) == Get(s.solr, id)
    decreases todo
  {
    if todo == {} {
      acts := [];
      assert s.progress[f].sent + todo == s.progress[f].sent;
    } else {
      var i :| i in todo;
      var t := Step(jobs, s, Send(f, i));
      var rest := SendAll(jobs, t, f, todo - {i}, id);
      assert s.progress[f].sent + {i} + (todo - {i}) == s.progress[f].sent + todo;
      OneStep(jobs, s, Send(f, i));
      RunAppend(jobs, s, [Send(f, i)], rest);
      acts := [Send(f, i)] + rest;
    }
  }

  function UpTo(n: nat): (r: set<nat>)
    ensures forall i: nat :: i in r <==> i < n
  {
    if n == 0 then {} else UpTo(n - 1) + {n - 1}
  }

  /** Every request of one phase, with request `last` acknowledged after all the others. */
  lemma SendPhase(jobs: seq<Job>, s: State, f: nat, last: Option<nat>, id: string) returns (acts: seq<Action>)
    requires Fits(jobs, s) && f < |jobs| && s.progress[f].phase < |jobs[f]| && s.progress[f].sent == {}
    requires last.Some? ==> last.value < |jobs[f][s.progress[f].phase]|
    ensures Valid(jobs, s, acts)
    ensures var p, t := s.progress[f], Run(jobs, s, acts);
            t.progress == s.progress[f := p.(sent := UpTo(|jobs[f][p.phase]|))]
    ensures !PhaseTouches(jobs[f][s.progress[f].phase], id) ==>
            Get(Run(jobs, s, acts).solr, id) == Get(s.solr, id)
    ensures last.Some? && id in jobs[f][s.progress[f].phase][last.value] ==>
              Get(Run(jobs, s, acts).solr, id) == jobs[f][s.progress[f].phase][last.value][id]
  {
    var phase := jobs[f][s.progress[f].phase];
    var all := UpTo(|phase|);
    if last.None? {
      acts := SendAll(jobs, s, f, all, id);
      assert {} + all == all;
    } else {
      var others := SendAll(jobs, s, f, all - {last.value}, id);
      var t := Run(jobs, s, others);
      OneStep(jobs, t, Send(f, last.value));
      RunAppend(jobs, s, others, [Send(f, last.value)]);
      assert {} + (all - {last.value}) + {last.value} == all;
      acts := others + [Send(f, last.value)];
    }
  }

  lemma RunPhase(jobs: seq<Job>, s: State, f: nat, last: Option<nat>, id: string) returns (acts: seq<Action>)
    requires Fits(jobs, s) && f < |jobs| && s.progress[f].phase < |jobs[f]| && s.progress[f].sent == {}
    requires last.Some? ==> last.value < |jobs[f][s.progress[f].phase]|
    ensures Valid(jobs, s, acts)
    ensures Run(jobs, s, acts).progress == s.progress[f := Progress(s.progress[f].phase + 1, {})]
    ensures !PhaseTouches(jobs[f][s.progress[f].phase], id) ==>
            Get(Run(jobs, s, acts).solr, id) == Get(s.solr, id)
    ensures last.Some? && id in jobs[f][s.progress[f].phase][last.value] ==>
              Get(Run(jobs, s, acts).solr, id) == jobs[f][s.progress[f].phase][last.value][id]
  {
    var sends := SendPhase(jobs, s, f, last, id);
    OneStep(jobs, Run(jobs, s, sends), Advance(f));
    RunAppend(jobs, s, sends, [Advance(f)]);
    acts := sends + [Advance(f)];
  }

  /** The rest of job `f`, arranged so that request `i` of phase `k` has the last word on `id`. */
  lemma {:induction false} RunJob(
    jobs: seq<Job>, s: State, f: nat, k: nat, i: nat, id: string) returns (acts: seq<Action>)
    requires Fits(jobs, s) && f < |jobs| && s.progress[f].sent == {}
    requires FinalAt(jobs[f], id, k, i)
    ensures Valid(jobs, s, acts)
    ensures Run(jobs, s, acts).progress == s.progress[f := Progress(|jobs[f]|, {})]
    ensures Get(Run(jobs, s, acts).solr, id) ==
            if s.progress[f].phase <= k then jobs[f][k][i][id] else Get(s.solr, id)
    decreases |jobs[f]| - s.progress[f].phase
  {
    var p := s.progress[f].phase;
    if p == |jobs[f]| {
      acts := [];
    } else {
      var first := RunPhase(jobs, s, f, if p == k then Some(i) else None, id);
      var rest := RunJob(jobs, Run(jobs, s, first), f, k, i, id);
      RunAppend(jobs, s, first, rest);
      acts := first + rest;
    }
  }

  lemma {:induction false} FinishJob(jobs: seq<Job>, s: State, f: nat) returns (acts: seq<Action>)
    requires Fits(jobs, s) && f < |jobs| && s.progress[f].sent == {}
    ensures Valid(jobs, s, acts)
    ensures Run(jobs, s, acts).progress == s.progress[f := Progress(|jobs[f]|, {})]
    decreases |jobs[f]| - s.progress[f].phase
  {
    if s.progress[f].phase == |jobs[f]| {
      acts := [];
    } else {
      var first := RunPhase(jobs, s, f, None, "");
      var rest := FinishJob(jobs, Run(jobs, s, first), f);
      RunAppend(jobs, s, first, rest);
      acts := first + rest;
    }
  }

  /** The first `n` jobs other than `f`, one after another. */
  lemma {:induction false} FinishOthers(
    jobs: seq<Job>, base: Index, f: nat, n: nat) returns (acts: seq<Action>)
    requires n <= |jobs| && f < |jobs|
    ensures Valid(jobs, Start(jobs, base), acts)
    ensures var t := Run(jobs, Start(jobs, base), acts);
            forall g :: 0 <= g < |jobs| ==>
              t.progress[g] == if g < n && g != f then Progress(|jobs[g]|, {}) else FRESH
    decreases n
  {
    if n == 0 {
      acts := [];
    } else {
      acts := FinishOthers(jobs, base, f, n - 1);
      if n - 1 != f {
        var t := Run(jobs, Start(jobs, base), acts);
        var more := FinishJob(jobs, t, n - 1);
        RunAppend(jobs, Start(jobs, base), acts, more);
        acts := acts + more;
      }
    }
  }

  /** Each final write of each file is the outcome of some complete schedule. */
  lemma CandidateReached(
    jobs: seq<Job>, base: Index, id: string, value: Option<string>) returns (acts: seq<Action>)
    requires Candidate(jobs, id, value)
    ensures Complete(jobs, base, acts)
    ensures Get(Run(jobs, Start(jobs, base), acts).solr, id) == value
  {
    var f :| 0 <= f < |jobs| && FinalWrite(jobs[f], id, value);
    var k, i :| FinalAt(jobs[f], id, k, i) && jobs[f][k][i][id] == value;
    var first := FinishOthers(jobs, base, f, |jobs|);
    var rest := RunJob(jobs, Run(jobs, Start(jobs, base), first), f, k, i, id);
    RunAppend(jobs, Start(jobs, base), first, rest);
    acts := first + rest;
  }

  ghost predicate Confluent(jobs: seq<Job>, base: Index) {
    forall a, b :: Complete(jobs, base, a) && Complete(jobs, base, b) ==>
      Run(jobs, Start(jobs, base), a).solr == Run(jobs, Start(jobs, base), b).solr
  }

  lemma AgreeingConfluent(jobs: seq<Job>, base: Index)
    requires Agree(jobs)
    ensures Confluent(jobs, base)
  {
    forall a, b | Complete(jobs, base, a) && Complete(jobs, base, b)
      ensures Run(jobs, Start(jobs, base), a).solr == Run(jobs, Start(jobs, base), b).solr
    {
      Confluence(jobs, base, a);
      Confluence(jobs, base, b);
    }
  }

  /** The dump's outcome is independent of scheduling and retries exactly when the final writes agree. */
  lemma ConfluentIffAgree(jobs: seq<Job>, base: Index)
    ensures Confluent(jobs, base) <==> Agree(jobs)
  {
    if Agree(jobs) {
      AgreeingConfluent(jobs, base);
    } else {
      var id, v, w :| Candidate(jobs, id, v) && Candidate(jobs, id, w) && v != w;
      var a := CandidateReached(jobs, base, id, v);
      var b := CandidateReached(jobs, base, id, w);
      assert Complete(jobs, base, a) && Complete(jobs, base, b);
    }
  }

  // ----- restarts happen: after any schedule any job may crash, and the dump can still be finished

  /** Whatever a job has sent, it may crash; it starts over from its first record, and Solr keeps what it has. */
  lemma CrashPossible(jobs: seq<Job>, s: State, f: nat)
    requires Fits(jobs, s) && f < |jobs|
    ensures Enabled(jobs, s, Crash(f))
    ensures var t := Step(jobs, s, Crash(f));
            && t.solr == s.solr && |t.progress| == |s.progress|
            && t.progress[f].phase == 0 && t.progress[f].sent == {}
            && forall g :: 0 <= g < |jobs| && g != f ==> t.progress[g] == s.progress[g]
  {
  }

  predicate OnlyCrashes(jobs: seq<Job>, acts: seq<Action>) {
    forall a :: a in acts ==> a.Crash? && a.job < |jobs|
  }

  /** So every schedule may go on with crashes of any jobs. */
  lemma {:induction false} CrashesPossible(jobs: seq<Job>, s: State, acts: seq<Action>, crashes: seq<Action>)
    requires Fits(jobs, s) && Valid(jobs, s, acts) && OnlyCrashes(jobs, crashes)
    ensures Valid(jobs, s, acts + crashes)
    ensures Run(jobs, s, acts + crashes).solr == Run(jobs, s, acts).solr
    ensures forall a :: a in crashes ==>
              var p := Run(jobs, s, acts + crashes).progress[a.job]; p.phase == 0 && p.sent == {}
    decreases |crashes|
  {
    if crashes == [] {
      assert acts + crashes == acts;
    } else {
      var init, last := crashes[..|crashes| - 1], crashes[|crashes| - 1];
      assert crashes == init + [last];
      CrashesPossible(jobs, s, acts, init);
      OneMoreCrash(jobs, s, acts + init, last);
      Reassociate(acts, init, [last]);
      forall a | a in crashes
        ensures var p := Run(jobs, s, acts + crashes).progress[a.job]; p.phase == 0 && p.sent == {}
      {
        if a != last { assert a in init; }
      }
    }
  }

  lemma OneMoreCrash(jobs: seq<Job>, s: State, acts: seq<Action>, crash: Action)
    requires Fits(jobs, s) && Valid(jobs, s, acts) && crash.Crash? && crash.job < |jobs|
    ensures Valid(jobs, s, acts + [crash])
    ensures var t, u := Run(jobs, s, acts), Run(jobs, s, acts + [crash]);
            && u.solr == t.solr && u.progress[crash.job].phase == 0 && u.progress[crash.job].sent == {}
            && forall g :: 0 <= g < |jobs| && g != crash.job ==> u.progress[g] == t.progress[g]
  {
    var t := Run(jobs, s, acts);
    CrashPossible(jobs, t, crash.job);
    OneStep(jobs, t, crash);
    RunAppend(jobs, s, acts, [crash]);
  }

  predicate NoCrashes(acts: seq<Action>) {
    forall a :: a in acts ==> !a.Crash?
  }

  lemma {:induction false} SendRest(
    jobs: seq<Job>, s: State, f: nat, todo: set<nat>) returns (acts: seq<Action>)
    requires Fits(jobs, s) && f < |jobs| && s.progress[f].phase < |jobs[f]|
    requires todo !! s.progress[f].sent && forall i :: i in todo ==> i < |jobs[f][s.progress[f].phase]|
    ensures Valid(jobs, s, acts) && NoCrashes(acts)
    ensures var p := s.progress[f];
            Run(jobs, s, acts).progress == s.progress[f := p.(sent := p.sent + todo)]
    decreases todo
  {
    if todo == {} {
      acts := [];
      assert s.progress[f].sent + todo == s.progress[f].sent;
    } else {
      var i :| i in todo;
      var t := Step(jobs, s, Send(f, i));
      var rest := SendRest(jobs, t, f, todo - {i});
      assert s.progress[f].sent + {i} + (todo - {i}) == s.progress[f].sent + todo;
      OneStep(jobs, s, Send(f, i));
      RunAppend(jobs, s, [Send(f, i)], rest);
      acts := [Send(f, i)] + rest;
    }
  }

  /** A job finishes from wherever it is. */
  lemma {:induction false} FinishFromHere(jobs: seq<Job>, s: State, f: nat) returns (acts: seq<Action>)
    requires Fits(jobs, s) && f < |jobs|
    ensures Valid(jobs, s, acts) && NoCrashes(acts)
    ensures Run(jobs, s, acts).progress == s.progress[f := Progress(|jobs[f]|, {})]
    decreases |jobs[f]| - s.progress[f].phase
  {
    var p := s.progress[f];
    if p.phase == |jobs[f]| {
      acts := [];
    } else {
      var all := UpTo(|jobs[f][p.phase]|);
      var sends := SendRest(jobs, s, f, all - p.sent);
      assert p.sent + (all - p.sent) == all;
      var t := Run(jobs, s, sends);
      OneStep(jobs, t, Advance(f));
      RunAppend(jobs, s, sends, [Advance(f)]);
      var rest := FinishFromHere(jobs, Step(jobs, t, Advance(f)), f);
      RunAppend(jobs, s, sends + [Advance(f)], rest);
      acts := sends + [Advance(f)] + rest;
    }
  }

  lemma {:induction false} FinishFirst(jobs: seq<Job>, s: State, n: nat) returns (acts: seq<Action>)
    requires Fits(jobs, s) && n <= |jobs|
    ensures Valid(jobs, s, acts) && NoCrashes(acts)
    ensures forall f :: 0 <= f < n ==> Finished(jobs[f], Run(jobs, s, acts).progress[f])
    decreases n
  {
    if n == 0 {
      acts := [];
    } else {
      var before := FinishFirst(jobs, s, n - 1);
      var more := FinishFromHere(jobs, Run(jobs, s, before), n - 1);
      RunAppend(jobs, s, before, more);
      acts := before + more;
    }
  }

  /** Every schedule so far, with any crashes after it, is the beginning of a complete one without further
      crashes. */
  lemma RestartsComplete(jobs: seq<Job>, base: Index, acts: seq<Action>, crashes: seq<Action>)
    returns (rest: seq<Action>)
    requires Valid(jobs, Start(jobs, base), acts) && OnlyCrashes(jobs, crashes)
    ensures NoCrashes(rest) && Complete(jobs, base, acts + crashes + rest)
  {
    CrashesPossible(jobs, Start(jobs, base), acts, crashes);
    var s := Run(jobs, Start(jobs, base), acts + crashes);
    rest := FinishFirst(jobs, s, |jobs|);
    RunAppend(jobs, Start(jobs, base), acts + crashes, rest);
  }

  // ----- record-level conditions under which a dump's files agree

  function Jobs(files: seq<DumpFile>): (jobs: seq<Job>)
    ensures |jobs| == |files| && forall f :: 0 <= f < |files| ==> jobs[f] == FileJob(files[f])
  {
    seq(|files|, f requires 0 <= f < |files| => FileJob(files[f]))
  }

  lemma {:induction false} JobsPatchIsFilesPatch(files: seq<DumpFile>)
    ensures JobsPatch(Jobs(files)) == FilesPatch(files)
  {
    if files != [] {
      var init := files[..|files| - 1];
      JobsPatchIsFilesPatch(init);
      FileJobPatch(files[|files| - 1]);
      assert Jobs(files)[..|files| - 1] == Jobs(init);
    }
  }

  /** No id occurs in two files, and no run adds the same id twice. An id may be both added and deleted
      by a run, and may come back in a later run of its file. */
  ghost predicate SeparateIds(files: seq<DumpFile>) {
    && (forall f, g, id ::
          0 <= f < |files| && 0 <= g < |files| && id in FilePatch(files[f]) && id in FilePatch(files[g]) ==>
          f == g)
    && (forall f, r :: 0 <= f < |files| && 0 <= r < |files[f]| ==> AddsEachIdOnce(files[f][r]))
  }

  predicate AddsEachIdOnce(run: TrajectRun) {
    forall i, j :: 0 <= i < j < |run| && run[i].Live? && run[j].Live? ==> run[i].id != run[j].id
  }

  /** Requests of one phase that write the same id write the same thing. */
  ghost predicate OneVoice(phase: Phase) {
    forall i, j, id :: 0 <= i < |phase| && 0 <= j < |phase| && id in phase[i] && id in phase[j] ==>
      phase[i][id] == phase[j][id]
  }

  lemma {:induction false} InFlatten<T>(xss: seq<seq<T>>, i: nat, x: T)
    requires i < |xss| && x in xss[i]
    ensures x in Flatten(xss)
  {
    if i > 0 { InFlatten(xss[1..], i - 1, x); }
  }

  lemma AddsOneVoice(run: TrajectRun)
    requires AddsEachIdOnce(run)
    ensures OneVoice(RunPhases(run)[0])
  {
    var batches := Slices(LiveRecords(run), WRITER_BATCH);
    var phase := BatchPatches(batches);
    forall i, j, id | 0 <= i < |phase| && 0 <= j < |phase| && id in phase[i] && id in phase[j]
      ensures phase[i][id] == phase[j][id]
    {
      var k, d := LastLiveWins(batches[i], id);
      var l, e := LastLiveWins(batches[j], id);
      InFlatten(batches, i, Live(id, d));
      InFlatten(batches, j, Live(id, e));
      var m :| 0 <= m < |run| && run[m] == Live(id, d);
      var n :| 0 <= n < |run| && run[n] == Live(id, e);
      assert m == n;
    }
  }

  lemma {:induction false} FileOneVoice(file: DumpFile)
    requires forall r :: 0 <= r < |file| ==> AddsEachIdOnce(file[r])
    ensures forall k :: 0 <= k < |FileJob(file)| ==> OneVoice(FileJob(file)[k])
  {
    if file != [] {
      var init, last := file[..|file| - 1], file[|file| - 1];
      FileOneVoice(init);
      assert AddsEachIdOnce(file[|file| - 1]);
      AddsOneVoice(last);
      assert OneVoice(RunPhases(last)[1]);
      assert FileJob(file) == FileJob(init) + RunPhases(last);
    }
  }

  lemma SameFinalPhase(job: Job, id: string, v: Option<string>, w: Option<string>)
    requires forall k :: 0 <= k < |job| ==> OneVoice(job[k])
    requires FinalWrite(job, id, v) && FinalWrite(job, id, w)
    ensures v == w
  {
    var k, i :| FinalAt(job, id, k, i) && job[k][i][id] == v;
    var l, j :| FinalAt(job, id, l, j) && job[l][j][id] == w;
    assert PhaseTouches(job[k], id) && PhaseTouches(job[l], id);
    assert k == l;
    assert OneVoice(job[k]);
  }

  lemma SeparateIdsAgree(files: seq<DumpFile>)
    requires SeparateIds(files)
    ensures Agree(Jobs(files))
  {
    var jobs := Jobs(files);
    forall id, v, w | Candidate(jobs, id, v) && Candidate(jobs, id, w) ensures v == w {
      var f :| 0 <= f < |jobs| && FinalWrite(jobs[f], id, v);
      var g :| 0 <= g < |jobs| && FinalWrite(jobs[g], id, w);
      FinalWriteTouches(jobs[f], id, v);
      FinalWriteTouches(jobs[g], id, w);
      FileJobPatch(files[f]);
      FileJobPatch(files[g]);
      assert f == g;
      FileOneVoice(files[f]);
      SameFinalPhase(jobs[f], id, v, w);
    }
  }

  lemma FinalWriteTouches(job: Job, id: string, v: Option<string>)
    requires FinalWrite(job, id, v)
    ensures id in JobPatch(job)
  {
    var k, i :| FinalAt(job, id, k, i) && job[k][i][id] == v;
    assert PhaseTouches(job[k], id);
    JobPatchTouches(job, id);
  }

  /** The promise for real dumps: any interleaving of their file jobs, any number of restarts, equals reading
      the files one after another, each run adding its live records and then deleting the deleted ones. */
  lemma DumpConfluence(files: seq<DumpFile>, base: Index, acts: seq<Action>)
    requires SeparateIds(files) && Complete(Jobs(files), base, acts)
    ensures Run(Jobs(files), Start(Jobs(files), base), acts).solr == Apply(FilesPatch(files), base)
  {
    SeparateIdsAgree(files);
    Confluence(Jobs(files), base, acts);
    JobsPatchIsFilesPatch(files);
  }
}
