/** The batching writer (marc_to_solr/lib/pul_solr_json_writer.rb): a queue, a thread pool, a fallback to
    single documents, and a limit on skipped ones. */
module SolrWriter {
  import opened Wrappers
  import opened SolrSending

  class PulSolrJsonWriter {
    const settings: Settings
    var batchedQueue: seq<Doc>
    /** The atomic skip counter. */
    var skippedRecordCount: nat
    var requests: nat
    /** The thread pool: batches not yet taken, threads in the fallback, and whether an exception waits to be
        re-raised. */
    var pending: seq<seq<Doc>>
    var workers: seq<Worker>
    var collected: bool

    /** The batches in the order they were formed. */
    ghost var formed: seq<seq<Doc>>
    ghost var log: Log
    /** Everything the caller and the threads have done, in the order in which they did it. */
    ghost var steps: seq<Step>

    constructor (maxSkipped: int, batchSize: int, threads: nat, replies: Replies)
      ensures Valid() && Puts() == [] && log == NOTHING_SENT
      ensures settings == Settings(if batchSize < 1 then 1 else batchSize,
                                   if maxSkipped < 0 then None else Some(maxSkipped), threads, replies)
    {
      settings := Settings(if batchSize < 1 then 1 else batchSize,
                           if maxSkipped < 0 then None else Some(maxSkipped), threads, replies);
      batchedQueue, skippedRecordCount, requests, pending, workers, collected := [], 0, 0, [], [], false;
      formed, log, steps := [], NOTHING_SENT, [];
    }

    /** Everything that was put. */
    ghost function Puts(): seq<Doc>
      reads `batchedQueue, `formed
    {
      Flatten(formed) + batchedQueue
    }

    ghost function Now(): Pool
      reads `pending, `workers, `log
    {
      Pool(pending, workers, log)
    }

    /** The writer is where its history leads. Without threads no batch is left over and exceptions are raised
        on the spot. */
    ghost predicate Pooled()
      reads `skippedRecordCount, `requests, `pending, `workers, `collected, `formed, `log, `steps
    {
      && Leads(steps, Now(), settings)
      && Handed(steps) == Flatten(formed)
      && Tallied()
      && (collected <==> settings.threads > 0 && log.raised > 0)
    }

    ghost predicate Valid()
      reads this
    {
      Batched(settings.batchSize, formed, batchedQueue) && Pooled()
    }

    ghost predicate Tallied()
      reads `skippedRecordCount, `requests, `log
    {
      skippedRecordCount == |log.skipped| && requests == log.requests
    }

    method PostSingle(c: Doc) returns (raised: bool)
      requires Tallied()
      modifies `skippedRecordCount, `requests, `log
      ensures Tallied() && log == SendSingle(old(log), c, settings)
      ensures raised <==> log.raised > old(log).raised
    {
      log := SendSingle(log, c, settings);
      raised := false;
      if c.encodable {
        var reply := settings.replies(requests, [c]);
        requests := requests + 1;
        if reply == Rejected {
          skippedRecordCount := skippedRecordCount + 1;
          raised := settings.maxSkipped.Some? && skippedRecordCount > settings.maxSkipped.value;
        } else {
          raised := reply == Unexpected;
        }
      }
    }

    method PostSingles(batch: seq<Doc>) returns (raised: bool)
      requires Tallied()
      modifies `skippedRecordCount, `requests, `log
      ensures Tallied() && log == SendSingles(old(log), batch, settings)
      ensures raised <==> log.raised > old(log).raised
    {
      ghost var whole := SendSingles(log, batch, settings);
      assert batch[0..] == batch;
      for k := 0 to |batch|
        invariant Tallied() && log.raised == old(log).raised
        invariant SendSingles(log, batch[k..], settings) == whole
      {
        assert batch[k..][1..] == batch[k + 1..];
        raised := PostSingle(batch[k]);
        if raised {
          log := log.(lost := log.lost + batch[k + 1..]);
          return;
        }
      }
      raised := false;
    }

    method PostBatch(batch: seq<Doc>) returns (raised: bool)
      requires Tallied()
      modifies `skippedRecordCount, `requests, `log
      ensures Tallied() && log == SendBatch(old(log), batch, settings)
      ensures raised <==> log.raised > old(log).raised
    {
      if batch == [] { return false; }
      if AllEncodable(batch) {
        var reply := settings.replies(requests, batch);
        requests := requests + 1;
        log := log.(requests := requests);
        if reply == Accepted {
          log := log.(accepted := log.accepted + batch);
          return false;
        }
      }
      raised := PostSingles(batch);
    }

    /** A thread takes a pending batch and sends it whole. */
    method ThreadTakes(k: nat)
      requires Tallied() && k < |pending|
      modifies `requests, `log, `pending, `workers
      ensures Tallied() && Now() == TakeBatch(old(Now()), k, settings)
    {
      var batch := pending[k];
      pending := pending[..k] + pending[k + 1..];
      if AllEncodable(batch) {
        var reply := settings.replies(requests, batch);
        requests := requests + 1;
        log := log.(requests := requests);
        if reply == Accepted {
          log := log.(accepted := log.accepted + batch);
          return;
        }
      }
      workers := workers + [Worker(batch, false)];
    }

    /** A thread sends the next document of its batch. */
    method ThreadSends(w: nat)
      requires Tallied() && CanSend(Now(), w)
      modifies `skippedRecordCount, `requests, `log, `workers, `collected
      ensures Tallied() && Now() == SendOne(old(Now()), w, settings)
      ensures log.raised >= old(log).raised && (collected <==> old(collected) || log.raised > old(log).raised)
    {
      log := SendOne(Now(), w, settings).log;
      var c, rest := workers[w].rest[0], workers[w].rest[1..];
      workers := workers[w := Worker(rest, false)];
      if c.encodable {
        var reply := settings.replies(requests, [c]);
        requests := requests + 1;
        if reply == Rejected {
          skippedRecordCount := skippedRecordCount + 1;
          workers := workers[w := Worker(rest, true)];
        } else if reply == Unexpected {
          workers := workers[w := IDLE];
          collected := true;
        }
      }
    }

    /** A thread compares the counter with the limit. */
    method ThreadCompares(w: nat)
      requires Tallied() && CanCompare(Now(), w)
      modifies `log, `workers, `collected
      ensures Tallied() && Now() == CompareOne(old(Now()), w, settings)
      ensures log.raised >= old(log).raised && (collected <==> old(collected) || log.raised > old(log).raised)
    {
      log := CompareOne(Now(), w, settings).log;
      if settings.maxSkipped.Some? && skippedRecordCount > settings.maxSkipped.value {
        workers := workers[w := IDLE];
        collected := true;
      } else {
        workers := workers[w := Worker(workers[w].rest, false)];
      }
    }

    predicate Unfinished()
      reads `pending, `workers
    {
      pending != [] || exists w :: 0 <= w < |workers| && workers[w] != IDLE
    }

    /** Any of the threads does any of the things it can do next. */
    method AnyThread() returns (ghost step: Step)
      requires Tallied() && Unfinished()
      modifies `skippedRecordCount, `requests, `log, `pending, `workers, `collected
      ensures Tallied() && Enabled(old(Now()), step) && !step.Hand?
      ensures Now() == Next(old(Now()), step, settings)
      ensures log.raised >= old(log).raised && (collected <==> old(collected) || log.raised > old(log).raised)
    {
      if {
        case pending != [] =>
          var k: nat :| k < |pending|;
          step := Take(k);
          ThreadTakes(k);
        case exists w :: 0 <= w < |workers| && workers[w].counted =>
          var w: nat :| w < |workers| && workers[w].counted;
          step := Compare(w);
          ThreadCompares(w);
        case exists w :: 0 <= w < |workers| && workers[w].rest != [] && !workers[w].counted =>
          var w: nat :| w < |workers| && workers[w].rest != [] && !workers[w].counted;
          step := Send(w);
          ThreadSends(w);
      }
    }

    method ThreadStep()
      requires Pooled() && settings.threads > 0 && Unfinished()
      modifies `skippedRecordCount, `requests, `log, `pending, `workers, `collected, `steps
      ensures Pooled() && Work(Now()) < Work(old(Now()))
    {
      ghost var before := Now();
      ghost var step := AnyThread();
      StepWorks(before, step, settings);
      HistoryStep(steps, step, settings);
      assert Handed(steps) + [] == Handed(steps);
      steps := steps + [step];
    }

    /** The threads work for a while, in any order; `all` waits until nothing is left to do. */
    method RunPool(all: bool)
      requires Pooled() && settings.threads > 0
      modifies `skippedRecordCount, `requests, `log, `pending, `workers, `collected, `steps
      ensures Pooled() && (all ==> Finished(Now()))
    {
      while Unfinished()
        invariant Pooled()
        decreases Work(Now())
      {
        if * {
          if !all { return; }
        }
        ThreadStep();
      }
    }

    /** To the pool, for the threads. */
    method HandOver(batch: seq<Doc>)
      requires Pooled() && settings.threads > 0
      modifies `pending, `formed, `steps
      ensures Pooled() && formed == old(formed) + [batch]
    {
      HistoryStep(steps, Step.Hand(batch), settings);
      FlattenOneMore(formed, batch);
      steps := steps + [Step.Hand(batch)];
      pending := pending + [batch];
      formed := formed + [batch];
    }

    /** In the calling context. */
    method SendNow(batch: seq<Doc>) returns (raised: bool)
      requires Pooled() && settings.threads == 0 && batch != []
      modifies `skippedRecordCount, `requests, `log, `formed, `steps
      ensures Pooled() && formed == old(formed) + [batch]
      ensures raised <==> log.raised > old(log).raised
    {
      ghost var more := BatchAlone(Run(NEW_POOL, steps, settings), batch, settings);
      RunAppend(NEW_POOL, steps, more, settings);
      HandedAppend(steps, more);
      FlattenOneMore(formed, batch);
      raised := PostBatch(batch);
      steps := steps + more;
      formed := formed + [batch];
    }

    /** A full or last batch: to the pool, or sent at once if there are no threads. */
    method SendOff(batch: seq<Doc>) returns (raised: bool)
      requires Pooled() && batch != []
      modifies `skippedRecordCount, `requests, `log, `pending, `formed, `steps
      ensures Pooled() && formed == old(formed) + [batch]
      ensures raised <==> log.raised > old(log).raised
      ensures settings.threads > 0 ==> log == old(log)
    {
      if settings.threads == 0 {
        raised := SendNow(batch);
      } else {
        HandOver(batch);
        raised := false;
      }
    }

    /** `put`. It raises what a thread has raised before, or, without threads, what sending the batch raises. */
    method Put(d: Doc) returns (raised: bool)
      requires Valid()
      modifies this
      ensures Valid()
      ensures raised ==> log.raised > 0 && (Puts() == old(Puts()) || Puts() == old(Puts()) + [d])
      ensures !raised ==> Puts() == old(Puts()) + [d]
      ensures settings.threads > 0 ==> (raised <==> old(collected))
      ensures settings.threads == 0 ==> (raised <==> log.raised > old(log).raised)
    {
      if collected { return true; }
      OneMorePut(formed, batchedQueue, d);
      batchedQueue := batchedQueue + [d];
      raised := false;
      if |batchedQueue| >= settings.batchSize {
        var batch := batchedQueue;
        batchedQueue := [];
        raised := SendOff(batch);
      }
      if settings.threads > 0 { RunPool(false); }
    }

    /** What a close leaves: every document sent, in full batches but for the last. */
    ghost predicate Closed()
      reads this
    {
      && settings.batchSize > 0 && batchedQueue == []
      && FullButLast(settings.batchSize, formed)
      && Leads(steps, Now(), settings) && Finished(Now()) && Handed(steps) == Flatten(formed)
      && skippedRecordCount == |log.skipped|
    }

    /** The last, possibly shorter batch. */
    method FlushQueue() returns (raised: bool)
      requires Valid()
      modifies `batchedQueue, `skippedRecordCount, `requests, `log, `pending, `formed, `steps
      ensures Pooled() && batchedQueue == [] && settings.batchSize > 0
      ensures FullButLast(settings.batchSize, formed)
      ensures Flatten(formed) == old(Puts())
      ensures raised <==> log.raised > old(log).raised
      ensures settings.threads > 0 ==> log == old(log)
    {
      BatchedClose(settings.batchSize, formed, batchedQueue);
      var batch := batchedQueue;
      batchedQueue := [];
      raised := false;
      if |batch| > 0 { raised := SendOff(batch); }
    }

    method Wait()
      requires Pooled()
      modifies `skippedRecordCount, `requests, `log, `pending, `workers, `collected, `steps
      ensures Pooled() && Finished(Now()) && (settings.threads == 0 ==> log == old(log))
    {
      if settings.threads > 0 { RunPool(true); }
    }

    method Close() returns (raised: bool)
      requires Valid()
      modifies `batchedQueue, `formed, `skippedRecordCount, `requests, `log, `pending, `workers
      modifies `collected, `steps
      ensures old(collected) ==> raised && log == old(log)
      ensures !old(collected) ==> Closed() && Flatten(formed) == old(Puts())
      ensures !old(collected) && settings.threads > 0 ==> (raised <==> log.raised > 0)
      ensures settings.threads == 0 ==> (raised <==> log.raised > old(log).raised)
    {
      if collected { return true; }
      raised := FlushQueue();
      Wait();
      raised := raised || collected;
    }
  }

  lemma PartOfPuts(formed: seq<seq<Doc>>, queue: seq<Doc>, docs: seq<Doc>)
    requires Flatten(formed) + queue <= docs
    ensures multiset(Flatten(formed)) <= multiset(docs)
  {
    assert docs == (Flatten(formed) + queue) + docs[|Flatten(formed) + queue|..];
  }

  /** What has raised so far has raised because more documents are bad than may be skipped. */
  lemma RaisedEarly(writer: PulSolrJsonWriter, docs: seq<Doc>, accepts: Doc -> bool)
    requires writer.Valid() && writer.log.raised > 0 && writer.Puts() <= docs
    requires Judges(writer.settings.replies, accepts)
    ensures writer.settings.maxSkipped.Some? && |Bads(docs, accepts)| > writer.settings.maxSkipped.value
  {
    PartOfPuts(writer.formed, writer.batchedQueue, docs);
    RaisedMeansTooManyBad(writer.steps, docs, accepts, writer.settings);
  }

  lemma ClosedOutcome(writer: PulSolrJsonWriter, accepts: Doc -> bool)
    requires writer.Closed()
    ensures var docs, log := Flatten(writer.formed), writer.log;
            && (log.raised == 0 ==>
                  multiset(docs) ==
                  multiset(log.accepted) + multiset(log.skipped) + multiset(log.unencodable))
            && (Judges(writer.settings.replies, accepts) ==> CostsItself(log, docs, accepts, writer.settings))
  {
    EveryDocumentAccounted(writer.steps, writer.settings);
    if Judges(writer.settings.replies, accepts) {
      OneBadDocumentCostsItself(writer.steps, accepts, writer.settings);
    }
  }

  /** Puts document after document, up to the first exception. */
  method PutAll(writer: PulSolrJsonWriter, docs: seq<Doc>) returns (raised: bool)
    requires writer.Valid() && writer.Puts() == [] && writer.log.raised == 0
    modifies writer
    ensures writer.Valid() && writer.Puts() <= docs
    ensures if raised then writer.log.raised > 0
            else writer.Puts() == docs && (writer.settings.threads == 0 ==> writer.log.raised == 0)
  {
    assert docs[..0] == [];
    for k := 0 to |docs|
      invariant writer.Valid() && writer.Puts() == docs[..k]
      invariant writer.settings.threads == 0 ==> writer.log.raised == 0
    {
      assert docs[..k + 1] == docs[..k] + [docs[k]];
      raised := writer.Put(docs[k]);
      if raised { return; }
    }
    assert docs[..|docs|] == docs;
    raised := false;
  }

  /** An indexing run: put every document, then close. */
  method WriteAll(
    writer: PulSolrJsonWriter, docs: seq<Doc>, ghost accepts: Doc -> bool) returns (raised: bool)
    requires writer.Valid() && writer.Puts() == [] && writer.log.raised == 0
    modifies writer
    ensures !raised ==>
              && writer.Closed() && Cut(writer.settings.batchSize, docs, writer.formed)
              && multiset(docs) ==
                 multiset(writer.log.accepted) + multiset(writer.log.skipped)
                 + multiset(writer.log.unencodable)
    ensures Judges(writer.settings.replies, accepts) ==>
              && (raised <==>
                  && writer.settings.maxSkipped.Some?
                  && |Bads(docs, accepts)| > writer.settings.maxSkipped.value)
              && (!raised ==> multiset(writer.log.accepted) == multiset(Goods(docs, accepts))
                              && writer.skippedRecordCount == |Bads(docs, accepts)|)
  {
    raised := PutAll(writer, docs);
    if raised || writer.collected {
      if Judges(writer.settings.replies, accepts) { RaisedEarly(writer, docs, accepts); }
    }
    if raised { return; }
    raised := writer.Close();
    if writer.Closed() { ClosedOutcome(writer, accepts); }
  }
}
