/** Deleting by slices with one retry (marc_to_solr/lib/solr_deleter.rb), and the file job that ends each of
    its traject runs with such a deletion (app/jobs/index/dump_file_job.rb,
    marc_to_solr/lib/traject_config.rb). */
module SolrDeleters {
  import opened Wrappers
  import opened SolrIndex

  /** A reply in time with its status, none in time, or any other exception, such as a refused connection. */
  datatype Response = Status(code: int) | Timeout | Broken

  /** The replies to come, by request number. */
  type Replies = nat -> Response

  predicate Acknowledges(r: Response) { r == Status(200) }

  predicate Answered(r: Response) { r.Status? }

  predicate Returns(r: Response) { r != Broken }

  /** What a whole deletion comes to: the slices acknowledged, the slices reported to Honeybadger, those given
      up without a report, those that were not finished when an exception ended the deletion, and the requests
      made. */
  datatype Outcome = Outcome(
    deleted: seq<seq<string>>, reported: seq<seq<string>>, lost: seq<seq<string>>, undone: seq<seq<string>>,
    raised: bool, requests: nat)

  /** What becomes of one slice whose requests raised nothing, in front of what becomes of the others. */
  function DeleteFirst(slice: seq<string>, first: Response, retry: Response, rest: Outcome): Outcome {
    if Acknowledges(first) || Acknowledges(retry) then rest.(deleted := [slice] + rest.deleted)
    else if retry == Timeout then rest.(lost := [slice] + rest.lost)
    else rest.(reported := [slice] + rest.reported)
  }

  /** The exception that the request, or its retry, for the next slice raises. */
  function Raises(replies: Replies, at: nat): bool {
    replies(at) == Broken || (!Acknowledges(replies(at)) && replies(at + 1) == Broken)
  }

  /** The first request after those for the next slice. */
  function NextAt(replies: Replies, at: nat): nat {
    if Acknowledges(replies(at)) || replies(at) == Broken then at + 1 else at + 2
  }

  function DeleteSlices(slices: seq<seq<string>>, replies: Replies, at: nat): Outcome
    decreases |slices|
  {
    if slices == [] then Outcome([], [], [], [], false, at)
    else if Raises(replies, at) then Outcome([], [], [], slices, true, NextAt(replies, at))
    else
      var rest := DeleteSlices(slices[1..], replies, NextAt(replies, at));
      DeleteFirst(slices[0], replies(at), replies(at + 1), rest)
  }

  /** A server that applies exactly the requests it acknowledges. */
  class SolrServer {
    var docs: Index
    var requests: nat
    const replies: Replies

    constructor (docs: Index, replies: Replies)
      ensures this.docs == docs && this.replies == replies && requests == 0
    {
      this.docs, this.replies, requests := docs, replies, 0;
    }

    method Post(patch: Patch) returns (r: Response)
      modifies this
      ensures r == replies(old(requests)) && requests == old(requests) + 1
      ensures docs == if Acknowledges(r) then Apply(patch, old(docs)) else old(docs)
    {
      r := replies(requests);
      requests := requests + 1;
      if Acknowledges(r) { docs := Apply(patch, docs); }
    }
  }

  class SolrDeleter {
    const server: SolrServer
    var reported: seq<seq<string>>

    constructor (server: SolrServer)
      ensures this.server == server && reported == []
    {
      this.server, reported := server, [];
    }

    method DeleteBatch(batch: seq<string>) returns (raised: bool)
      modifies this, server
      ensures Did(DeleteSlices([batch], server.replies, old(server.requests)), old(server.docs), server.docs,
                  old(reported), reported, raised, server.requests)
    {
      assert [batch][1..] == [];
      assert Flatten([batch]) == batch;
      DeleteNothing(server.docs);
      var response := server.Post(DeletePatch(batch));
      if response == Broken { return true; }
      if Acknowledges(response) { return false; }
      var retry := server.Post(DeletePatch(batch));
      if retry == Broken { return true; }
      if Acknowledges(retry) { return false; }
      if retry != Timeout { reported := reported + [batch]; }
      raised := false;
    }

    method Delete(ids: seq<string>, batchSize: nat) returns (raised: bool)
      requires batchSize > 0
      modifies this, server
      ensures Did(DeleteSlices(Slices(ids, batchSize), server.replies, old(server.requests)),
                  old(server.docs), server.docs, old(reported), reported, raised, server.requests)
    {
      var slices := Slices(ids, batchSize);
      DeleteNothing(server.docs);
      for k := 0 to |slices|
        invariant Did(DeleteSlices(slices[..k], server.replies, old(server.requests)),
                      old(server.docs), server.docs, old(reported), reported, false, server.requests)
      {
        ghost var docs, reports := server.docs, reported;
        ghost var before := DeleteSlices(slices[..k], server.replies, old(server.requests));
        raised := DeleteBatch(slices[k]);
        ghost var one := DeleteSlices([slices[k]], server.replies, before.requests);
        DidTogether(before, one, old(server.docs), docs, server.docs, old(reported), reports, reported,
                    raised, before.requests, server.requests);
        DeleteOneMore(slices, k, server.replies, old(server.requests));
        if raised {
          DeleteCutOff(slices, k + 1, server.replies, old(server.requests));
          return;
        }
      }
      assert slices[..|slices|] == slices;
      raised := false;
    }
  }

  /** What an outcome means for the documents, the reports, the exception and the number of requests. */
  ghost predicate Did(
    o: Outcome, before: Index, after: Index,
    reported: seq<seq<string>>, reports: seq<seq<string>>, raised: bool, requests: nat)
  {
    && after == Apply(DeletePatch(Flatten(o.deleted)), before)
    && reports == reported + o.reported
    && raised == o.raised
    && requests == o.requests
  }

  lemma DidTogether(
    first: Outcome, second: Outcome, docs0: Index, docs1: Index, docs2: Index,
    reports0: seq<seq<string>>, reports1: seq<seq<string>>, reports2: seq<seq<string>>,
    raised: bool, requests1: nat, requests2: nat)
    requires Did(first, docs0, docs1, reports0, reports1, false, requests1)
    requires Did(second, docs1, docs2, reports1, reports2, raised, requests2)
    ensures Did(Together(first, second), docs0, docs2, reports0, reports2, raised, requests2)
  {
    DeleteTwice(first.deleted, second.deleted, docs0);
    Reassociate(reports0, first.reported, second.reported);
  }

  lemma DeleteOneMore(slices: seq<seq<string>>, k: nat, replies: Replies, at: nat)
    requires k < |slices| && !DeleteSlices(slices[..k], replies, at).raised
    ensures var before := DeleteSlices(slices[..k], replies, at);
            DeleteSlices(slices[..k + 1], replies, at) ==
              Together(before, DeleteSlices([slices[k]], replies, before.requests))
  {
    assert slices[..k + 1] == slices[..k] + [slices[k]];
    DeleteSlicesAppend(slices[..k], [slices[k]], replies, at);
  }

  /** After an exception nothing more happens. */
  lemma DeleteCutOff(slices: seq<seq<string>>, k: nat, replies: Replies, at: nat)
    requires k <= |slices| && DeleteSlices(slices[..k], replies, at).raised
    ensures var first := DeleteSlices(slices[..k], replies, at);
            DeleteSlices(slices, replies, at) == first.(undone := first.undone + slices[k..])
  {
    assert slices == slices[..k] + slices[k..];
    DeleteSlicesAppend(slices[..k], slices[k..], replies, at);
  }

  lemma DeleteNothing(docs: Index)
    ensures Apply(DeletePatch(Flatten([])), docs) == docs
  {
    IndexEquality(Apply(DeletePatch([]), docs), docs);
  }

  lemma DeleteTwice(a: seq<seq<string>>, b: seq<seq<string>>, docs: Index)
    ensures Apply(DeletePatch(Flatten(b)), Apply(DeletePatch(Flatten(a)), docs)) ==
            Apply(DeletePatch(Flatten(a + b)), docs)
  {
    FlattenAppend(a, b);
    ApplyApply(DeletePatch(Flatten(a)), DeletePatch(Flatten(b)), docs);
    assert DeletePatch(Flatten(a + b)) == DeletePatch(Flatten(a)) + DeletePatch(Flatten(b));
  }

  function Together(first: Outcome, second: Outcome): Outcome {
    Outcome(first.deleted + second.deleted, first.reported + second.reported, first.lost + second.lost,
            second.undone, second.raised, second.requests)
  }

  lemma DeleteFirstTogether(
    slice: seq<string>, first: Response, retry: Response, rest: Outcome, more: Outcome)
    ensures DeleteFirst(slice, first, retry, Together(rest, more)) ==
            Together(DeleteFirst(slice, first, retry, rest), more)
  {
    Reassociate([slice], rest.deleted, more.deleted);
    Reassociate([slice], rest.reported, more.reported);
    Reassociate([slice], rest.lost, more.lost);
  }

  lemma {:induction false} DeleteSlicesAppend(
    a: seq<seq<string>>, b: seq<seq<string>>, replies: Replies, at: nat)
    ensures var first := DeleteSlices(a, replies, at);
            DeleteSlices(a + b, replies, at) ==
            if first.raised then first.(undone := first.undone + b)
            else Together(first, DeleteSlices(b, replies, first.requests))
    decreases |a|
  {
    if a == [] {
      assert a + b == b;
    } else if !Raises(replies, at) {
      assert (a + b)[1..] == a[1..] + b;
      var next := NextAt(replies, at);
      var rest := DeleteSlices(a[1..], replies, next);
      DeleteSlicesAppend(a[1..], b, replies, next);
      DeleteFirstTogether(a[0], replies(at), replies(at + 1), rest, DeleteSlices(b, replies, rest.requests));
    }
  }

  /** For each of the next `count` slices: the first request is acknowledged, or it has another status or
      times out and the retry has an acceptable reply. */
  predicate EveryRetry(count: nat, replies: Replies, at: nat, acceptable: Response -> bool) {
    count == 0
    || ((Acknowledges(replies(at)) || (replies(at) != Broken && acceptable(replies(at + 1))))
        && EveryRetry(count - 1, replies, NextAt(replies, at), acceptable))
  }

  function Accounted(o: Outcome): multiset<seq<string>> {
    multiset(o.deleted) + multiset(o.reported) + multiset(o.lost)
  }

  lemma FirstAccounted(slice: seq<string>, first: Response, retry: Response, rest: Outcome)
    ensures Accounted(DeleteFirst(slice, first, retry, rest)) == Accounted(rest) + multiset{slice}
    ensures DeleteFirst(slice, first, retry, rest).undone == rest.undone
  {
    if Acknowledges(first) || Acknowledges(retry) {
      assert multiset([slice] + rest.deleted) == multiset{slice} + multiset(rest.deleted);
    } else if retry == Timeout {
      assert multiset([slice] + rest.lost) == multiset{slice} + multiset(rest.lost);
    } else {
      assert multiset([slice] + rest.reported) == multiset{slice} + multiset(rest.reported);
    }
  }

  lemma FirstKeepsRest(slice: seq<string>, first: Response, retry: Response, rest: Outcome)
    ensures var o := DeleteFirst(slice, first, retry, rest);
            o.undone == rest.undone && o.raised == rest.raised && o.requests == rest.requests
  {
  }

  /** An exception leaves undone the slices from the one that raised it on; that one and every slice before it
      took one or two requests, the others none. */
  lemma {:induction false} UndoneIsTail(slices: seq<seq<string>>, replies: Replies, at: nat)
    ensures var o := DeleteSlices(slices, replies, at);
            && (o.raised <==> o.undone != [])
            && |o.undone| <= |slices| && o.undone == slices[|slices| - |o.undone|..]
            && var tried := |slices| - |o.undone| + if o.raised then 1 else 0;
               at + tried <= o.requests <= at + 2 * tried
    decreases |slices|
  {
    if slices != [] && !Raises(replies, at) {
      UndoneIsTail(slices[1..], replies, NextAt(replies, at));
      FirstKeepsRest(slices[0], replies(at), replies(at + 1),
        DeleteSlices(slices[1..], replies, NextAt(replies, at)));
    }
  }

  /** Every slice is exactly one of deleted, reported, lost and undone. */
  lemma {:induction false} EverySliceAccounted(slices: seq<seq<string>>, replies: Replies, at: nat)
    ensures var o := DeleteSlices(slices, replies, at);
            Accounted(o) + multiset(o.undone) == multiset(slices)
    decreases |slices|
  {
    if slices != [] && !Raises(replies, at) {
      var rest := DeleteSlices(slices[1..], replies, NextAt(replies, at));
      EverySliceAccounted(slices[1..], replies, NextAt(replies, at));
      FirstAccounted(slices[0], replies(at), replies(at + 1), rest);
      assert slices == [slices[0]] + slices[1..];
    }
  }

  lemma {:induction false} LostIffNoStatus(slices: seq<seq<string>>, replies: Replies, at: nat)
    ensures var o := DeleteSlices(slices, replies, at);
            o.lost == [] && o.undone == [] <==> EveryRetry(|slices|, replies, at, Answered)
    decreases |slices|
  {
    if slices != [] && !Raises(replies, at) { LostIffNoStatus(slices[1..], replies, NextAt(replies, at)); }
  }

  /** Every slice is deleted or reported if and only if each is acknowledged at once, or its first request
      raises nothing but a timeout and its retry is answered in time. */
  lemma NothingLostIffRetriesAnswered(slices: seq<seq<string>>, replies: Replies, at: nat)
    ensures var o := DeleteSlices(slices, replies, at);
            multiset(o.deleted) + multiset(o.reported) == multiset(slices)
            <==> EveryRetry(|slices|, replies, at, Answered)
  {
    var o := DeleteSlices(slices, replies, at);
    EverySliceAccounted(slices, replies, at);
    LostIffNoStatus(slices, replies, at);
    var done := multiset(o.deleted) + multiset(o.reported);
    assert |done + multiset(o.lost) + multiset(o.undone)| == |done| + |o.lost| + |o.undone|;
    if o.lost == [] && o.undone == [] {
      assert done + multiset(o.lost) + multiset(o.undone) == done;
    }
  }

  lemma {:induction false} RaisesIffBroken(slices: seq<seq<string>>, replies: Replies, at: nat)
    ensures DeleteSlices(slices, replies, at).raised <==> !EveryRetry(|slices|, replies, at, Returns)
    decreases |slices|
  {
    if slices != [] && !Raises(replies, at) { RaisesIffBroken(slices[1..], replies, NextAt(replies, at)); }
  }

  // ----- reply by reply

  /** What the replies to the requests for a slice, by their statuses, make of it and of the requests after
      it. */
  lemma SliceByStatus(slice: seq<string>, rest: seq<seq<string>>, replies: Replies, at: nat)
    ensures var first, retry, all := replies(at), replies(at + 1), DeleteSlices([slice] + rest, replies, at);
            var once, twice := DeleteSlices(rest, replies, at + 1), DeleteSlices(rest, replies, at + 2);
            && (first == Status(200) ==> all == once.(deleted := [slice] + once.deleted))
            && (first == Broken ==> all == Outcome([], [], [], [slice] + rest, true, at + 1))
            && (first != Status(200) && first != Broken ==>
                  && (retry == Status(200) ==> all == twice.(deleted := [slice] + twice.deleted))
                  && (retry.Status? && retry.code != 200 ==>
                        all == twice.(reported := [slice] + twice.reported))
                  && (retry == Timeout ==> all == twice.(lost := [slice] + twice.lost))
                  && (retry == Broken ==> all == Outcome([], [], [], [slice] + rest, true, at + 2)))
  {
    assert ([slice] + rest)[1..] == rest;
  }

  /** A slice is deleted if and only if its first reply has status 200, or its first request raises nothing
      but a timeout and the reply to its retry has status 200; it is reported if and only if that reply has
      another. */
  lemma DeletedIffStatus200(slice: seq<string>, replies: Replies, at: nat)
    ensures var first, retry, o := replies(at), replies(at + 1), DeleteSlices([slice], replies, at);
            && (o.deleted == [slice] <==>
                first == Status(200) || ((first.Status? || first == Timeout) && retry == Status(200)))
            && (o.reported == [slice] <==>
                first != Status(200) && first != Broken && retry.Status? && retry.code != 200)
            && (o.requests == at + 1 <==> first == Status(200) || first == Broken)
  {
    assert [slice] + [] == [slice];
    SliceByStatus(slice, [], replies, at);
  }

  /** Status 200 at once deletes with one request; two other statuses report. */
  lemma StatusExamples()
    ensures DeleteSlices([["9"]], _ => Status(200), 0) == Outcome([["9"]], [], [], [], false, 1)
    ensures DeleteSlices([["9"]], _ => Status(500), 0) == Outcome([], [["9"]], [], [], false, 2)
  {
    assert [["9"]] + [] == [["9"]];
    SliceByStatus(["9"], [], _ => Status(200), 0);
    SliceByStatus(["9"], [], _ => Status(500), 0);
  }

  /** Two timeouts lose a slice without a report. */
  lemma TimeoutsLoseASlice()
    ensures DeleteSlices([["9"]], _ => Timeout, 0) == Outcome([], [], [["9"]], [], false, 2)
  {
    assert [["9"]][1..] == [];
  }

  /** A refused connection gets no retry, and the slices after it no request. */
  lemma BrokenRequestEndsDeletion()
    ensures var replies := (n: nat) => if n == 0 then Broken else Status(200);
            DeleteSlices([["8"], ["9"]], replies, 0) == Outcome([], [], [], [["8"], ["9"]], true, 1)
  {
  }

  lemma {:induction false} DeletedCount(slices: seq<seq<string>>, replies: Replies, at: nat)
    ensures |DeleteSlices(slices, replies, at).deleted| <= |slices|
    decreases |slices|
  {
    if slices != [] && !Raises(replies, at) { DeletedCount(slices[1..], replies, NextAt(replies, at)); }
  }

  /** Every slice is deleted if and only if each is acknowledged at once, or its first request raises nothing
      but a timeout and its retry is acknowledged. Then nothing is reported and nothing raised. */
  lemma {:induction false} AllDeletedIffRetriesWork(slices: seq<seq<string>>, replies: Replies, at: nat)
    ensures DeleteSlices(slices, replies, at).deleted == slices <==>
            EveryRetry(|slices|, replies, at, Acknowledges)
    ensures DeleteSlices(slices, replies, at).deleted == slices ==>
            DeleteSlices(slices, replies, at).reported == [] && !DeleteSlices(slices, replies, at).raised
    decreases |slices|
  {
    if slices != [] && !Raises(replies, at) {
      var rest := DeleteSlices(slices[1..], replies, NextAt(replies, at));
      AllDeletedIffRetriesWork(slices[1..], replies, NextAt(replies, at));
      DeletedCount(slices[1..], replies, NextAt(replies, at));
      assert slices == [slices[0]] + slices[1..];
      assert ([slices[0]] + rest.deleted)[1..] == rest.deleted;
    }
  }

  /** Every request that is not acknowledged raises nothing but a timeout and is followed by one that is. */
  ghost predicate NoTwoFail(replies: Replies, at: nat) {
    forall k :: k >= at && !Acknowledges(replies(k)) ==> replies(k) != Broken && Acknowledges(replies(k + 1))
  }

  lemma {:induction false} AcknowledgedRetries(count: nat, replies: Replies, at: nat)
    requires NoTwoFail(replies, at)
    ensures EveryRetry(count, replies, at, Acknowledges)
  {
    if count > 0 { AcknowledgedRetries(count - 1, replies, NextAt(replies, at)); }
  }

  /** In particular when no two requests in a row fail and none is broken. */
  lemma OneRetryIsEnough(slices: seq<seq<string>>, replies: Replies, at: nat)
    requires NoTwoFail(replies, at)
    ensures DeleteSlices(slices, replies, at).deleted == slices
    ensures DeleteSlices(slices, replies, at).reported == [] && !DeleteSlices(slices, replies, at).raised
  {
    AcknowledgedRetries(|slices|, replies, at);
    AllDeletedIffRetriesWork(slices, replies, at);
  }

  /** The writer's batches, all acknowledged, in order. */
  method AddAll(server: SolrServer, records: seq<MarcRecord>)
    requires forall k :: Acknowledges(server.replies(k))
    modifies server
    ensures server.docs == Apply(AddPatch(records), old(server.docs))
  {
    var batches := Slices(records, WRITER_BATCH);
    assert batches[..0] == [];
    IndexEquality(Apply(map[], server.docs), server.docs);
    for k := 0 to |batches|
      invariant server.docs == Apply(AddPatch(Flatten(batches[..k])), old(server.docs))
    {
      var response := server.Post(AddPatch(batches[k]));
      assert batches[..k + 1] == batches[..k] + [batches[k]];
      FlattenAppend(batches[..k], [batches[k]]);
      assert Flatten([batches[k]]) == batches[k];
      AddPatchAppend(Flatten(batches[..k]), batches[k]);
      ApplyApply(AddPatch(Flatten(batches[..k])), AddPatch(batches[k]), old(server.docs));
    }
    assert batches[..|batches|] == batches;
  }

  /** One traject run against a server that acknowledges everything: the batches of adds, then the deletions. */
  method PerformRun(server: SolrServer, run: TrajectRun)
    requires forall k :: Acknowledges(server.replies(k))
    modifies server
    ensures server.docs == Apply(RunPatch(run), old(server.docs))
  {
    AddAll(server, LiveRecords(run));
    AddPatchLive(run);
    var deleter := new SolrDeleter(server);
    OneRetryIsEnough(Slices(DeletedIds(run), DELETE_SLICE), server.replies, server.requests);
    var raised := deleter.Delete(DeletedIds(run), DELETE_SLICE);
    ApplyApply(AddPatch(run), DeletePatch(DeletedIds(run)), old(server.docs));
  }

  /** `DumpFileJob#perform`, uninterrupted: the decompressed entries of the file one after another. */
  method PerformFile(server: SolrServer, file: DumpFile)
    requires forall k :: Acknowledges(server.replies(k))
    modifies server
    ensures server.docs == Apply(FilePatch(file), old(server.docs))
  {
    assert file[..0] == [];
    assert Apply(FilePatch([]), server.docs) == server.docs by {
      IndexEquality(Apply(map[], server.docs), server.docs);
    }
    for r := 0 to |file|
      invariant server.docs == Apply(FilePatch(file[..r]), old(server.docs))
    {
      PerformRun(server, file[r]);
      assert file[..r + 1][..r] == file[..r];
      ApplyApply(FilePatch(file[..r]), RunPatch(file[r]), old(server.docs));
    }
    assert file[..|file|] == file;
  }
}
