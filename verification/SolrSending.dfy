/** What the batching writer sends to Solr and where every document goes: one request after another, or from
    the threads of a pool, with their requests interleaved in any way
    (marc_to_solr/lib/pul_solr_json_writer.rb:109-220). */
module SolrSending {
  import opened Wrappers

  /** `encodable` is false for a document that the JSON generator refuses. */
  datatype Doc = Doc(json: string, encodable: bool)

  /** Status 200; another status, a timeout or a refused connection; any other exception. */
  datatype Reply = Accepted | Rejected | Unexpected

  /** Solr's answer to the n-th request, given what it carries. */
  type Replies = (nat, seq<Doc>) -> Reply

  /** Where every document has gone so far, and how often sending raised an exception. */
  datatype Log = Log(
    requests: nat, accepted: seq<Doc>, skipped: seq<Doc>, unencodable: seq<Doc>, lost: seq<Doc>, raised: nat)

  const NOTHING_SENT := Log(0, [], [], [], [], 0)

  datatype Settings = Settings(batchSize: nat, maxSkipped: Option<nat>, threads: nat, replies: Replies)

  function SkippedTooMany(log: Log, st: Settings): bool {
    st.maxSkipped.Some? && |log.skipped| > st.maxSkipped.value
  }

  /** `send_single` */
  function SendSingle(log: Log, c: Doc, st: Settings): Log {
    if !c.encodable then log.(unencodable := log.unencodable + [c])
    else
      var next := log.(requests := log.requests + 1);
      match st.replies(log.requests, [c])
      case Accepted => next.(accepted := log.accepted + [c])
      case Rejected =>
        var counted := next.(skipped := log.skipped + [c]);
        if SkippedTooMany(counted, st) then counted.(raised := log.raised + 1) else counted
      case Unexpected => next.(lost := log.lost + [c], raised := log.raised + 1)
  }

  /** One document after another, up to the first exception. */
  function SendSingles(log: Log, batch: seq<Doc>, st: Settings): Log
    decreases |batch|
  {
    if batch == [] then log
    else
      var next := SendSingle(log, batch[0], st);
      if next.raised > log.raised then next.(lost := next.lost + batch[1..])
      else SendSingles(next, batch[1..], st)
  }

  predicate AllEncodable(batch: seq<Doc>) {
    forall i :: 0 <= i < |batch| ==> batch[i].encodable
  }

  /** `send_batch` */
  function SendBatch(log: Log, batch: seq<Doc>, st: Settings): Log {
    if batch == [] then log
    else if !AllEncodable(batch) then SendSingles(log, batch, st)
    else
      var next := log.(requests := log.requests + 1);
      if st.replies(log.requests, batch) == Accepted then next.(accepted := log.accepted + batch)
      else SendSingles(next, batch, st)
  }

  // ----- exact accounting

  function Bag(log: Log): multiset<Doc> {
    multiset(log.accepted) + multiset(log.skipped) + multiset(log.unencodable) + multiset(log.lost)
  }

  lemma BagAccepted(log: Log, batch: seq<Doc>)
    ensures Bag(log.(accepted := log.accepted + batch)) == Bag(log) + multiset(batch)
  {
  }

  lemma BagSkipped(log: Log, c: Doc)
    ensures Bag(log.(skipped := log.skipped + [c])) == Bag(log) + multiset([c])
  {
  }

  lemma BagUnencodable(log: Log, c: Doc)
    ensures Bag(log.(unencodable := log.unencodable + [c])) == Bag(log) + multiset([c])
  {
  }

  lemma BagLost(log: Log, rest: seq<Doc>)
    ensures Bag(log.(lost := log.lost + rest)) == Bag(log) + multiset(rest)
  {
  }

  lemma FlattenOneMore(batches: seq<seq<Doc>>, batch: seq<Doc>)
    ensures Flatten(batches + [batch]) == Flatten(batches) + batch
  {
    FlattenAppend(batches, [batch]);
    assert Flatten([batch]) == batch;
  }

  // ----- kinds of documents

  /** Each log entry is of the right kind whatever Solr answers. */
  ghost predicate Encoded(log: Log) {
    && (forall d :: d in log.accepted || d in log.skipped ==> d.encodable)
    && (forall d :: d in log.unencodable ==> !d.encodable)
  }

  /** Solr accepts a package exactly when it accepts each member. */
  ghost predicate Judges(replies: Replies, accepts: Doc -> bool) {
    forall n, docs :: replies(n, docs) == if forall d :: d in docs ==> accepts(d) then Accepted else Rejected
  }

  /** Accepted documents are good, skipped ones bad, and an exception was raised exactly if too many were
      skipped. */
  ghost predicate Judged(log: Log, accepts: Doc -> bool, st: Settings) {
    && Encoded(log)
    && (forall d :: d in log.accepted ==> accepts(d))
    && (forall d :: d in log.skipped ==> !accepts(d))
    && (log.raised > 0 <==> SkippedTooMany(log, st))
  }

  lemma SingleReply(replies: Replies, accepts: Doc -> bool, n: nat, c: Doc)
    requires Judges(replies, accepts)
    ensures replies(n, [c]) == if accepts(c) then Accepted else Rejected
  {
    assert forall d :: d in [c] <==> d == c;
  }

  predicate Good(d: Doc, accepts: Doc -> bool) { d.encodable && accepts(d) }

  predicate Bad(d: Doc, accepts: Doc -> bool) { d.encodable && !accepts(d) }

  function Goods(docs: seq<Doc>, accepts: Doc -> bool): seq<Doc> {
    Filter(docs, (d: Doc) => Good(d, accepts))
  }

  function Bads(docs: seq<Doc>, accepts: Doc -> bool): seq<Doc> {
    Filter(docs, (d: Doc) => Bad(d, accepts))
  }

  lemma SamePart(docs: seq<Doc>, keep: Doc -> bool, part: seq<Doc>)
    requires forall d :: multiset(part)[d] == if keep(d) then multiset(docs)[d] else 0
    ensures multiset(part) == multiset(Filter(docs, keep)) && |part| == |Filter(docs, keep)|
  {
    forall d ensures multiset(part)[d] == multiset(Filter(docs, keep))[d] { FilterCount(docs, keep, d); }
    assert multiset(part) == multiset(Filter(docs, keep));
    assert |multiset(part)| == |part| && |multiset(Filter(docs, keep))| == |Filter(docs, keep)|;
  }

  lemma SmallerPart(docs: seq<Doc>, keep: Doc -> bool, part: seq<Doc>)
    requires forall d :: multiset(part)[d] <= if keep(d) then multiset(docs)[d] else 0
    ensures |part| <= |Filter(docs, keep)|
  {
    forall d ensures multiset(part)[d] <= multiset(Filter(docs, keep))[d] { FilterCount(docs, keep, d); }
    var all := multiset(Filter(docs, keep));
    assert all == multiset(part) + (all - multiset(part));
    assert |multiset(part)| == |part| && |all| == |Filter(docs, keep)|;
  }

  lemma BagCount(log: Log, d: Doc)
    ensures Bag(log)[d] == multiset(log.accepted)[d] + multiset(log.skipped)[d] +
            multiset(log.unencodable)[d] + multiset(log.lost)[d]
  {
  }

  ghost predicate PlacedOne(count: nat, log: Log, accepts: Doc -> bool, d: Doc) {
    && multiset(log.accepted)[d] <= (if Good(d, accepts) then count else 0)
    && multiset(log.skipped)[d] <= (if Bad(d, accepts) then count else 0)
    && multiset(log.unencodable)[d] <= (if !d.encodable then count else 0)
    && (log.lost == [] ==>
          && multiset(log.accepted)[d] == (if Good(d, accepts) then count else 0)
          && multiset(log.skipped)[d] == (if Bad(d, accepts) then count else 0)
          && multiset(log.unencodable)[d] == (if !d.encodable then count else 0))
  }

  lemma DocPlaced(docs: seq<Doc>, log: Log, accepts: Doc -> bool, st: Settings, d: Doc)
    requires Judged(log, accepts, st) && Bag(log) == multiset(docs)
    ensures PlacedOne(multiset(docs)[d], log, accepts, d)
  {
    BagCount(log, d);
  }

  // ----- the thread pool

  /** A thread in the fallback: the documents it has still to send, and whether it has just counted a skipped
      one and not yet compared the counter with the limit. */
  datatype Worker = Worker(rest: seq<Doc>, counted: bool)

  const IDLE := Worker([], false)

  /** The batches that no thread has taken yet, the threads, and what has come of the rest. */
  datatype Pool = Pool(pending: seq<seq<Doc>>, workers: seq<Worker>, log: Log)

  const NEW_POOL := Pool([], [], NOTHING_SENT)

  datatype Step = Hand(batch: seq<Doc>) | Take(position: nat) | Send(worker: nat) | Compare(worker: nat)

  /** The request of `send_batch`: a thread takes any pending batch and sends it whole, if it can be encoded. */
  function TakeBatch(p: Pool, k: nat, st: Settings): Pool
    requires k < |p.pending|
  {
    var batch, taken := p.pending[k], p.(pending := p.pending[..k] + p.pending[k + 1..]);
    if !AllEncodable(batch) then taken.(workers := p.workers + [Worker(batch, false)])
    else
      var next := p.log.(requests := p.log.requests + 1);
      if st.replies(p.log.requests, batch) == Accepted then
        taken.(log := next.(accepted := p.log.accepted + batch))
      else taken.(workers := p.workers + [Worker(batch, false)], log := next)
  }

  predicate CanSend(p: Pool, w: nat) {
    w < |p.workers| && p.workers[w].rest != [] && !p.workers[w].counted
  }

  /** The request of `send_single`. */
  function SendOne(p: Pool, w: nat, st: Settings): Pool
    requires CanSend(p, w)
  {
    var c, rest := p.workers[w].rest[0], p.workers[w].rest[1..];
    if !c.encodable then
      p.(workers := p.workers[w := Worker(rest, false)], log := p.log.(unencodable := p.log.unencodable + [c]))
    else
      var next := p.log.(requests := p.log.requests + 1);
      match st.replies(p.log.requests, [c])
      case Accepted =>
        p.(workers := p.workers[w := Worker(rest, false)], log := next.(accepted := p.log.accepted + [c]))
      case Rejected =>
        p.(workers := p.workers[w := Worker(rest, true)], log := next.(skipped := p.log.skipped + [c]))
      case Unexpected =>
        p.(workers := p.workers[w := IDLE],
          log := next.(lost := p.log.lost + p.workers[w].rest, raised := p.log.raised + 1))
  }

  predicate CanCompare(p: Pool, w: nat) {
    w < |p.workers| && p.workers[w].counted
  }

  /** The comparison after the count, with whatever the counter is by then. */
  function CompareOne(p: Pool, w: nat, st: Settings): Pool
    requires CanCompare(p, w)
  {
    var rest := p.workers[w].rest;
    if SkippedTooMany(p.log, st) then
      p.(workers := p.workers[w := IDLE],
        log := p.log.(lost := p.log.lost + rest, raised := p.log.raised + 1))
    else p.(workers := p.workers[w := Worker(rest, false)])
  }

  predicate Enabled(p: Pool, a: Step) {
    match a
    case Hand(_) => true
    case Take(k) => k < |p.pending|
    case Send(w) => CanSend(p, w)
    case Compare(w) => CanCompare(p, w)
  }

  function Next(p: Pool, a: Step, st: Settings): Pool
    requires Enabled(p, a)
  {
    match a
    case Hand(batch) => p.(pending := p.pending + [batch])
    case Take(k) => TakeBatch(p, k, st)
    case Send(w) => SendOne(p, w, st)
    case Compare(w) => CompareOne(p, w, st)
  }

  predicate Valid(p: Pool, steps: seq<Step>, st: Settings)
    decreases |steps|
  {
    steps == [] || (Enabled(p, steps[0]) && Valid(Next(p, steps[0], st), steps[1..], st))
  }

  function Run(p: Pool, steps: seq<Step>, st: Settings): Pool
    requires Valid(p, steps, st)
    decreases |steps|
  {
    if steps == [] then p else Run(Next(p, steps[0], st), steps[1..], st)
  }

  /** The documents handed to the pool. */
  function Handed(steps: seq<Step>): seq<Doc> {
    if steps == [] then [] else (if steps[0].Hand? then steps[0].batch else []) + Handed(steps[1..])
  }

  predicate Finished(p: Pool) {
    p.pending == [] && forall w :: 0 <= w < |p.workers| ==> p.workers[w] == IDLE
  }

  // ----- what every interleaving keeps

  function Rests(workers: seq<Worker>): (rests: seq<seq<Doc>>)
    ensures |rests| == |workers| && forall w :: 0 <= w < |rests| ==> rests[w] == workers[w].rest
  {
    seq(|workers|, w requires 0 <= w < |workers| => workers[w].rest)
  }

  /** The documents that are still to be sent. */
  function Waiting(p: Pool): multiset<Doc> {
    multiset(Flatten(p.pending)) + multiset(Flatten(Rests(p.workers)))
  }

  ghost predicate Balanced(p: Pool, all: multiset<Doc>) {
    Bag(p.log) + Waiting(p) == all && (p.log.raised == 0 ==> p.log.lost == [])
  }

  predicate AnyCounted(workers: seq<Worker>) {
    exists w :: 0 <= w < |workers| && workers[w].counted
  }

  /** As `Judged`, but the comparison that raises may still be to come. */
  ghost predicate JudgedSoFar(p: Pool, accepts: Doc -> bool, st: Settings) {
    && (forall d :: d in p.log.accepted ==> accepts(d))
    && (forall d :: d in p.log.skipped ==> !accepts(d))
    && (p.log.raised > 0 ==> SkippedTooMany(p.log, st))
    && (SkippedTooMany(p.log, st) ==> p.log.raised > 0 || AnyCounted(p.workers))
  }

  ghost predicate Fair(p: Pool, all: multiset<Doc>, accepts: Doc -> bool, st: Settings) {
    && Balanced(p, all)
    && Encoded(p.log)
    && (Judges(st.replies, accepts) ==> JudgedSoFar(p, accepts, st))
  }

  lemma FlattenUpdate(rests: seq<seq<Doc>>, w: nat, rest: seq<Doc>)
    requires w < |rests|
    ensures multiset(Flatten(rests)) + multiset(rest) ==
            multiset(Flatten(rests[w := rest])) + multiset(rests[w])
  {
    var a, b := rests[..w], rests[w + 1..];
    assert rests == a + ([rests[w]] + b);
    assert rests[w := rest] == a + ([rest] + b);
    FlattenMiddle(a, rests[w], b);
    FlattenMiddle(a, rest, b);
  }

  lemma WaitingUpdate(p: Pool, w: nat, worker: Worker, log: Log)
    requires w < |p.workers|
    ensures Waiting(p) + multiset(worker.rest) ==
            Waiting(p.(workers := p.workers[w := worker], log := log)) + multiset(p.workers[w].rest)
  {
    var rests := Rests(p.workers);
    FlattenUpdate(rests, w, worker.rest);
    assert Rests(p.workers[w := worker]) == rests[w := worker.rest];
    AddSame(multiset(Flatten(p.pending)), multiset(Flatten(rests)), multiset(worker.rest),
            multiset(Flatten(rests[w := worker.rest])), multiset(rests[w]));
  }

  lemma WaitingTaken(p: Pool, k: nat, log: Log)
    requires k < |p.pending|
    ensures Waiting(p) ==
            Waiting(p.(pending := p.pending[..k] + p.pending[k + 1..], log := log)) + multiset(p.pending[k])
  {
    assert p.pending == p.pending[..k] + ([p.pending[k]] + p.pending[k + 1..]);
    FlattenMiddle(p.pending[..k], p.pending[k], p.pending[k + 1..]);
  }

  lemma WaitingJoined(p: Pool, batch: seq<Doc>)
    ensures Waiting(p.(workers := p.workers + [Worker(batch, false)])) == Waiting(p) + multiset(batch)
  {
    assert Rests(p.workers + [Worker(batch, false)]) == Rests(p.workers) + [batch];
    FlattenOneMore(Rests(p.workers), batch);
  }

  lemma HandBalanced(p: Pool, batch: seq<Doc>, all: multiset<Doc>)
    requires Balanced(p, all)
    ensures Balanced(p.(pending := p.pending + [batch]), all + multiset(batch))
  {
    FlattenOneMore(p.pending, batch);
  }

  lemma TakeAcceptedBalanced(p: Pool, k: nat, log: Log, all: multiset<Doc>)
    requires k < |p.pending| && Balanced(p, all)
    requires log == p.log.(requests := log.requests, accepted := p.log.accepted + p.pending[k])
    ensures Balanced(p.(pending := p.pending[..k] + p.pending[k + 1..], log := log), all)
  {
    WaitingTaken(p, k, log);
    BagAccepted(p.log, p.pending[k]);
    assert Bag(log) == Bag(p.log) + multiset(p.pending[k]);
  }

  lemma TakeFallbackBalanced(p: Pool, k: nat, log: Log, all: multiset<Doc>)
    requires k < |p.pending| && Balanced(p, all) && log == p.log.(requests := log.requests)
    ensures Balanced(p.(pending := p.pending[..k] + p.pending[k + 1..],
                        workers := p.workers + [Worker(p.pending[k], false)], log := log), all)
  {
    WaitingTaken(p, k, log);
    WaitingJoined(p.(pending := p.pending[..k] + p.pending[k + 1..], log := log), p.pending[k]);
    assert Bag(log) == Bag(p.log);
  }

  lemma TakeBalanced(p: Pool, k: nat, all: multiset<Doc>, st: Settings)
    requires k < |p.pending| && Balanced(p, all)
    ensures Balanced(TakeBatch(p, k, st), all)
  {
    var q := TakeBatch(p, k, st);
    if q.workers == p.workers {
      TakeAcceptedBalanced(p, k, q.log, all);
    } else {
      TakeFallbackBalanced(p, k, q.log, all);
    }
  }

  lemma SendBag(p: Pool, w: nat, st: Settings)
    requires CanSend(p, w)
    ensures var q := SendOne(p, w, st);
            Bag(q.log) + multiset(q.workers[w].rest) == Bag(p.log) + multiset(p.workers[w].rest)
  {
    var rest := p.workers[w].rest;
    var c, next := rest[0], p.log.(requests := p.log.requests + 1);
    assert rest == [c] + rest[1..];
    assert Bag(next) == Bag(p.log);
    if !c.encodable {
      BagUnencodable(p.log, c);
    } else if st.replies(p.log.requests, [c]) == Accepted {
      BagAccepted(next, [c]);
    } else if st.replies(p.log.requests, [c]) == Rejected {
      BagSkipped(next, c);
    } else {
      BagRaised(next, rest);
    }
  }

  lemma BagRaised(log: Log, rest: seq<Doc>)
    ensures Bag(log.(lost := log.lost + rest, raised := log.raised + 1)) + multiset([]) ==
            Bag(log) + multiset(rest)
  {
    BagLost(log, rest);
  }

  lemma SendRaises(p: Pool, w: nat, st: Settings)
    requires CanSend(p, w)
    ensures var q := SendOne(p, w, st);
            q.log.raised >= p.log.raised && (q.log.raised == p.log.raised ==> q.log.lost == p.log.lost)
  {
  }

  lemma CompareBag(p: Pool, w: nat, st: Settings)
    requires CanCompare(p, w)
    ensures var q := CompareOne(p, w, st);
            && Bag(q.log) + multiset(q.workers[w].rest) == Bag(p.log) + multiset(p.workers[w].rest)
            && (q.log.raised == p.log.raised ==> q.log.lost == p.log.lost)
            && q.log.raised >= p.log.raised
  {
    BagLost(p.log, p.workers[w].rest);
  }

  lemma SameSum(bag: multiset<Doc>, waiting: multiset<Doc>, rest: multiset<Doc>,
                bag': multiset<Doc>, waiting': multiset<Doc>, rest': multiset<Doc>)
    requires bag' + rest' == bag + rest && waiting + rest' == waiting' + rest
    ensures bag' + waiting' == bag + waiting
  {
    forall d ensures (bag' + waiting')[d] == (bag + waiting)[d] {
      assert (bag' + rest')[d] == (bag + rest)[d] && (waiting + rest')[d] == (waiting' + rest)[d];
    }
  }

  lemma WorkerBalanced(p: Pool, w: nat, q: Pool, all: multiset<Doc>)
    requires Balanced(p, all) && w < |p.workers|
    requires q.pending == p.pending && |q.workers| == |p.workers| && q.workers == p.workers[w := q.workers[w]]
    requires Bag(q.log) + multiset(q.workers[w].rest) == Bag(p.log) + multiset(p.workers[w].rest)
    requires q.log.raised >= p.log.raised && (q.log.raised == p.log.raised ==> q.log.lost == p.log.lost)
    ensures Balanced(q, all)
  {
    WaitingUpdate(p, w, q.workers[w], q.log);
    SameSum(Bag(p.log), Waiting(p), multiset(p.workers[w].rest), Bag(q.log), Waiting(q),
      multiset(q.workers[w].rest));
  }

  lemma SendBalanced(p: Pool, w: nat, all: multiset<Doc>, st: Settings)
    requires Balanced(p, all) && Enabled(p, Send(w))
    ensures Balanced(SendOne(p, w, st), all + multiset([]))
  {
    SendBag(p, w, st);
    SendRaises(p, w, st);
    WorkerBalanced(p, w, SendOne(p, w, st), all);
    NothingAdded(all);
  }

  lemma CompareBalanced(p: Pool, w: nat, all: multiset<Doc>, st: Settings)
    requires Balanced(p, all) && Enabled(p, Compare(w))
    ensures Balanced(CompareOne(p, w, st), all + multiset([]))
  {
    CompareBag(p, w, st);
    WorkerBalanced(p, w, CompareOne(p, w, st), all);
    NothingAdded(all);
  }

  lemma NothingAdded(all: multiset<Doc>)
    ensures all + multiset([]) == all
  {
  }

  lemma StepBalanced(p: Pool, a: Step, all: multiset<Doc>, st: Settings)
    requires Balanced(p, all) && Enabled(p, a)
    ensures Balanced(Next(p, a, st), all + multiset(if a.Hand? then a.batch else []))
  {
    match a
    case Hand(batch) => HandBalanced(p, batch, all);
    case Take(k) =>
      TakeBalanced(p, k, all, st);
      NothingAdded(all);
    case Send(w) => SendBalanced(p, w, all, st);
    case Compare(w) => CompareBalanced(p, w, all, st);
  }

  lemma StepEncoded(p: Pool, a: Step, st: Settings)
    requires Encoded(p.log) && Enabled(p, a)
    ensures Encoded(Next(p, a, st).log)
  {
  }

  lemma CountedUpdate(workers: seq<Worker>, w: nat, worker: Worker)
    requires w < |workers| && AnyCounted(workers) && (workers[w].counted ==> worker.counted)
    ensures AnyCounted(workers[w := worker])
  {
    var v :| 0 <= v < |workers| && workers[v].counted;
    assert workers[w := worker][v].counted;
  }

  lemma CountedAppend(workers: seq<Worker>, worker: Worker)
    requires AnyCounted(workers)
    ensures AnyCounted(workers + [worker])
  {
    var v :| 0 <= v < |workers| && workers[v].counted;
    assert (workers + [worker])[v].counted;
  }

  lemma TakeJudged(p: Pool, k: nat, accepts: Doc -> bool, st: Settings)
    requires Judges(st.replies, accepts) && JudgedSoFar(p, accepts, st) && k < |p.pending|
    ensures JudgedSoFar(TakeBatch(p, k, st), accepts, st)
  {
    if AnyCounted(p.workers) { CountedAppend(p.workers, Worker(p.pending[k], false)); }
  }

  lemma SendJudged(p: Pool, w: nat, accepts: Doc -> bool, st: Settings)
    requires Judges(st.replies, accepts) && JudgedSoFar(p, accepts, st) && CanSend(p, w)
    ensures JudgedSoFar(SendOne(p, w, st), accepts, st)
  {
    var q := SendOne(p, w, st);
    SingleReply(st.replies, accepts, p.log.requests, p.workers[w].rest[0]);
    if AnyCounted(p.workers) { CountedUpdate(p.workers, w, q.workers[w]); }
    assert q.workers[w].counted ==> AnyCounted(q.workers);
  }

  lemma CompareJudged(p: Pool, w: nat, accepts: Doc -> bool, st: Settings)
    requires JudgedSoFar(p, accepts, st) && CanCompare(p, w)
    ensures JudgedSoFar(CompareOne(p, w, st), accepts, st)
  {
  }

  lemma StepJudged(p: Pool, a: Step, accepts: Doc -> bool, st: Settings)
    requires Judges(st.replies, accepts) && JudgedSoFar(p, accepts, st) && Enabled(p, a)
    ensures JudgedSoFar(Next(p, a, st), accepts, st)
  {
    match a
    case Hand(_) =>
    case Take(k) => TakeJudged(p, k, accepts, st);
    case Send(w) => SendJudged(p, w, accepts, st);
    case Compare(w) => CompareJudged(p, w, accepts, st);
  }

  lemma StepFair(p: Pool, a: Step, all: multiset<Doc>, accepts: Doc -> bool, st: Settings)
    requires Fair(p, all, accepts, st) && Enabled(p, a)
    ensures Fair(Next(p, a, st), all + multiset(if a.Hand? then a.batch else []), accepts, st)
  {
    StepBalanced(p, a, all, st);
    StepEncoded(p, a, st);
    if Judges(st.replies, accepts) { StepJudged(p, a, accepts, st); }
  }

  lemma HandedFirst(steps: seq<Step>, all: multiset<Doc>)
    requires steps != []
    ensures (all + multiset(if steps[0].Hand? then steps[0].batch else [])) + multiset(Handed(steps[1..])) ==
            all + multiset(Handed(steps))
  {
  }

  lemma {:induction false} RunFair(
    p: Pool, steps: seq<Step>, all: multiset<Doc>, accepts: Doc -> bool, st: Settings)
    requires Fair(p, all, accepts, st) && Valid(p, steps, st)
    ensures Fair(Run(p, steps, st), all + multiset(Handed(steps)), accepts, st)
    decreases |steps|
  {
    if steps == [] {
      assert all + multiset([]) == all;
    } else {
      var more := all + multiset(if steps[0].Hand? then steps[0].batch else []);
      StepFair(p, steps[0], all, accepts, st);
      HandedFirst(steps, all);
      RunFair(Next(p, steps[0], st), steps[1..], more, accepts, st);
    }
  }

  lemma NewPoolFair(accepts: Doc -> bool, st: Settings)
    ensures Fair(NEW_POOL, multiset{}, accepts, st)
  {
  }

  lemma {:induction false} NothingRests(workers: seq<Worker>)
    requires forall w :: 0 <= w < |workers| ==> workers[w] == IDLE
    ensures Flatten(Rests(workers)) == []
  {
    if workers != [] {
      NothingRests(workers[1..]);
      assert Rests(workers)[1..] == Rests(workers[1..]);
    }
  }

  /** A finished pool has dealt with everything, and has raised if it had to. */
  lemma FinishedLog(p: Pool, all: multiset<Doc>, accepts: Doc -> bool, st: Settings)
    requires Fair(p, all, accepts, st) && Finished(p)
    ensures Bag(p.log) == all
    ensures Judges(st.replies, accepts) ==> Judged(p.log, accepts, st)
  {
    NothingRests(p.workers);
  }

  lemma PoolOutcome(steps: seq<Step>, accepts: Doc -> bool, st: Settings)
    requires Valid(NEW_POOL, steps, st) && Finished(Run(NEW_POOL, steps, st))
    ensures var log := Run(NEW_POOL, steps, st).log;
            && Bag(log) == multiset(Handed(steps)) && Encoded(log) && (log.raised == 0 ==> log.lost == [])
            && (Judges(st.replies, accepts) ==> Judged(log, accepts, st))
  {
    NewPoolFair(accepts, st);
    RunFair(NEW_POOL, steps, multiset{}, accepts, st);
    FinishedLog(Run(NEW_POOL, steps, st), multiset{} + multiset(Handed(steps)), accepts, st);
  }

  lemma NothingLost(log: Log, docs: multiset<Doc>)
    requires Bag(log) == docs && log.lost == []
    ensures docs == multiset(log.accepted) + multiset(log.skipped) + multiset(log.unencodable)
  {
  }

  /** If nothing is raised, each document is exactly one of accepted, counted as skipped, or logged as
      unencodable. */
  lemma EveryDocumentAccounted(steps: seq<Step>, st: Settings)
    requires Valid(NEW_POOL, steps, st) && Finished(Run(NEW_POOL, steps, st))
    ensures var log := Run(NEW_POOL, steps, st).log;
            && Encoded(log)
            && (log.raised == 0 ==>
                  multiset(Handed(steps)) ==
                  multiset(log.accepted) + multiset(log.skipped) + multiset(log.unencodable))
  {
    var log := Run(NEW_POOL, steps, st).log;
    PoolOutcome(steps, d => true, st);
    if log.raised == 0 { NothingLost(log, multiset(Handed(steps))); }
  }

  /** Sending raises exactly when more documents are bad than may be skipped, and otherwise every good
      document is accepted and every bad one skipped and counted. */
  ghost predicate CostsItself(log: Log, docs: seq<Doc>, accepts: Doc -> bool, st: Settings) {
    && (log.raised > 0 <==> st.maxSkipped.Some? && |Bads(docs, accepts)| > st.maxSkipped.value)
    && (log.raised == 0 ==>
          && multiset(log.accepted) == multiset(Goods(docs, accepts))
          && |log.skipped| == |Bads(docs, accepts)|
          && multiset(log.unencodable) == multiset(Filter(docs, (d: Doc) => !d.encodable)))
  }

  lemma JudgedCosts(log: Log, docs: seq<Doc>, accepts: Doc -> bool, st: Settings)
    requires Judged(log, accepts, st) && Bag(log) == multiset(docs) && (log.raised == 0 ==> log.lost == [])
    ensures CostsItself(log, docs, accepts, st)
  {
    forall d ensures PlacedOne(multiset(docs)[d], log, accepts, d) { DocPlaced(docs, log, accepts, st, d); }
    if log.raised == 0 {
      SamePart(docs, (d: Doc) => Good(d, accepts), log.accepted);
      SamePart(docs, (d: Doc) => Bad(d, accepts), log.skipped);
      SamePart(docs, (d: Doc) => !d.encodable, log.unencodable);
    } else {
      SmallerPart(docs, (d: Doc) => Bad(d, accepts), log.skipped);
    }
  }

  /** ... however the requests of the threads are interleaved. */
  lemma OneBadDocumentCostsItself(steps: seq<Step>, accepts: Doc -> bool, st: Settings)
    requires Judges(st.replies, accepts)
    requires Valid(NEW_POOL, steps, st) && Finished(Run(NEW_POOL, steps, st))
    ensures CostsItself(Run(NEW_POOL, steps, st).log, Handed(steps), accepts, st)
  {
    PoolOutcome(steps, accepts, st);
    JudgedCosts(Run(NEW_POOL, steps, st).log, Handed(steps), accepts, st);
  }

  lemma SkippedAreBad(log: Log, docs: seq<Doc>, accepts: Doc -> bool)
    requires Bag(log) <= multiset(docs) && Encoded(log) && forall d :: d in log.skipped ==> !accepts(d)
    ensures |log.skipped| <= |Bads(docs, accepts)|
  {
    forall d ensures multiset(log.skipped)[d] <= if Bad(d, accepts) then multiset(docs)[d] else 0 {
      BagCount(log, d);
      assert Bag(log)[d] <= multiset(docs)[d];
    }
    SmallerPart(docs, (d: Doc) => Bad(d, accepts), log.skipped);
  }

  lemma PartOfAll(part: multiset<Doc>, rest: multiset<Doc>, handed: multiset<Doc>, docs: multiset<Doc>)
    requires part + rest == multiset{} + handed && handed <= docs
    ensures part <= docs
  {
    assert part <= part + rest;
  }

  /** Whatever has been raised at any time has been raised because more documents are bad than may be skipped. */
  lemma RaisedMeansTooManyBad(steps: seq<Step>, docs: seq<Doc>, accepts: Doc -> bool, st: Settings)
    requires Valid(NEW_POOL, steps, st) && Run(NEW_POOL, steps, st).log.raised > 0
    requires Judges(st.replies, accepts) && multiset(Handed(steps)) <= multiset(docs)
    ensures st.maxSkipped.Some? && |Bads(docs, accepts)| > st.maxSkipped.value
  {
    NewPoolFair(accepts, st);
    RunFair(NEW_POOL, steps, multiset{}, accepts, st);
    var p := Run(NEW_POOL, steps, st);
    PartOfAll(Bag(p.log), Waiting(p), multiset(Handed(steps)), multiset(docs));
    SkippedAreBad(p.log, docs, accepts);
  }

  // ----- a thread on its own

  lemma {:induction false} RunAppend(p: Pool, a: seq<Step>, b: seq<Step>, st: Settings)
    requires Valid(p, a, st) && Valid(Run(p, a, st), b, st)
    ensures Valid(p, a + b, st) && Run(p, a + b, st) == Run(Run(p, a, st), b, st)
    decreases |a|
  {
    if a == [] {
      assert a + b == b;
    } else {
      assert (a + b)[1..] == a[1..] + b;
      RunAppend(Next(p, a[0], st), a[1..], b, st);
    }
  }

  lemma {:induction false} HandedAppend(a: seq<Step>, b: seq<Step>)
    ensures Handed(a + b) == Handed(a) + Handed(b)
  {
    if a == [] {
      assert a + b == b;
    } else {
      assert (a + b)[1..] == a[1..] + b;
      HandedAppend(a[1..], b);
    }
  }

  lemma OneStep(p: Pool, a: Step, st: Settings)
    requires Enabled(p, a)
    ensures Valid(p, [a], st) && Run(p, [a], st) == Next(p, a, st)
    ensures Handed([a]) == if a.Hand? then a.batch else []
  {
    assert [a][1..] == [];
    assert Valid(Next(p, a, st), [], st);
  }

  /** Sending a document and comparing right afterwards. */
  lemma SingleAlone(p: Pool, w: nat, st: Settings) returns (steps: seq<Step>)
    requires CanSend(p, w)
    ensures Valid(p, steps, st) && Handed(steps) == []
    ensures var batch, after := p.workers[w].rest, SendSingle(p.log, p.workers[w].rest[0], st);
            Run(p, steps, st) ==
            if after.raised > p.log.raised then
              p.(workers := p.workers[w := IDLE], log := after.(lost := after.lost + batch[1..]))
            else p.(workers := p.workers[w := Worker(batch[1..], false)], log := after)
  {
    var q := SendOne(p, w, st);
    var batch := p.workers[w].rest;
    assert p.log.lost + batch == (p.log.lost + [batch[0]]) + batch[1..];
    OneStep(p, Send(w), st);
    steps := [Send(w)];
    if CanCompare(q, w) {
      OneStep(q, Compare(w), st);
      RunAppend(p, [Send(w)], [Compare(w)], st);
      HandedAppend([Send(w)], [Compare(w)]);
      steps := [Send(w)] + [Compare(w)];
    }
  }

  lemma {:induction false} SinglesAlone(p: Pool, w: nat, st: Settings) returns (steps: seq<Step>)
    requires w < |p.workers| && !p.workers[w].counted
    ensures Valid(p, steps, st) && Handed(steps) == []
    ensures Run(p, steps, st) ==
            p.(workers := p.workers[w := IDLE], log := SendSingles(p.log, p.workers[w].rest, st))
    decreases |p.workers[w].rest|
  {
    if p.workers[w].rest == [] {
      assert p.workers[w := IDLE] == p.workers;
      steps := [];
    } else {
      steps := SingleAlone(p, w, st);
      var q := Run(p, steps, st);
      if q.log.raised == p.log.raised {
        var more := SinglesAlone(q, w, st);
        RunAppend(p, steps, more, st);
        HandedAppend(steps, more);
        steps := steps + more;
      }
    }
  }

  /** Handing a batch over to an idle pool, and its first request. */
  lemma TakeAlone(p: Pool, batch: seq<Doc>, st: Settings)
    requires p.pending == []
    ensures var steps := [Hand(batch), Take(0)];
            && Valid(p, steps, st) && Handed(steps) == batch
            && Run(p, steps, st) == TakeBatch(p.(pending := [batch]), 0, st)
  {
    var handed := p.(pending := [batch]);
    assert p.pending + [batch] == [batch];
    OneStep(p, Hand(batch), st);
    OneStep(handed, Take(0), st);
    RunAppend(p, [Hand(batch)], [Take(0)], st);
    HandedAppend([Hand(batch)], [Take(0)]);
    assert [Hand(batch)] + [Take(0)] == [Hand(batch), Take(0)];
  }

  lemma FallbackAlone(p: Pool, batch: seq<Doc>, log: Log, st: Settings) returns (steps: seq<Step>)
    requires Finished(p)
    ensures Valid(p.(workers := p.workers + [Worker(batch, false)], log := log), steps, st)
    ensures Handed(steps) == []
    ensures var q := Run(p.(workers := p.workers + [Worker(batch, false)], log := log), steps, st);
            Finished(q) && q.log == SendSingles(log, batch, st)
  {
    var q := p.(workers := p.workers + [Worker(batch, false)], log := log);
    steps := SinglesAlone(q, |p.workers|, st);
  }

  /** `send_batch` is what a thread does that works alone. */
  lemma BatchAlone(p: Pool, batch: seq<Doc>, st: Settings) returns (steps: seq<Step>)
    requires Finished(p) && batch != []
    ensures Valid(p, steps, st) && Handed(steps) == batch
    ensures Finished(Run(p, steps, st)) && Run(p, steps, st).log == SendBatch(p.log, batch, st)
  {
    TakeAlone(p, batch, st);
    steps := [Hand(batch), Take(0)];
    assert [batch][..0] + [batch][1..] == [];
    var q := TakeBatch(p.(pending := [batch]), 0, st);
    if q.workers != p.workers {
      var more := FallbackAlone(p, batch, q.log, st);
      RunAppend(p, steps, more, st);
      HandedAppend(steps, more);
      steps := steps + more;
    }
  }

  /** The history leads to this pool; without threads the log of the pool is all that is left of it. */
  ghost predicate Leads(steps: seq<Step>, p: Pool, st: Settings) {
    && Valid(NEW_POOL, steps, st)
    && if st.threads > 0 then Run(NEW_POOL, steps, st) == p
       else Finished(Run(NEW_POOL, steps, st)) && p == Pool([], [], Run(NEW_POOL, steps, st).log)
  }

  /** One more step of a history. */
  lemma HistoryStep(steps: seq<Step>, a: Step, st: Settings)
    requires Valid(NEW_POOL, steps, st) && Enabled(Run(NEW_POOL, steps, st), a)
    ensures Valid(NEW_POOL, steps + [a], st)
    ensures Run(NEW_POOL, steps + [a], st) == Next(Run(NEW_POOL, steps, st), a, st)
    ensures Handed(steps + [a]) == Handed(steps) + if a.Hand? then a.batch else []
  {
    OneStep(Run(NEW_POOL, steps, st), a, st);
    RunAppend(NEW_POOL, steps, [a], st);
    HandedAppend(steps, [a]);
  }

  // ----- the pool comes to an end

  function BatchWork(batches: seq<seq<Doc>>): nat {
    if batches == [] then 0 else 2 * |batches[0]| + 2 + BatchWork(batches[1..])
  }

  function WorkerWork(workers: seq<Worker>): nat {
    if workers == [] then 0
    else 2 * |workers[0].rest| + (if workers[0].counted then 1 else 0) + WorkerWork(workers[1..])
  }

  /** The steps that the threads can still take, at most. */
  function Work(p: Pool): nat {
    BatchWork(p.pending) + WorkerWork(p.workers)
  }

  lemma {:induction false} BatchWorkAppend(a: seq<seq<Doc>>, b: seq<seq<Doc>>)
    ensures BatchWork(a + b) == BatchWork(a) + BatchWork(b)
  {
    if a == [] {
      assert a + b == b;
    } else {
      assert (a + b)[1..] == a[1..] + b;
      BatchWorkAppend(a[1..], b);
    }
  }

  lemma {:induction false} WorkerWorkAppend(a: seq<Worker>, b: seq<Worker>)
    ensures WorkerWork(a + b) == WorkerWork(a) + WorkerWork(b)
  {
    if a == [] {
      assert a + b == b;
    } else {
      assert (a + b)[1..] == a[1..] + b;
      WorkerWorkAppend(a[1..], b);
    }
  }

  lemma {:induction false} WorkerWorkUpdate(workers: seq<Worker>, w: nat, worker: Worker)
    requires w < |workers|
    ensures WorkerWork(workers[w := worker]) + 2 * |workers[w].rest| +
            (if workers[w].counted then 1 else 0) ==
            WorkerWork(workers) + 2 * |worker.rest| + (if worker.counted then 1 else 0)
  {
    if w > 0 {
      assert workers[w := worker][1..] == workers[1..][w - 1 := worker];
      WorkerWorkUpdate(workers[1..], w - 1, worker);
    }
  }

  /** Every step of a thread uses up some of the work. */
  lemma StepWorks(p: Pool, a: Step, st: Settings)
    requires Enabled(p, a) && !a.Hand?
    ensures Work(Next(p, a, st)) < Work(p)
  {
    match a
    case Take(k) =>
      var batch := p.pending[k];
      assert p.pending == p.pending[..k] + ([batch] + p.pending[k + 1..]);
      BatchWorkAppend(p.pending[..k], [batch] + p.pending[k + 1..]);
      BatchWorkAppend(p.pending[..k], p.pending[k + 1..]);
      assert ([batch] + p.pending[k + 1..])[1..] == p.pending[k + 1..];
      WorkerWorkAppend(p.workers, [Worker(batch, false)]);
    case Send(w) => WorkerWorkUpdate(p.workers, w, SendOne(p, w, st).workers[w]);
    case Compare(w) => WorkerWorkUpdate(p.workers, w, CompareOne(p, w, st).workers[w]);
  }

  /** An unfinished pool has something to do. */
  lemma UnfinishedCanStep(p: Pool) returns (a: Step)
    requires !Finished(p)
    ensures !a.Hand? && Enabled(p, a)
  {
    if p.pending != [] {
      a := Take(0);
    } else {
      var w :| 0 <= w < |p.workers| && p.workers[w] != IDLE;
      a := if p.workers[w].counted then Compare(w) else Send(w);
    }
  }

  // ----- batches

  /** Full batches and at most one shorter, not empty, last one. */
  predicate FullButLast(size: nat, batches: seq<seq<Doc>>) {
    batches == []
    || (0 < |batches[0]| <= size && (|batches| == 1 || |batches[0]| == size) &&
       FullButLast(size, batches[1..]))
  }

  ghost predicate Cut(size: nat, docs: seq<Doc>, batches: seq<seq<Doc>>) {
    Flatten(batches) == docs && FullButLast(size, batches)
  }

  /** There is one way to cut documents into batches. */
  lemma {:induction false} CutIsSlices(size: nat, docs: seq<Doc>, batches: seq<seq<Doc>>)
    requires size > 0
    ensures Cut(size, docs, batches) <==> batches == Slices(docs, size)
    decreases |batches|
  {
    if Cut(size, docs, batches) && batches != [] {
      if |batches| == 1 {
        assert batches == [batches[0]];
        assert Flatten([batches[0]]) == batches[0];
      } else {
        var rest := batches[1..];
        CutIsSlices(size, Flatten(rest), rest);
        assert Flatten(rest) == rest[0] + Flatten(rest[1..]);
        assert docs[..size] == batches[0] && docs[size..] == Flatten(rest);
      }
    } else if batches == Slices(docs, size) {
      FullBatches(size, batches);
    }
  }

  lemma {:induction false} FullBatches(size: nat, batches: seq<seq<Doc>>)
    requires forall i :: 0 <= i < |batches| ==> 0 < |batches[i]| <= size
    requires forall i :: 0 <= i < |batches| - 1 ==> |batches[i]| == size
    ensures FullButLast(size, batches)
  {
    if batches != [] { FullBatches(size, batches[1..]); }
  }

  /** Batches are cut off as soon as they are full. */
  ghost predicate Batched(size: nat, formed: seq<seq<Doc>>, queue: seq<Doc>) {
    |queue| < size && forall i :: 0 <= i < |formed| ==> |formed[i]| == size
  }

  lemma BatchedClose(size: nat, formed: seq<seq<Doc>>, queue: seq<Doc>)
    requires Batched(size, formed, queue)
    ensures FullButLast(size, if queue == [] then formed else formed + [queue])
    ensures Flatten(if queue == [] then formed else formed + [queue]) == Flatten(formed) + queue
  {
    if queue == [] {
      assert Flatten(formed) + [] == Flatten(formed);
      FullBatches(size, formed);
    } else {
      FlattenOneMore(formed, queue);
      FullBatches(size, formed + [queue]);
    }
  }

  lemma OneMorePut(formed: seq<seq<Doc>>, queue: seq<Doc>, d: Doc)
    ensures Flatten(formed) + (queue + [d]) == (Flatten(formed) + queue) + [d]
    ensures Flatten(formed + [queue + [d]]) + [] == (Flatten(formed) + queue) + [d]
  {
    FlattenOneMore(formed, queue + [d]);
  }

  lemma FlattenMiddle(a: seq<seq<Doc>>, batch: seq<Doc>, b: seq<seq<Doc>>)
    ensures multiset(Flatten(a + ([batch] + b))) == multiset(Flatten(a + b)) + multiset(batch)
  {
    FlattenAppend(a, [batch] + b);
    FlattenAppend(a, b);
    assert ([batch] + b)[1..] == b;
  }
}
