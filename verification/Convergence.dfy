/** Catch-up repairs a lagging or leading snapshot: Solr ends equal to the source catalogue as it was when the
    last incremental was cut, except for the records of incrementals that arrived too late. */
module Convergence {
  import opened Wrappers
  import opened SolrIndex
  import opened DumpSelection
  import opened CatchUp
  import opened CatchUpOrder
  import opened CatchUpTermination

  /** The source catalogue at every moment. */
  type History = int -> Index

  /** The latest incremental that starts before `d`. */
  ghost predicate IsPrevious(table: Table, d: Dump, previous: Dump) {
    && previous in table && IsIncremental(previous) && previous.start < d.start
    && forall e :: e in table && IsIncremental(e) && e.start < d.start ==> e.start <= previous.start
  }

  /** The incremental carries the value or the deletion of every record that changed after `since`, as of its
      own start. */
  ghost predicate CarriesChanges(source: History, since: int, d: Dump) {
    var patch := FilesPatch(d.files);
    && (forall id :: id in patch ==> patch[id] == Get(source(d.start), id))
    && (forall id, t :: id !in patch && since <= t <= d.start ==>
          Get(source(t), id) == Get(source(d.start), id))
  }

  /** Every incremental carries the changes since the one before it, and the first one those since `epoch`. */
  ghost predicate Faithful(table: Table, source: History, epoch: int) {
    forall d :: d in table && IsIncremental(d) ==>
      && epoch <= d.start
      && (forall p :: IsPrevious(table, d, p) ==> CarriesChanges(source, p.start, d))
      && ((forall e :: e in table && IsIncremental(e) ==> d.start <= e.start) ==>
            CarriesChanges(source, epoch, d))
  }

  ghost predicate WasSo(source: History, from: int, to: int, id: string, doc: Option<string>) {
    exists t :: from <= t <= to && doc == Get(source(t), id)
  }

  /** Each document is as the source had it at some moment of the interval, not necessarily the same moment
      for each. */
  ghost predicate Between(source: History, from: int, to: int, solr: Index) {
    forall id :: WasSo(source, from, to, id, Get(solr, id))
  }

  lemma BetweenSame(source: History, time: int, solr: Index)
    requires Between(source, time, time, solr)
    ensures solr == source(time)
  {
    forall id ensures Get(solr, id) == Get(source(time), id) {
      assert WasSo(source, time, time, id, Get(solr, id));
      var t :| time <= t <= time && Get(solr, id) == Get(source(t), id);
    }
    IndexEquality(solr, source(time));
  }

  /** One incremental moves the lower end of the interval up to its own start. */
  lemma IncrementalNarrows(source: History, since: int, to: int, solr: Index, d: Dump)
    requires Between(source, since, to, solr) && since <= d.start <= to && CarriesChanges(source, since, d)
    ensures Between(source, d.start, to, Apply(FilesPatch(d.files), solr))
  {
    var after := Apply(FilesPatch(d.files), solr);
    forall id ensures WasSo(source, d.start, to, id, Get(after, id)) {
      assert WasSo(source, since, to, id, Get(solr, id));
      var t :| since <= t <= to && Get(solr, id) == Get(source(t), id);
      if id in FilesPatch(d.files) || t < d.start {
        assert Get(after, id) == Get(source(d.start), id);
      } else {
        assert Get(after, id) == Get(source(t), id);
      }
    }
  }

  lemma EmptyNarrows(source: History, since: int, to: int, solr: Index, d: Dump)
    requires Between(source, since, to, solr) && since <= d.start <= to
    requires CarriesChanges(source, since, d) && d.files == []
    ensures Between(source, d.start, to, solr)
  {
    IncrementalNarrows(source, since, to, solr, d);
    IndexEquality(Apply(FilesPatch(d.files), solr), solr);
  }

  ghost predicate LastIncremental(table: Table, d: Dump) {
    d in table && IsIncremental(d) && forall e :: e in table && IsIncremental(e) ==> e.start <= d.start
  }

  function ReplayOnto(solr: Index, dumps: seq<Dump>): Index
    decreases |dumps|
  {
    if dumps == [] then solr else ReplayOnto(Apply(FilesPatch(dumps[0].files), solr), dumps[1..])
  }

  lemma {:induction false} ReplayIsReplayOnto(done: seq<Dump>, rest: seq<Dump>)
    ensures Replay(done + rest) == ReplayOnto(Replay(done), rest)
    decreases |rest|
  {
    if rest == [] {
      assert done + rest == done;
    } else {
      var more := done + [rest[0]];
      assert done + rest == more + rest[1..];
      assert more[..|more| - 1] == done;
      ReplayIsReplayOnto(more, rest[1..]);
    }
  }

  /** Where the chain of queries stands: the interval starts where the next incremental's changes start. */
  ghost predicate Position(table: Table, source: History, last: Dump, since: int) {
    && last in table
    && match IncrementalFrom(table, last)
       case None => forall d :: LastIncremental(table, d) ==> since == d.start
       case Some(d) => since <= d.start && CarriesChanges(source, since, d)
  }

  /** Between an incremental and the next one that the query finds there is no other. */
  lemma QueryIsNext(table: Table, d: Dump, e: Dump)
    requires WellFormed(table) && d in table && IsIncremental(d) && IncrementalFrom(table, d) == Some(e)
    ensures IsPrevious(table, e, d)
  {
    assert e.start == d.start ==> e == d;
    assert forall x :: x in table && IsIncremental(x) && d.start < x.start ==> NotBefore(x, d);
  }

  lemma EndOfQueries(table: Table, d: Dump, last: Dump)
    requires WellFormed(table) && d in table && IsIncremental(d) && IncrementalFrom(table, d).None?
    requires LastIncremental(table, last)
    ensures last.start == d.start
  {
    assert !NotBefore(last, d);
  }

  lemma NextPosition(table: Table, source: History, epoch: int, d: Dump)
    requires WellFormed(table) && Faithful(table, source, epoch) && d in table && IsIncremental(d)
    ensures Position(table, source, d, d.start)
  {
    var query := IncrementalFrom(table, d);
    if query.Some? {
      QueryIsNext(table, d, query.value);
    } else {
      forall last | LastIncremental(table, last) ensures last.start == d.start {
        EndOfQueries(table, d, last);
      }
    }
  }

  lemma RemainingStep(table: Table, last: Option<Dump>)
    requires WellFormed(table) && CanResume(table, last)
    ensures var next := NextDump(table, last).0;
            Remaining(table, last) == if next.None? then [] else [next.value] + Remaining(table, next)
  {
  }

  /** Replaying everything that remains brings every document up to the last incremental. */
  lemma {:induction false} RemainingConverges(
    table: Table, source: History, epoch: int, last: Dump, since: int, solr: Index, end: Dump)
    requires WellFormed(table) && Faithful(table, source, epoch) && CanResume(table, Some(last))
    requires IsFull(last) ==> PreviousToFullIncremental(table, last).None?
    requires Position(table, source, last, since) && LastIncremental(table, end)
    requires Between(source, since, end.start, solr)
    ensures ReplayOnto(solr, Remaining(table, Some(last))) == source(end.start)
    decreases Ahead(table, last)
  {
    var query := IncrementalFrom(table, last);
    if query.None? {
      RemainingStep(table, Some(last));
      BetweenSame(source, end.start, solr);
    } else {
      var d := query.value;
      AheadShrinks(table, last, d);
      NextPosition(table, source, epoch, d);
      if d.files == [] {
        EmptyNarrows(source, since, end.start, solr, d);
        RemainingConverges(table, source, epoch, d, d.start, solr, end);
        RemainingSkips(table, last, d);
      } else {
        IncrementalNarrows(source, since, end.start, solr, d);
        RemainingConverges(table, source, epoch, d, d.start, Apply(FilesPatch(d.files), solr), end);
        RemainingStep(table, Some(last));
      }
    }
  }

  lemma RemainingSkips(table: Table, last: Dump, d: Dump)
    requires WellFormed(table) && CanResume(table, Some(last))
    requires IncrementalFrom(table, last) == Some(d) && d.files == []
    requires IsFull(last) ==> PreviousToFullIncremental(table, last).None?
    ensures Remaining(table, Some(last)) == Remaining(table, Some(d))
  {
    RemainingStep(table, Some(last));
    RemainingStep(table, Some(d));
  }

  /** Where the changes that the catch-up replays begin, after a full dump: with the incremental before the
      one it goes back to, or at the epoch if that is the first incremental or it goes back to none. */
  ghost predicate ReplayStart(table: Table, back: Option<Dump>, epoch: int, since: int) {
    match back
    case None => since == epoch
    case Some(p) =>
      if exists e :: e in table && IsIncremental(e) && e.start < p.start
      then exists e :: IsPrevious(table, p, e) && since == e.start
      else since == epoch
  }

  /** An incremental to go back to, or none when there is none before the full dump. */
  ghost predicate MayGoBackTo(table: Table, full: Dump, back: Option<Dump>) {
    match back
    case None => forall d :: d in table && IsIncremental(d) ==> d.start >= full.start
    case Some(p) => p in table && IsIncremental(p)
  }

  lemma StartAtFull(table: Table, source: History, epoch: int, full: Dump)
    requires WellFormed(table) && Faithful(table, source, epoch) && full in table
    requires MayGoBackTo(table, full, None)
    requires IsFull(full) && exists d :: d in table && IsIncremental(d)
    ensures PreviousToFullIncremental(table, full).None? && Position(table, source, full, epoch)
  {
    assert forall d :: d in table && IsIncremental(d) ==> NotBefore(d, full);
  }

  lemma StartAtIncremental(table: Table, source: History, epoch: int, p: Dump, since: int)
    requires Faithful(table, source, epoch) && p in table && IsIncremental(p)
    requires ReplayStart(table, Some(p), epoch, since)
    ensures CarriesChanges(source, since, p) && since <= p.start
  {
  }

  ghost function AfterFull(table: Table, full: Dump, back: Option<Dump>): seq<Dump>
    requires WellFormed(table) && full in table && IsFull(full) && MayGoBackTo(table, full, back)
  {
    match back
    case None => Remaining(table, Some(full))
    case Some(p) => [p] + Remaining(table, Some(p))
  }

  /** Catch-up from a full dump whose documents were each read at some moment from `since` to the last
      incremental. */
  lemma FullConverges(
    table: Table, source: History, epoch: int, full: Dump, back: Option<Dump>, since: int, end: Dump)
    requires WellFormed(table) && Faithful(table, source, epoch) && LastIncremental(table, end)
    requires full in table && IsFull(full) && MayGoBackTo(table, full, back)
    requires ReplayStart(table, back, epoch, since)
    requires Between(source, since, end.start, Apply(FilesPatch(full.files), map[]))
    ensures Replay([full] + AfterFull(table, full, back)) == source(end.start)
  {
    var base := Apply(FilesPatch(full.files), map[]);
    ReplayFrom(full, AfterFull(table, full, back));
    match back
    case None =>
      StartAtFull(table, source, epoch, full);
      RemainingConverges(table, source, epoch, full, since, base, end);
    case Some(p) =>
      StartAtIncremental(table, source, epoch, p, since);
      IncrementalNarrows(source, since, end.start, base, p);
      NextPosition(table, source, epoch, p);
      RemainingConverges(table, source, epoch, p, p.start, Apply(FilesPatch(p.files), base), end);
  }

  lemma ReplayFrom(first: Dump, rest: seq<Dump>)
    ensures Replay([first] + rest) == ReplayOnto(Apply(FilesPatch(first.files), map[]), rest)
  {
    ReplayIsReplayOnto([], [first] + rest);
    assert [] + ([first] + rest) == [first] + rest;
    assert ([first] + rest)[1..] == rest;
  }

  lemma PreviousMayBeGoneBackTo(table: Table, full: Dump)
    requires WellFormed(table) && full in table && IsFull(full)
    ensures MayGoBackTo(table, full, PreviousToFullIncremental(table, full))
  {
    assert forall d :: d in table && IsIncremental(d) && d.start < full.start ==> Before(d, full);
  }

  /** The same for the order that the selectors give over a fixed table. */
  lemma ReindexConverges(table: Table, source: History, epoch: int, full: Dump, since: int, end: Dump)
    requires WellFormed(table) && Faithful(table, source, epoch)
    requires RecentFullDump(table) == Some(full) && LastIncremental(table, end)
    requires ReplayStart(table, PreviousToFullIncremental(table, full), epoch, since)
    requires Between(source, since, end.start, Apply(FilesPatch(full.files), map[]))
    ensures Replay(Remaining(table, None)) == source(end.start)
  {
    PreviousMayBeGoneBackTo(table, full);
    FullConverges(table, source, epoch, full, PreviousToFullIncremental(table, full), since, end);
    RemainingStep(table, None);
    RemainingStep(table, Some(full));
  }

  /** Without a full dump the incrementals must cover the catalogue from an empty start. */
  lemma IncrementalsConverge(table: Table, source: History, epoch: int, first: Dump, end: Dump)
    requires WellFormed(table) && Faithful(table, source, epoch) && source(epoch) == map[]
    requires first in table && IsIncremental(first) && LastIncremental(table, end)
    requires forall d :: d in table && IsIncremental(d) ==> first.start <= d.start
    ensures Replay([first] + Remaining(table, Some(first))) == source(end.start)
  {
    ReplayFrom(first, Remaining(table, Some(first)));
    assert Between(source, epoch, end.start, map[]) by {
      forall id ensures WasSo(source, epoch, end.start, id, Get(map[], id)) {
        assert Get(map[], id) == Get(source(epoch), id);
      }
    }
    IncrementalNarrows(source, epoch, end.start, map[], first);
    NextPosition(table, source, epoch, first);
    RemainingConverges(table, source, epoch, first, first.start, Apply(FilesPatch(first.files), map[]), end);
  }

  lemma ReindexWithoutFullConverges(table: Table, source: History, epoch: int, end: Dump)
    requires WellFormed(table) && Faithful(table, source, epoch) && source(epoch) == map[]
    requires RecentFullDump(table).None? && LastIncremental(table, end)
    ensures Replay(Remaining(table, None)) == source(end.start)
  {
    var first := FirstIncremental(table).value;
    RemainingStep(table, None);
    IncrementalsConverge(table, source, epoch, first, end);
  }

  // ----- whole runs

  predicate Carries(d: Dump, id: string) {
    id in FilesPatch(d.files)
  }

  lemma {:induction false} ReplayOntoLast(base: Index, ds: seq<Dump>, d: Dump)
    ensures ReplayOnto(base, ds + [d]) == Apply(FilesPatch(d.files), ReplayOnto(base, ds))
    decreases |ds|
  {
    if ds == [] {
      assert [] + [d] == [d] && [d][1..] == [];
    } else {
      assert (ds + [d])[1..] == ds[1..] + [d];
      ReplayOntoLast(Apply(FilesPatch(ds[0].files), base), ds[1..], d);
    }
  }

  lemma LastReplayed(base: Index, ds: seq<Dump>, id: string)
    requires ds != []
    ensures var last := ds[|ds| - 1];
            Get(ReplayOnto(base, ds), id) ==
            if Carries(last, id) then FilesPatch(last.files)[id] else Get(ReplayOnto(base, ds[..|ds| - 1]), id)
  {
    assert ds == ds[..|ds| - 1] + [ds[|ds| - 1]];
    ReplayOntoLast(base, ds[..|ds| - 1], ds[|ds| - 1]);
  }

  /** For this id, every dump of `some` is in `all`, and one of `all` that `some` leaves out is followed by a
      later one of `some`. */
  ghost predicate Covers(id: string, some: seq<Dump>, all: seq<Dump>) {
    && Ascending(some) && Ascending(all)
    && (forall d :: d in some && Carries(d, id) ==> d in all)
    && (forall m :: m in all && Carries(m, id) ==> m in some || FollowedIn(id, some, m))
  }

  ghost predicate FollowedIn(id: string, ds: seq<Dump>, m: Dump) {
    exists e :: e in ds && IsIncremental(e) && e.start > m.start && Carries(e, id)
  }

  lemma StartsNoLater(ds: seq<Dump>, d: Dump)
    requires Ascending(ds) && d in ds
    ensures d.start <= ds[|ds| - 1].start && (d.start == ds[|ds| - 1].start ==> d == ds[|ds| - 1])
  {
  }

  lemma CoversLast(id: string, some: seq<Dump>, all: seq<Dump>)
    requires Covers(id, some, all) && all != [] && Carries(all[|all| - 1], id)
    requires some != [] ==> Carries(some[|some| - 1], id)
    ensures some != [] && some[|some| - 1] == all[|all| - 1]
  {
    var last := all[|all| - 1];
    if last !in some {
      var e :| e in some && IsIncremental(e) && e.start > last.start && Carries(e, id);
      StartsNoLater(all, e);
    } else {
      StartsNoLater(some, last);
      StartsNoLater(all, some[|some| - 1]);
    }
  }

  lemma InInit(ds: seq<Dump>, d: Dump)
    requires ds != []
    ensures d in ds <==> d in ds[..|ds| - 1] || d == ds[|ds| - 1]
  {
    assert ds == ds[..|ds| - 1] + [ds[|ds| - 1]];
  }

  lemma CoversShorter(id: string, some: seq<Dump>, all: seq<Dump>)
    requires Covers(id, some, all) && some != [] && !Carries(some[|some| - 1], id)
    ensures Covers(id, some[..|some| - 1], all)
  {
    var init := some[..|some| - 1];
    forall m | m in all && Carries(m, id) ensures m in init || FollowedIn(id, init, m) {
      InInit(some, m);
      if m !in some {
        var e :| e in some && IsIncremental(e) && e.start > m.start && Carries(e, id);
        InInit(some, e);
      }
    }
  }

  lemma CoveredShorter(id: string, some: seq<Dump>, all: seq<Dump>)
    requires Covers(id, some, all) && all != [] && !Carries(all[|all| - 1], id)
    ensures Covers(id, some, all[..|all| - 1])
  {
    forall d | d in some && Carries(d, id) ensures d in all[..|all| - 1] { InInit(all, d); }
    forall m | m in all[..|all| - 1] ensures m in all { InInit(all, m); }
  }

  /** For this id, replaying the some is replaying all. */
  lemma {:induction false} CoveredReplay(id: string, base: Index, some: seq<Dump>, all: seq<Dump>)
    requires Covers(id, some, all)
    ensures Get(ReplayOnto(base, some), id) == Get(ReplayOnto(base, all), id)
    decreases |some| + |all|
  {
    if some != [] { LastReplayed(base, some, id); }
    if all != [] { LastReplayed(base, all, id); }
    if some != [] && !Carries(some[|some| - 1], id) {
      CoversShorter(id, some, all);
      CoveredReplay(id, base, some[..|some| - 1], all);
    } else if all != [] && !Carries(all[|all| - 1], id) {
      CoveredShorter(id, some, all);
      CoveredReplay(id, base, some, all[..|all| - 1]);
    } else if all != [] {
      CoversLast(id, some, all);
    } else {
      FirstIn(some);
      NothingToCover(id, some);
    }
  }

  lemma LastIn(ds: seq<Dump>)
    ensures ds == [] || ds[|ds| - 1] in ds
  {
  }

  lemma NothingToCover(id: string, some: seq<Dump>)
    requires Covers(id, some, []) && (some != [] ==> Carries(some[|some| - 1], id))
    ensures some == []
  {
    LastIn(some);
  }

  /** What the run would have gone back to had nothing been late. */
  function BackTo(table: Table, done: seq<Dump>): Option<Dump>
    requires done != []
  {
    if WentBack(done) then Some(done[1]) else PreviousToFullIncremental(table, done[0])
  }

  /** A late incremental that carries the id comes before the one that the run went back to, or is followed by
      a later one that the run took up and that carries the id as well. */
  ghost predicate MadeGood(late: set<Dump>, done: seq<Dump>, id: string)
    requires done != []
  {
    forall m :: m in late && Carries(m, id) ==>
      (WentBack(done) && m.start <= done[1].start) || FollowedIn(id, done, m)
  }

  lemma CarriesFiles(d: Dump, id: string)
    requires Carries(d, id)
    ensures d.files != []
  {
  }

  lemma FollowedInRest(id: string, done: seq<Dump>, m: Dump)
    requires done != [] && IsFull(done[0]) && FollowedIn(id, done, m)
    ensures FollowedIn(id, done[1..], m)
  {
    var e :| e in done && IsIncremental(e) && e.start > m.start && Carries(e, id);
    InTail(done, e);
  }

  lemma InTail(ds: seq<Dump>, d: Dump)
    requires ds != []
    ensures d in ds <==> d == ds[0] || d in ds[1..]
  {
    assert ds == [ds[0]] + ds[1..];
  }

  lemma PrependAscending(first: Dump, rest: seq<Dump>)
    requires Ascending(rest) && forall d :: d in rest ==> d.start > first.start
    ensures Ascending([first] + rest)
  {
  }

  lemma RestLater(table: Table, late: set<Dump>, done: seq<Dump>, d: Dump)
    requires done != [] && WholeOrder(table, late, done)
    requires d in table && IsIncremental(d) && d.files != [] && d.start > Since(done)
    ensures d in Rest(done) || d in late
  {
  }

  lemma RestInTail(done: seq<Dump>, d: Dump)
    requires done != [] && d in Rest(done)
    ensures d in done[1..]
  {
    if WentBack(done) { assert done[1..] == [done[1]] + done[2..]; }
  }

  lemma LeftOutAfterBack(table: Table, late: set<Dump>, done: seq<Dump>, m: Dump, id: string)
    requires WentBack(done) && WholeOrder(table, late, done) && MadeGood(late, done, id)
    requires m in table && IsIncremental(m) && m.start > done[1].start && Carries(m, id)
    ensures m in done[1..] || FollowedIn(id, done[1..], m)
  {
    CarriesFiles(m, id);
    RestLater(table, late, done, m);
    if m in late {
      FollowedInRest(id, done, m);
    } else {
      RestInTail(done, m);
    }
  }

  lemma TailWentBack(table: Table, late: set<Dump>, done: seq<Dump>)
    requires WentBack(done) && WholeOrder(table, late, done)
    ensures done[1] in table && IsIncremental(done[1]) && Ascending(done[1..])
    ensures forall d :: d in done[1..] ==> d in table && IsIncremental(d) && d.start >= done[1].start
  {
    assert done[1] in done;
    assert done[1..] == [done[1]] + Rest(done);
    PrependAscending(done[1], Rest(done));
  }

  /** The dumps after one to go back to, when the run did. */
  lemma CoversWentBack(table: Table, late: set<Dump>, done: seq<Dump>, id: string)
    requires WellFormed(table) && WentBack(done) && WholeOrder(table, late, done) && MadeGood(late, done, id)
    ensures done[1] in table && IsIncremental(done[1])
    ensures Covers(id, done[1..], [done[1]] + Remaining(table, Some(done[1])))
  {
    TailWentBack(table, late, done);
    var p, tail := done[1], done[1..];
    RemainingAfterIncremental(table, p);
    var all := Remaining(table, Some(p));
    PrependAscending(p, all);
    forall d | d in tail && Carries(d, id) ensures d in [p] + all { TakenIsInOrder(table, p, d, id); }
    forall m | m in [p] + all && Carries(m, id) ensures m in tail || FollowedIn(id, tail, m) {
      if m == p {
        assert tail[0] == p;
      } else {
        LeftOutAfterBack(table, late, done, m, id);
      }
    }
  }

  lemma CoversOlder(table: Table, late: set<Dump>, done: seq<Dump>, p: Dump, id: string)
    requires WellFormed(table) && done != [] && IsFull(done[0]) && !WentBack(done)
    requires WholeOrder(table, late, done) && MadeGood(late, done, id)
    requires p in table && IsIncremental(p) && p.start < done[0].start
    ensures Covers(id, done[1..], [p] + Remaining(table, Some(p)))
  {
    RemainingAfterIncremental(table, p);
    var all := Remaining(table, Some(p));
    assert done[1..] == Rest(done);
    PrependAscending(p, all);
    forall m | m in [p] + all && Carries(m, id) ensures m in done[1..] || FollowedIn(id, done[1..], m) {
      CarriesFiles(m, id);
      if m.start > Since(done) { RestLater(table, late, done, m); }
      if m in late { FollowedInRest(id, done, m); }
    }
  }

  lemma CoversFromFull(table: Table, late: set<Dump>, done: seq<Dump>, id: string)
    requires WellFormed(table) && done != [] && done[0] in table && IsFull(done[0]) && !WentBack(done)
    requires WholeOrder(table, late, done) && MadeGood(late, done, id) && MayGoBackTo(table, done[0], None)
    ensures Covers(id, done[1..], Remaining(table, Some(done[0])))
  {
    AllAhead(table, done[0]);
    RemainingFrom(table, done[0], done[0].start - 1);
    var all := Remaining(table, Some(done[0]));
    assert done[1..] == Rest(done);
    forall m | m in all && Carries(m, id) ensures m in done[1..] || FollowedIn(id, done[1..], m) {
      RestLater(table, late, done, m);
      if m in late { FollowedInRest(id, done, m); }
    }
  }

  lemma AllAhead(table: Table, full: Dump)
    requires IsFull(full) && full in table && UniqueIds(table) && MayGoBackTo(table, full, None)
    ensures forall d :: d in Ahead(table, full) <==>
            d in table && IsIncremental(d) && d.start > full.start - 1
  {
    forall d | d in table && IsIncremental(d) ensures NotBefore(d, full) {
    }
  }

  lemma BackToMayBe(table: Table, late: set<Dump>, done: seq<Dump>)
    requires WellFormed(table) && done != [] && IsFull(done[0]) && WholeOrder(table, late, done)
    ensures done[0] in table && MayGoBackTo(table, done[0], BackTo(table, done))
  {
    assert done[0] in done;
    if WentBack(done) {
      assert done[1] in done;
    } else {
      PreviousMayBeGoneBackTo(table, done[0]);
    }
  }

  lemma CoversAfterFull(table: Table, late: set<Dump>, done: seq<Dump>, id: string)
    requires WellFormed(table) && done != [] && IsFull(done[0])
    requires WholeOrder(table, late, done) && MadeGood(late, done, id)
    ensures done[0] in table && MayGoBackTo(table, done[0], BackTo(table, done))
    ensures Covers(id, done[1..], AfterFull(table, done[0], BackTo(table, done)))
  {
    BackToMayBe(table, late, done);
    if WentBack(done) {
      CoversWentBack(table, late, done, id);
    } else if BackTo(table, done).Some? {
      CoversOlder(table, late, done, BackTo(table, done).value, id);
    } else {
      CoversFromFull(table, late, done, id);
    }
  }

  lemma TakenIsInOrder(table: Table, first: Dump, d: Dump, id: string)
    requires WellFormed(table) && first in table && IsIncremental(first)
    requires d in table && IsIncremental(d) && first.start <= d.start && Carries(d, id)
    ensures d in [first] + Remaining(table, Some(first))
  {
    RemainingAfterIncremental(table, first);
    CarriesFiles(d, id);
    assert d.start == first.start ==> d == first;
  }

  lemma LeftOutIsLate(table: Table, late: set<Dump>, done: seq<Dump>, m: Dump, id: string)
    requires WellFormed(table) && done != [] && IsIncremental(done[0]) && WholeOrder(table, late, done)
    requires m in table && IsIncremental(m) && Carries(m, id) && m !in done
    ensures m in late
  {
    CarriesFiles(m, id);
    var begun := done[0];
    assert begun in done && begun in table;
    InTail(done, m);
    if m.start > begun.start { RestLater(table, late, done, m); }
  }

  lemma CoversAfterFirst(table: Table, late: set<Dump>, done: seq<Dump>, first: Dump, id: string)
    requires WellFormed(table) && done != [] && IsIncremental(done[0])
    requires WholeOrder(table, late, done) && MadeGood(late, done, id)
    requires first in table && IsIncremental(first)
    requires forall d :: d in table && IsIncremental(d) ==> first.start <= d.start
    ensures Covers(id, done, [first] + Remaining(table, Some(first)))
  {
    RemainingAfterIncremental(table, first);
    var all := Remaining(table, Some(first));
    AscendingFromFirst(table, late, done);
    PrependAscending(first, all);
    forall d | d in done && Carries(d, id) ensures d in [first] + all {
      OnlyIncrementals(table, done, d);
      TakenIsInOrder(table, first, d, id);
    }
    forall m | m in [first] + all && Carries(m, id) ensures m in done || FollowedIn(id, done, m) {
      if m !in done { LeftOutIsLate(table, late, done, m, id); }
    }
  }

  lemma AscendingFromFirst(table: Table, late: set<Dump>, done: seq<Dump>)
    requires done != [] && IsIncremental(done[0]) && WholeOrder(table, late, done)
    ensures Ascending(done)
  {
    assert done == [done[0]] + Rest(done);
    PrependAscending(done[0], Rest(done));
  }

  lemma OnlyIncrementals(table: Table, done: seq<Dump>, d: Dump)
    requires Shape(table, done) && d in done && IsIncremental(done[0])
    ensures d in table && IsIncremental(d)
  {
  }

  /** The conditions on the history, the final table and what the run began with. */
  ghost predicate Repairable(
    table: Table, done: seq<Dump>, source: History, epoch: int, since: int, end: Dump)
  {
    && Faithful(table, source, epoch) && LastIncremental(table, end) && done != []
    && if IsFull(done[0]) then
         && ReplayStart(table, BackTo(table, done), epoch, since)
         && Between(source, since, end.start, Apply(FilesPatch(done[0].files), map[]))
       else source(epoch) == map[]
  }

  lemma WholeFullConverges(
    table: Table, late: set<Dump>, done: seq<Dump>, source: History, epoch: int, since: int, end: Dump)
    requires WellFormed(table) && WholeOrder(table, late, done)
    requires Repairable(table, done, source, epoch, since, end) && IsFull(done[0])
    ensures done[0] in table && MayGoBackTo(table, done[0], BackTo(table, done))
    ensures Replay([done[0]] + AfterFull(table, done[0], BackTo(table, done))) == source(end.start)
  {
    BackToMayBe(table, late, done);
    FullConverges(table, source, epoch, done[0], BackTo(table, done), since, end);
  }

  lemma AgreesByCover(id: string, done: seq<Dump>, all: seq<Dump>, goal: Index)
    requires done != [] && Covers(id, done[1..], all) && Replay([done[0]] + all) == goal
    ensures Get(Replay(done), id) == Get(goal, id)
  {
    SameAfterFirst(id, done[0], done[1..], all);
    assert done == [done[0]] + done[1..];
  }

  lemma SameAfterFirst(id: string, first: Dump, some: seq<Dump>, all: seq<Dump>)
    requires Covers(id, some, all)
    ensures Get(Replay([first] + some), id) == Get(Replay([first] + all), id)
  {
    ReplayFrom(first, some);
    ReplayFrom(first, all);
    CoveredReplay(id, Apply(FilesPatch(first.files), map[]), some, all);
  }

  lemma SameFromNothing(id: string, some: seq<Dump>, all: seq<Dump>)
    requires Covers(id, some, all)
    ensures Get(Replay(some), id) == Get(Replay(all), id)
  {
    ReplayIsReplayOnto([], all);
    ReplayIsReplayOnto([], some);
    assert [] + all == all && [] + some == some;
    CoveredReplay(id, map[], some, all);
  }

  lemma IncrementalOrderAgrees(
    table: Table, late: set<Dump>, done: seq<Dump>, first: Dump, goal: Index, id: string)
    requires WellFormed(table) && WholeOrder(table, late, done) && done != [] && IsIncremental(done[0])
    requires MadeGood(late, done, id) && FirstIncremental(table) == Some(first)
    requires Replay([first] + Remaining(table, Some(first))) == goal
    ensures Get(Replay(done), id) == Get(goal, id)
  {
    CoversAfterFirst(table, late, done, first, id);
    SameFromNothing(id, done, [first] + Remaining(table, Some(first)));
  }

  ghost predicate AgreesWhereMadeGood(
    solr: Index, late: set<Dump>, done: seq<Dump>, source: Index)
  {
    done != [] && forall id :: MadeGood(late, done, id) ==> Get(solr, id) == Get(source, id)
  }

  lemma FullOrderConverges(
    table: Table, late: set<Dump>, done: seq<Dump>, source: History, epoch: int, since: int, end: Dump)
    requires WellFormed(table) && WholeOrder(table, late, done)
    requires Repairable(table, done, source, epoch, since, end) && IsFull(done[0])
    ensures AgreesWhereMadeGood(Replay(done), late, done, source(end.start))
  {
    WholeFullConverges(table, late, done, source, epoch, since, end);
    forall id | MadeGood(late, done, id) ensures Get(Replay(done), id) == Get(source(end.start), id) {
      CoversAfterFull(table, late, done, id);
      AgreesByCover(id, done, AfterFull(table, done[0], BackTo(table, done)), source(end.start));
    }
  }

  lemma IncrementalOrderConverges(
    table: Table, late: set<Dump>, done: seq<Dump>, source: History, epoch: int, since: int, end: Dump)
    requires WellFormed(table) && WholeOrder(table, late, done)
    requires Repairable(table, done, source, epoch, since, end) && !IsFull(done[0])
    ensures AgreesWhereMadeGood(Replay(done), late, done, source(end.start))
  {
    assert done[0] in done && IsIncremental(done[0]);
    var first := FirstIncremental(table).value;
    IncrementalsConverge(table, source, epoch, first, end);
    forall id | MadeGood(late, done, id) ensures Get(Replay(done), id) == Get(source(end.start), id) {
      IncrementalOrderAgrees(table, late, done, first, source(end.start), id);
    }
  }

  lemma OrderConverges(
    table: Table, late: set<Dump>, done: seq<Dump>, source: History, epoch: int, since: int, end: Dump)
    requires WellFormed(table) && WholeOrder(table, late, done)
    requires Repairable(table, done, source, epoch, since, end)
    ensures AgreesWhereMadeGood(Replay(done), late, done, source(end.start))
  {
    if IsFull(done[0]) {
      FullOrderConverges(table, late, done, source, epoch, since, end);
    } else {
      IncrementalOrderConverges(table, late, done, source, epoch, since, end);
    }
  }

  /** In particular Solr is the source when nothing that is late carries anything that is not made good. */
  lemma AgreesEverywhere(solr: Index, late: set<Dump>, done: seq<Dump>, source: Index)
    requires AgreesWhereMadeGood(solr, late, done, source) && forall id :: MadeGood(late, done, id)
    ensures solr == source
  {
    IndexEquality(solr, source);
  }

  ghost predicate EndsRepairable(
    s: State, t: State, source: History, epoch: int, since: int, end: Dump)
  {
    |s.batched| < |t.batched| && Repairable(t.table, t.batched[|s.batched|..], source, epoch, since, end)
  }

  /** The whole protocol: whenever a manager told to reindex is caught up, whatever the interleaving of file
      jobs, the crashes, the extra triggers and the dumps that arrived meanwhile, in time order or not, Solr
      agrees with the source at the last incremental on every record, unless a late incremental carries it and
      no later one that was taken up does. */
  lemma CaughtUpEqualsSource(s: State, acts: seq<Action>, source: History, epoch: int, since: int, end: Dump)
    requires Invariant(s) && !s.row.inProgress && FilesAgree(s.table)
    requires Valid(StartReindex(s), acts) && FollowingSoundly(StartReindex(s), acts)
    requires CaughtUp(Run(StartReindex(s), acts))
    requires EndsRepairable(s, Run(StartReindex(s), acts), source, epoch, since, end)
    ensures var t, late := Run(StartReindex(s), acts), Late(StartReindex(s), acts);
            AgreesWhereMadeGood(t.solr, late, t.batched[|s.batched|..], source(end.start))
  {
    CaughtUpSolr(s, acts);
    var t := Run(StartReindex(s), acts);
    OrderConverges(
      t.table, Late(StartReindex(s), acts), t.batched[|s.batched|..], source, epoch, since, end);
  }

  /** The last incremental of the table that carries the record. */
  ghost predicate LastCarrier(table: Table, m: Dump, id: string) {
    && m in table && IsIncremental(m) && Carries(m, id)
    && forall e :: e in table && IsIncremental(e) && e.start > m.start ==> !Carries(e, id)
  }

  lemma {:induction false} UnchangedAfter(
    table: Table, source: History, epoch: int, m: Dump, end: Dump, id: string)
    requires WellFormed(table) && Faithful(table, source, epoch) && m in table && IsIncremental(m)
    requires LastIncremental(table, end)
    requires forall e :: e in table && IsIncremental(e) && e.start > m.start ==> !Carries(e, id)
    ensures Get(source(end.start), id) == Get(source(m.start), id)
    decreases Ahead(table, m)
  {
    var query := IncrementalFrom(table, m);
    if query.None? {
      EndOfQueries(table, m, end);
    } else {
      AheadShrinks(table, m, query.value);
      QueryIsNext(table, m, query.value);
      UnchangedAfter(table, source, epoch, query.value, end, id);
    }
  }

  lemma CarriedValue(table: Table, source: History, epoch: int, m: Dump, id: string)
    requires WellFormed(table) && Faithful(table, source, epoch)
    requires m in table && IsIncremental(m) && Carries(m, id)
    ensures FilesPatch(m.files)[id] == Get(source(m.start), id)
  {
    var previous := PreviousToFullIncremental(table, m);
    forall d | d in table && IsIncremental(d) && d.start < m.start ensures Before(d, m) {
    }
    if previous.Some? { assert IsPrevious(table, m, previous.value); }
  }

  /** An incremental with files that was neither late nor taken up comes before the one that the run went back
      to. */
  lemma NeitherLateNorTaken(table: Table, late: set<Dump>, done: seq<Dump>, m: Dump)
    requires WellFormed(table) && done != [] && WholeOrder(table, late, done)
    requires m in table && IsIncremental(m) && m.files != [] && m !in late && m !in done
    ensures WentBack(done) && m.start <= done[1].start
  {
    var begun := done[0];
    assert begun in done && begun in table;
    if m in Rest(done) { Begun(done, m); }
    if m.start > Since(done) { RestLater(table, late, done, m); }
  }

  lemma Begun(done: seq<Dump>, m: Dump)
    requires done != [] && m in Rest(done)
    ensures m in done
  {
  }

  lemma LastCarrierNotLate(table: Table, late: set<Dump>, done: seq<Dump>, m: Dump, id: string)
    requires WellFormed(table) && done != [] && WholeOrder(table, late, done)
    requires LastCarrier(table, m, id) && m !in late
    requires forall d :: d in late ==> d in table && IsIncremental(d)
    ensures MadeGood(late, done, id)
  {
    CarriesFiles(m, id);
    if m !in done { NeitherLateNorTaken(table, late, done, m); }
    forall d | d in late && Carries(d, id)
      ensures (WentBack(done) && d.start <= done[1].start) || FollowedIn(id, done, d)
    {
      assert d.start == m.start ==> d == m;
    }
  }

  lemma {:induction false} LateAreIncrementals(s: State, acts: seq<Action>)
    requires Ready(s) && Valid(s, acts)
    ensures s.table <= Run(s, acts).table
    ensures forall d :: d in Late(s, acts) ==> d in Run(s, acts).table && IsIncremental(d)
    decreases |acts|
  {
    if acts != [] {
      StepGrows(s, acts[0]);
      LateAreIncrementals(Step(s, acts[0]), acts[1..]);
      if acts[0].Arrive? { assert acts[0].dump in Step(s, acts[0]).table; }
    }
  }

  /** A record that incrementals carry is right in the end exactly when it is as the last of them has it, and
      so it is whenever that one was not late. */
  lemma LastCarrierDecides(
    s: State, acts: seq<Action>, source: History, epoch: int, since: int, end: Dump, m: Dump, id: string)
    requires Invariant(s) && !s.row.inProgress && FilesAgree(s.table)
    requires Valid(StartReindex(s), acts) && FollowingSoundly(StartReindex(s), acts)
    requires CaughtUp(Run(StartReindex(s), acts))
    requires EndsRepairable(s, Run(StartReindex(s), acts), source, epoch, since, end)
    requires LastCarrier(Run(StartReindex(s), acts).table, m, id)
    ensures var t := Run(StartReindex(s), acts);
            && (Get(t.solr, id) == Get(source(end.start), id) <==> Get(t.solr, id) == FilesPatch(m.files)[id])
            && (m !in Late(StartReindex(s), acts) ==> Get(t.solr, id) == Get(source(end.start), id))
  {
    var t, late := Run(StartReindex(s), acts), Late(StartReindex(s), acts);
    CarriedValue(t.table, source, epoch, m, id);
    UnchangedAfter(t.table, source, epoch, m, end, id);
    if m !in late {
      CaughtUpSolr(s, acts);
      CaughtUpEqualsSource(s, acts, source, epoch, since, end);
      LateAreIncrementals(StartReindex(s), acts);
      LastCarrierNotLate(t.table, late, t.batched[|s.batched|..], m, id);
    }
  }

  // ----- a table that stays as it is

  lemma StepKeepsTable(s: State, a: Action)
    requires Ready(s) && Enabled(s, a) && !a.Arrive?
    ensures Step(s, a).table == s.table
  {
  }

  lemma {:induction false} NoArrivalsSound(s: State, acts: seq<Action>)
    requires Ready(s) && Valid(s, acts) && Following(s, acts) && NoArrivals(acts)
    ensures FollowingSoundly(s, acts) && Late(s, acts) == {} && Run(s, acts).table == s.table
    decreases |acts|
  {
    if acts != [] {
      assert acts[0] in acts;
      StepKeepsTable(s, acts[0]);
      NoArrivalsSound(Step(s, acts[0]), acts[1..]);
    }
  }

  lemma ChosenFromFixedTable(table: Table, last: Option<Dump>, d: Dump)
    requires ChosenFrom(table, |table|, last, d)
    ensures ChosenAt(table, last, d)
  {
    assert table[..|table|] == table;
  }

  lemma WentBackToPrevious(table: Table, full: Dump, d: Dump)
    requires ChosenAt(table, Some(full), d) && IsFull(full) && d.start < full.start
    ensures PreviousToFullIncremental(table, full) == Some(d)
  {
    if PreviousToFullIncremental(table, full).None? { NextIncrementalMeaning(table, full); }
  }

  lemma OpeningOfFixedTable(table: Table, done: seq<Dump>, full: Dump)
    requires WholeOrder(table, {}, done) && Opening(table, |table|, done)
    requires RecentFullDump(table) == Some(full)
    ensures done != [] && done[0] == full && BackTo(table, done) == PreviousToFullIncremental(table, full)
  {
    ChosenFromFixedTable(table, None, done[0]);
    if WentBack(done) {
      ChosenFromFixedTable(table, Some(full), done[1]);
      WentBackToPrevious(table, full, done[1]);
    }
  }

  lemma FixedTableConverges(
    table: Table, done: seq<Dump>, source: History, epoch: int, full: Dump, since: int, end: Dump)
    requires WellFormed(table) && Faithful(table, source, epoch)
    requires RecentFullDump(table) == Some(full) && LastIncremental(table, end)
    requires ReplayStart(table, PreviousToFullIncremental(table, full), epoch, since)
    requires Between(source, since, end.start, Apply(FilesPatch(full.files), map[]))
    requires WholeOrder(table, {}, done) && Opening(table, |table|, done)
    ensures Replay(done) == source(end.start)
  {
    OpeningOfFixedTable(table, done, full);
    OrderConverges(table, {}, done, source, epoch, since, end);
    AgreesEverywhere(Replay(done), {}, done, source(end.start));
  }

  /** Total correctness over a table that stays as it is: every run of a reindex is bounded, whatever triggers
      come meanwhile, and wherever one stops, Solr equals the source at the last incremental. */
  lemma ReindexEndsAtSource(
    s: State, acts: seq<Action>, source: History, epoch: int, full: Dump, since: int, end: Dump)
    requires Invariant(s) && !s.row.inProgress && FilesAgree(s.table)
    requires Faithful(s.table, source, epoch) && RecentFullDump(s.table) == Some(full)
    requires LastIncremental(s.table, end)
    requires ReplayStart(s.table, PreviousToFullIncremental(s.table, full), epoch, since)
    requires Between(source, since, end.start, Apply(FilesPatch(full.files), map[]))
    requires Valid(StartReindex(s), acts) && Following(StartReindex(s), acts) && NoArrivals(acts)
    ensures Invariant(StartReindex(s))
    ensures InternalSteps(acts) <= Work(StartReindex(s)) + TotalAdded(StartReindex(s), acts)
    ensures Stopped(Run(StartReindex(s), acts)) ==>
              && !Run(StartReindex(s), acts).row.inProgress
              && Run(StartReindex(s), acts).solr == source(end.start)
  {
    StepKeepsInvariant(s, Reindex);
    CatchUpEnds(StartReindex(s), acts);
    StartWaits(s.(row := s.row.(last := None), solr := map[]));
    NoArrivalsNoneWaits(StartReindex(s), acts);
    if Stopped(Run(StartReindex(s), acts)) {
      var t := Run(StartReindex(s), acts);
      StoppedOrder(s, acts);
      FixedTableConverges(s.table, t.batched[|s.batched|..], source, epoch, full, since, end);
    }
  }

  lemma StoppedOrder(s: State, acts: seq<Action>)
    requires Invariant(s) && !s.row.inProgress && FilesAgree(s.table)
    requires Valid(StartReindex(s), acts) && Following(StartReindex(s), acts) && NoArrivals(acts)
    requires CaughtUp(Run(StartReindex(s), acts))
    ensures var t := Run(StartReindex(s), acts);
            && |s.batched| <= |t.batched| && t.solr == Replay(t.batched[|s.batched|..])
            && WholeOrder(s.table, {}, t.batched[|s.batched|..])
            && Opening(s.table, |s.table|, t.batched[|s.batched|..])
  {
    NoArrivalsSound(StartReindex(s), acts);
    CaughtUpSolr(s, acts);
    SameTable(s);
  }

  lemma SameTable(s: State)
    requires Ready(s)
    ensures StartReindex(s).table == s.table
  {
  }

  lemma {:induction false} NoArrivalsNoneWaits(s: State, acts: seq<Action>)
    requires Ready(s) && Valid(s, acts) && NoArrivals(acts)
    ensures !LeftWaiting(s, acts, false)
    decreases |acts|
  {
    if acts != [] {
      assert acts[0] in acts;
      NoArrivalsNoneWaits(Step(s, acts[0]), acts[1..]);
    }
  }

  /** Total correctness while dumps arrive: every run of a reindex is bounded by its work, the crashes, the
      arrivals and the starts in it, and wherever one stops with no dump left waiting, Solr agrees with the
      source at the last incremental on every record that no late incremental decides. */
  lemma ReindexWithArrivalsEndsAtSource(
    s: State, acts: seq<Action>, source: History, epoch: int, since: int, end: Dump)
    requires Invariant(s) && !s.row.inProgress && FilesAgree(s.table)
    requires Valid(StartReindex(s), acts) && FollowingSoundly(StartReindex(s), acts)
    ensures Invariant(StartReindex(s))
    ensures InternalSteps(acts) <= Work(StartReindex(s)) + TotalAdded(StartReindex(s), acts)
    ensures var t, late := Run(StartReindex(s), acts), Late(StartReindex(s), acts);
            Stopped(t) && !LeftWaiting(StartReindex(s), acts, false)
            && EndsRepairable(s, t, source, epoch, since, end) ==>
              && !t.row.inProgress
              && AgreesWhereMadeGood(t.solr, late, t.batched[|s.batched|..], source(end.start))
  {
    StepKeepsInvariant(s, Reindex);
    CatchUpEnds(StartReindex(s), acts);
    StartWaits(s.(row := s.row.(last := None), solr := map[]));
    var t := Run(StartReindex(s), acts);
    if Stopped(t) && !LeftWaiting(StartReindex(s), acts, false)
       && EndsRepairable(s, t, source, epoch, since, end)
    {
      CaughtUpEqualsSource(s, acts, source, epoch, since, end);
    }
  }

  // ----- a history that meets the conditions

  function OneRecord(id: string, doc: string): DumpFile {
    [[Live(id, doc)]]
  }

  lemma OneRecordPatch(id: string, doc: string)
    ensures FilesPatch([OneRecord(id, doc)]) == map[id := Some(doc)]
  {
    var run := [Live(id, doc)];
    assert run[..0] == [] && OneRecord(id, doc)[..0] == [] && [OneRecord(id, doc)][..0] == [];
    assert AddPatch(run) == AddPatch([]) + RecordPatch(Live(id, doc));
    assert DeletedIds(run) == [];
    assert FilePatch(OneRecord(id, doc)) == FilePatch([]) + RunPatch(run);
  }

  /** A record that changes once; the full dump starts before the change and already has the new value. */
  function Changing(t: int): Index {
    if t < 15 then map["7" := "old"] else map["7" := "new"]
  }

  const BEFORE_FULL := Dump(1, ChangedRecords, 10, [OneRecord("7", "old")])
  const LEADING_FULL := Dump(2, FullDump, 12, [OneRecord("7", "new")])
  const AFTER_CHANGE := Dump(3, ChangedRecords, 20, [OneRecord("7", "new")])
  const THREE_DUMPS: Table := [BEFORE_FULL, LEADING_FULL, AFTER_CHANGE]

  lemma EachCarriesChanges()
    ensures CarriesChanges(Changing, 0, BEFORE_FULL) && CarriesChanges(Changing, 10, AFTER_CHANGE)
  {
    OneRecordPatch("7", "old");
    OneRecordPatch("7", "new");
  }

  lemma ThreeDumpsFaithful()
    ensures Faithful(THREE_DUMPS, Changing, 0)
  {
    EachCarriesChanges();
    forall d | d in THREE_DUMPS && IsIncremental(d)
      ensures forall p :: IsPrevious(THREE_DUMPS, d, p) ==> CarriesChanges(Changing, p.start, d)
    {
      forall p | IsPrevious(THREE_DUMPS, d, p) ensures CarriesChanges(Changing, p.start, d) {
        PreviousOfThree(d, p);
      }
    }
    assert BEFORE_FULL in THREE_DUMPS;
  }

  lemma PreviousOfThree(d: Dump, p: Dump)
    requires d in THREE_DUMPS && IsIncremental(d) && IsPrevious(THREE_DUMPS, d, p)
    ensures d == AFTER_CHANGE && p.start == 10
  {
    assert p == BEFORE_FULL || p == AFTER_CHANGE;
  }

  lemma FullIsBetween()
    ensures Between(Changing, 0, 20, Apply(FilesPatch(LEADING_FULL.files), map[]))
  {
    OneRecordPatch("7", "new");
    var base := Apply(FilesPatch(LEADING_FULL.files), map[]);
    forall id ensures WasSo(Changing, 0, 20, id, Get(base, id)) {
      assert Get(base, id) == Get(Changing(17), id);
    }
  }

  lemma ThreeDumpsChoice()
    ensures WellFormed(THREE_DUMPS)
    ensures RecentFullDump(THREE_DUMPS) == Some(LEADING_FULL) && LastIncremental(THREE_DUMPS, AFTER_CHANGE)
    ensures PreviousToFullIncremental(THREE_DUMPS, LEADING_FULL) == Some(BEFORE_FULL)
  {
    assert THREE_DUMPS[0] == BEFORE_FULL && THREE_DUMPS[1] == LEADING_FULL && THREE_DUMPS[2] == AFTER_CHANGE;
    assert LEADING_FULL in THREE_DUMPS && BEFORE_FULL in THREE_DUMPS;
    assert Before(BEFORE_FULL, LEADING_FULL);
  }

  lemma ThreeDumpsStart()
    ensures ReplayStart(THREE_DUMPS, PreviousToFullIncremental(THREE_DUMPS, LEADING_FULL), 0, 0)
  {
    ThreeDumpsChoice();
  }

  /** The catch-up repairs this snapshot that runs ahead of the first incremental it replays. */
  lemma LeadingSnapshotRepaired()
    ensures WellFormed(THREE_DUMPS) && Replay(Remaining(THREE_DUMPS, None)) == Changing(20)
  {
    ThreeDumpsFaithful();
    ThreeDumpsChoice();
    ThreeDumpsStart();
    FullIsBetween();
    ReindexConverges(THREE_DUMPS, Changing, 0, LEADING_FULL, 0, AFTER_CHANGE);
  }
}
