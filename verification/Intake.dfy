/** Taking Alma's job messages from the queue: repeated deliveries, unrelated jobs, and crashes anywhere in
    between (app/services/aws_sqs_poller.rb, app/models/event.rb). */
module Intake {
  import opened Wrappers

  /** A parsed message. Its JSON text is determined by its fields, so equal texts are equal messages. */
  datatype Message = Message(
    jobName: string, instanceId: string, start: string, finish: string, status: string, rest: string)

  /** The rows written; an id is a position in its table. */
  datatype Event = Event(messageBody: Message, almaJobStatus: string)
  datatype Dump = Dump(eventId: nat, dumpType: string, generatedDate: string)
  datatype ImportJob = ImportJob(dumpId: nat, instanceId: string)

  datatype State = State(events: seq<Event>, dumps: seq<Dump>, jobs: seq<ImportJob>)

  const EMPTY := State([], [], [])

  /** The last thing written before the process dies, if it dies; an unfinished message is delivered again. */
  datatype Crash = NoCrash | BeforeEvent | AfterEvent | AfterDump

  datatype Delivery = Delivery(message: Message, crash: Crash)

  /** The configured Alma jobs with their dump types. */
  type Config = map<string, string>

  predicate Known(s: State, m: Message) {
    exists e :: 0 <= e < |s.events| && s.events[e].messageBody == m
  }

  function Deliver(s: State, config: Config, d: Delivery): State {
    var m := d.message;
    if m.jobName !in config || d.crash == BeforeEvent || Known(s, m) then s
    else
      var withEvent := s.(events := s.events + [Event(m, m.status)]);
      if d.crash == AfterEvent then withEvent
      else
        var withDump := withEvent.(dumps := s.dumps + [Dump(|s.events|, config[m.jobName], m.start)]);
        if d.crash == AfterDump then withDump
          else withDump.(jobs := s.jobs + [ImportJob(|s.dumps|, m.instanceId)])
  }

  /** A message of a configured job that no event has yet, delivered without a crash, adds one row to each
      table: the dump with the job's dump type and the message's start time, the job with the dump's id and
      the instance's. */
  lemma NewMessageDelivered(s: State, config: Config, m: Message)
    requires m.jobName in config && forall e :: e in s.events ==> e.messageBody != m
    ensures Deliver(s, config, Delivery(m, NoCrash)) == State(
              s.events + [Event(m, m.status)],
              s.dumps + [Dump(|s.events|, config[m.jobName], m.start)],
              s.jobs + [ImportJob(|s.dumps|, m.instanceId)])
  {
  }

  /** One that an event has already, or of another job, adds nothing, crash or not. */
  lemma OtherMessagesAddNothing(s: State, config: Config, m: Message, crash: Crash)
    requires m.jobName !in config || exists e :: e in s.events && e.messageBody == m
    ensures Deliver(s, config, Delivery(m, crash)) == s
  {
  }

  function DeliverAll(s: State, config: Config, ds: seq<Delivery>): State
    decreases |ds|
  {
    if ds == [] then s else Deliver(DeliverAll(s, config, ds[..|ds| - 1]), config, ds[|ds| - 1])
  }

  // ----- the poller

  class Database {
    var events: seq<Event>
    var dumps: seq<Dump>
    var jobs: seq<ImportJob>

    constructor ()
      ensures Rows() == EMPTY
    {
      events, dumps, jobs := [], [], [];
    }

    function Rows(): State
      reads this
    {
      State(events, dumps, jobs)
    }

    /** `Event.create!`, refused when the message body is there already. */
    method CreateEvent(m: Message, status: string) returns (id: Option<nat>)
      modifies `events
      ensures id.None? <==> Known(old(Rows()), m)
      ensures id.None? ==> events == old(events)
      ensures id.Some? ==> id.value == |old(events)| && events == old(events) + [Event(m, status)]
    {
      for e := 0 to |events|
        invariant forall k :: 0 <= k < e ==> events[k].messageBody != m
      {
        if events[e].messageBody == m { return None; }
      }
      id := Some(|events|);
      events := events + [Event(m, status)];
    }
  }

  /** How far building a dump got. */
  datatype Built = Died | Duplicate | Made(dumpId: nat)

  class AlmaDumpFactory {
    const database: Database
    const config: Config
    const message: Message
    /** The memo `@event`. */
    var event: Option<nat>

    constructor (database: Database, config: Config, message: Message)
      ensures this.database == database && this.config == config && this.message == message && event.None?
    {
      this.database, this.config, this.message, event := database, config, message, None;
    }

    /** None is the duplicate error. A second call finds the memo; without it, it would find its own event. */
    method DumpEvent() returns (id: Option<nat>)
      modifies `event, database`events
      ensures old(event).Some? ==> id == old(event) == event && database.events == old(database.events)
      ensures old(event).None? ==> id == event && (id.None? <==> Known(old(database.Rows()), message))
      ensures old(event).None? && id.Some? ==>
                && id.value == |old(database.events)|
                && database.events == old(database.events) + [Event(message, message.status)]
      ensures old(event).None? && id.None? ==> database.events == old(database.events)
    {
      if event.None? {
        event := database.CreateEvent(message, message.status);
      }
      id := event;
    }

    method BibDump(crash: Crash) returns (built: Built)
      requires message.jobName in config && event.None? && crash != BeforeEvent
      modifies `event, database`events, database`dumps
      ensures Known(old(database.Rows()), message) ==>
              built == Duplicate && database.Rows() == old(database.Rows())
      ensures !Known(old(database.Rows()), message) ==>
                && database.Rows() ==
                   Deliver(old(database.Rows()), config,
                           Delivery(message, if crash == AfterEvent then crash else AfterDump))
                && built == if crash == AfterEvent then Died else Made(|old(database.dumps)|)
    {
      var dumpType := config[message.jobName];
      var first := DumpEvent();
      if first.None? { return Duplicate; }
      var second := DumpEvent();
      assert second == first;
      if crash == AfterEvent { return Died; }
      built := Made(|database.dumps|);
      database.dumps := database.dumps + [Dump(first.value, dumpType, message.start)];
    }
  }

  /** The block that `AwsSqsPoller.poll` runs for one message. */
  method HandleMessage(database: Database, config: Config, d: Delivery)
    modifies database
    ensures database.Rows() == Deliver(old(database.Rows()), config, d)
  {
    if d.message.jobName !in config || d.crash == BeforeEvent { return; }
    var factory := new AlmaDumpFactory(database, config, d.message);
    var built := factory.BibDump(d.crash);
    if built.Made? && d.crash != AfterDump {
      database.jobs := database.jobs + [ImportJob(built.dumpId, d.message.instanceId)];
    }
  }

  /** Polling until the process is told to stop or the queue has nothing more. */
  method Poll(
    database: Database, config: Config, incoming: seq<Delivery>, endPolling: nat -> bool)
    returns (handled: nat)
    modifies database
    ensures handled <= |incoming| && (handled < |incoming| ==> endPolling(handled))
    ensures database.Rows() == DeliverAll(old(database.Rows()), config, incoming[..handled])
  {
    handled := 0;
    while handled < |incoming| && !endPolling(handled)
      invariant handled <= |incoming|
      invariant database.Rows() == DeliverAll(old(database.Rows()), config, incoming[..handled])
    {
      HandleMessage(database, config, incoming[handled]);
      assert incoming[..handled + 1][..handled] == incoming[..handled];
      handled := handled + 1;
    }
  }

  // ----- at most one of each

  ghost predicate EventsFit(s: State, config: Config) {
    && (forall i, j :: 0 <= i < j < |s.events| ==> s.events[i].messageBody != s.events[j].messageBody)
    && (forall e :: 0 <= e < |s.events| ==> s.events[e].messageBody.jobName in config)
  }

  ghost predicate DumpsFit(s: State, config: Config) {
    && (forall i, j :: 0 <= i < j < |s.dumps| ==> s.dumps[i].eventId != s.dumps[j].eventId)
    && (forall d :: 0 <= d < |s.dumps| ==> DumpFits(s, config, s.dumps[d]))
  }

  ghost predicate JobsFit(s: State) {
    && (forall i, j :: 0 <= i < j < |s.jobs| ==> s.jobs[i].dumpId != s.jobs[j].dumpId)
    && (forall j :: 0 <= j < |s.jobs| ==> JobFits(s, s.jobs[j]))
  }

  /** Every row refers to an earlier one of its message, and no two rows to the same one. */
  ghost predicate Consistent(s: State, config: Config) {
    EventsFit(s, config) && DumpsFit(s, config) && JobsFit(s)
  }

  predicate DumpFits(s: State, config: Config, d: Dump) {
    && d.eventId < |s.events|
    && var m := s.events[d.eventId].messageBody;
       m.jobName in config && d.dumpType == config[m.jobName] && d.generatedDate == m.start
  }

  predicate JobFits(s: State, j: ImportJob) {
    && j.dumpId < |s.dumps| && s.dumps[j.dumpId].eventId < |s.events|
    && j.instanceId == s.events[s.dumps[j.dumpId].eventId].messageBody.instanceId
  }

  lemma DeliverDumps(s: State, config: Config, d: Delivery)
    requires DumpsFit(s, config)
    ensures DumpsFit(Deliver(s, config, d), config)
  {
    var t := Deliver(s, config, d);
    assert forall x :: DumpFits(s, config, x) ==> DumpFits(t, config, x);
  }

  lemma DeliverJobs(s: State, config: Config, d: Delivery)
    requires JobsFit(s)
    ensures JobsFit(Deliver(s, config, d))
  {
    var t := Deliver(s, config, d);
    assert forall x :: JobFits(s, x) ==> JobFits(t, x);
  }

  lemma DeliverConsistent(s: State, config: Config, d: Delivery)
    requires Consistent(s, config)
    ensures Consistent(Deliver(s, config, d), config)
  {
    DeliverDumps(s, config, d);
    DeliverJobs(s, config, d);
  }

  /** Over every sequence of deliveries each message has at most one event, one dump and one import job, all
      its own. */
  lemma {:induction false} AtMostOneOfEach(s: State, config: Config, ds: seq<Delivery>)
    requires Consistent(s, config)
    ensures Consistent(DeliverAll(s, config, ds), config)
    decreases |ds|
  {
    if ds != [] {
      AtMostOneOfEach(s, config, ds[..|ds| - 1]);
      DeliverConsistent(DeliverAll(s, config, ds[..|ds| - 1]), config, ds[|ds| - 1]);
    }
  }

  // ----- when there is exactly one of each

  /** The message has its event, that event its dump, that dump its job. */
  predicate Imported(s: State, m: Message) {
    exists j :: 0 <= j < |s.jobs| && JobOf(s, s.jobs[j], m)
  }

  predicate JobOf(s: State, j: ImportJob, m: Message) {
    && j.dumpId < |s.dumps| && s.dumps[j.dumpId].eventId < |s.events|
    && s.events[s.dumps[j.dumpId].eventId].messageBody == m
  }

  /** How the first delivery of the message that got as far as the event went. */
  function FirstEffective(config: Config, ds: seq<Delivery>, m: Message): Option<Crash>
    decreases |ds|
  {
    if ds == [] then None
    else
      var before, last := FirstEffective(config, ds[..|ds| - 1], m), ds[|ds| - 1];
      if before.Some? then before
      else if last.message == m && m.jobName in config && last.crash != BeforeEvent then Some(last.crash)
      else None
  }

  lemma DeliverKnown(s: State, config: Config, d: Delivery, m: Message)
    ensures Known(Deliver(s, config, d), m) <==>
            Known(s, m) || (d.message == m && m.jobName in config && d.crash != BeforeEvent)
  {
    var t := Deliver(s, config, d);
    if e :| 0 <= e < |s.events| && s.events[e].messageBody == m {
      assert t.events[e].messageBody == m;
    } else if d.message == m && m.jobName in config && d.crash != BeforeEvent {
      assert t.events[|s.events|].messageBody == m;
    }
  }

  lemma DeliverImported(s: State, config: Config, d: Delivery, m: Message)
    requires Consistent(s, config)
    ensures Imported(Deliver(s, config, d), m) <==>
            Imported(s, m) || (!Known(s, m) && d == Delivery(m, NoCrash) && m.jobName in config)
  {
    var t := Deliver(s, config, d);
    assert forall j :: 0 <= j < |s.jobs| ==> JobFits(s, s.jobs[j]) && t.jobs[j] == s.jobs[j];
    assert forall j :: 0 <= j < |s.jobs| ==> (JobOf(t, s.jobs[j], m) <==> JobOf(s, s.jobs[j], m));
    if |t.jobs| > |s.jobs| {
      assert JobOf(t, t.jobs[|s.jobs|], m) <==> d.message == m;
    }
  }

  /** A message that was not imported before ends with its event, dump and job exactly when the first delivery
      to create the event ran to its end: later deliveries of the same message are refused as duplicates. */
  lemma {:induction false} ImportedIffFirstFinished(s: State, config: Config, ds: seq<Delivery>, m: Message)
    requires Consistent(s, config) && !Known(s, m)
    ensures Known(DeliverAll(s, config, ds), m) <==> FirstEffective(config, ds, m).Some?
    ensures Imported(DeliverAll(s, config, ds), m) <==> FirstEffective(config, ds, m) == Some(NoCrash)
    decreases |ds|
  {
    if ds != [] {
      var init, last := ds[..|ds| - 1], ds[|ds| - 1];
      ImportedIffFirstFinished(s, config, init, m);
      AtMostOneOfEach(s, config, init);
      DeliverKnown(DeliverAll(s, config, init), config, last, m);
      DeliverImported(DeliverAll(s, config, init), config, last, m);
    }
  }

  /** A crash between event and dump is not made good by any later delivery. */
  lemma CrashAfterEventIsFinal(config: Config, m: Message, later: seq<Delivery>)
    requires m.jobName in config
    ensures !Imported(DeliverAll(EMPTY, config, [Delivery(m, AfterEvent)] + later), m)
  {
    ImportedIffFirstFinished(EMPTY, config, [Delivery(m, AfterEvent)] + later, m);
    FirstStays(config, [Delivery(m, AfterEvent)], later, m);
    assert [Delivery(m, AfterEvent)][..0] == [];
  }

  lemma {:induction false} FirstStays(config: Config, ds: seq<Delivery>, later: seq<Delivery>, m: Message)
    requires FirstEffective(config, ds, m).Some?
    ensures FirstEffective(config, ds + later, m) == FirstEffective(config, ds, m)
    decreases |later|
  {
    if later == [] {
      assert ds + later == ds;
    } else {
      assert (ds + later)[..|ds + later| - 1] == ds + later[..|later| - 1];
      FirstStays(config, ds, later[..|later| - 1], m);
    }
  }
}
