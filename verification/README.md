# Bibdata: verified models of indexing, holdings and field algorithms

Bibdata takes catalogue dumps from Alma, turns MARC records into Solr documents and keeps a Solr collection up to date.
This project models the parts of it that carry state or delicate order, and proves what they promise. The command
`dafny verify dfyconfig.toml` covers the whole of it.

## The catch-up protocol

`SolrIndex` is Solr as a map from id to document. A traject run sends its live records in batches and then, after its
writer is closed, deletes the records whose Leader/05 is `d`. `FileJobs` runs the jobs of one dump side by side: requests
of one phase in any order, phases in turn, jobs interleaved at will, crashes at any time that send a job back to its first
record.
The dump's outcome is independent of all that exactly when no two final writes to an id differ (`ConfluentIffAgree`);
dumps whose files have no id in common, and whose runs add no id twice, meet this (`DumpConfluence`).

`DumpSelection` holds the four selectors of `IndexManager` and the order they give a whole run, stated independently of
them (`RemainingIsReindexOrder`). With equal start times the chain of queries does not end, and that is the only case
(`ChainEndsIffNoTie`). `CatchUp` is the transition system: triggers, arriving dumps, file job steps, crashes and the two
success callbacks. `CatchUpOrder` proves what every run batches, whatever dumps arrive meanwhile and in whatever order,
and what Solr then holds; `CatchUpTermination` that every run ends, arrivals or not, and when it ends with a dump still to
take; `Convergence` that a catch-up repairs a full dump that lags behind or runs ahead of the first incrementals it
replays, so that Solr ends equal to the source, save for records of incrementals that came too late
(`CaughtUpEqualsSource`, `LastCarrierDecides`, `ReindexEndsAtSource`). `IndexManagers` has the classes with their
saved fields, memo and callbacks; each of their methods is shown to take exactly one step of the transition system.
`SolrDeleters` is the slicing deleter with its one retry, and a file job run against a server that acknowledges
everything.

## Writer, holdings and fields

`SolrSending` is the sending of batches as a transition system: threads take batches in any order, and their single
requests, the counting of skipped documents and the comparisons with the skip limit interleave in any way. `SolrWriter`
is the batching writer with its queue and pool; its methods are shown to take steps of that system.
`HoldingsAssembly` builds `holdings_1display` in place from the 852, 876 and 866-868 fields, with the aliasing of the
program; `HoldingsSpec` is its specification, `HoldingsTheorems` says what each key holds, `HoldingsTextual` which
textual fields a holding gets, `HoldingsConservation` when exactly no item is lost or doubled, and `HoldingsExample` spells
out one record, subfield by subfield. `Headings`, `NameTitles`, `Links`, `Languages`, `CallNumbers`, `Intake` and `Grouping`
each model one smaller algorithm. `RubyValues`, `MarcFields` and `Wrappers` hold what they share.

## Where the code differs from what is said about it

- A heading does not always split back into its runs: it does exactly when no value contains an em dash and the heading
  does not end with an empty run, because `split` drops empty pieces at the end (`Headings.HeadingRoundTrip`,
  `Headings.DashInValueSplits`, `Headings.EmptyLastRunDropped`).
- `force_number_part_to_have_4_digits` says it turns `A53.blah` into `A0053.blah`; it makes `A.0053.blah`
  (`CallNumbers.DotBeforeNumber`). A call number with nothing but dots or commas behind its number is not padded at all
  and sorts after padded ones (`CallNumbers.UnpaddedSortsLast`).
- `process_names` removes its suffix with `chomp`, which drops newlines when there is no suffix, and removes nothing when
  every chosen value comes after the title (`NameTitles.NameIsKeptValues`, `NameTitles.NewlineChomped`,
  `NameTitles.ValueAfterTitleIsName`).
- An incremental that arrives when a later one has been batched already is not taken up by that reindex, nor by a later
  `index_remaining!` (`CatchUpOrder.LateIncrementalMissed`). The order is that of a reindex over the whole table exactly
  in the cases of `CatchUpOrder.ReindexOrderIffUndisturbed`; a record is wrong in the end only if the last incremental
  that carries it was late (`Convergence.LastCarrierDecides`).
- A dump that arrives after the last batch and before `indexed_remaining` waits in the table: the manager ends idle
  although there is a next dump. A run ends so exactly when such a dump was left waiting
  (`CatchUpTermination.CatchUpEnds`).
- Of several 856 links with the same holding id only the last survives, and a link with neither a holding id nor a
  well-formed url is written nowhere. No link is lost exactly when there are no links of the second kind and no two links
  of one place differ (`Links.NoLinkLostIffNoConflict`).
- A slice of deletions whose first request is not acknowledged and whose retry times out is not reported; if a request
  that timed out has changed nothing, it is not deleted either. Any other exception, such as a refused connection, ends
  the deletion with its slice and all later ones neither deleted nor reported. Every slice is deleted or reported exactly
  when each is acknowledged at once, or its first request raises nothing but a timeout and its retry has a status
  (`SolrDeleters.NothingLostIffRetriesAnswered`).
- A crash between the event and its import job is not made good by a later delivery of the same message
  (`Intake.CrashAfterEventIsFinal`).
- Two 852 fields with the same holding id take each of their items twice, and an 852 without items overwrites what is
  under its id, which can only be items whose location code is that id. Items are neither lost nor doubled exactly when
  the two balance (`HoldingsConservation.ConservedIffSurplusIsOverwritten`); for ids without a dollar sign, exactly when
  no id with items that have a current location is repeated (`HoldingsConservation.ConservedIffNoneLocatedTwice`).
- `LanguageExtractor` tests subfield codes against the string `a d`, so the value of a blank code is read as a language.
  Only $a and $d are read exactly when no 041 that is read has one (`Languages.OnlyAAndDReadIffNoBlank`).

## Assumptions

- Solr applies exactly the requests it acknowledges, each as a whole.
- Traject closes its writer before `after_processing`; each dump file entry is one traject process with its own set of
  deleted ids.
- A Sidekiq batch succeeds when all its jobs have, at once if it has none; the overall batch waits for the batches and
  callbacks opened inside it. A failed job is tried again from its start. Each callback is one step, never repeated
  after it has taken effect in part.
- A traject process that fails logs FATAL; one that ends otherwise is taken for a success
  (app/services/alma/indexer.rb:12) and is not part of this model.
- `index_remaining!` and the `RemainingDumpsJob` that it enqueues are one step, and `index_next_dump!` is reached only
  through them and the callbacks.
- Start times are whole seconds. Dump ids are unique and incrementals have distinct start times, except in the lemmas
  about ties. The files of a dump are there when the dump is.
- Subfield codes are single characters.
- The location tables, `trim_punctuation`, the ISO 639-3 table, Solr's replies, crashes and the interleaving of the
  threads are arbitrary parameters.

## Model

| member | source | states |
|---|---|---|
| SolrIndex.DeletedIds | marc_to_solr/lib/traject_config.rb:58-68 | the shared set holds exactly the ids of the records marked deleted, each once |
| SolrIndex.RunPatchMeaning | marc_to_solr/lib/traject_config.rb:58-87 | a deletion wins over every live record of the run with the same id; otherwise the last live record of that id does; other ids are not touched |
| SolrIndex.RunPhasesPatch | marc_to_solr/lib/traject_config.rb:75-87 | batches of adds followed by slices of deletes, sent in order, mean what the records of the run mean |
| SolrIndex.RequestSizes | marc_to_solr/lib/solr_deleter.rb:20 | the deletions of a run go in slices of a hundred ids, the last perhaps smaller, after its adds |
| SolrIndex.FileJobPatch | app/services/alma/indexer/dump_file_indexer.rb:11-15 | the requests of a whole file, taken in order, mean what its runs mean one after another |
| FileJobs.StepInvariant | app/jobs/index/dump_file_job.rb:5-8 | no step of any file job, crash included, leaves an id with a value that is neither its old one nor one that an outstanding or final write explains |
| FileJobs.CrashPossible | app/jobs/index/dump_file_job.rb:5-8 | whatever a job has sent, a crash is possible: Solr keeps what it has, the job starts over with nothing sent, the others go on |
| FileJobs.CrashesPossible | app/jobs/index/dump_file_job.rb:5-8 | every schedule may go on with crashes of any jobs, finished ones included |
| FileJobs.RestartsComplete | app/jobs/index/dump_file_job.rb:5-8 | every schedule so far, with any crashes after it, is the beginning of a complete one without further crashes |
| FileJobs.FinishedSettled | app/jobs/index/dump_file_job.rb:5-8 | when all jobs have finished, every id that some file writes holds one of the final writes to it, every other id its old value |
| FileJobs.FinishedIsReplay | app/models/index_manager.rb:33-44 | if the final writes agree, a finished dump equals sending its files one after another |
| FileJobs.Confluence | app/models/index_manager.rb:33-68 | every complete schedule of the file jobs, restarts included, ends with the same Solr map |
| FileJobs.CandidateReached | app/jobs/index/dump_file_job.rb:5-8 | every final write of every file is the outcome of some complete schedule |
| FileJobs.ConfluentIffAgree | app/models/index_manager.rb:33-68 | the outcome is independent of scheduling and restarts if and only if no two final writes to an id differ |
| FileJobs.SeparateIdsAgree | marc_to_solr/lib/traject_config.rb:58-87 | ids that are disjoint across files and added once per run make the final writes agree, also when a run both adds and deletes an id |
| FileJobs.DumpConfluence | app/models/index_manager.rb:33-68 | for such dumps any interleaving with any restarts equals reading the files in turn, each run adding and then deleting |
| DumpSelection.RecentFullDump | app/models/index_manager.rb:81-83 | a full dump with the latest start, none only if there is none |
| DumpSelection.FirstIncremental | app/models/index_manager.rb:85-87 | an incremental with the earliest start, none only if there is none |
| DumpSelection.PreviousToFullIncremental | app/models/index_manager.rb:89-91 | the latest incremental that starts strictly before the last completed dump |
| DumpSelection.IncrementalFrom | app/models/index_manager.rb:94 | the earliest incremental, other than the last completed dump, that starts no earlier than it |
| DumpSelection.NextDumpAgain | app/models/index_manager.rb:46-61 | saving the skipped-to position and asking again, as `index_remaining!` and its job do, gives the same dump |
| DumpSelection.RemainingFrom | app/models/index_manager.rb:93-100 | repeated queries take exactly the non-empty later incrementals, oldest first, each once |
| DumpSelection.RemainingAfterFull | app/models/index_manager.rb:70-100 | after a full dump: the incremental just before it if there is one, empty or not, then every non-empty later one |
| DumpSelection.RemainingIsReindexOrder | app/models/index_manager.rb:70-100 | the order of a whole reindex, with or without a full dump |
| DumpSelection.ChainEndsIffNoTie | app/models/index_manager.rb:93-100 | the chain of queries ends if and only if no two incrementals at or after the position start in the same second |
| DumpSelection.TiedIncrementalsPingPong | app/models/index_manager.rb:93-100 | two incrementals with one start time send the query back and forth for ever |
| CatchUp.StartCatchUpOpensNext | app/models/index_manager.rb:46-61 | starting an idle manager opens exactly the batch that `index_next_dump!` computes from the saved row, inside a new overall batch |
| CatchUp.ParentDecides | app/models/index_manager.rb:33-123 | a batch has a parent if and only if it is opened inside an overall batch; its success goes on with the next dump if it has one, and ends the catch-up if it has none |
| CatchUp.StepKeepsInvariant | app/models/index_manager.rb:33-131 | every trigger, arrival, file job step and callback keeps the manager's invariant |
| CatchUp.ManagerInvariant | app/models/index_manager.rb:33-131 | in every reachable state a dump in progress means in progress and exactly one open batch, for that dump; not in progress means no open batch; the last completed dump finished or was empty |
| CatchUp.FreshManagerInvariant | app/models/index_manager.rb:5-131 | a manager that has just been created starts with that invariant, so it holds in every state it can reach |
| CatchUpOrder.NextIncrementalMeaning | app/models/index_manager.rb:93-100 | with its skipping of empty dumps, `next_incremental` finds the earliest non-empty dump of its query, and nothing only if there is none |
| CatchUpOrder.TrackArrive | app/models/index_manager.rb:70-100 | a dump of any kind that arrives at any time keeps the order: a late incremental is left out for good, any other is still ahead or changes nothing |
| CatchUpOrder.TrackNext | app/models/index_manager.rb:70-100 | the dump that the selectors choose next extends the order: nothing that was not late is skipped and nothing is taken twice |
| CatchUpOrder.StepKeepsTrack | app/models/index_manager.rb:33-131 | every step, arrivals in any order included, keeps what was batched on track |
| CatchUpOrder.CaughtUpOrder | app/models/index_manager.rb:10-131 | whatever arrives during a reindex: once caught up, the batches opened since are the opening dumps as chosen at the time, then exactly the later non-empty incrementals that were not late, oldest first, each once |
| CatchUpOrder.ReindexOrderIffUndisturbed | app/models/index_manager.rb:70-100 | that is the order of a reindex over the whole final table if and only if no newer full dump, no better incremental to open with and no late one with files arrived |
| CatchUpOrder.LateIncrementalMissed | app/models/index_manager.rb:93-100 | a concrete run that is caught up without an incremental with files that arrived late |
| CatchUpOrder.StepKeepsSolr | app/models/index_manager.rb:33-131 | Solr is always the replay of the finished dumps or on its way from there to the next one |
| CatchUpOrder.CaughtUpSolr | app/models/index_manager.rb:10-131 | whenever a reindexed manager is caught up, Solr holds what reading those dumps one by one gives, whatever arrived meanwhile |
| CatchUpTermination.StepWork | app/models/index_manager.rb:33-131 | each request, phase and callback uses up one unit of work; a crash gives back no more than its file, and the overall callback drops what is left to index, if anything is |
| CatchUpTermination.ArrivalWork | app/models/index_manager.rb:70-100 | a dump that arrives adds no more than its own work to what remains after the last dump |
| CatchUpTermination.TriggerChangesNothing | app/models/index_manager.rb:10-61 | `index_remaining!` and `reindex!` are refused while in progress, and `index_remaining!` does nothing when no dump is left |
| CatchUpTermination.RunLength | app/models/index_manager.rb:10-131 | every run whatever, with crashes, arrivals and triggers in it, takes no more steps than its work plus what crashes give back, arrivals bring and triggers of an idle manager start |
| CatchUpTermination.ExactRunLength | app/models/index_manager.rb:33-131 | over a fixed table, without crashes and with refused triggers, a run takes exactly as many steps as the work it does |
| CatchUpTermination.InProgressCanStep | app/models/index_manager.rb:33-131 | a manager in progress is never stuck |
| CatchUpTermination.NextIffTakeable | app/models/index_manager.rb:70-100 | there is a next dump if and only if the table has one that may follow the last completed one |
| CatchUpTermination.CatchUpEnds | app/models/index_manager.rb:10-131 | every run whatever is bounded in this way; where it stops the manager is idle and nothing is open, and something is left to index if and only if a dump that may follow arrived when no batch was open and no trigger came after it |
| CatchUpTermination.ArrivalBeforeCallbackWaits | app/models/index_manager.rb:103-131 | a dump that may follow and arrives between the last batch and `indexed_remaining` is left with an idle manager |
| CatchUpTermination.RunToEnd | app/models/index_manager.rb:33-131 | from every state of the protocol an idle manager can be reached without a crash, with nothing left to index unless a dump waits |
| CatchUpTermination.RunToCaughtUp | app/models/index_manager.rb:46-131 | after one more `index_remaining!` an end with nothing left can be reached |
| CatchUpTermination.StartedIsDrained | app/models/index_manager.rb:10-61 | what `index_remaining!` and `reindex!` start on an idle manager leaves no dump waiting |
| Convergence.IncrementalNarrows | app/models/index_manager.rb:89-100 | replaying an incremental makes every document no older than the start of that incremental |
| Convergence.RemainingConverges | app/models/index_manager.rb:93-100 | replaying all that remains brings every document up to the last incremental |
| Convergence.FullConverges | app/models/index_manager.rb:70-100 | from a full dump whose documents were each read at some moment between the incremental before the one it goes back to and the last incremental, the replay equals the source at the last incremental |
| Convergence.ReindexConverges | app/models/index_manager.rb:70-100 | in particular for the order that the selectors give over a fixed table |
| Convergence.ReindexWithoutFullConverges | app/models/index_manager.rb:70-100 | without a full dump the same holds if the source was empty before the first incremental |
| Convergence.CoveredReplay | app/models/index_manager.rb:33-100 | replaying some of the dumps gives a record the value that replaying all gives it, if each one left out that carries the record is followed by one taken up that does |
| Convergence.CaughtUpEqualsSource | app/models/index_manager.rb:10-131 | whenever a reindexed manager is caught up, whatever interleaving, crashes, triggers and arrivals, in order or not, there were, and whether it began with a full dump or from an empty source with an incremental, Solr agrees with the source at the last incremental on every record, unless a late incremental carries it and no later one that was taken up does |
| Convergence.AgreesEverywhere | app/models/index_manager.rb:10-131 | in particular Solr equals the source when there is no such record |
| Convergence.LastCarrierDecides | app/models/index_manager.rb:10-131 | a record that incrementals carry is right if and only if it is as the last of them has it, and so it is whenever that one was not late |
| Convergence.ReindexEndsAtSource | app/models/index_manager.rb:10-131 | total correctness over a fixed table: every run of a reindex, with refused triggers in between, is bounded, and wherever one stops Solr equals the source at the last incremental |
| Convergence.ReindexWithArrivalsEndsAtSource | app/models/index_manager.rb:10-131 | the same while dumps arrive: every run is bounded, and wherever one stops with no dump left waiting Solr agrees with the source on every record that no late incremental decides |
| Convergence.LeadingSnapshotRepaired | app/models/index_manager.rb:70-100 | a concrete history and three dumps that meet the conditions, with a full dump that runs ahead and is repaired |
| IndexManagers.IndexManager.SelectNextIncremental | app/models/index_manager.rb:93-100 | the recursion that skips empty dumps and moves `last_dump_completed` along ends, with the specified dump and position |
| IndexManagers.IndexManager.SelectNextDump | app/models/index_manager.rb:70-79 | the memoized choice, and that a memo is returned without moving the position |
| IndexManagers.IndexManager.GenerateBatch | app/models/index_manager.rb:39-68 | one fresh job for each file, in a batch that is inside the overall one if there is one |
| IndexManagers.IndexManager.IndexNextDump | app/models/index_manager.rb:33-44 | takes exactly the step of the transition system, from a loaded row or from a memo |
| IndexManagers.IndexManager.IndexRemaining | app/models/index_manager.rb:46-61 | takes exactly the step of the transition system, guard and saved position included |
| IndexManagers.IndexManager.PerformRemainingDumps | app/jobs/index/remaining_dumps_job.rb:5-12 | the first batch of a catch-up, or none |
| IndexManagers.IndexManager.ReindexAll | app/models/index_manager.rb:10-20 | refused while in progress; otherwise forgets the position, wipes Solr and starts |
| IndexManagers.IndexManager.OnSuccess | app/models/index_manager.rb:104-123 | advances the position and opens the next batch, or ends a batch that has no parent |
| IndexManagers.IndexManager.IndexedRemaining | app/models/index_manager.rb:125-131 | the manager is idle again |
| SolrDeleters.SolrDeleter.DeleteBatch | marc_to_solr/lib/solr_deleter.rb:63-77 | what one slice comes to for the documents, the reports, the exception and the number of requests |
| SolrDeleters.SolrDeleter.Delete | marc_to_solr/lib/solr_deleter.rb:20-24 | the slices one after another, up to an exception, have exactly the specified outcome |
| SolrDeleters.SliceByStatus | marc_to_solr/lib/solr_deleter.rb:57-77 | what the first reply and that to the retry, 200, another status, a timeout or another exception, make of a slice, and with which request the next slice goes on |
| SolrDeleters.DeletedIffStatus200 | marc_to_solr/lib/solr_deleter.rb:57-77 | a slice is deleted if and only if its first reply is 200, or its first request raises nothing but a timeout and the reply to its retry is 200; reported if and only if that reply has another status; one request if and only if the first is answered 200 or raises |
| SolrDeleters.StatusExamples | marc_to_solr/lib/solr_deleter.rb:57-77 | 200 at once deletes with one request; 500 twice reports |
| SolrDeleters.EverySliceAccounted | marc_to_solr/lib/solr_deleter.rb:20-77 | each slice is exactly one of deleted, reported, unacknowledged with a retry that timed out, or left undone by another exception |
| SolrDeleters.UndoneIsTail | marc_to_solr/lib/solr_deleter.rb:20-77 | an exception leaves undone exactly the slices from the one that raised it on; that one and those before took one or two requests, the others none |
| SolrDeleters.RaisesIffBroken | marc_to_solr/lib/solr_deleter.rb:28-72 | the deletion raises if and only if some first request, or retry of an unacknowledged one, raises something other than a timeout |
| SolrDeleters.NothingLostIffRetriesAnswered | marc_to_solr/lib/solr_deleter.rb:42-77 | every slice is deleted or reported if and only if each is acknowledged at once, or its first request raises nothing but a timeout and its retry has a status |
| SolrDeleters.TimeoutsLoseASlice | marc_to_solr/lib/solr_deleter.rb:42-77 | a concrete slice that is neither, after two timeouts |
| SolrDeleters.BrokenRequestEndsDeletion | marc_to_solr/lib/solr_deleter.rb:28-45 | a concrete deletion whose first request is refused a connection: no retry, and no request for the slice after it |
| SolrDeleters.AllDeletedIffRetriesWork | marc_to_solr/lib/solr_deleter.rb:63-77 | every slice is deleted if and only if each is acknowledged at once, or its first request raises nothing but a timeout and its retry is acknowledged; then nothing is reported and nothing raised |
| SolrDeleters.OneRetryIsEnough | marc_to_solr/lib/solr_deleter.rb:70-72 | in particular if every request that is not acknowledged raises nothing but a timeout and is followed by one that is, wherever the slices fall |
| SolrDeleters.PerformRun | marc_to_solr/lib/traject_config.rb:58-87 | one traject run against an acknowledging server changes the index as its records say |
| SolrDeleters.PerformFile | app/jobs/index/dump_file_job.rb:5-8 | an uninterrupted file job changes the index as the runs of the file say, in order |
| SolrSending.CutIsSlices | marc_to_solr/lib/pul_solr_json_writer.rb:109-117 | there is only one way to cut documents into full batches and one shorter last one |
| SolrSending.StepFair | marc_to_solr/lib/pul_solr_json_writer.rb:122-181 | every step of every thread, between any two steps of others, keeps each document handed over in exactly one place, every skipped document counted, and no more raised than the limit explains |
| SolrSending.RunFair | marc_to_solr/lib/pul_solr_json_writer.rb:109-220 | so does every run of the pool |
| SolrSending.BatchAlone | marc_to_solr/lib/pul_solr_json_writer.rb:122-181 | `send_batch` without threads is the pool with one thread working alone: same requests, same outcome |
| SolrSending.EveryDocumentAccounted | marc_to_solr/lib/pul_solr_json_writer.rb:122-181 | however the requests interleave, if nothing was raised each document handed over is exactly one of accepted, skipped or unencodable |
| SolrSending.RaisedMeansTooManyBad | marc_to_solr/lib/pul_solr_json_writer.rb:171-174 | whatever has been raised at any time has been raised because more documents are bad than may be skipped |
| SolrSending.StepWorks | marc_to_solr/lib/pul_solr_json_writer.rb:122-181 | every step of a thread uses up work, so the pool always comes to an end |
| SolrSending.UnfinishedCanStep | marc_to_solr/lib/pul_solr_json_writer.rb:209 | and as long as a batch or a thread has work left some thread can take a step |
| SolrSending.OneBadDocumentCostsItself | marc_to_solr/lib/pul_solr_json_writer.rb:122-181 | if Solr judges each document by itself, a run that has finished raised if and only if more encodable documents are bad than may be skipped; otherwise exactly the good ones are accepted and the bad ones skipped and counted |
| SolrWriter.PulSolrJsonWriter.constructor | marc_to_solr/lib/pul_solr_json_writer.rb:70-105 | a batch size below one means one, a negative limit means none |
| SolrWriter.PulSolrJsonWriter.PostSingle | marc_to_solr/lib/pul_solr_json_writer.rb:153-181 | the outcome, the skip counter and when it raises |
| SolrWriter.PulSolrJsonWriter.PostBatch | marc_to_solr/lib/pul_solr_json_writer.rb:122-148 | acceptance as a whole, or the fallback to single documents up to the first exception |
| SolrWriter.PulSolrJsonWriter.RunPool | marc_to_solr/lib/pul_solr_json_writer.rb:115 | the threads take any number of steps in any order, requests of several batches interleaved; waiting goes on until none has work left |
| SolrWriter.PulSolrJsonWriter.Put | marc_to_solr/lib/pul_solr_json_writer.rb:109-117 | what was put is at all times the full batches formed followed by the shorter queue; with threads it raises what has been collected, without them what sending the batch raises, which is not collected |
| SolrWriter.PulSolrJsonWriter.Close | marc_to_solr/lib/pul_solr_json_writer.rb:192-220 | every batch is sent, the batches are the cut of the puts, and it raises if and only if sending did |
| SolrWriter.WriteAll | marc_to_solr/lib/pul_solr_json_writer.rb:109-220 | a whole run of puts and a close: exact accounting, and when exactly it raises |
| HoldingsAssembly.AllHoldings.AppendItem | marc_to_solr/lib/process_holdings_helpers.rb:119-125 | the item is appended to the one holding under the key and no other holding changes |
| HoldingsAssembly.AllHoldings.AppendTextual | marc_to_solr/lib/process_holdings_helpers.rb:139-149 | each field adds one slot to each of the three lists |
| HoldingsAssembly.AddItemToHolding | marc_to_solr/lib/princeton_marc.rb:367-373 | the first item to reach a key decides its description; the hash that is built is stored under no other key |
| HoldingsAssembly.AddPermanentItems | marc_to_solr/lib/princeton_marc.rb:342-349 | the permanent items, in order, under the holding id, through the one hash they share |
| HoldingsAssembly.AddTemporaryItems | marc_to_solr/lib/princeton_marc.rb:351-365 | the temporary items, in order, under their codes, resource sharing under the holding id |
| HoldingsAssembly.AssembleField | marc_to_solr/lib/princeton_marc.rb:319-338 | one 852 with its items and textual fields, or its bare holding |
| HoldingsAssembly.AssembleHoldings | marc_to_solr/lib/princeton_marc.rb:316-340 | the in-place result is the specified one and no two keys share a hash |
| HoldingsTheorems.PlaceAllLookup | marc_to_solr/lib/princeton_marc.rb:367-373 | first writer wins: a key's description is that of its first item, its items are those sent to it, in order |
| HoldingsTheorems.AlmaFieldsMeaning | marc_to_solr/lib/process_holdings_helpers.rb:33-37 | the 852s that are read are those whose $8 starts with 22 and ends with 06421 |
| HoldingsTheorems.FieldAtOwnId | marc_to_solr/lib/princeton_marc.rb:319-338 | under its own id a field leaves its permanent items, then the shared ones, with aligned textual lists |
| HoldingsTheorems.FieldElsewhere | marc_to_solr/lib/princeton_marc.rb:351-365 | under any other key a field only adds the items it sends there |
| HoldingsTheorems.AddTextualSlots | marc_to_solr/lib/process_holdings_helpers.rb:139-156 | the three textual lists have one slot for each field, in order |
| HoldingsTheorems.HoldingsKeyByKey | marc_to_solr/lib/princeton_marc.rb:316-373 | for distinct holding ids that are no location codes of the record's own away items, what every key holds |
| HoldingsTheorems.HoldingsEveryKey | marc_to_solr/lib/princeton_marc.rb:316-373 | for every record whatever, a key holds what its fields in turn make of it, independently of what is under other keys |
| HoldingsTextual.OtherTextualChangesNothing | marc_to_solr/lib/process_holdings_helpers.rb:18-20 | for every record, a textual field whose $8 is not the key, wherever it stands, changes nothing under it |
| HoldingsTextual.OwnTextualAddsSlot | marc_to_solr/lib/process_holdings_helpers.rb:18-20 | one with the $8 of a holding adds exactly one slot to each of its three lists, in its place: $a and $z joined under its own tag, empty under the others; the rest of the holding stays |
| HoldingsExample.HoldingOfSample | marc_to_solr/lib/process_holdings_helpers.rb:78-156 | subfield by subfield, the holding of an 852 with an item at home, one borrowed, and textual fields of each tag beside those of another holding |
| HoldingsExample.MovedItemOfSample | marc_to_solr/lib/process_holdings_helpers.rb:78-137 | subfield by subfield, the holding under the location code of an item that moved |
| HoldingsExample.SampleExists | marc_to_solr/lib/process_holdings_helpers.rb:78-156 | there are such records |
| HoldingsTheorems.PlainIdsAreNoCodes | lib/bibdata_rs/src/marc/holdings/holding_location.rs:106-111 | every current location code has a dollar sign, so ids without one are never location codes |
| HoldingsConservation.HoldingsTotal | marc_to_solr/lib/princeton_marc.rb:316-373 | for every record, all the holdings together, with what 852 fields without items have overwritten, hold the matching items that have a current location code, and once more those of each repetition of an id |
| HoldingsConservation.ConservedIffSurplusIsOverwritten | marc_to_solr/lib/princeton_marc.rb:316-373 | for every record, they hold each such item exactly once if and only if repeated ids add exactly what is overwritten |
| HoldingsConservation.ConservedIffNoneLocatedTwice | marc_to_solr/lib/princeton_marc.rb:316-373 | where no id is a location code nothing is overwritten, so that holds if and only if no id with such an item is repeated |
| HoldingsConservation.ItemsConserved | marc_to_solr/lib/princeton_marc.rb:316-373 | in particular when the ids are distinct |
| HoldingsConservation.RepeatedIdDoublesItems | marc_to_solr/lib/princeton_marc.rb:319-338 | whenever two 852 fields of a record share an id that has a located item, the holdings hold more than the record |
| HoldingsConservation.RepeatedIdExample | marc_to_solr/lib/princeton_marc.rb:319-338 | a concrete record of this kind |
| HoldingsConservation.CodeAsIdLosesItem | marc_to_solr/lib/princeton_marc.rb:329-333 | an 852 without items whose id is the location code of an item at another 852 before it loses that item |
| HoldingsConservation.CodeAsIdExample | marc_to_solr/lib/princeton_marc.rb:329-333 | a concrete pair of fields and an item of this kind |
| RubyValues.SplitUndoesJoin | marc_to_solr/lib/princeton_marc.rb:81 | `split` undoes `join` if and only if no part contains the separator and the last part is not empty |
| RubyValues.JoinOfSplit | marc_to_solr/lib/princeton_marc.rb:81-91 | joining the pieces of `split` gives the string without the separators at its end |
| RubyValues.JoinUndoesSplit | marc_to_solr/lib/princeton_marc.rb:81-91 | `join` undoes `split` if and only if the string does not end with the separator |
| Headings.RunsMeaning | marc_to_solr/lib/hierarchical_heading.rb:33-35 | the runs are the subfields in order, cut exactly in front of those that split |
| Headings.CompileString | marc_to_solr/lib/hierarchical_heading.rb:24-35 | the string appended to in a loop is the runs joined by spaces, joined by dashes |
| Headings.CompileHeading | marc_to_solr/lib/hierarchical_heading.rb:12-16 | the same from a field and a spec, and nothing without chosen subfields |
| Headings.HeadingAsItReads | marc_to_solr/lib/princeton_marc.rb:56-73 | the heading of a field with four subfields as it reads, em dash, blank and all |
| Headings.HeadingRoundTrip | marc_to_solr/lib/princeton_marc.rb:79-82 | splitting a compiled heading gives back its runs if and only if no value contains a dash and it does not end with an empty run |
| Headings.DashInValueSplits | marc_to_solr/lib/princeton_marc.rb:79-82 | a value with a dash comes back as two pieces |
| Headings.EmptyLastRunDropped | marc_to_solr/lib/princeton_marc.rb:79-82 | an empty splitting value at the end does not come back |
| Headings.LevelIsJoin | marc_to_solr/lib/princeton_marc.rb:86-91 | level i is the first i + 1 pieces joined |
| Headings.LastLevel | marc_to_solr/lib/princeton_marc.rb:81-91 | for any heading the last level is the heading if and only if it does not end with a dash |
| Headings.LevelsOfHeading | marc_to_solr/lib/princeton_marc.rb:73-91 | for a heading that splits back, level i is its first i + 1 runs and the last level the heading |
| NameTitles.PrepNameTitle | marc_to_solr/lib/princeton_marc.rb:233-257 | the loop over flags gives the name before the first $t and the values from it on, if there are $a and $t |
| NameTitles.NameTitleIffBoth | marc_to_solr/lib/princeton_marc.rb:229-257 | there is a name-title if and only if there are a $a and a $t among the chosen subfields |
| NameTitles.NameTitleAsItReads | marc_to_solr/lib/princeton_marc.rb:233-257 | the name and the parts of the title of a field with four subfields |
| NameTitles.NameTitleLevels | marc_to_solr/lib/princeton_marc.rb:233-279 | one level for each subfield from $t on, each the one before, a space and one more value; the deepest is all values joined if and only if something precedes the $t |
| NameTitles.ProcessName | marc_to_solr/lib/princeton_marc.rb:40-54 | the suffix built in the loop is the later values, and is chomped |
| NameTitles.NameAsItReads | marc_to_solr/lib/princeton_marc.rb:40-54 | the name of a field with four subfields is that in front of its $t |
| NameTitles.NameIsKeptValues | marc_to_solr/lib/princeton_marc.rb:40-54 | exactly when chomping leaves the join of the values not after the first $t |
| NameTitles.NewlineChomped | marc_to_solr/lib/princeton_marc.rb:40-54 | a concrete name that loses its newline |
| NameTitles.NewlineDropped | marc_to_solr/lib/princeton_marc.rb:50 | without a suffix a newline at the end goes, and then those in front of it |
| NameTitles.ReturnAndNewlineDropped | marc_to_solr/lib/princeton_marc.rb:50 | a carriage return with its newline goes as one |
| NameTitles.OtherEndsStay | marc_to_solr/lib/princeton_marc.rb:50 | anything else at the end stays |
| NameTitles.ValueAfterTitleIsName | marc_to_solr/lib/princeton_marc.rb:40-54 | a concrete field whose value after the title stays as the name |
| Links.CollectLinks | marc_to_solr/lib/princeton_marc.rb:118-184 | inserting the growing list again after every 856 equals one pass over the final list |
| Links.LinksAsTheyRead | marc_to_solr/lib/princeton_marc.rb:169-175 | four links and the two hashes they come to, key by key |
| Links.SecondPassChangesNothing | marc_to_solr/lib/princeton_marc.rb:169-175 | a second pass over the same links changes neither values nor key order |
| Links.UrlsInOrder | marc_to_solr/lib/princeton_marc.rb:172-173 | the urls are unique and stand in the order of their first links |
| Links.HoldingsInOrder | marc_to_solr/lib/princeton_marc.rb:170-171 | the holding ids are unique and stand in the order of their first links |
| Links.LastWriteUrl | marc_to_solr/lib/princeton_marc.rb:172-173 | a url has the labels of its last link |
| Links.LastWriteHolding | marc_to_solr/lib/princeton_marc.rb:170-171 | a holding has its last link only |
| Links.NoLinkLostIffNoConflict | marc_to_solr/lib/princeton_marc.rb:169-175 | no link is lost if and only if every link has a holding id or a url, and links to the same place say the same |
| Links.LinkWithoutPlaceVanishes | marc_to_solr/lib/princeton_marc.rb:169-175 | a link with neither, wherever it stands, leaves no trace |
| Links.SecondHoldingLinkReplacesFirst | marc_to_solr/lib/princeton_marc.rb:170-171 | two links of one holding: the first is lost |
| Links.OutputHash.MoveHoldingLinks | marc_to_solr/lib/traject_config.rb:1159-1172 | the move succeeds if and only if every holding with a link is there; then exactly those get their links, otherwise nothing changes |
| Links.HoldingLinksArrive | marc_to_solr/lib/traject_config.rb:1159-1172 | from the 856 fields to the holdings: a link of a holding is in it afterwards if and only if no later link replaced it, and other holdings are untouched |
| Languages.MacrolanguageCodes | lib/bibdata_rs/src/languages.rs:76-91 | exactly the code of the macrolanguage and its different ISO 639-2b code, each once |
| Languages.MacrolanguageByBothCodes | lib/bibdata_rs/src/languages.rs:76-91 | a language whose macrolanguage has a bibliographic code has both codes as macrolanguage, the macrolanguage has none |
| Languages.AnyMoreSpecific | marc_to_solr/lib/language_service.rb:38-40 | whether some code of the record has this one as its macrolanguage |
| Languages.OthersAreNotRead | marc_to_solr/lib/language_extractor.rb:25-52 | if some 041 has a first $2 that says iso639-3, one that has not contributes nothing, wherever it stands |
| Languages.CodesFieldByField | marc_to_solr/lib/language_service.rb:20-30 | if all 041 say so, or none, the codes are the fixed code and then, field by field, the values of the $a, $d and blank subfields in their order |
| Languages.IsoIsPreferred | marc_to_solr/lib/language_service.rb:20-30 | the ISO 639-3 code of one 041 replaces the MARC code of another, and the code of the 008 stays |
| Languages.OnlyAAndDReadIffNoBlank | marc_to_solr/lib/language_extractor.rb:39-52 | the codes of a record are its fixed code and its $a and $d values if and only if no 041 that is read has a blank subfield code |
| Languages.BlankCodeIsRead | marc_to_solr/lib/language_extractor.rb:39-52 | a concrete field whose blank subfield is read as a language |
| Languages.SpecificCodes | marc_to_solr/lib/language_service.rb:20-31 | the distinct codes of the record, in order, without the macrolanguages of others; no kept code is a macrolanguage of a code of the record |
| Languages.OnlyTheSpecific | marc_to_solr/lib/language_service.rb:20-40 | with the bibliographic code of a macrolanguage in the 008 and one of its languages in a 041, only the latter is kept |
| Languages.CoverageKept | marc_to_solr/lib/language_service.rb:20-40 | if the relation has no cycle, a chain of codes of the record leads from a kept code to every code |
| Languages.SomethingKept | marc_to_solr/lib/language_service.rb:20-31 | then the result is not empty when the record has codes |
| Languages.SpecificTwice | marc_to_solr/lib/language_service.rb:20-31 | filtering again changes nothing |
| Languages.CycleLosesAll | marc_to_solr/lib/language_service.rb:38-40 | the codes of a cycle drop each other, all of them |
| Languages.SomethingKeptIffAcyclic | marc_to_solr/lib/language_service.rb:20-40 | no record with codes loses them all if and only if the language table has no cycle |
| CallNumbers.ForceNumberPart | app/controllers/bibliographic_controller.rb:219-227 | for letters and a number below 10000 at the front, the statements give the padded key or the call number unchanged, and never raise |
| CallNumbers.KeyOfPadded | app/controllers/bibliographic_controller.rb:219-227 | a call number that goes on after its number has as its key the letters, a dot, the number in four digits and the rest without trailing dots; what stands between letters and number is dropped |
| CallNumbers.KeyOfUnpadded | app/controllers/bibliographic_controller.rb:220-221 | with only dots and commas behind the number the call number is its own key |
| CallNumbers.LettersAndDigits | app/controllers/bibliographic_controller.rb:223 | the letters and digits of the scan by code point |
| CallNumbers.PaddingPreservesOrder | app/controllers/bibliographic_controller.rb:219-227 | for the same letters and numbers n < m the keys sort like the numbers if and only if the first is padded, or neither is and they sort so as they came |
| CallNumbers.DotBeforeNumber | app/controllers/bibliographic_controller.rb:219-227 | the key of `A53.blah` is `A.0053.blah` |
| CallNumbers.BlankIsDropped | app/controllers/bibliographic_controller.rb:219-227 | the key of `DVD 53.x` is `DVD.0053.x` |
| CallNumbers.UnpaddedSortsLast | app/controllers/bibliographic_controller.rb:219-227 | `A53.` sorts after `A100.x` |
| Intake.Database.CreateEvent | app/models/event.rb:3 | a message body is stored once |
| Intake.AlmaDumpFactory.DumpEvent | app/services/aws_sqs_poller.rb:102-113 | the first call creates the event or reports a duplicate, the second finds the memo |
| Intake.AlmaDumpFactory.BibDump | app/services/aws_sqs_poller.rb:77-85 | event and dump as specified, a duplicate with nothing changed, or a death in between |
| Intake.HandleMessage | app/services/aws_sqs_poller.rb:29-45 | one delivery, whatever its crash point, takes the specified step |
| Intake.NewMessageDelivered | app/services/aws_sqs_poller.rb:29-108 | a new message of a configured job adds an event, a dump with the job's dump type and the message's start time, and an import job with the dump's and the instance's id |
| Intake.OtherMessagesAddNothing | app/services/aws_sqs_poller.rb:33-45 | one that an event has already, or of another job, adds nothing |
| Intake.Poll | app/services/aws_sqs_poller.rb:6-46 | polling handles deliveries in order until it is told to stop |
| Intake.AtMostOneOfEach | app/services/aws_sqs_poller.rb:29-113 | over every sequence of deliveries a message has at most one event, one dump and one import job, with its own type, date and id |
| Intake.ImportedIffFirstFinished | app/services/aws_sqs_poller.rb:29-113 | it has exactly one of each if and only if the first delivery that created its event ran to its end |
| Intake.CrashAfterEventIsFinal | app/services/aws_sqs_poller.rb:43-44 | after a crash behind the event no later delivery makes the dump or the job |
| Grouping.GroupBy | app/adapters/alma_adapter/bib_item_set.rb:26 | one group per key in order of first appearance, each with its items in their order |
| Grouping.GroupsPermute | app/adapters/alma_adapter/bib_item_set.rb:26-28 | keys are unique, no group is empty, and the groups hold every item once |
| Grouping.UniqInOrder | app/adapters/alma_adapter/bib_item_set.rb:26-28 | of two keys the one that appears first in the list stands first |
| Grouping.SummarizeLocation | app/adapters/alma_adapter/bib_item_set.rb:28-35 | the holdings of one location, each with its own items and the call number of the first |
| Grouping.HoldingSummary | app/adapters/alma_adapter/bib_item_set.rb:25-50 | the nested summary, with the item keys asked for |
| Grouping.ItemIsListed | app/adapters/alma_adapter/bib_item_set.rb:25-37 | for every item there is exactly one entry with its location and in it exactly one holding with its holding id, with the items that have both, in their order, and the first one's call number |
| Grouping.OnlyItemsListed | app/adapters/alma_adapter/bib_item_set.rb:25-37 | every entry and every holding is that of some item |
| Grouping.PickedKeys | app/adapters/alma_adapter/bib_item_set.rb:42-50 | the JSON of an item has the keys asked for, or all, and no others |
| Grouping.TwoHoldings | app/adapters/alma_adapter/bib_item_set.rb:25-50 | the whole summary of two items of one location in two holdings |
| Grouping.ListedPermutes | app/adapters/alma_adapter/bib_item_set.rb:25-37 | flattening the nested groups gives every item exactly once |
| Grouping.SummaryListsEveryItem | app/adapters/alma_adapter/bib_item_set.rb:25-50 | the JSON items of the summary are those of a permutation of the items |

## Left out

- Network, database and queue plumbing: HTTP, S3, SFTP, Redis, ActiveRecord queries, request building and logging.
- Solr commits, and the difference between an acknowledged and a searchable document.
- More than one manager or Solr collection, and two `index_remaining!` calls racing before the first job runs.
- Files that arrive for a dump after it was skipped as empty.
- FileJobs.DumpConfluence: assumes that every request is acknowledged in the end; deletions that fail twice are covered by SolrDeleters only.
- CatchUpTermination.ExactRunLength: over a table that does not grow; RunLength has no such condition.
- Convergence.ReindexEndsAtSource: over a table that does not grow; ReindexWithArrivalsEndsAtSource has no such condition.
- Convergence.CaughtUpEqualsSource: needs incrementals that carry every change since the one before them, and dumps whose final writes agree.
- Languages.CoverageKept: for a relation without cycles, as that of ISO 639-3 is.
- Languages.CycleLosesAll: the table compiled into the program has no cycle, so this stays hypothetical.
- HoldingsTheorems.HoldingsKeyByKey: for distinct holding ids; HoldingsEveryKey has no such condition.
- HoldingsConservation.ConservedIffNoneLocatedTwice: for records whose holding ids are not location codes of their own away items, as ids without a dollar sign never are; ConservedIffSurplusIsOverwritten has no such condition.
- HoldingsConservation.ItemsConserved: likewise, and for distinct ids.
- HoldingsConservation.RepeatedIdDoublesItems: likewise, because what is overwritten could hide what is doubled.
- The `iiif_manifest_paths` of electronic links, the parsing of 856 subfields and the building of catalogue urls.
- SCSB holdings, portfolios, embargo dates, item status tables, the other `each_record` steps of the indexing configuration.
- A live record without a 001, and the Honeybadger report of an unsuccessful Alma job.
- `Lcsort` and the moving of Oversize or Folio to the end, which run before the padding of call numbers.
- The trimming of levels and names, whose rules are a library's.
- Controllers, views, authentication, configuration, migrations and translation tables.
