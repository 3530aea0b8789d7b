# Verified models of four aiven-examples programs

This project models four programs of the aiven-examples repository in Dafny and proves what they
are for, over all inputs and all runs. To verify it, run `dafny verify dfyconfig.toml`.

**The streaming music charts** (`kafka/kafka-streams`). Play events are filtered, joined with the
song table and counted; the counts feed one top-five chart per genre and one overall. A chart only
ever sees "old value out, new value in" updates of single songs, forgets what it evicts, and lives in
the state store as bytes. The results: whenever nothing is under way, the stored bytes are exactly those of
sorting all counts of a batch computation and taking five; and once no input arrives the topology comes to
that rest, whatever it sends and delivers next.

| file | content |
|---|---|
| Ranking.dfy | chart order, "sort everything, take five", and its characterisation |
| BigEndian.dfy, TopFiveSerde.dfy | eight-byte longs, the sixteen-byte records, serializer and deserializer |
| TopFive.dfy | the chart as a value and as the object `TopFiveSongs` |
| ChartProtocol.dfy, ChartStore.dfy | updates of a chart, the ledger it tracks, runs through bytes |
| MusicTopology.dfy | the whole topology as a step machine, against the batch reference |
| MusicAtRest.dfy | that the topology comes to rest with the batch charts, for every input |

**The Debezium to PostgreSQL replicator** (`solutions/pg-sync`). A consumer turns change events into
statements with positional placeholders, builds their parameters separately, executes, retries and
commits offsets. The results: a statement with its parameters means the row operation the event stands
for; and no failure, lost acknowledgement or crash makes the replica differ from the source by
more than the one event after the committed offset.

| file | content |
|---|---|
| Casting.dfy | column values and their casts |
| Statements.dfy | dictionaries, statements, parameter lists |
| ReplicaTable.dfy | what the database does with them, and what the event intends |
| SourceHistory.dfy | the source table, its events, first and repeated delivery |
| Replicator.dfy | the consumer loop as a step machine and as the program with its nested loops |

**The region views in ClickHouse** (`solutions/clickhouse-cdc`, RegionViews.dfy). Each region's
materialized view writes id, version and tombstone into a ReplacingMergeTree. The result: for any
order, repetition, batching and merge schedule, FINAL equals the source's rows of the region if and only
if no update moved a row out of the region for good.

**The security configuration migrator** (`solutions/migrate-opendistro-security-to-aiven-for-opensearch`).
Five sections are planned, patched and possibly abandoned midway, and the script is run again. The
results: no run touches a protected entry; what is finished agrees with the source; and whatever happened
before, a run that completes ends where one undisturbed run would have.

| file | content |
|---|---|
| SecurityConfig.dfy | entries, the plan, the decision for one entry |
| SecurityMigration.dfy | whole runs and how they leave each section |
| SecurityRerun.dfy | runs after runs: the stages of a section, and when a run completes |
| SecurityPromises.dfy | the migration's promises in the operators' own names, over any number of runs |
| SecurityMigrator.dfy | the program that filters and merges dictionaries in place and produces such runs |

## What is taken as given

- Kafka Streams: the updates of one song reach an aggregation in order; a record whose group key is
  null is dropped; an aggregate that loads as null is skipped by the subtractor and created afresh for
  the adder; a count may be forwarded only after several increments. `String.toLowerCase` is an
  arbitrary function. A published song record keeps its content and is published under its own id,
  and a run accepts fewer plays than the largest Java long. Joining a play and counting it are one step; the
  source repartitions in between, so that at any moment the counts add up to the accepted plays whose
  record has left that topic.
- PostgreSQL: placeholders are filled in order, `=` never holds of NULL, a failing statement changes nothing, and
  the replica's primary key is the configured row identifier, as in `sql/pg.sql` and `config/config.json`.
  The source emits full old images and keeps the identifier unique and non-null, and casting keeps the
  identifiers of its rows apart. That holds of every history if no identifying column is cast by the
  millisecond conversion (`Replicator.KeptIdentifierIsFaithful`), and otherwise unless two identifiers agree
  up to milliseconds (`SourceHistory.IdentifiersCollideIff`). `Replicator.CollisionIsSkipped` and
  `Replicator.CollisionBlocks` say what an insert without this does: avro_main.py loses the row silently,
  main.py stops for good.
- ClickHouse: FINAL and merges keep, per id, the row of the highest version. Versions increase
  from event to event of one row; a create or snapshot event introduces a row that is not there.
- OpenSearch: a patch is carried out as a whole or not at all (section 5 of RFC 6902), and a later GET returns what a patch stored.
  Entry names need no escaping (section 3 of RFC 6901).

## Where code and documentation differ

The model follows the code.

- The comment at KafkaMusicExample.java:503-520 says the aggregate relies on the subtractor running
  before the adder. The list, and so the stored bytes, come out the same in either order
  (`TopFive.UpdateOrderSameList`, `TopFiveSerde.LoadRepairs`, `ChartStore.RunYieldsFiveBest`); only the map in
  memory suffers. What it does rely on is that counts never fall (`ChartProtocol.FallingCountRightIff`).
- The migrator's README says hidden entries are not migrated; the code only leaves out reserved and
  static ones (avn-migrate-os-security-config.py:137-140).
- The same README says the script can be run again. What a run has finished no later run changes
  (`SecurityRerun.RerunChangesNothing`), what it left half done a later run carries on with, and a run that
  completes ends as one undisturbed run would have (`SecurityRerun.ResumeEqualsOneRun`). But it need not
  complete. After any number of runs, the next one stops with an exception exactly when some section has,
  at the stage it has reached, an entry that blocks it (`SecurityRerun.ResumeCompletesIff`):
  before its updates are in, an entry of the target that is empty, or a role mapping whose users cannot be
  searched or whose manager cannot be kept; once its additions are in, an added entry that is
  empty or a role mapping without users that can be searched; once its updates are in, a role mapping
  updated from a source whose users cannot be searched, such as `users: null`. It then stops in all
  further runs (`SecurityRerun.BlockedForever`). `RerunFailsAfterAdd` and `RerunFailsAfterUpdate` are inputs
  that migrate once but not twice, and in `RefusalCanBeFinal` a single refused patch is never made good.
- Line 266 of the migrator calls `.add` on a list. `Variant.AsWritten` models the exception,
  `Variant.Appending` the evident intention; results about runs hold for both.
- main.py retries a duplicate insert for ever (`Replicator.StuckForever`). It gets there exactly by a crash
  between an insert and its commit, or by an insert that takes effect while its acknowledgement is lost
  (`Replicator.StuckIffStranded`), and finishes in the runs without either
  (`Replicator.RetryingLoopFinishesIff`); avro_main.py skips the duplicate and finishes in all
  (`Replicator.SkippingLoopFinishes`).

## Model

| member | source | states |
|---|---|---|
| Ranking.FiveBestIsFiveBest | kafka/kafka-streams/src/KafkaMusicExample.java:524-535 | sorting all counts in comparator order and cutting after five selects exactly the entries that fewer than five others beat |
| Ranking.FiveBestUnique | kafka/kafka-streams/src/KafkaMusicExample.java:524-535 | that selection is unique, so any list meeting it is the sorted prefix |
| Ranking.FiveBestFalls | kafka/kafka-streams/src/KafkaMusicExample.java:524-535 | along the list plays fall, and equal plays stand by rising song id |
| Ranking.LeftOutHasFewer | kafka/kafka-streams/src/KafkaMusicExample.java:524-535 | a counted song that is left out has fewer plays than every listed one, or as many and a larger id |
| Ranking.LeftOutBeatenSuffices | kafka/kafka-streams/src/KafkaMusicExample.java:548-552 | a list of at most five current entries is the five best as soon as everything it leaves out is beaten by five songs |
| Ranking.FiveBestOfPart | kafka/kafka-streams/src/KafkaMusicExample.java:397-413 | ranking any part of the counts that contains the five best gives the five best of the whole |
| Ranking.OnSomeChartIff | kafka/kafka-streams/src/KafkaMusicExample.java:373-395 | the union of the group charts holds exactly the entries that some group lists among its five best |
| Ranking.GroupChartsDetermineOverall | kafka/kafka-streams/src/KafkaMusicExample.java:373-413 | for any counts and any grouping, the five best of what the group charts list are the five best of all |
| BigEndian.LongRoundTrip | kafka/kafka-streams/src/KafkaMusicExample.java:448-449 | reading the eight bytes of any long gives it back |
| BigEndian.BytesRoundTrip | kafka/kafka-streams/src/KafkaMusicExample.java:486-487 | writing what any eight bytes read as gives the bytes back |
| BigEndian.ByteAt | kafka/kafka-streams/src/KafkaMusicExample.java:448-449 | byte i of a long is the i-th base-256 digit from the top of its two's complement |
| TopFive.TreeAddContents | kafka/kafka-streams/src/KafkaMusicExample.java:524-535 | adding to the tree set keeps its order, adds exactly the element, and counts it once |
| TopFive.TreeRemoveContents | kafka/kafka-streams/src/KafkaMusicExample.java:524-535 | removing keeps the order, removes exactly the element, and has no effect when it is absent |
| TopFive.TopFiveSongs.constructor | kafka/kafka-streams/src/KafkaMusicExample.java:522-535 | a new aggregate is the empty chart |
| TopFive.TopFiveSongs.Add | kafka/kafka-streams/src/KafkaMusicExample.java:542-553 | the object's add is the chart's, whatever was called before; AddToKeepsBest says what that keeps |
| TopFive.TopFiveSongs.Remove | kafka/kafka-streams/src/KafkaMusicExample.java:555-558 | the object's remove is the chart's, whatever was called before; RemoveFromValidIff says what that keeps |
| TopFive.AddToKeepsBest | kafka/kafka-streams/src/KafkaMusicExample.java:542-553 | add keeps map and list in agreement, one entry per song, at most five, for every argument; it lists only the new entry and the other songs' entries, and drops one of these only for five that beat it |
| TopFive.RemoveFromValidIff | kafka/kafka-streams/src/KafkaMusicExample.java:555-558 | remove keeps the representation invariant if and only if the id is absent or the value equals the stored entry |
| TopFive.ListDeterminesChart | kafka/kafka-streams/src/KafkaMusicExample.java:522-535 | two valid charts with the same list have the same map |
| TopFive.UpdateOrderSameList | kafka/kafka-streams/src/KafkaMusicExample.java:503-520 | remove-then-add and add-then-remove leave the same list; the second order loses the song from the map and breaks the invariant exactly when the new entry is listed |
| ChartProtocol.AddKeepsTrack | kafka/kafka-streams/src/KafkaMusicExample.java:401-405 | an addition that does not lower the song's count keeps: listed entries are current, and every settled song left out is beaten by five |
| ChartProtocol.SubtractKeepsTrack | kafka/kafka-streams/src/KafkaMusicExample.java:406-409 | so does any subtraction; one that is not of the current count leaves the list unchanged |
| ChartProtocol.TrackedAtRest | kafka/kafka-streams/src/KafkaMusicExample.java:397-413 | with no song between its subtraction and addition, the chart is the five best of all counts seen |
| ChartProtocol.BestSettledAreListed | kafka/kafka-streams/src/KafkaMusicExample.java:397-413 | even between the two, no settled song of the five best is missing |
| ChartProtocol.RestingListBeatsRest | kafka/kafka-streams/src/KafkaMusicExample.java:548-552 | a chart at rest that leaves a song out is full and beats it with every entry |
| ChartProtocol.FallingCountRightIff | kafka/kafka-streams/src/KafkaMusicExample.java:542-558 | an update that lowers a count is handled right if and only if the song was off the chart or still has fewer than five songs ahead |
| ChartProtocol.AddAllYieldsFiveBest | kafka/kafka-streams/src/KafkaMusicExample.java:485-488 | adding entries of different songs to an empty chart, in any order, yields the five best of them |
| ChartProtocol.AddAllRebuilds | kafka/kafka-streams/src/KafkaMusicExample.java:478-488 | refilling an empty chart from a valid chart's list rebuilds both structures |
| TopFiveSerde.DecodeEncode | kafka/kafka-streams/src/KafkaMusicExample.java:440-492 | decoding an encoded list gives the list, for all 64-bit ids and plays |
| TopFiveSerde.EncodeDecode | kafka/kafka-streams/src/KafkaMusicExample.java:440-492 | encoding a decoded whole-record byte string gives the bytes |
| TopFiveSerde.EntryLayout | kafka/kafka-streams/src/KafkaMusicExample.java:447-450 | entry i occupies bytes 16i to 16i+15: song id first, then plays |
| TopFiveSerde.Serialize | kafka/kafka-streams/src/KafkaMusicExample.java:441-456 | the serializer's loop writes exactly the encoding of the tree set, in order |
| TopFiveSerde.Deserialize | kafka/kafka-streams/src/KafkaMusicExample.java:474-493 | null exactly for no bytes, an exception exactly for a cut record, otherwise a new object to which the records were added one by one |
| TopFiveSerde.ReadAll | kafka/kafka-streams/src/KafkaMusicExample.java:485-488 | the reading loop adds the decoded records in order, or fails exactly when the length is not a multiple of sixteen |
| TopFiveSerde.LoadStored | kafka/kafka-streams/src/KafkaMusicExample.java:440-492 | a valid chart comes back whole from its bytes; the empty chart alone comes back as null |
| TopFiveSerde.StoredDeterminesChart | kafka/kafka-streams/src/KafkaMusicExample.java:440-456 | equal bytes mean equal charts |
| TopFiveSerde.LoadDistinctRecords | kafka/kafka-streams/src/KafkaMusicExample.java:485-488 | any whole-record bytes with different ids load as the valid chart of their five best |
| TopFiveSerde.LoadRepairs | kafka/kafka-streams/src/KafkaMusicExample.java:503-520 | bytes written in the middle of an adder-first update load as the chart of the subtractor-first order |
| ChartStore.ChartAggregator.Aggregate | kafka/kafka-streams/src/KafkaMusicExample.java:380-392 | loading, running subtractor or adder and storing changes the group's bytes as specified and no other group |
| ChartStore.ProcessKeepsTrack | kafka/kafka-streams/src/KafkaMusicExample.java:401-413 | one message through bytes never fails and keeps the bytes those of a chart that tracks the ledger |
| ChartStore.RunYieldsFiveBest | kafka/kafka-streams/src/KafkaMusicExample.java:401-413 | for every interleaved run of updates in which no count falls, the bytes at rest are the encoding of the five best of all counts |
| ChartStore.RunMissesNoSettledSong | kafka/kafka-streams/src/KafkaMusicExample.java:401-413 | at every point of such a run the bytes are those of a valid chart that misses no settled song of the five best |
| MusicTopology.RunKeepsInvariants | kafka/kafka-streams/src/KafkaMusicExample.java:337-413 | every run keeps: counts are batch counts, updates under way lead to the forwarded count, stores track their ledgers |
| MusicTopology.CountsMatchBatch | kafka/kafka-streams/src/KafkaMusicExample.java:349-365 | at any moment every count is the number of plays of at least 30 s after publication, and all counts add up to the accepted plays |
| MusicTopology.ChartsMatchBatch | kafka/kafka-streams/src/KafkaMusicExample.java:373-413 | at rest the bytes of every genre chart and of the overall chart are those of the batch top five |
| MusicTopology.DeliveriesSucceed | kafka/kafka-streams/src/KafkaMusicExample.java:474-493 | in no run does loading a chart for a waiting update fail |
| MusicTopology.GenreChartsDetermineOverallChart | kafka/kafka-streams/src/KafkaMusicExample.java:373-413 | at rest the overall chart is the five best of what the genre charts list |
| MusicAtRest.UnderwayShrinks | kafka/kafka-streams/src/KafkaMusicExample.java:373-413 | every count sent on and every update delivered leaves less to do, and leaves songs and counts as they are |
| MusicAtRest.SomeStepIsEnabled | kafka/kafka-streams/src/KafkaMusicExample.java:349-413 | while a count is not sent on or an update not delivered, the topology can take a step |
| MusicAtRest.SettlingEnds | kafka/kafka-streams/src/KafkaMusicExample.java:373-413 | without new input no run takes more steps than the work that was left |
| MusicAtRest.EveryRunComesToRest | kafka/kafka-streams/src/KafkaMusicExample.java:349-413 | from every state of every run, sending and delivering alone lead to rest, with the batch charts of the run in both stores |
| MusicAtRest.InputIsTaken | kafka/kafka-streams/src/KafkaMusicExample.java:340-358 | at any moment any further play, and any song record that changes none, is taken |
| MusicAtRest.EveryInputYieldsItsCharts | kafka/kafka-streams/src/KafkaMusicExample.java:340-413 | for every input of songs and plays there is a run that ends at rest with the batch charts of that input |
| Casting.IntToDate | solutions/pg-sync/src/utilities.py:37-38 | the date begins that many days after the epoch; it fails exactly on what is not an integer or lies outside the years 1 to 9999 |
| Casting.MilliToDatetime | solutions/pg-sync/src/utilities.py:61-62 | the instant is that many thousandths of a second after the epoch, with the exact range |
| Casting.MicroToDatetime | solutions/pg-sync/src/utilities.py:65-66 | the same for millionths |
| Casting.CastMeans | solutions/pg-sync/src/utilities.py:93-114 | a column listed as date, time, milliseconds, microseconds or timestamp yields the moment its number means and fails exactly outside that kind's range; other columns pass unchanged |
| Casting.ConvertMilliTime | solutions/pg-sync/src/utilities.py:41-58 | fails exactly outside one day; otherwise a proper time of day that starts at most a second before, despite the wrong last subtraction |
| Casting.MilliTimeCollidesIff | solutions/pg-sync/src/utilities.py:41-58 | two moments convert to the same time exactly when they lie in the same second |
| Casting.MilliTimeMonotone | solutions/pg-sync/src/utilities.py:41-58 | later moments never convert to earlier times |
| Casting.CastCollidesIff | solutions/pg-sync/src/utilities.py:93-114 | casting confuses two values of a column exactly when it is a time column and they share the second |
| Casting.CastAllPointwise | solutions/pg-sync/src/utilities.py:93-114 | the list has one cast value per pair, in order, or fails exactly when some cast fails |
| Casting.CastValues | solutions/pg-sync/src/utilities.py:93-114 | the appending loop computes that list or stops with an exception |
| Statements.CreateUpdateStatement | solutions/pg-sync/src/utilities.py:125-135 | the loops yield the columns of `after` as SET and the row identifier, or all of `before`, as WHERE, in order |
| Statements.CreateDeleteStatement | solutions/pg-sync/src/utilities.py:146-154 | the same WHERE columns for a deletion |
| Statements.BuildWhereParams | solutions/pg-sync/src/avro_main.py:109-116 | the identifying values, looked up and cast, or an exception |
| Statements.PlannedIff | solutions/pg-sync/src/avro_main.py:99-152 | a command is built exactly if the message is a tombstone or its values fit: an insert has an `after` whose values cast, a deletion has its identifying columns and they cast, an update both |
| Statements.BuildCommand | solutions/pg-sync/src/avro_main.py:92-152 | the branches of the loop body build the planned statement and parameters, and raise exactly when the values do not fit |
| Statements.ParametersFitPlaceholders | solutions/pg-sync/src/main.py:41-93 | whenever the values fit: as many parameters as placeholders, and parameter i is the cast value of placeholder i's column, with or without row identifier |
| ReplicaTable.UpdateMeansRowOperation | solutions/pg-sync/src/utilities.py:125-135 | the UPDATE with its parameter list overlays exactly the identified rows with the cast of `after` |
| ReplicaTable.InsertMeansRowOperation | solutions/pg-sync/src/utilities.py:138-143 | the INSERT adds exactly the cast of `after` |
| ReplicaTable.DeleteMeansRowOperation | solutions/pg-sync/src/utilities.py:146-154 | the DELETE removes exactly the identified rows |
| ReplicaTable.CommandMeansRowOperation | solutions/pg-sync/src/main.py:41-93 | executing any planned command is the intended row operation, and reports a key violation or a missing key exactly when the operation causes one |
| ReplicaTable.WithoutIdentifierFindsRowIff | solutions/pg-sync/src/utilities.py:129-134 | without row identifier the statement finds its row exactly when no column of `before` is NULL |
| SourceHistory.KeptIdentifierRepresents | solutions/pg-sync/src/utilities.py:86-90 | if no identifying column drops milliseconds, casting keeps all rows of a table apart |
| SourceHistory.IdentifiersCollideIff | solutions/pg-sync/src/utilities.py:93-114 | two rows get the same identifier in the replica exactly when their identifiers agree up to milliseconds of time columns |
| SourceHistory.HistoryGoesOn | solutions/pg-sync/src/avro_main.py:97-152 | every insertion with a new identifier, deletion and update of a table, and every tombstone, continues its history of events |
| SourceHistory.FirstDelivery | solutions/pg-sync/src/avro_main.py:99-155 | delivered once, every event takes the image of the source to the next image |
| SourceHistory.Redelivery | solutions/pg-sync/src/avro_main.py:99-158 | delivered again, no event changes the replica, key-changing updates included, and exactly an insert is refused |
| SourceHistory.InsertAcceptedIff | solutions/pg-sync/src/avro_main.py:124-137 | an insert event is accepted if and only if no copy carries its cast identifier |
| Replicator.StepKeepsInv | solutions/pg-sync/src/avro_main.py:89-171 | every attempt, failure, lost acknowledgement, commit and crash keeps the replica at the committed event or the one after |
| Replicator.ReplicaNeverDrifts | solutions/pg-sync/src/avro_main.py:89-171 | in every run of either loop the replica is the image of the source after k events, committed <= k <= committed + 1 |
| Replicator.InvIsReached | solutions/pg-sync/src/avro_main.py:89-171 | conversely every state that invariant allows, event shown or not and commit acknowledged or not, is reached by some run |
| Replicator.SkippingLoopFinishes | solutions/pg-sync/src/avro_main.py:156-171 | if the values of every event fit, two attempts or commits per event and one more per crash are enough to commit everything, and until then one is possible |
| Replicator.UncastableEventBlocks | solutions/pg-sync/src/avro_main.py:159-162 | past an event whose values do not fit, no run of either loop ever commits |
| Replicator.AttemptSucceedsIff | solutions/pg-sync/src/main.py:97-101 | an attempt gets past its event exactly when the loop skips duplicates or the event is not an insert already shown |
| Replicator.StuckForever | solutions/pg-sync/src/main.py:97-101 | from such a state no continuation of main.py commits another offset |
| Replicator.CrashAfterInsertSticks | solutions/pg-sync/src/main.py:97-108 | one crash between an insert and its commit leads there |
| Replicator.StuckIffStranded | solutions/pg-sync/src/main.py:97-108 | in every run main.py is stuck exactly when some step so far was a crash between an insert and its commit or an insert whose acknowledgement was lost |
| Replicator.RetryingLoopFinishesIff | solutions/pg-sync/src/main.py:97-108 | of the runs with two attempts or commits per event and one more per crash, main.py commits everything in exactly those no such step strands |
| Replicator.KeptIdentifierIsFaithful | solutions/pg-sync/src/utilities.py:86-90 | if no identifying column drops milliseconds, every history meets the assumptions of the results above |
| Replicator.CollisionIsSkipped | solutions/pg-sync/src/avro_main.py:156-171 | an insert whose cast identifier is taken is skipped and committed without changing the replica, which then shows the source only if the same copy was there already |
| Replicator.CollisionBlocks | solutions/pg-sync/src/main.py:97-101 | in main.py such an insert leaves the state unchanged in every continuation |
| Replicator.Consumer.ApplyMessage | solutions/pg-sync/src/avro_main.py:90-164 | the retry loop ends with the event shown, or the process dead and the event shown or not |
| Replicator.Consumer.CommitOffset | solutions/pg-sync/src/avro_main.py:165-171 | the commit loop ends with the offset committed unless the process dies |
| Replicator.Consumer.Session | solutions/pg-sync/src/avro_main.py:89-171 | one life of the process keeps the replica within one event of the committed offset and ends only by a fault or at the end of the log |
| Replicator.Consumer.Replicate | solutions/pg-sync/src/avro_main.py:89-171 | for every history and finite schedule of faults, restarts end with all events committed and the replica equal to the source |
| RegionViews.SelectMeans | solutions/clickhouse-cdc/mv.sql.template:53-60 | the view takes `after` of creations, snapshots and updates and `before` of deletions, of its region only, with the log position as version, and nothing else |
| RegionViews.RunContinues | solutions/clickhouse-cdc/mv.sql.template:33-60 | at any moment any events can arrive and any rows be merged |
| RegionViews.ChangesAreEmitted | solutions/clickhouse-cdc/mv.sql.template:53-60 | every creation, snapshot, update and deletion of a row, at a later version, continues the history and changes the source table accordingly |
| RegionViews.MergeInvisible | solutions/clickhouse-cdc/mv.sql.template:33-42 | merging any rows at any time leaves FINAL and every winner unchanged |
| RegionViews.StaleInsertInvisible | solutions/clickhouse-cdc/mv.sql.template:33-42 | inserting a duplicate or older row leaves FINAL unchanged |
| RegionViews.ViewConverges | solutions/clickhouse-cdc/mv.sql.template:33-60 | for any order, repetition, batching and merge schedule, FINAL is what one orderly pass over the history gives |
| RegionViews.StrandedIff | solutions/clickhouse-cdc/mv.sql.template:55-60 | a row is stranded when some update moved it out of the region and no later event brought it back |
| RegionViews.WinnerAfterHistory | solutions/clickhouse-cdc/mv.sql.template:53-60 | after a history the live winner of an id is the source's row of the region, or a stranded leftover, and nothing else |
| RegionViews.ViewIsSourceIff | solutions/clickhouse-cdc/mv.sql.template:44-60 | a region's view equals the source's rows of the region if and only if no row is stranded |
| RegionViews.ViewsPartitionSource | solutions/clickhouse-cdc/mv.sql.template:44-60 | when no update moves rows, the views of different regions are disjoint and show exactly the source, deletion and re-creation elsewhere included |
| RegionViews.MovedRowStaysBehind | solutions/clickhouse-cdc/mv.sql.template:55-60 | after any history, an update that moves a row leaves it visible in both regions |
| SecurityConfig.PlanCoversUnprotected | solutions/migrate-opendistro-security-to-aiven-for-opensearch/avn-migrate-os-security-config.py:114-175 | the plan adds what the target lacks and updates what it has, of exactly the entries that are not protected |
| SecurityConfig.FilterIdempotentIff | solutions/migrate-opendistro-security-to-aiven-for-opensearch/avn-migrate-os-security-config.py:199-207 | filtering twice differs from filtering once exactly when a flag was set |
| SecurityConfig.UpdateAgrees | solutions/migrate-opendistro-security-to-aiven-for-opensearch/avn-migrate-os-security-config.py:246-294 | after an update the entry agrees with the source on every field but the flags |
| SecurityConfig.UpdateKeepsOthers | solutions/migrate-opendistro-security-to-aiven-for-opensearch/avn-migrate-os-security-config.py:284 | fields that only the target has stay as they are |
| SecurityConfig.SkippedIffSame | solutions/migrate-opendistro-security-to-aiven-for-opensearch/avn-migrate-os-security-config.py:276-282 | an entry without flags is skipped exactly when both sides have the same fields |
| SecurityConfig.SkippedMappingIff | solutions/migrate-opendistro-security-to-aiven-for-opensearch/avn-migrate-os-security-config.py:259-282 | a role mapping is skipped exactly when both sides agree up to empty values |
| SecurityConfig.UpdateKeepsManager | solutions/migrate-opendistro-security-to-aiven-for-opensearch/avn-migrate-os-security-config.py:256-266 | a mapping that includes the manager still does after any update |
| SecurityConfig.UpdateKeepsListedManager | solutions/migrate-opendistro-security-to-aiven-for-opensearch/avn-migrate-os-security-config.py:262-266 | if os-sec-admin stands anywhere in the target's list of users, after an update it is still an item, a member or part of the users |
| SecurityConfig.ContainsMeans | solutions/migrate-opendistro-security-to-aiven-for-opensearch/avn-migrate-os-security-config.py:262-264 | a name is found exactly where it is an item, a substring or a member, and other values raise |
| SecurityConfig.UpdateLeavesUnflagged | solutions/migrate-opendistro-security-to-aiven-for-opensearch/avn-migrate-os-security-config.py:199-207 | an update never leaves an entry that a later run must not touch |
| SecurityConfig.UpdateAgain | solutions/migrate-opendistro-security-to-aiven-for-opensearch/avn-migrate-os-security-config.py:226-294 | updating an updated entry again skips or writes the same value, and fails exactly when it is a role mapping that the first update changed and whose source has users that cannot be searched |
| SecurityConfig.UpdateAfterAdd | solutions/migrate-opendistro-security-to-aiven-for-opensearch/avn-migrate-os-security-config.py:226-266 | updating an added entry writes the same value, or fails exactly when it is empty or a mapping without searchable users |
| SecurityConfig.UpdateFailsIff | solutions/migrate-opendistro-security-to-aiven-for-opensearch/avn-migrate-os-security-config.py:246-266 | an update fails exactly on an empty target entry and, for a mapping, when the target's users cannot be searched, or the target maps the manager, the source does not, and the program cannot add it; as written it never can |
| SecurityConfig.ListedManagerRaisesIff | solutions/migrate-opendistro-security-to-aiven-for-opensearch/avn-migrate-os-security-config.py:262-266 | as written and on lists, an update raises exactly when the target lists os-sec-admin and the source does not |
| SecurityMigration.SectionEnds | solutions/migrate-opendistro-security-to-aiven-for-opensearch/avn-migrate-os-security-config.py:401-430 | a section ends untouched, with its additions, or with additions and updates, and the run goes on only in the last case |
| SecurityMigration.RunBySection | solutions/migrate-opendistro-security-to-aiven-for-opensearch/avn-migrate-os-security-config.py:393-431 | sections before the stop are finished by their own migration, the one at the stop is left by its own migration unfinished, and those after it are as found |
| SecurityMigration.RunKeepsProtected | solutions/migrate-opendistro-security-to-aiven-for-opensearch/avn-migrate-os-security-config.py:129-175 | no run, stopped anywhere, creates, changes or removes a protected entry |
| SecurityMigration.CompletedIffSectionsFinished | solutions/migrate-opendistro-security-to-aiven-for-opensearch/avn-migrate-os-security-config.py:22-28 | a run completes exactly when it finishes roles, rolesmapping, actiongroups, tenants and internalusers |
| SecurityMigration.FinishedSectionsAgree | solutions/migrate-opendistro-security-to-aiven-for-opensearch/avn-migrate-os-security-config.py:210-294 | in every run, completed or not, each migratable entry of a section finished before the stop exists in the target and agrees with the source |
| SecurityMigration.RunKeepsManager | solutions/migrate-opendistro-security-to-aiven-for-opensearch/avn-migrate-os-security-config.py:256-266 | no run takes the manager out of a role mapping, as written or as intended |
| SecurityRerun.FinishedSectionAgain | solutions/migrate-opendistro-security-to-aiven-for-opensearch/avn-migrate-os-security-config.py:393-431 | migrating a finished section again leaves it unchanged, whatever the replies |
| SecurityRerun.SectionAgainIff | solutions/migrate-opendistro-security-to-aiven-for-opensearch/avn-migrate-os-security-config.py:226-266 | at each stage of a section, migrating it again goes through exactly when no entry blocks it at that stage |
| SecurityRerun.ResumeFinishes | solutions/migrate-opendistro-security-to-aiven-for-opensearch/avn-migrate-os-security-config.py:393-431 | a section finished by a later run, from whatever stage, is as one run from the start would have left it |
| SecurityRerun.CompletesIff | solutions/migrate-opendistro-security-to-aiven-for-opensearch/avn-migrate-os-security-config.py:393-431 | a run completes only if the updater raises nothing on any section, and exactly then when its patches are accepted |
| SecurityRerun.FirstRunCompletesIff | solutions/migrate-opendistro-security-to-aiven-for-opensearch/avn-migrate-os-security-config.py:237-294 | an accepted run completes exactly when every unprotected entry on both sides is nonempty in the target and, for a mapping, has searchable users there and keeps the manager, whatever JSON value the users are |
| SecurityRerun.RunsReachStages | solutions/migrate-opendistro-security-to-aiven-for-opensearch/avn-migrate-os-security-config.py:393-431 | after any number of runs with any replies every section is untouched, has its additions, or is finished |
| SecurityRerun.RerunChangesNothing | solutions/migrate-opendistro-security-to-aiven-for-opensearch/avn-migrate-os-security-config.py:393-431 | a second run changes no section that the first one finished, completed or not, wherever the second stops |
| SecurityRerun.ResumeEqualsOneRun | solutions/migrate-opendistro-security-to-aiven-for-opensearch/avn-migrate-os-security-config.py:393-431 | if a run completes after any earlier runs, one undisturbed run from the first target completes too and leaves every section the same |
| SecurityRerun.BlockedForever | solutions/migrate-opendistro-security-to-aiven-for-opensearch/avn-migrate-os-security-config.py:393-431 | where an undisturbed run would stop, no number of runs ever completes |
| SecurityRerun.ResumeCompletesIff | solutions/migrate-opendistro-security-to-aiven-for-opensearch/avn-migrate-os-security-config.py:393-431 | after any number of runs, the next one completes only if no entry blocks it at the stage its section has reached, and exactly then when its patches are accepted |
| SecurityRerun.RerunCompletesIff | solutions/migrate-opendistro-security-to-aiven-for-opensearch/avn-migrate-os-security-config.py:226-294 | after a completed run, a second run whose patches are accepted completes exactly when no added entry was empty or a mapping without searchable users and no mapping was updated from a source with such users; otherwise no second run completes |
| SecurityRerun.RerunFailsAfterAdd | solutions/migrate-opendistro-security-to-aiven-for-opensearch/avn-migrate-os-security-config.py:246-266 | a concrete mapping without users that migrates once and stops the second run |
| SecurityRerun.RerunFailsAfterUpdate | solutions/migrate-opendistro-security-to-aiven-for-opensearch/avn-migrate-os-security-config.py:256-291 | a concrete mapping on both sides, with null users in the source, that migrates once and stops the second run |
| SecurityRerun.RefusalIsFinal | solutions/migrate-opendistro-security-to-aiven-for-opensearch/avn-migrate-os-security-config.py:401-430 | for any source and target whose roles need nothing: if the updates of the role mappings are refused after the additions went through and an added mapping blocks, no later run completes |
| SecurityRerun.RefusalCanBeFinal | solutions/migrate-opendistro-security-to-aiven-for-opensearch/avn-migrate-os-security-config.py:401-430 | a concrete source and target that one accepted run migrates, but that no run ever completes after a single refused patch |
| SecurityPromises.RunsLeaveAlone | solutions/migrate-opendistro-security-to-aiven-for-opensearch/avn-migrate-os-security-config.py:129-175 | no number of runs changes os-sec-admin in internalusers, manage_snapshots in rolesmapping, what the target marks reserved, static or hidden, or what the source lacks or marks reserved or static |
| SecurityPromises.RunsKeepListedManager | solutions/migrate-opendistro-security-to-aiven-for-opensearch/avn-migrate-os-security-config.py:256-266 | if os-sec-admin stands anywhere among the users of a role mapping, no number of runs removes it |
| SecurityPromises.AcceptedRunCompletesIff | solutions/migrate-opendistro-security-to-aiven-for-opensearch/avn-migrate-os-security-config.py:393-431 | when every patch is accepted, a first run completes exactly when every entry on both sides can be updated, and a run after any others exactly when no entry blocks it |
| SecurityPromises.CompletedRunMigrates | solutions/migrate-opendistro-security-to-aiven-for-opensearch/avn-migrate-os-security-config.py:393-431 | a completed run has brought every other entry of each of the five sections over, with the values of its fields, and marked none |
| SecurityMigrator.ApplyOpsIsOverlay | solutions/migrate-opendistro-security-to-aiven-for-opensearch/avn-migrate-os-security-config.py:107-111 | a patch that replaces only existing entries overlays the section with its values |
| SecurityMigrator.Target.Patch | solutions/migrate-opendistro-security-to-aiven-for-opensearch/avn-migrate-os-security-config.py:107-111 | the target carries out a whole patch or none of it |
| SecurityMigrator.InplaceFilterNonMigratableFields | solutions/migrate-opendistro-security-to-aiven-for-opensearch/avn-migrate-os-security-config.py:199-207 | the pops and resets leave the dictionary filtered |
| SecurityMigrator.SimpleAdder | solutions/migrate-opendistro-security-to-aiven-for-opensearch/avn-migrate-os-security-config.py:210-223 | one add per entry, together writing exactly the filtered entries |
| SecurityMigrator.AnyFieldChanged | solutions/migrate-opendistro-security-to-aiven-for-opensearch/avn-migrate-os-security-config.py:268-275 | the loop over the keys finds a change exactly when some non-empty field differs |
| SecurityMigrator.UpdateOne | solutions/migrate-opendistro-security-to-aiven-for-opensearch/avn-migrate-os-security-config.py:246-291 | filtering, manager check, comparison and merge in place make the specified decision |
| SecurityMigrator.SectionAwareUpdater | solutions/migrate-opendistro-security-to-aiven-for-opensearch/avn-migrate-os-security-config.py:237-294 | the operations write exactly the planned changes, every name is updated or skipped, and any exception abandons the list |
| SecurityMigrator.AddMissing | solutions/migrate-opendistro-security-to-aiven-for-opensearch/avn-migrate-os-security-config.py:401-413 | the additions of a section leave the target as specified, other sections alone |
| SecurityMigrator.UpdateExisting | solutions/migrate-opendistro-security-to-aiven-for-opensearch/avn-migrate-os-security-config.py:414-430 | so do the updates, decided against what was fetched |
| SecurityMigrator.MigrateSections | solutions/migrate-opendistro-security-to-aiven-for-opensearch/avn-migrate-os-security-config.py:393-431 | the loop leaves the target exactly as a specified run does and completes exactly when it does |

## Left out

- REST queries, configuration, connections, certificates and argument parsing: plumbing without properties of their own.
- SQL text and quoting: a statement is its ordered columns; psycopg and pypika are taken at their word.
- Avro decoding, schema registry, base64 of `binary_fields`, and calendar arithmetic beyond the range of Python dates.
- Values outside Null, Int and Text in change events, and column types whose `=` is not equality, such as json.
- Several tables, partitions and rebalancing: the replicator is modelled for one partition and one table.
- Deleted song records (null on song-feed) and records that change: the charts' results assume stable records.
- `population_mv`: the same shape as `weather_mv`, with `source.lsn` selected twice.
- Events of other kinds than create, read, update and delete, truncation among them, are not selected by the views and are taken not to change the source.
- JSON equality across types, such as `1 == True` in Python: the model's JSON values of different kinds differ.
- SecurityMigrator.MigrateSections: allocates the parsed dictionaries of a section when its turn comes instead of all at the start; nothing else refers to them in between.
- RegionViews.ViewsPartitionSource: the `ts` column is carried along but no result speaks of it.
- The password hashes that OpenSearch does not return: a GET is taken to return what a patch stored.
- `compare_migration_validation_data.py`, `avn-re-apply-ism-policies.py`, data producers and the other examples of the repository: easy members only.
