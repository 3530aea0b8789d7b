/**
 The streaming topology as a step machine: the song table, the filtered and joined play counts,
 and the two aggregations fed through repartition topics. Steps interleave freely; the only
 order kept is that of one song's updates on one topic. Records with a null song are dropped
 before counting, and the count table may skip intermediate counts before it forwards one.
 */
module MusicTopology {
  import opened Ranking
  import opened BigEndian
  import opened TopFive
  import opened ChartProtocol
  import opened TopFiveSerde
  import opened ChartStore
  import opened Wrappers

  const MIN_CHARTABLE_DURATION := 30 * 1000
  const TOP_FIVE_KEY := "all"

  datatype Song = Song(id: Long, album: string, artist: string, name: string, genre: string)

  datatype PlayEvent = PlayEvent(songId: Long, duration: Long)

  /** The two ways songPlayCounts is grouped. `lower` is String.toLowerCase. */
  datatype Grouping = ByGenre(lower: string -> string) | Overall

  function GroupKey(grouping: Grouping, song: Song): string {
    match grouping
    case ByGenre(lower) => lower(song.genre)
    case Overall => TOP_FIVE_KEY
  }

  /** One aggregation: updates under way, per song, and the stored charts. */
  datatype Lane = Lane(inFlight: map<Song, seq<Message>>, store: map<string, seq<Byte>>)

  datatype State = State(
    songs: map<Long, Song>,
    counts: map<Song, Long>,
    forwarded: map<Song, Long>,
    genreLane: Lane,
    overallLane: Lane)

  datatype Action =
    | Publish(id: Long, song: Song)
    | Play(event: PlayEvent)
    | Forward(song: Song)
    | DeliverByGenre(song: Song)
    | DeliverOverall(song: Song)

  const INITIAL := State(map[], map[], map[], Lane(map[], map[]), Lane(map[], map[]))

  function Waiting(lane: Lane, song: Song): seq<Message> {
    if song in lane.inFlight then lane.inFlight[song] else []
  }

  /** Long addition wraps. */
  function Increment(c: Long): Long {
    if c == MAX_LONG then MIN_LONG else c + 1
  }

  /** filter, map and leftJoin: the song to count, if the play is long enough and its song known. */
  function Joined(songs: map<Long, Song>, event: PlayEvent): Option<Song> {
    if event.duration >= MIN_CHARTABLE_DURATION && event.songId in songs then Some(songs[event.songId]) else None
  }

  function CountPlay(s: State, event: PlayEvent): State {
    match Joined(s.songs, event)
    case None => s
    case Some(song) => s.(counts := s.counts[song := if song in s.counts then Increment(s.counts[song]) else 1])
  }

  /** What the grouped count table sends when a song's count moves: old value out, new value in. */
  function Updates(s: State, song: Song): seq<Message>
    requires song in s.counts
  {
    (if song in s.forwarded then [Subtract(SongPlayCount(song.id, s.forwarded[song]))] else [])
    + [Add(SongPlayCount(song.id, s.counts[song]))]
  }

  function Send(lane: Lane, song: Song, messages: seq<Message>): Lane {
    lane.(inFlight := lane.inFlight[song := Waiting(lane, song) + messages])
  }

  function ForwardCount(s: State, song: Song): State
    requires song in s.counts
  {
    s.(forwarded := s.forwarded[song := s.counts[song]],
       genreLane := Send(s.genreLane, song, Updates(s, song)),
       overallLane := Send(s.overallLane, song, Updates(s, song)))
  }

  function Deliver(grouping: Grouping, lane: Lane, song: Song): Lane
    requires Waiting(lane, song) != []
  {
    var key := GroupKey(grouping, song);
    match Process(Fetch(lane.store, key), Waiting(lane, song)[0])
    case Err(_) => lane
    case Ok(bytes) => Lane(lane.inFlight[song := Waiting(lane, song)[1..]], lane.store[key := bytes])
  }

  predicate Enabled(s: State, a: Action) {
    match a
    case Publish(_, _) => true
    case Play(_) => true
    case Forward(song) => song in s.counts && (song !in s.forwarded || s.forwarded[song] != s.counts[song])
    case DeliverByGenre(song) => Waiting(s.genreLane, song) != []
    case DeliverOverall(song) => Waiting(s.overallLane, song) != []
  }

  function Next(s: State, a: Action, lower: string -> string): State
    requires Enabled(s, a)
  {
    match a
    case Publish(id, song) => s.(songs := s.songs[id := song])
    case Play(event) => CountPlay(s, event)
    case Forward(song) => ForwardCount(s, song)
    case DeliverByGenre(song) => s.(genreLane := Deliver(ByGenre(lower), s.genreLane, song))
    case DeliverOverall(song) => s.(overallLane := Deliver(Overall, s.overallLane, song))
  }

  // ---------- The batch reference: what the input topics alone say ----------

  function SongTable(trace: seq<Action>): map<Long, Song> {
    if trace == [] then map[]
    else
      var before, last := SongTable(trace[..|trace| - 1]), trace[|trace| - 1];
      if last.Publish? then before[last.id := last.song] else before
  }

  predicate AcceptedPlay(songs: map<Long, Song>, a: Action) {
    a.Play? && a.event.duration >= 30_000 && a.event.songId in songs
  }

  function AcceptedPlays(trace: seq<Action>): nat {
    if trace == [] then 0
    else
      var front, last := trace[..|trace| - 1], trace[|trace| - 1];
      AcceptedPlays(front) + if AcceptedPlay(SongTable(front), last) then 1 else 0
  }

  /** The plays of at least thirty seconds of song `id` processed after it was published. */
  function BatchCount(trace: seq<Action>, id: Long): (n: nat)
    ensures n <= AcceptedPlays(trace)
  {
    if trace == [] then 0
    else
      var front, last := trace[..|trace| - 1], trace[|trace| - 1];
      BatchCount(front, id) + if AcceptedPlay(SongTable(front), last) && last.event.songId == id then 1 else 0
  }

  /** The batch counts of the played songs of one group. */
  function BatchCounts(trace: seq<Action>, grouping: Grouping, group: string): map<Long, Long>
    requires AcceptedPlays(trace) <= MAX_LONG
  {
    var songs := SongTable(trace);
    map id | id in songs && GroupKey(grouping, songs[id]) == group && BatchCount(trace, id) > 0 :: BatchCount(trace, id)
  }

  // ---------- Runs ----------

  /** A published record never changes, and is published under its own id. */
  predicate StableFeed(songs: map<Long, Song>, a: Action) {
    a.Publish? ==> a.song.id == a.id && (a.id in songs ==> songs[a.id] == a.song)
  }

  ghost predicate IsRun(trace: seq<Action>, lower: string -> string, s: State) {
    if trace == [] then s == INITIAL
    else
      var front, last := trace[..|trace| - 1], trace[|trace| - 1];
      exists before :: IsRun(front, lower, before) && Enabled(before, last) && StableFeed(before.songs, last)
                       && s == Next(before, last, lower)
  }

  /** Nothing is cached in the count table or under way on the topics. */
  ghost predicate Quiescent(s: State) {
    && s.forwarded == s.counts
    && forall song :: Waiting(s.genreLane, song) == [] && Waiting(s.overallLane, song) == []
  }

  // ---------- The invariant ----------

  /** The counts are the batch counts, under the one record each id has. */
  ghost predicate CountsInv(s: State, trace: seq<Action>) {
    && s.songs == SongTable(trace)
    && (forall id {:trigger id in s.songs} :: id in s.songs ==> s.songs[id].id == id)
    && (forall song {:trigger song in s.counts} :: song in s.counts ==> song.id in s.songs && s.songs[song.id] == song)
    && (forall id {:trigger BatchCount(trace, id)} :: BatchCount(trace, id) ==
                       if id in s.songs && s.songs[id] in s.counts then s.counts[s.songs[id]] else 0)
    && (forall song :: song in s.counts ==> s.counts[song] > 0)
    && (forall song :: song in s.forwarded ==> song in s.counts && s.forwarded[song] <= s.counts[song])
  }

  /** The updates under way take the ledger's entry of song `id` to `target`, rising all the way. */
  ghost predicate LeadsTo(messages: seq<Message>, l: Ledger, id: Long, target: Long)
    decreases |messages|
  {
    if messages == [] then id in l.counts && l.counts[id] == target && id !in l.pending
    else
      && messages[0].value.songId == id
      && Rising(l, messages[0])
      && LeadsTo(messages[1..], Record(l, messages[0]), id, target)
  }

  function LedgerOf(ledgers: map<string, Ledger>, key: string): Ledger {
    if key in ledgers then ledgers[key] else EMPTY_LEDGER
  }

  /** Every stored chart tracks its group's ledger. */
  ghost predicate StoresTrack(store: map<string, seq<Byte>>, ledgers: map<string, Ledger>) {
    forall key :: KeyTracks(store, ledgers, key)
  }

  ghost predicate KeyTracks(store: map<string, seq<Byte>>, ledgers: map<string, Ledger>, key: string) {
    StoreTracks(Fetch(store, key), LedgerOf(ledgers, key))
  }

  /** A ledger only knows forwarded songs of its own group. */
  ghost predicate KnownSongs(grouping: Grouping, ledgers: map<string, Ledger>, forwarded: map<Song, Long>) {
    && (forall key, id :: id in LedgerOf(ledgers, key).counts ==>
          exists song :: song in forwarded && song.id == id && GroupKey(grouping, song) == key)
    && (forall key :: LedgerOf(ledgers, key).pending <= LedgerOf(ledgers, key).counts.Keys)
  }

  /** Every song's updates under way end at the count forwarded last. */
  ghost predicate UpdatesLead(
      grouping: Grouping, lane: Lane, ledgers: map<string, Ledger>, forwarded: map<Song, Long>)
    {
    && (forall song :: song !in forwarded ==> Waiting(lane, song) == [])
    && (forall song :: song in forwarded ==>
          LeadsTo(Waiting(lane, song), LedgerOf(ledgers, GroupKey(grouping, song)), song.id, forwarded[song]))
  }

  ghost predicate LaneInv(grouping: Grouping, lane: Lane, ledgers: map<string, Ledger>, forwarded: map<Song, Long>) {
    && StoresTrack(lane.store, ledgers)
    && KnownSongs(grouping, ledgers, forwarded)
    && UpdatesLead(grouping, lane, ledgers, forwarded)
  }

  ghost predicate OneRecordPerId(forwarded: map<Song, Long>) {
    forall a, b :: a in forwarded && b in forwarded && a.id == b.id ==> a == b
  }

  /** Only the song's own entry matters to where its updates lead. */
  lemma {:induction false} LeadsToDependsOnOwnEntry(
      messages: seq<Message>, l: Ledger, k: Ledger, id: Long, target: Long)
    requires LeadsTo(messages, l, id, target)
    requires id in l.counts <==> id in k.counts
    requires id in l.counts ==> l.counts[id] == k.counts[id]
    requires id in l.pending <==> id in k.pending
    ensures LeadsTo(messages, k, id, target)
    decreases |messages|
  {
    if messages != [] {
      LeadsToDependsOnOwnEntry(messages[1..], Record(l, messages[0]), Record(k, messages[0]), id, target);
    }
  }

  lemma {:induction false} LeadsToExtends(
      messages: seq<Message>, l: Ledger, id: Long, reached: Long, target: Long)
    requires LeadsTo(messages, l, id, reached) && reached <= target
    ensures LeadsTo(messages + [Subtract(SongPlayCount(id, reached)), Add(SongPlayCount(id, target))], l, id, target)
    decreases |messages|
  {
    var sub, add := Subtract(SongPlayCount(id, reached)), Add(SongPlayCount(id, target));
    if messages == [] {
      var after := Record(l, sub);
      assert LeadsTo([], Record(after, add), id, target);
      assert [add][1..] == [];
      assert LeadsTo([add], after, id, target);
      assert [sub, add][1..] == [add];
      assert [] + [sub, add] == [sub, add];
    } else {
      LeadsToExtends(messages[1..], Record(l, messages[0]), id, reached, target);
      assert (messages + [sub, add])[1..] == messages[1..] + [sub, add];
    }
  }

  lemma ForwardKeepsKnown(
      grouping: Grouping, ledgers: map<string, Ledger>, forwarded: map<Song, Long>, song: Song, count: Long)
    requires KnownSongs(grouping, ledgers, forwarded)
    ensures KnownSongs(grouping, ledgers, forwarded[song := count])
  {
  }

  /** The messages sent for one song extend what is under way to the new count. */
  lemma ForwardLeads(messages: seq<Message>, l: Ledger, s: State, song: Song)
    requires song in s.counts
    requires song in s.forwarded ==>
               LeadsTo(messages, l, song.id, s.forwarded[song]) && s.forwarded[song] <= s.counts[song]
    requires song !in s.forwarded ==> messages == [] && song.id !in l.counts && l.pending <= l.counts.Keys
    ensures LeadsTo(messages + Updates(s, song), l, song.id, s.counts[song])
  {
    if song in s.forwarded {
      LeadsToExtends(messages, l, song.id, s.forwarded[song], s.counts[song]);
      assert Updates(s, song) ==
               [Subtract(SongPlayCount(song.id, s.forwarded[song])), Add(SongPlayCount(song.id, s.counts[song]))];
    } else {
      var add := Add(SongPlayCount(song.id, s.counts[song]));
      assert LeadsTo([], Record(l, add), song.id, s.counts[song]);
      assert [add][1..] == [];
      assert messages + Updates(s, song) == [add];
    }
  }

  lemma NotYetKnown(
      grouping: Grouping, ledgers: map<string, Ledger>, forwarded: map<Song, Long>, song: Song, count: Long)
    requires KnownSongs(grouping, ledgers, forwarded) && song !in forwarded
    requires OneRecordPerId(forwarded[song := count])
    ensures song.id !in LedgerOf(ledgers, GroupKey(grouping, song)).counts
  {
  }

  lemma ForwardKeepsLane(grouping: Grouping, lane: Lane, ledgers: map<string, Ledger>, s: State, song: Song)
    requires KnownSongs(grouping, ledgers, s.forwarded) && UpdatesLead(grouping, lane, ledgers, s.forwarded)
    requires song in s.counts && (song in s.forwarded ==> s.forwarded[song] <= s.counts[song])
    requires OneRecordPerId(s.forwarded[song := s.counts[song]])
    ensures UpdatesLead(grouping, Send(lane, song, Updates(s, song)), ledgers, s.forwarded[song := s.counts[song]])
  {
    var l := LedgerOf(ledgers, GroupKey(grouping, song));
    if song !in s.forwarded {
      NotYetKnown(grouping, ledgers, s.forwarded, song, s.counts[song]);
    }
    ForwardLeads(Waiting(lane, song), l, s, song);
  }

  lemma DeliverKeepsStores(store: map<string, seq<Byte>>, ledgers: map<string, Ledger>, key: string, m: Message)
    requires StoresTrack(store, ledgers) && Rising(LedgerOf(ledgers, key), m)
    ensures Process(Fetch(store, key), m).Ok?
    ensures StoresTrack(store[key := Process(Fetch(store, key), m).value],
                        ledgers[key := Record(LedgerOf(ledgers, key), m)])
  {
    var l := LedgerOf(ledgers, key);
    assert KeyTracks(store, ledgers, key);
    ProcessKeepsTrack(Fetch(store, key), l, m);
    var store' := store[key := Process(Fetch(store, key), m).value];
    var ledgers' := ledgers[key := Record(l, m)];
    forall k
      ensures KeyTracks(store', ledgers', k)
    {
      assert KeyTracks(store, ledgers, k);
    }
  }

  lemma DeliverKeepsUpdates(
      grouping: Grouping, lane: Lane, ledgers: map<string, Ledger>, forwarded: map<Song, Long>, song: Song, lane': Lane)
    requires OneRecordPerId(forwarded) && song in forwarded && Waiting(lane, song) != []
    requires UpdatesLead(grouping, lane, ledgers, forwarded)
    requires lane'.inFlight == lane.inFlight[song := Waiting(lane, song)[1..]]
    ensures var l := LedgerOf(ledgers, GroupKey(grouping, song));
            UpdatesLead(grouping, lane', ledgers[GroupKey(grouping, song) := Record(l, Waiting(lane, song)[0])],
                        forwarded)
  {
    var key, m := GroupKey(grouping, song), Waiting(lane, song)[0];
    var l := LedgerOf(ledgers, key);
    var ledgers' := ledgers[key := Record(l, m)];
    forall other | other in forwarded
      ensures LeadsTo(Waiting(lane', other), LedgerOf(ledgers', GroupKey(grouping, other)), other.id, forwarded[other])
    {
      if other == song {
      } else if GroupKey(grouping, other) == key {
        LeadsToDependsOnOwnEntry(Waiting(lane, other), l, Record(l, m), other.id, forwarded[other]);
      }
    }
  }

  lemma DeliverKeepsKnown(
      grouping: Grouping, ledgers: map<string, Ledger>, forwarded: map<Song, Long>, song: Song, m: Message)
    requires KnownSongs(grouping, ledgers, forwarded)
    requires song in forwarded && m.value.songId == song.id
    ensures var key := GroupKey(grouping, song);
            KnownSongs(grouping, ledgers[key := Record(LedgerOf(ledgers, key), m)], forwarded)
  {
    var key := GroupKey(grouping, song);
    var ledgers' := ledgers[key := Record(LedgerOf(ledgers, key), m)];
    forall k, id | id in LedgerOf(ledgers', k).counts
      ensures exists other :: other in forwarded && other.id == id && GroupKey(grouping, other) == k
    {
      if id in LedgerOf(ledgers, k).counts {
        var other :| other in forwarded && other.id == id && GroupKey(grouping, other) == k;
      } else {
        assert k == key && song.id == id;
      }
    }
    forall k
      ensures LedgerOf(ledgers', k).pending <= LedgerOf(ledgers', k).counts.Keys
    {
      assert LedgerOf(ledgers, k).pending <= LedgerOf(ledgers, k).counts.Keys;
    }
  }

  lemma DeliverKeepsLane(
      grouping: Grouping, lane: Lane, ledgers: map<string, Ledger>, forwarded: map<Song, Long>, song: Song)
    returns (ledgers': map<string, Ledger>)
    requires LaneInv(grouping, lane, ledgers, forwarded) && OneRecordPerId(forwarded)
    requires Waiting(lane, song) != []
    ensures LaneInv(grouping, Deliver(grouping, lane, song), ledgers', forwarded)
  {
    var key, m := GroupKey(grouping, song), Waiting(lane, song)[0];
    ledgers' := ledgers[key := Record(LedgerOf(ledgers, key), m)];
    assert LeadsTo(Waiting(lane, song), LedgerOf(ledgers, key), song.id, forwarded[song]);
    DeliverKeepsStores(lane.store, ledgers, key, m);
    DeliverKeepsUpdates(grouping, lane, ledgers, forwarded, song, Deliver(grouping, lane, song));
    DeliverKeepsKnown(grouping, ledgers, forwarded, song, m);
  }

  lemma BatchStep(trace: seq<Action>, a: Action, id: Long)
    ensures BatchCount(trace + [a], id) ==
              BatchCount(trace, id) + if AcceptedPlay(SongTable(trace), a) && a.event.songId == id then 1 else 0
  {
  }

  lemma SongTableStep(trace: seq<Action>, a: Action)
    ensures SongTable(trace + [a]) == if a.Publish? then SongTable(trace)[a.id := a.song] else SongTable(trace)
  {
  }

  lemma CountsStep(s: State, trace: seq<Action>, a: Action, lower: string -> string)
    requires CountsInv(s, trace) && (AcceptedPlay(s.songs, a) ==> AcceptedPlays(trace) < MAX_LONG)
    requires Enabled(s, a) && StableFeed(s.songs, a)
    ensures CountsInv(Next(s, a, lower), trace + [a])
  {
    SongTableStep(trace, a);
    forall id {
      BatchStep(trace, a, id);
    }
    if AcceptedPlay(s.songs, a) {
      CountsStepAccepted(s, trace, trace + [a], a.event);
    }
  }

  lemma {:induction false} CountsStepAccepted(s: State, trace: seq<Action>, trace': seq<Action>, event: PlayEvent)
    requires CountsInv(s, trace) && AcceptedPlays(trace) < MAX_LONG && AcceptedPlay(s.songs, Play(event))
    requires SongTable(trace') == s.songs
    requires forall id :: BatchCount(trace', id) == BatchCount(trace, id) + if event.songId == id then 1 else 0
    ensures CountsInv(CountPlay(s, event), trace')
  {
    var song := s.songs[event.songId];
    assert song.id == event.songId;
    assert song in s.counts ==> s.counts[song] == BatchCount(trace, song.id);
    var s' := CountPlay(s, event);
    assert s'.counts == s.counts[song := BatchCount(trace, song.id) + 1];
    forall id
      ensures BatchCount(trace', id) ==
                if id in s.songs && s.songs[id] in s'.counts then s'.counts[s.songs[id]] else 0
    {
      assert BatchCount(trace, id) == if id in s.songs && s.songs[id] in s.counts then s.counts[s.songs[id]] else 0;
    }
  }

  lemma ForwardKeepsLanes(
      s: State, trace: seq<Action>, song: Song, lower: string -> string,
      genreLedgers: map<string, Ledger>, overallLedgers: map<string, Ledger>)
    requires CountsInv(s, trace) && Enabled(s, Forward(song))
    requires LaneInv(ByGenre(lower), s.genreLane, genreLedgers, s.forwarded)
    requires LaneInv(Overall, s.overallLane, overallLedgers, s.forwarded)
    ensures var s' := Next(s, Forward(song), lower);
            && LaneInv(ByGenre(lower), s'.genreLane, genreLedgers, s'.forwarded)
            && LaneInv(Overall, s'.overallLane, overallLedgers, s'.forwarded)
  {
    assert OneRecordPerId(s.forwarded);
    assert OneRecordPerId(s.forwarded[song := s.counts[song]]);
    ForwardKeepsLane(ByGenre(lower), s.genreLane, genreLedgers, s, song);
    ForwardKeepsLane(Overall, s.overallLane, overallLedgers, s, song);
    ForwardKeepsKnown(ByGenre(lower), genreLedgers, s.forwarded, song, s.counts[song]);
    ForwardKeepsKnown(Overall, overallLedgers, s.forwarded, song, s.counts[song]);
  }

  lemma StepKeepsLanes(
      s: State, trace: seq<Action>, a: Action, lower: string -> string,
      genreLedgers: map<string, Ledger>, overallLedgers: map<string, Ledger>)
    returns (genreLedgers': map<string, Ledger>, overallLedgers': map<string, Ledger>)
    requires CountsInv(s, trace) && Enabled(s, a)
    requires LaneInv(ByGenre(lower), s.genreLane, genreLedgers, s.forwarded)
    requires LaneInv(Overall, s.overallLane, overallLedgers, s.forwarded)
    ensures LaneInv(ByGenre(lower), Next(s, a, lower).genreLane, genreLedgers', Next(s, a, lower).forwarded)
    ensures LaneInv(Overall, Next(s, a, lower).overallLane, overallLedgers', Next(s, a, lower).forwarded)
  {
    genreLedgers', overallLedgers' := genreLedgers, overallLedgers;
    match a {
      case Forward(song) => ForwardKeepsLanes(s, trace, song, lower, genreLedgers, overallLedgers);
      case DeliverByGenre(song) =>
        genreLedgers' := DeliverKeepsLane(ByGenre(lower), s.genreLane, genreLedgers, s.forwarded, song);
      case DeliverOverall(song) =>
        overallLedgers' := DeliverKeepsLane(Overall, s.overallLane, overallLedgers, s.forwarded, song);
      case Publish(_, _) =>
      case Play(_) =>
    }
  }

  lemma LastStep(trace: seq<Action>, lower: string -> string, s: State) returns (before: State)
    requires trace != [] && IsRun(trace, lower, s)
    ensures var front, a := trace[..|trace| - 1], trace[|trace| - 1];
            && IsRun(front, lower, before) && Enabled(before, a) && StableFeed(before.songs, a)
            && s == Next(before, a, lower)
            && AcceptedPlays(trace) == AcceptedPlays(front) + if AcceptedPlay(SongTable(front), a) then 1 else 0
  {
    var front, a := trace[..|trace| - 1], trace[|trace| - 1];
    before :| IsRun(front, lower, before) && Enabled(before, a) && StableFeed(before.songs, a)
              && s == Next(before, a, lower);
  }

  /** Every run keeps both invariants; the ledgers of the two lanes are the witnesses. */
  lemma {:induction false} RunKeepsInvariants(trace: seq<Action>, lower: string -> string, s: State)
    returns (genreLedgers: map<string, Ledger>, overallLedgers: map<string, Ledger>)
    requires IsRun(trace, lower, s) && AcceptedPlays(trace) <= MAX_LONG
    ensures CountsInv(s, trace)
    ensures LaneInv(ByGenre(lower), s.genreLane, genreLedgers, s.forwarded)
    ensures LaneInv(Overall, s.overallLane, overallLedgers, s.forwarded)
  {
    if trace == [] {
      genreLedgers, overallLedgers := map[], map[];
      InvariantsAtStart(lower);
    } else {
      var front, a := trace[..|trace| - 1], trace[|trace| - 1];
      var before := LastStep(trace, lower, s);
      genreLedgers, overallLedgers := RunKeepsInvariants(front, lower, before);
      genreLedgers, overallLedgers := StepKeepsInvariants(before, front, a, lower, genreLedgers, overallLedgers);
      assert front + [a] == trace;
    }
  }

  lemma InvariantsAtStart(lower: string -> string)
    ensures CountsInv(INITIAL, [])
    ensures LaneInv(ByGenre(lower), INITIAL.genreLane, map[], INITIAL.forwarded)
    ensures LaneInv(Overall, INITIAL.overallLane, map[], INITIAL.forwarded)
  {
    NewStoreTracks();
  }

  lemma StepKeepsInvariants(
      s: State, trace: seq<Action>, a: Action, lower: string -> string,
      genreLedgers: map<string, Ledger>, overallLedgers: map<string, Ledger>)
    returns (genreLedgers': map<string, Ledger>, overallLedgers': map<string, Ledger>)
    requires CountsInv(s, trace) && (AcceptedPlay(s.songs, a) ==> AcceptedPlays(trace) < MAX_LONG)
    requires Enabled(s, a) && StableFeed(s.songs, a)
    requires LaneInv(ByGenre(lower), s.genreLane, genreLedgers, s.forwarded)
    requires LaneInv(Overall, s.overallLane, overallLedgers, s.forwarded)
    ensures CountsInv(Next(s, a, lower), trace + [a])
    ensures LaneInv(ByGenre(lower), Next(s, a, lower).genreLane, genreLedgers', Next(s, a, lower).forwarded)
    ensures LaneInv(Overall, Next(s, a, lower).overallLane, overallLedgers', Next(s, a, lower).forwarded)
  {
    genreLedgers', overallLedgers' := StepKeepsLanes(s, trace, a, lower, genreLedgers, overallLedgers);
    CountsStep(s, trace, a, lower);
  }

  // ---------- Main results ----------

  /**
   At any moment of any run, every play count is the batch count of its song, songs without a
   count have no accepted play, and all counts together are the accepted plays.
   */
  lemma CountsMatchBatch(trace: seq<Action>, lower: string -> string, s: State)
    requires IsRun(trace, lower, s) && AcceptedPlays(trace) <= MAX_LONG
    ensures forall song :: song in s.counts ==> s.counts[song] == BatchCount(trace, song.id)
    ensures forall id :: id in SongTable(trace) && SongTable(trace)[id] !in s.counts ==> BatchCount(trace, id) == 0
    ensures Total(s.counts) == AcceptedPlays(trace)
  {
    var _, _ := RunKeepsInvariants(trace, lower, s);
    CountsAddUp(trace, lower, s);
  }

  /** In any run, loading a stored chart for a waiting update never fails. */
  lemma {:induction false} DeliveriesSucceed(trace: seq<Action>, lower: string -> string, s: State, song: Song)
    requires IsRun(trace, lower, s) && AcceptedPlays(trace) <= MAX_LONG
    ensures Waiting(s.genreLane, song) != [] ==>
              Process(Fetch(s.genreLane.store, lower(song.genre)), Waiting(s.genreLane, song)[0]).Ok?
    ensures Waiting(s.overallLane, song) != [] ==>
              Process(Fetch(s.overallLane.store, TOP_FIVE_KEY), Waiting(s.overallLane, song)[0]).Ok?
  {
    var genreLedgers, overallLedgers := RunKeepsInvariants(trace, lower, s);
    if Waiting(s.genreLane, song) != [] {
      DeliverySucceeds(ByGenre(lower), s.genreLane, genreLedgers, s.forwarded, song);
    }
    if Waiting(s.overallLane, song) != [] {
      DeliverySucceeds(Overall, s.overallLane, overallLedgers, s.forwarded, song);
    }
  }

  lemma DeliverySucceeds(
      grouping: Grouping, lane: Lane, ledgers: map<string, Ledger>, forwarded: map<Song, Long>, song: Song)
    requires LaneInv(grouping, lane, ledgers, forwarded) && Waiting(lane, song) != []
    ensures Process(Fetch(lane.store, GroupKey(grouping, song)), Waiting(lane, song)[0]).Ok?
  {
    var key := GroupKey(grouping, song);
    assert LeadsTo(Waiting(lane, song), LedgerOf(ledgers, key), song.id, forwarded[song]);
    DeliverKeepsStores(lane.store, ledgers, key, Waiting(lane, song)[0]);
  }

  /**
   At rest, both aggregations store exactly the bytes of the batch charts: for every genre key
   the five best of that genre's batch counts, and overall the five best of all of them.
   */
  lemma {:induction false} ChartsMatchBatch(trace: seq<Action>, lower: string -> string, s: State)
    requires IsRun(trace, lower, s) && AcceptedPlays(trace) <= MAX_LONG && Quiescent(s)
    ensures forall key :: Fetch(s.genreLane.store, key) == Encode(FiveBest(BatchCounts(trace, ByGenre(lower), key)))
    ensures Fetch(s.overallLane.store, TOP_FIVE_KEY) == Encode(FiveBest(BatchCounts(trace, Overall, TOP_FIVE_KEY)))
  {
    var genreLedgers, overallLedgers := RunKeepsInvariants(trace, lower, s);
    forall key {
      LaneAtRest(ByGenre(lower), s.genreLane, genreLedgers, s, trace, key);
    }
    LaneAtRest(Overall, s.overallLane, overallLedgers, s, trace, TOP_FIVE_KEY);
  }

  /** At rest the overall chart is the five best of what the genre charts list between them. */
  lemma {:induction false} GenreChartsDetermineOverallChart(trace: seq<Action>, lower: string -> string, s: State)
    requires IsRun(trace, lower, s) && AcceptedPlays(trace) <= MAX_LONG && Quiescent(s)
    ensures var all, genreOf := BatchCounts(trace, Overall, TOP_FIVE_KEY), GenreOf(SongTable(trace), lower);
            && (forall key :: Fetch(s.genreLane.store, key) == Encode(FiveBest(InGroup(all, genreOf, key))))
            && Fetch(s.overallLane.store, TOP_FIVE_KEY) == Encode(FiveBest(OnSomeChart(all, genreOf)))
  {
    var all, genreOf := BatchCounts(trace, Overall, TOP_FIVE_KEY), GenreOf(SongTable(trace), lower);
    ChartsMatchBatch(trace, lower, s);
    forall key
      ensures Fetch(s.genreLane.store, key) == Encode(FiveBest(InGroup(all, genreOf, key)))
    {
      assert InGroup(all, genreOf, key) == BatchCounts(trace, ByGenre(lower), key) by {
        GenreIsPartOfAll(trace, lower, key);
      }
    }
    assert FiveBest(OnSomeChart(all, genreOf)) == FiveBest(all) by {
      GroupChartsDetermineOverall(all, genreOf);
    }
  }

  lemma GenreIsPartOfAll(trace: seq<Action>, lower: string -> string, key: string)
    requires AcceptedPlays(trace) <= MAX_LONG
    ensures BatchCounts(trace, ByGenre(lower), key) ==
              InGroup(BatchCounts(trace, Overall, TOP_FIVE_KEY), GenreOf(SongTable(trace), lower), key)
  {
  }

  function GenreOf(songs: map<Long, Song>, lower: string -> string): map<Long, string> {
    map id | id in songs :: lower(songs[id].genre)
  }

  lemma {:induction false} LaneAtRest(
      grouping: Grouping, lane: Lane, ledgers: map<string, Ledger>, s: State, trace: seq<Action>, key: string)
    requires AcceptedPlays(trace) <= MAX_LONG
    requires CountsInv(s, trace) && LaneInv(grouping, lane, ledgers, s.forwarded)
    requires s.forwarded == s.counts && forall song :: Waiting(lane, song) == []
    ensures Fetch(lane.store, key) == Encode(FiveBest(BatchCounts(trace, grouping, key)))
  {
    LedgerAtRest(grouping, lane, ledgers, s, trace, key);
    assert KeyTracks(lane.store, ledgers, key);
    StoreAtRest(Fetch(lane.store, key), LedgerOf(ledgers, key));
  }

  /** The batch counts of one group, as the count table has them. */
  lemma BatchCountsAre(s: State, trace: seq<Action>, grouping: Grouping, key: string)
    requires AcceptedPlays(trace) <= MAX_LONG && CountsInv(s, trace)
    ensures var batch := BatchCounts(trace, grouping, key);
            && (forall id :: id in batch ==> id in s.songs && s.songs[id] in s.counts)
            && (forall song :: song in s.counts && GroupKey(grouping, song) == key ==>
                  song.id in batch && batch[song.id] == s.counts[song])
            && (forall id :: id in batch ==> GroupKey(grouping, s.songs[id]) == key && s.songs[id].id == id)
  {
    forall song | song in s.counts
      ensures BatchCount(trace, song.id) == s.counts[song]
    {
      assert s.songs[song.id] == song;
    }
  }

  lemma {:induction false} LedgerAtRest(
      grouping: Grouping, lane: Lane, ledgers: map<string, Ledger>, s: State, trace: seq<Action>, key: string)
    requires AcceptedPlays(trace) <= MAX_LONG && CountsInv(s, trace)
    requires KnownSongs(grouping, ledgers, s.forwarded) && UpdatesLead(grouping, lane, ledgers, s.forwarded)
    requires s.forwarded == s.counts && forall song :: Waiting(lane, song) == []
    ensures LedgerOf(ledgers, key) == Ledger(BatchCounts(trace, grouping, key), {})
  {
    BatchCountsAre(s, trace, grouping, key);
    SettledLedger(grouping, lane, ledgers, s.counts, key, BatchCounts(trace, grouping, key), s.songs);
  }

  /** With nothing under way, a ledger holds the counts of its group's songs and has nothing pending. */
  lemma {:induction false} SettledLedger(
      grouping: Grouping, lane: Lane, ledgers: map<string, Ledger>, counts: map<Song, Long>, key: string,
      batch: map<Long, Long>, songs: map<Long, Song>)
    requires KnownSongs(grouping, ledgers, counts) && UpdatesLead(grouping, lane, ledgers, counts)
    requires forall song :: Waiting(lane, song) == []
    requires forall id :: id in batch ==> id in songs && songs[id] in counts
    requires forall song :: song in counts && GroupKey(grouping, song) == key ==>
               song.id in batch && batch[song.id] == counts[song]
    requires forall id :: id in batch ==> GroupKey(grouping, songs[id]) == key && songs[id].id == id
    ensures LedgerOf(ledgers, key) == Ledger(batch, {})
  {
    var l := LedgerOf(ledgers, key);
    forall song | song in counts && GroupKey(grouping, song) == key
      ensures song.id in l.counts && l.counts[song.id] == counts[song] && song.id !in l.pending
    {
      assert LeadsTo(Waiting(lane, song), l, song.id, counts[song]);
    }
    forall id
      ensures id in l.counts <==> id in batch
      ensures id in batch ==> l.counts[id] == batch[id] && id !in l.pending
    {
      if id in batch {
        assert songs[id] in counts;
      }
    }
    assert l.counts == batch && l.pending == {};
  }

  // ---------- Conservation of plays ----------

  ghost function Total(counts: map<Song, int>): int {
    if counts == map[] then 0
    else
      var song :| song in counts;
      counts[song] + Total(counts - {song})
  }

  lemma {:induction false} TotalWithout(counts: map<Song, int>, song: Song)
    requires song in counts
    ensures Total(counts) == counts[song] + Total(counts - {song})
    decreases |counts|
  {
    var first :| first in counts && Total(counts) == counts[first] + Total(counts - {first});
    if first != song {
      assert (counts - {first}) - {song} == (counts - {song}) - {first};
      assert |counts.Keys - {first}| < |counts.Keys| && |counts.Keys - {song}| < |counts.Keys|;
      assert (counts - {first}).Keys == counts.Keys - {first} && (counts - {song}).Keys == counts.Keys - {song};
      TotalWithout(counts - {first}, song);
      TotalWithout(counts - {song}, first);
    }
  }

  lemma TotalUpdate(counts: map<Song, int>, song: Song, count: int)
    ensures Total(counts[song := count]) == Total(counts) + count - if song in counts then counts[song] else 0
  {
    TotalWithout(counts[song := count], song);
    assert counts[song := count] - {song} == counts - {song};
    if song in counts {
      TotalWithout(counts, song);
    } else {
      assert counts - {song} == counts;
    }
  }

  lemma {:induction false} CountsAddUp(trace: seq<Action>, lower: string -> string, s: State)
    requires IsRun(trace, lower, s) && AcceptedPlays(trace) <= MAX_LONG
    ensures Total(s.counts) == AcceptedPlays(trace)
  {
    if trace != [] {
      var front, a := trace[..|trace| - 1], trace[|trace| - 1];
      var before := LastStep(trace, lower, s);
      CountsAddUp(front, lower, before);
      var _, _ := RunKeepsInvariants(front, lower, before);
      StepAddsUp(before, front, a, lower);
    }
  }

  lemma StepAddsUp(s: State, trace: seq<Action>, a: Action, lower: string -> string)
    requires CountsInv(s, trace) && Enabled(s, a)
    requires AcceptedPlay(s.songs, a) ==> AcceptedPlays(trace) < MAX_LONG
    ensures Total(Next(s, a, lower).counts) == Total(s.counts) + if AcceptedPlay(s.songs, a) then 1 else 0
  {
    if AcceptedPlay(s.songs, a) {
      var song := s.songs[a.event.songId];
      assert song in s.counts ==> s.counts[song] == BatchCount(trace, song.id);
      TotalUpdate(s.counts, song, Next(s, a, lower).counts[song]);
    }
  }
}
