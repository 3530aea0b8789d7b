/**
 The topology comes to rest: once no input arrives, whatever is sent and delivered next, the
 work that is left shrinks, and while any is left something can be sent or delivered. So the
 charts of every input are really reached, and not only right if they are.
 */
module MusicAtRest {
  import opened Ranking
  import opened BigEndian
  import opened TopFive
  import opened ChartProtocol
  import opened TopFiveSerde
  import opened ChartStore
  import opened MusicTopology

  /** The steps of the topology itself, as opposed to new input. */
  predicate Underway(a: Action) {
    a.Forward? || a.DeliverByGenre? || a.DeliverOverall?
  }

  /** `full` continues `trace` without new input. */
  predicate Settling(trace: seq<Action>, full: seq<Action>) {
    trace <= full && forall i :: |trace| <= i < |full| ==> Underway(full[i])
  }

  // ---------- The work that is left ----------

  function Unforwarded(s: State): set<Song> {
    set song | song in s.counts && (song !in s.forwarded || s.forwarded[song] != s.counts[song])
  }

  function Sizes(inFlight: map<Song, seq<Message>>): map<Song, int> {
    map song | song in inFlight :: |inFlight[song]|
  }

  ghost function Backlog(lane: Lane): int {
    Total(Sizes(lane.inFlight))
  }

  /** A count that is sent on becomes at most two messages on each of the two topics. */
  ghost function Pending(s: State): int {
    5 * |Unforwarded(s)| + Backlog(s.genreLane) + Backlog(s.overallLane)
  }

  lemma {:induction false} TotalAtLeast(sizes: map<Song, int>, song: Song)
    requires forall other :: other in sizes ==> sizes[other] >= 0
    ensures Total(sizes) >= 0
    ensures song in sizes ==> Total(sizes) >= sizes[song]
    decreases |sizes|, song !in sizes
  {
    if song in sizes {
      TotalWithout(sizes, song);
      assert (sizes - {song}).Keys == sizes.Keys - {song} && |sizes.Keys - {song}| < |sizes.Keys|;
      TotalAtLeast(sizes - {song}, song);
    } else if sizes != map[] {
      var other :| other in sizes;
      TotalAtLeast(sizes, other);
    }
  }

  lemma BacklogIsNat(lane: Lane, song: Song)
    ensures Backlog(lane) >= 0
  {
    TotalAtLeast(Sizes(lane.inFlight), song);
  }

  lemma BacklogUpdate(lane: Lane, song: Song, messages: seq<Message>)
    ensures var lane' := lane.(inFlight := lane.inFlight[song := messages]);
            Backlog(lane') == Backlog(lane) + |messages| - |Waiting(lane, song)|
  {
    TotalUpdate(Sizes(lane.inFlight), song, |messages|);
    assert Sizes(lane.inFlight[song := messages]) == Sizes(lane.inFlight)[song := |messages|];
  }

  lemma DeliverShrinks(grouping: Grouping, lane: Lane, song: Song)
    requires Waiting(lane, song) != []
    requires Process(Fetch(lane.store, GroupKey(grouping, song)), Waiting(lane, song)[0]).Ok?
    ensures Backlog(Deliver(grouping, lane, song)) == Backlog(lane) - 1
  {
    BacklogUpdate(lane, song, Waiting(lane, song)[1..]);
  }

  lemma ForwardShrinks(s: State, song: Song)
    requires Enabled(s, Forward(song))
    ensures Pending(ForwardCount(s, song)) < Pending(s)
  {
    var s' := ForwardCount(s, song);
    BacklogUpdate(s.genreLane, song, Waiting(s.genreLane, song) + MusicTopology.Updates(s, song));
    BacklogUpdate(s.overallLane, song, Waiting(s.overallLane, song) + MusicTopology.Updates(s, song));
    assert Unforwarded(s') == Unforwarded(s) - {song} && song in Unforwarded(s);
  }

  /** Every step of the topology leaves less to do, and leaves the songs and counts alone. */
  lemma {:induction false} UnderwayShrinks(trace: seq<Action>, lower: string -> string, s: State, a: Action)
    requires IsRun(trace, lower, s) && AcceptedPlays(trace) <= MAX_LONG
    requires Underway(a) && Enabled(s, a)
    ensures var s' := Next(s, a, lower);
            s'.songs == s.songs && s'.counts == s.counts && Pending(s') < Pending(s)
  {
    match a {
      case Forward(song) => ForwardShrinks(s, song);
      case DeliverByGenre(song) =>
        DeliveriesSucceed(trace, lower, s, song);
        DeliverShrinks(ByGenre(lower), s.genreLane, song);
      case DeliverOverall(song) =>
        DeliveriesSucceed(trace, lower, s, song);
        DeliverShrinks(Overall, s.overallLane, song);
    }
  }

  lemma AllForwarded(s: State)
    requires forall song :: song in s.forwarded ==> song in s.counts
    ensures Unforwarded(s) == {} ==> s.forwarded == s.counts
  {
    assert forall song :: song in s.counts && song !in Unforwarded(s) ==>
        song in s.forwarded && s.forwarded[song] == s.counts[song];
  }

  /** While the topology is not at rest, it can take a step of its own. */
  lemma {:induction false} SomeStepIsEnabled(trace: seq<Action>, lower: string -> string, s: State) returns (a: Action)
    requires IsRun(trace, lower, s) && AcceptedPlays(trace) <= MAX_LONG && !Quiescent(s)
    ensures Underway(a) && Enabled(s, a)
  {
    var _, _ := RunKeepsInvariants(trace, lower, s);
    if s.forwarded != s.counts {
      AllForwarded(s);
      var song :| song in Unforwarded(s);
      a := Forward(song);
    } else {
      var song :| Waiting(s.genreLane, song) != [] || Waiting(s.overallLane, song) != [];
      a := if Waiting(s.genreLane, song) != [] then DeliverByGenre(song) else DeliverOverall(song);
    }
  }

  // ---------- Continuing a run ----------

  lemma {:induction false} RunContinues(trace: seq<Action>, lower: string -> string, s: State, a: Action)
    requires IsRun(trace, lower, s) && Enabled(s, a) && StableFeed(s.songs, a)
    ensures IsRun(trace + [a], lower, Next(s, a, lower))
  {
    assert (trace + [a])[..|trace|] == trace;
  }

  lemma {:induction false} RunIsDetermined(trace: seq<Action>, lower: string -> string, s: State, t: State)
    requires IsRun(trace, lower, s) && IsRun(trace, lower, t)
    ensures s == t
  {
    if trace != [] {
      var before := LastStep(trace, lower, s);
      var other := LastStep(trace, lower, t);
      RunIsDetermined(trace[..|trace| - 1], lower, before, other);
    }
  }

  lemma {:induction false} SongsAreTable(trace: seq<Action>, lower: string -> string, s: State)
    requires IsRun(trace, lower, s)
    ensures s.songs == SongTable(trace)
  {
    if trace != [] {
      var before := LastStep(trace, lower, s);
      SongsAreTable(trace[..|trace| - 1], lower, before);
    }
  }

  /** What is underway does not change what the batch computation sees. */
  lemma {:induction false} BatchStays(trace: seq<Action>, full: seq<Action>, id: Long)
    requires Settling(trace, full)
    ensures SongTable(full) == SongTable(trace)
    ensures AcceptedPlays(full) == AcceptedPlays(trace) && BatchCount(full, id) == BatchCount(trace, id)
    decreases |full|
  {
    if full == trace {
    } else {
      var front := full[..|full| - 1];
      assert trace <= front;
      BatchStays(trace, front, id);
    }
  }

  lemma BatchCountsStay(trace: seq<Action>, full: seq<Action>, grouping: Grouping, key: string)
    requires Settling(trace, full) && AcceptedPlays(trace) <= MAX_LONG
    ensures AcceptedPlays(full) <= MAX_LONG
    ensures BatchCounts(full, grouping, key) == BatchCounts(trace, grouping, key)
  {
    forall id: Long
      ensures SongTable(full) == SongTable(trace) && AcceptedPlays(full) == AcceptedPlays(trace)
      ensures BatchCount(full, id) == BatchCount(trace, id)
    {
      BatchStays(trace, full, id);
    }
    BatchStays(trace, full, 0);
  }

  // ---------- Main results ----------

  /**
   However the topology goes on without new input, it takes no more steps than the work left at
   first: there is no endless settling.
   */
  lemma {:induction false} SettlingEnds(
      trace: seq<Action>, lower: string -> string, s: State, full: seq<Action>, s': State)
    requires IsRun(trace, lower, s) && AcceptedPlays(trace) <= MAX_LONG
    requires Settling(trace, full) && IsRun(full, lower, s')
    ensures s'.songs == s.songs && s'.counts == s.counts
    ensures Pending(s') >= 0 && |full| - |trace| + Pending(s') <= Pending(s)
    decreases |full|
  {
    if full == trace {
      RunIsDetermined(trace, lower, s, s');
      var song := Song(0, "", "", "", "");
      BacklogIsNat(s.genreLane, song);
      BacklogIsNat(s.overallLane, song);
    } else {
      var front := full[..|full| - 1];
      assert trace <= front;
      var before := LastStep(full, lower, s');
      SettlingEnds(trace, lower, s, front, before);
      BatchStays(trace, front, 0);
      UnderwayShrinks(front, lower, before, full[|full| - 1]);
      var song := Song(0, "", "", "", "");
      BacklogIsNat(s'.genreLane, song);
      BacklogIsNat(s'.overallLane, song);
    }
  }

  /**
   From every state of every run, sending and delivering alone lead to rest. The songs and
   counts are then as they were, and the stores hold the batch charts of the run.
   */
  lemma {:induction false} EveryRunComesToRest(trace: seq<Action>, lower: string -> string, s: State)
    returns (full: seq<Action>, s': State)
    requires IsRun(trace, lower, s) && AcceptedPlays(trace) <= MAX_LONG
    ensures Settling(trace, full) && IsRun(full, lower, s') && Quiescent(s')
    ensures s'.songs == s.songs && s'.counts == s.counts
    ensures forall key :: Fetch(s'.genreLane.store, key) == Encode(FiveBest(BatchCounts(trace, ByGenre(lower), key)))
    ensures Fetch(s'.overallLane.store, "all") == Encode(FiveBest(BatchCounts(trace, Overall, "all")))
  {
    full, s' := ContinueToRest(trace, lower, s);
    BatchStays(trace, full, 0);
    ChartsMatchBatch(full, lower, s');
    forall key {
      BatchCountsStay(trace, full, ByGenre(lower), key);
    }
    BatchCountsStay(trace, full, Overall, TOP_FIVE_KEY);
  }

  lemma {:induction false} ContinueToRest(trace: seq<Action>, lower: string -> string, s: State)
    returns (full: seq<Action>, s': State)
    requires IsRun(trace, lower, s) && AcceptedPlays(trace) <= MAX_LONG
    ensures Settling(trace, full) && IsRun(full, lower, s') && Quiescent(s')
    ensures s'.songs == s.songs && s'.counts == s.counts
    decreases Pending(s)
  {
    if Quiescent(s) {
      full, s' := trace, s;
    } else {
      var a := SomeStepIsEnabled(trace, lower, s);
      var next := Next(s, a, lower);
      RunContinues(trace, lower, s, a);
      UnderwayShrinks(trace, lower, s, a);
      SettlingEnds(trace + [a], lower, next, trace + [a], next);
      full, s' := ContinueToRest(trace + [a], lower, next);
    }
  }

  /** The input alone: songs published and plays, each record under its own id and never changed. */
  predicate IsInput(inputs: seq<Action>) {
    inputs == [] ||
    var front, last := inputs[..|inputs| - 1], inputs[|inputs| - 1];
    && IsInput(front)
    && match last
       case Publish(id, song) => song.id == id && (id in SongTable(front) ==> SongTable(front)[id] == song)
       case Play(_) => true
       case _ => false
  }

  /** At any moment any further input is taken. */
  lemma {:induction false} InputIsTaken(trace: seq<Action>, lower: string -> string, s: State, a: Action)
    requires IsRun(trace, lower, s)
    requires a.Play? || (a.Publish? && a.song.id == a.id && (a.id in s.songs ==> s.songs[a.id] == a.song))
    ensures Enabled(s, a) && IsRun(trace + [a], lower, Next(s, a, lower))
  {
    RunContinues(trace, lower, s, a);
  }

  lemma {:induction false} InputIsRun(inputs: seq<Action>, lower: string -> string) returns (s: State)
    requires IsInput(inputs)
    ensures IsRun(inputs, lower, s)
  {
    if inputs == [] {
      s := INITIAL;
    } else {
      var front, last := inputs[..|inputs| - 1], inputs[|inputs| - 1];
      var before := InputIsRun(front, lower);
      SongsAreTable(front, lower, before);
      InputIsTaken(front, lower, before, last);
      assert front + [last] == inputs;
      s := Next(before, last, lower);
    }
  }

  /** For every input there is a run that ends with its batch charts in the stores. */
  lemma {:induction false} EveryInputYieldsItsCharts(inputs: seq<Action>, lower: string -> string)
    returns (full: seq<Action>, s: State)
    requires IsInput(inputs) && AcceptedPlays(inputs) <= MAX_LONG
    ensures Settling(inputs, full) && IsRun(full, lower, s) && Quiescent(s)
    ensures forall key :: Fetch(s.genreLane.store, key) == Encode(FiveBest(BatchCounts(inputs, ByGenre(lower), key)))
    ensures Fetch(s.overallLane.store, "all") == Encode(FiveBest(BatchCounts(inputs, Overall, "all")))
  {
    var taken := InputIsRun(inputs, lower);
    full, s := EveryRunComesToRest(inputs, lower, taken);
  }
}
