/**
 Why a chart that only ever sees single-song updates, and forgets what it evicts, is right.
 The ledger records what the messages so far have said; the chart tracks its five best.
 */
module ChartProtocol {
  import opened Ranking
  import opened TopFive

  /** One repartitioned update: the subtractor gets the old count, the adder the new one. */
  datatype Message = Subtract(value: SongPlayCount) | Add(value: SongPlayCount)

  /**
   counts: the last count added for each song;
   pending: songs whose current count was subtracted and not added again.
   */
  datatype Ledger = Ledger(counts: map<Long, Long>, pending: set<Long>)

  const EMPTY_LEDGER := Ledger(map[], {})

  /** The one thing asked of the upstream counts: a song's count never falls. */
  predicate Rising(l: Ledger, m: Message) {
    m.Add? && m.value.songId in l.counts ==> m.value.plays >= l.counts[m.value.songId]
  }

  function Record(l: Ledger, m: Message): Ledger {
    match m
    case Add(v) => Ledger(l.counts[v.songId := v.plays], l.pending - {v.songId})
    case Subtract(v) => if Holds(v, l.counts) then l.(pending := l.pending + {v.songId}) else l
  }

  /**
   The chart holds current counts of songs that are not pending, and whatever else is not
   pending is beaten by five songs of the ledger.
   */
  ghost predicate Tracks(c: Chart, l: Ledger) {
    && ValidChart(c)
    && (forall e :: e in c.top ==> Holds(e, l.counts) && e.songId !in l.pending)
    && (forall e :: Holds(e, l.counts) && e.songId !in l.pending && e !in c.top ==> |Ahead(e, l.counts)| >= 5)
  }

  function Update(c: Chart, m: Message): Chart {
    match m
    case Add(v) => AddTo(c, v)
    case Subtract(v) => RemoveFrom(c, v)
  }

  lemma AheadOnlyGrows(e: SongPlayCount, counts: map<Long, Long>, v: SongPlayCount)
    requires v.songId != e.songId
    requires v.songId in counts ==> v.plays >= counts[v.songId]
    ensures |Ahead(e, counts)| <= |Ahead(e, counts[v.songId := v.plays])|
  {
    SubsetSize(Ahead(e, counts), Ahead(e, counts[v.songId := v.plays]));
  }

  lemma EvictedIsBeaten(x: SongPlayCount, top: seq<SongPlayCount>, counts: map<Long, Long>)
    requires Ordered(top) && |top| == 5
    requires forall y :: y in top ==> Holds(y, counts) && Before(y, x)
    ensures |Ahead(x, counts)| >= 5
  {
    HeldIdsDistinct(top, counts);
    IdsOfSize(top);
    SubsetSize(IdsOf(top), Ahead(x, counts));
  }

  lemma AddKeepsTrack(c: Chart, l: Ledger, v: SongPlayCount)
    requires Tracks(c, l) && Rising(l, Add(v))
    ensures Tracks(AddTo(c, v), Record(l, Add(v)))
  {
    var c', l' := AddTo(c, v), Record(l, Add(v));
    AddToKeepsBest(c, v);
    assert forall e | Candidate(e, c, v) :: Holds(e, l'.counts) && e.songId !in l'.pending;
    forall e | Holds(e, l'.counts) && e.songId !in l'.pending && e !in c'.top
      ensures |Ahead(e, l'.counts)| >= 5
    {
      MissingAfterAdd(c, l, v, e);
    }
  }

  /** What a chart leaves out after an addition is beaten: it was evicted now, or had been left out before. */
  lemma {:induction false} MissingAfterAdd(c: Chart, l: Ledger, v: SongPlayCount, e: SongPlayCount)
    requires Tracks(c, l) && Rising(l, Add(v))
    requires Holds(e, Record(l, Add(v)).counts) && e.songId !in Record(l, Add(v)).pending && e !in AddTo(c, v).top
    ensures |Ahead(e, Record(l, Add(v)).counts)| >= 5
  {
    if Candidate(e, c, v) {
      AddToKeepsBest(c, v);
      EvictedIsBeaten(e, AddTo(c, v).top, Record(l, Add(v)).counts);
    } else {
      assert e.songId != v.songId && e !in c.top;
      AheadOnlyGrows(e, l.counts, v);
    }
  }

  /**
   A subtraction of the current count takes the song off the chart; any other value, such as
   the old count arriving after the new one, leaves the list as it was.
   */
  lemma SubtractKeepsTrack(c: Chart, l: Ledger, v: SongPlayCount)
    requires Tracks(c, l)
    ensures var list := RemoveFrom(c, v).top;
            forall d: Chart | ValidChart(d) && d.top == list :: Tracks(d, Record(l, Subtract(v)))
    ensures !Holds(v, l.counts) || v.songId in l.pending ==> RemoveFrom(c, v).top == c.top
  {
    forall d: Chart | ValidChart(d) && d.top == RemoveFrom(c, v).top
      ensures Tracks(d, Record(l, Subtract(v)))
    {
      TracksWithout(c, l, v, d);
    }
    if v !in c.top {
      TreeRemoveAbsent(c.top, v);
    }
  }

  lemma TracksWithout(c: Chart, l: Ledger, v: SongPlayCount, d: Chart)
    requires Tracks(c, l) && ValidChart(d) && d.top == RemoveFrom(c, v).top
    ensures Tracks(d, Record(l, Subtract(v)))
  {
    TreeRemoveContents(c.top, v);
  }

  /** At rest the chart is exactly the five best of the last counts. */
  lemma TrackedAtRest(c: Chart, l: Ledger)
    requires Tracks(c, l) && l.pending == {}
    ensures c.top == FiveBest(l.counts)
  {
    LeftOutBeatenSuffices(c.top, l.counts);
  }

  /** Even in the middle of updates, no settled song of rank five or better is missing. */
  lemma BestSettledAreListed(c: Chart, l: Ledger)
    requires Tracks(c, l)
    ensures forall e :: e in FiveBest(l.counts) && e.songId !in l.pending ==> e in c.top
  {
    FiveBestIsFiveBest(l.counts);
  }

  // ---------- When a count falls ----------

  /** A chart at rest leaves out only what all of it beats, and leaves out nothing unless it is full. */
  lemma RestingListBeatsRest(c: Chart, counts: map<Long, Long>, e: SongPlayCount)
    requires Tracks(c, Ledger(counts, {})) && Holds(e, counts) && e !in c.top
    ensures |c.top| == 5 && forall x :: x in c.top ==> Before(x, e)
  {
    TrackedAtRest(c, Ledger(counts, {}));
    FiveBestIsFiveBest(counts);
    SubsetSize(Ahead(e, counts), counts.Keys);
    assert |counts.Keys| == |counts|;
    forall x | x in c.top
      ensures Before(x, e)
    {
      FewerAheadIsBefore(x, e, counts);
    }
  }

  lemma ReplacedContents(c: Chart, before: SongPlayCount, after: SongPlayCount)
    requires ValidChart(c) && before in c.top && before.songId == after.songId
    ensures ValidChart(AddTo(c, after)) && |AddTo(c, after).top| == |c.top|
    ensures forall x :: x in AddTo(c, after).top <==> Candidate(x, c, after)
  {
    TreeRemoveContents(c.top, before);
    DropSongContents(c, after.songId);
    PutContents(DropSong(c, after.songId), after);
  }

  /** What replacing a charted entry by a lower one of the same song leaves. */
  lemma ReplacedListContents(c: Chart, before: SongPlayCount, after: SongPlayCount)
    requires ValidChart(c) && before in c.top && before.songId == after.songId
    ensures var r := AddTo(RemoveFrom(c, before), after);
            ValidChart(r) && |r.top| == |c.top| && forall x :: x in r.top <==> Candidate(x, c, after)
  {
    AddAfterRemove(c, before, after);
    ReplacedContents(c, before, after);
  }

  /**
   A falling count is the case the aggregate cannot handle: it has forgotten who should move
   up. After a settled chart receives such an update, it is right exactly when the song was
   not on the chart, or still belongs to the five best with its lower count.
   */
  lemma {:induction false} FallingCountRightIff(
      c: Chart, counts: map<Long, Long>, before: SongPlayCount, after: SongPlayCount)
    requires Tracks(c, Ledger(counts, {})) && Holds(before, counts)
    requires before.songId == after.songId && after.plays < before.plays
    ensures var counts' := counts[after.songId := after.plays];
            AddTo(RemoveFrom(c, before), after).top == FiveBest(counts') <==>
            before !in c.top || |Ahead(after, counts')| < 5
  {
    var counts' := counts[after.songId := after.plays];
    FiveBestIsFiveBest(counts');
    if before in c.top {
      ReplacedListContents(c, before, after);
      if |Ahead(after, counts')| < 5 {
        FallenButCharted(c, counts, before, after, AddTo(RemoveFrom(c, before), after).top);
      }
    } else {
      AddAfterRemove(c, before, after);
      AddToKeepsBest(c, after);
      FallenOffChart(c, counts, before, after, AddTo(c, after).top);
    }
  }

  lemma FallenButCharted(
      c: Chart, counts: map<Long, Long>, before: SongPlayCount, after: SongPlayCount, top: seq<SongPlayCount>)
    requires Tracks(c, Ledger(counts, {})) && before in c.top
    requires before.songId == after.songId && after.plays < before.plays
    requires |Ahead(after, counts[after.songId := after.plays])| < 5
    requires Ordered(top) && |top| == |c.top| && forall x :: x in top <==> Candidate(x, c, after)
    ensures top == FiveBest(counts[after.songId := after.plays])
  {
    var counts' := counts[after.songId := after.plays];
    forall e | Holds(e, counts') && e !in top
      ensures |Ahead(e, counts')| >= 5
    {
      assert Holds(e, counts) && e !in c.top;
      RestingListBeatsRest(c, counts, e);
      LeftOutAfterFall(top, counts', after, e);
    }
    LeftOutBeatenSuffices(top, counts');
  }

  lemma LeftOutAfterFall(top: seq<SongPlayCount>, counts: map<Long, Long>, after: SongPlayCount, e: SongPlayCount)
    requires Ordered(top) && |top| == 5 && after in top && |Ahead(after, counts)| < 5
    requires Holds(e, counts) && e !in top
    requires forall x :: x in top ==> Holds(x, counts) && (x == after || Before(x, e))
    ensures |Ahead(e, counts)| >= 5
  {
    if Before(after, e) {
      EvictedIsBeaten(e, top, counts);
    } else {
      HeldIdsDistinct(top, counts);
      IdsOfSize(top);
      SubsetSize(IdsOf(top) - {after.songId} + {e.songId}, Ahead(after, counts));
    }
  }

  lemma {:induction false} FallenOffChart(
      c: Chart, counts: map<Long, Long>, before: SongPlayCount, after: SongPlayCount, top: seq<SongPlayCount>)
    requires Tracks(c, Ledger(counts, {})) && Holds(before, counts) && before !in c.top
    requires before.songId == after.songId && after.plays < before.plays
    requires Ordered(top) && |top| <= 5 && forall x :: x in top ==> Candidate(x, c, after)
    requires forall x :: Candidate(x, c, after) && x !in top ==> |top| == 5 && forall y :: y in top ==> Before(y, x)
    ensures top == FiveBest(counts[after.songId := after.plays])
  {
    var counts' := counts[after.songId := after.plays];
    RestingListBeatsRest(c, counts, before);
    assert forall x | x in c.top :: Holds(x, counts') && Before(x, after);
    forall e | Holds(e, counts') && e !in top
      ensures |Ahead(e, counts')| >= 5
    {
      if Candidate(e, c, after) {
        EvictedIsBeaten(e, top, counts');
      } else {
        RestingListBeatsRest(c, counts, e);
        EvictedIsBeaten(e, c.top, counts');
      }
    }
    LeftOutBeatenSuffices(top, counts');
  }

  // ---------- Filling a chart from a list ----------

  function AddAll(c: Chart, entries: seq<SongPlayCount>): Chart {
    if entries == [] then c
    else AddTo(AddAll(c, entries[..|entries| - 1]), entries[|entries| - 1])
  }

  ghost function CountsOf(entries: seq<SongPlayCount>): map<Long, Long> {
    if entries == [] then map[]
    else
      var last := entries[|entries| - 1];
      CountsOf(entries[..|entries| - 1])[last.songId := last.plays]
  }

  lemma {:induction false} CountsOfDistinct(entries: seq<SongPlayCount>)
    requires DistinctIds(entries)
    ensures forall e :: Holds(e, CountsOf(entries)) <==> e in entries
    ensures CountsOf(entries).Keys == IdsOf(entries)
  {
    if entries != [] {
      var front, last := entries[..|entries| - 1], entries[|entries| - 1];
      CountsOfDistinct(front);
      assert forall e :: e in entries <==> e in front || e == last;
      assert forall e | e in front :: e.songId != last.songId;
    }
  }

  lemma {:induction false} AddAllTracks(entries: seq<SongPlayCount>)
    requires DistinctIds(entries)
    ensures Tracks(AddAll(EMPTY_CHART, entries), Ledger(CountsOf(entries), {}))
  {
    if entries != [] {
      var front, last := entries[..|entries| - 1], entries[|entries| - 1];
      AddAllTracks(front);
      CountsOfDistinct(front);
      assert last.songId !in IdsOf(front);
      AddKeepsTrack(AddAll(EMPTY_CHART, front), Ledger(CountsOf(front), {}), last);
    }
  }

  /** Adding entries of different songs, in any order, yields the five best of them. */
  lemma {:induction false} AddAllYieldsFiveBest(entries: seq<SongPlayCount>)
    requires DistinctIds(entries)
    ensures ValidChart(AddAll(EMPTY_CHART, entries))
    ensures AddAll(EMPTY_CHART, entries).top == FiveBest(CountsOf(entries))
  {
    AddAllTracks(entries);
    TrackedAtRest(AddAll(EMPTY_CHART, entries), Ledger(CountsOf(entries), {}));
  }

  /** Refilling an empty chart from the list of a valid one rebuilds both structures. */
  lemma AddAllRebuilds(c: Chart)
    requires ValidChart(c)
    ensures AddAll(EMPTY_CHART, c.top) == c
  {
    forall i, j | 0 <= i < j < |c.top|
      ensures c.top[i].songId != c.top[j].songId
    {
      assert c.top[i] in c.top && c.top[j] in c.top;
    }
    AddAllYieldsFiveBest(c.top);
    CountsOfDistinct(c.top);
    LeftOutBeatenSuffices(c.top, CountsOf(c.top));
    ListDeterminesChart(AddAll(EMPTY_CHART, c.top), c);
  }
}
