/**
 The aggregate that holds a chart: a map by song id beside a tree set in chart order, as the
 source keeps them. `Chart` is its value; `TopFiveSongs` is the object that updates in place.
 */
module TopFive {
  import opened Ranking

  // ---------- The tree set: an ordered list without repetitions ----------

  /** TreeSet.add: no effect when the comparator finds an equal element. */
  function TreeAdd(s: seq<SongPlayCount>, e: SongPlayCount): seq<SongPlayCount> {
    if s == [] then [e]
    else if s[0] == e then s
    else if Before(e, s[0]) then [e] + s
    else [s[0]] + TreeAdd(s[1..], e)
  }

  /** TreeSet.remove: no effect when the element is absent. */
  function TreeRemove(s: seq<SongPlayCount>, e: SongPlayCount): seq<SongPlayCount> {
    if s == [] then []
    else if s[0] == e then s[1..]
    else [s[0]] + TreeRemove(s[1..], e)
  }

  lemma {:induction false} TreeAddContents(s: seq<SongPlayCount>, e: SongPlayCount)
    requires Ordered(s)
    ensures Ordered(TreeAdd(s, e))
    ensures forall x :: x in TreeAdd(s, e) <==> x in s || x == e
    ensures |TreeAdd(s, e)| == if e in s then |s| else |s| + 1
  {
    if s != [] && s[0] != e {
      assert forall x :: x in s <==> x == s[0] || x in s[1..];
      if Before(e, s[0]) {
        assert forall x | x in s :: Before(e, x);
      } else {
        TreeAddContents(s[1..], e);
        assert forall x | x in TreeAdd(s[1..], e) :: Before(s[0], x);
      }
    }
  }

  lemma {:induction false} TreeRemoveContents(s: seq<SongPlayCount>, e: SongPlayCount)
    requires Ordered(s)
    ensures Ordered(TreeRemove(s, e))
    ensures forall x :: x in TreeRemove(s, e) <==> x in s && x != e
    ensures |TreeRemove(s, e)| == if e in s then |s| - 1 else |s|
  {
    if s != [] {
      assert forall x :: x in s <==> x == s[0] || x in s[1..];
      if s[0] != e {
        TreeRemoveContents(s[1..], e);
        assert forall x | x in TreeRemove(s[1..], e) :: Before(s[0], x);
      }
    }
  }

  // ---------- Charts as values ----------

  datatype Chart = Chart(current: map<Long, SongPlayCount>, top: seq<SongPlayCount>)

  const EMPTY_CHART := Chart(map[], [])

  /** Both structures hold the same entries, one per song, in chart order. */
  ghost predicate Consistent(c: Chart) {
    && Ordered(c.top)
    && (forall id :: id in c.current ==> c.current[id].songId == id && c.current[id] in c.top)
    && (forall e :: e in c.top ==> e.songId in c.current && c.current[e.songId] == e)
  }

  /** The representation invariant: consistent structures of at most five entries. */
  ghost predicate ValidChart(c: Chart) {
    Consistent(c) && |c.top| <= 5
  }

  /** The first step of `add`: forget what the chart holds for this song. */
  function DropSong(c: Chart, id: Long): Chart {
    if id in c.current then Chart(c.current - {id}, TreeRemove(c.top, c.current[id])) else c
  }

  /** The second step: put the entry into both structures. */
  function Put(c: Chart, e: SongPlayCount): Chart {
    Chart(c.current[e.songId := e], TreeAdd(c.top, e))
  }

  /** The third step: give up the last entry when there are more than five. */
  function Bound(c: Chart): Chart {
    if |c.top| > 5 then
      var last := c.top[|c.top| - 1];
      Chart(c.current - {last.songId}, TreeRemove(c.top, last))
    else c
  }

  function AddTo(c: Chart, e: SongPlayCount): Chart {
    Bound(Put(DropSong(c, e.songId), e))
  }

  function RemoveFrom(c: Chart, e: SongPlayCount): Chart {
    Chart(c.current - {e.songId}, TreeRemove(c.top, e))
  }

  /** What `add` may keep: the new entry, and the entries of the other songs. */
  predicate Candidate(x: SongPlayCount, c: Chart, e: SongPlayCount) {
    x == e || (x in c.top && x.songId != e.songId)
  }

  /**
   `add` keeps the invariant for every argument. It keeps candidates only, and it drops one
   only for five others that beat it.
   */
  lemma AddToKeepsBest(c: Chart, e: SongPlayCount)
    requires ValidChart(c)
    ensures ValidChart(AddTo(c, e))
    ensures forall x :: x in AddTo(c, e).top ==> Candidate(x, c, e)
    ensures forall x :: Candidate(x, c, e) && x !in AddTo(c, e).top ==>
              |AddTo(c, e).top| == 5 && forall y :: y in AddTo(c, e).top ==> Before(y, x)
  {
    DropSongContents(c, e.songId);
    PutContents(DropSong(c, e.songId), e);
    BoundContents(Put(DropSong(c, e.songId), e));
  }

  lemma DropSongContents(c: Chart, id: Long)
    requires Consistent(c)
    ensures Consistent(DropSong(c, id)) && id !in DropSong(c, id).current
    ensures forall x :: x in DropSong(c, id).top <==> x in c.top && x.songId != id
    ensures |DropSong(c, id).top| <= |c.top|
  {
    if id in c.current {
      TreeRemoveContents(c.top, c.current[id]);
    }
  }

  lemma PutContents(c: Chart, e: SongPlayCount)
    requires Consistent(c) && e.songId !in c.current
    ensures Consistent(Put(c, e))
    ensures |Put(c, e).top| == |c.top| + 1
    ensures forall x :: x in Put(c, e).top <==> x in c.top || x == e
  {
    TreeAddContents(c.top, e);
  }

  lemma BoundContents(c: Chart)
    requires Consistent(c) && |c.top| <= 6
    ensures ValidChart(Bound(c))
    ensures forall x :: x in Bound(c).top ==> x in c.top
    ensures forall x :: x in c.top && x !in Bound(c).top ==>
              |Bound(c).top| == 5 && forall y :: y in Bound(c).top ==> Before(y, x)
  {
    if |c.top| > 5 {
      var last := c.top[|c.top| - 1];
      TreeRemoveContents(c.top, last);
      assert last in c.top;
      assert forall y | y in c.top && y != last :: Before(y, last);
    }
  }

  /** `remove` keeps the invariant exactly when the song is absent or the value is the stored one. */
  lemma RemoveFromValidIff(c: Chart, e: SongPlayCount)
    requires ValidChart(c)
    ensures ValidChart(RemoveFrom(c, e)) <==> (e.songId !in c.current || c.current[e.songId] == e)
  {
    var r := RemoveFrom(c, e);
    TreeRemoveContents(c.top, e);
    if e.songId in c.current && c.current[e.songId] != e {
      assert c.current[e.songId] in r.top;
    }
  }

  /** The invariant makes the map redundant: a valid chart is determined by its list. */
  lemma ListDeterminesChart(c: Chart, d: Chart)
    requires ValidChart(c) && ValidChart(d) && c.top == d.top
    ensures c == d
  {
  }

  /**
   The order of subtractor and adder. For one update of one song (the old value stored, or the
   song absent), both orders leave the same list, hence write the same bytes; but in memory the
   adder-first order loses the map entry of the song whenever the new entry makes the chart,
   and exactly then the invariant fails.
   */
  lemma UpdateOrderSameList(c: Chart, before: SongPlayCount, after: SongPlayCount)
    requires ValidChart(c)
    requires before.songId == after.songId && before != after
    requires before.songId !in c.current || c.current[before.songId] == before
    ensures AddTo(RemoveFrom(c, before), after).top == RemoveFrom(AddTo(c, after), before).top
    ensures ValidChart(AddTo(RemoveFrom(c, before), after))
    ensures after.songId !in RemoveFrom(AddTo(c, after), before).current
    ensures ValidChart(RemoveFrom(AddTo(c, after), before)) <==> after !in AddTo(c, after).top
  {
    var added := AddTo(c, after);
    AddAfterRemove(c, before, after);
    AddToKeepsBest(c, after);
    RemoveFromValidIff(added, before);
    assert before !in added.top;
    TreeRemoveAbsent(added.top, before);
  }

  lemma RemoveIsDrop(c: Chart, e: SongPlayCount)
    requires ValidChart(c)
    requires e.songId !in c.current || c.current[e.songId] == e
    ensures RemoveFrom(c, e) == DropSong(c, e.songId)
  {
    if e.songId !in c.current {
      TreeRemoveAbsent(c.top, e);
      assert c.current - {e.songId} == c.current;
    }
  }

  /** Adding replaces the song's entry anyway, so removing it first makes no difference. */
  lemma AddAfterRemove(c: Chart, before: SongPlayCount, after: SongPlayCount)
    requires ValidChart(c) && before.songId == after.songId
    requires before.songId !in c.current || c.current[before.songId] == before
    ensures AddTo(RemoveFrom(c, before), after) == AddTo(c, after)
  {
    RemoveIsDrop(c, before);
    DropTwice(c, after.songId);
  }

  lemma DropTwice(c: Chart, id: Long)
    requires Consistent(c)
    ensures DropSong(DropSong(c, id), id) == DropSong(c, id)
  {
  }

  lemma TreeRemoveAbsent(s: seq<SongPlayCount>, e: SongPlayCount)
    requires Ordered(s) && e !in s
    ensures TreeRemove(s, e) == s
  {
  }

  /** The tree set stays ordered whatever is called. */
  lemma AlwaysOrdered(c: Chart, e: SongPlayCount)
    requires Ordered(c.top)
    ensures Ordered(AddTo(c, e).top) && Ordered(RemoveFrom(c, e).top)
  {
    TreeRemoveContents(c.top, e);
    var without := DropSong(c, e.songId);
    DropSongOrdered(c, e.songId);
    TreeAddContents(without.top, e);
    BoundOrdered(Put(without, e));
  }

  lemma DropSongOrdered(c: Chart, id: Long)
    requires Ordered(c.top)
    ensures Ordered(DropSong(c, id).top)
  {
    if id in c.current {
      TreeRemoveContents(c.top, c.current[id]);
    }
  }

  lemma BoundOrdered(c: Chart)
    requires Ordered(c.top)
    ensures Ordered(Bound(c).top)
  {
    if |c.top| > 5 {
      TreeRemoveContents(c.top, c.top[|c.top| - 1]);
    }
  }

  // ---------- The object ----------

  class TopFiveSongs {
    var currentSongs: map<Long, SongPlayCount>
    var topFive: seq<SongPlayCount>

    /** What the tree set guarantees by itself, whatever has been called. */
    ghost predicate Valid()
      reads this
    {
      Ordered(topFive)
    }

    ghost function Value(): Chart
      reads this
    {
      Chart(currentSongs, topFive)
    }

    constructor ()
      ensures Valid() && Value() == EMPTY_CHART
    {
      currentSongs, topFive := map[], [];
    }

    method Add(songPlayCount: SongPlayCount)
      requires Valid()
      modifies this
      ensures Valid()
      ensures Value() == AddTo(old(Value()), songPlayCount)
    {
      AlwaysOrdered(Value(), songPlayCount);
      if songPlayCount.songId in currentSongs {
        topFive := TreeRemove(topFive, currentSongs[songPlayCount.songId]);
        currentSongs := currentSongs - {songPlayCount.songId};
      }
      topFive := TreeAdd(topFive, songPlayCount);
      currentSongs := currentSongs[songPlayCount.songId := songPlayCount];
      if |topFive| > 5 {
        var last := topFive[|topFive| - 1];
        currentSongs := currentSongs - {last.songId};
        topFive := TreeRemove(topFive, last);
      }
    }

    method Remove(value: SongPlayCount)
      requires Valid()
      modifies this
      ensures Valid()
      ensures Value() == RemoveFrom(old(Value()), value)
    {
      AlwaysOrdered(Value(), value);
      topFive := TreeRemove(topFive, value);
      currentSongs := currentSongs - {value.songId};
    }
  }
}
