/**
 The order of the charts (plays descending, then song id ascending) and the reference
 definition the streaming charts are measured against: sort every count, take five.
 */
module Ranking {

  const MAX_LONG := 0x7FFF_FFFF_FFFF_FFFF
  const MIN_LONG := -0x8000_0000_0000_0000

  /** A Java long. */
  type Long = x: int | MIN_LONG <= x <= MAX_LONG

  datatype SongPlayCount = SongPlayCount(songId: Long, plays: Long)

  /** The comparator of the tree set: negative exactly when `a` comes first. */
  predicate Before(a: SongPlayCount, b: SongPlayCount) {
    a.plays > b.plays || (a.plays == b.plays && a.songId < b.songId)
  }

  predicate Ordered(s: seq<SongPlayCount>) {
    forall i, j :: 0 <= i < j < |s| ==> Before(s[i], s[j])
  }

  /** `e` is the entry that `counts` records for its song. */
  predicate Holds(e: SongPlayCount, counts: map<Long, Long>) {
    e.songId in counts && counts[e.songId] == e.plays
  }

  /** The songs that stand before `e` when all of `counts` is ranked. */
  ghost function Ahead(e: SongPlayCount, counts: map<Long, Long>): set<Long> {
    set id | id in counts && Before(SongPlayCount(id, counts[id]), e)
  }

  /** `top` lists, in chart order, exactly the entries that fewer than five others beat. */
  ghost predicate IsFiveBest(top: seq<SongPlayCount>, counts: map<Long, Long>) {
    && Ordered(top)
    && forall e :: e in top <==> Holds(e, counts) && |Ahead(e, counts)| < 5
  }

  // ---------- Sorting every count ----------

  ghost function BestId(counts: map<Long, Long>): (best: Long)
    requires counts != map[]
    ensures best in counts
    ensures forall id | id in counts && id != best ::
              Before(SongPlayCount(best, counts[best]), SongPlayCount(id, counts[id]))
    decreases |counts|
  {
    var some :| some in counts;
    var rest := counts - {some};
    assert counts.Keys == rest.Keys + {some};
    if rest == map[] then
      some
    else
      var other := BestId(rest);
      assert forall id | id in counts && id != some :: id in rest;
      if Before(SongPlayCount(some, counts[some]), SongPlayCount(other, counts[other])) then some else other
  }

  ghost function SortAll(counts: map<Long, Long>): (s: seq<SongPlayCount>)
    ensures |s| == |counts|
    ensures Ordered(s)
    ensures forall e :: e in s <==> Holds(e, counts)
    decreases |counts|
  {
    if counts == map[] then []
    else
      var best := BestId(counts);
      var rest := counts - {best};
      assert counts.Keys == rest.Keys + {best};
      var first, others := SongPlayCount(best, counts[best]), SortAll(rest);
      assert forall e | e in others :: Before(first, e);
      [first] + others
  }

  /** Sort all counts and take five. */
  ghost function FiveBest(counts: map<Long, Long>): (top: seq<SongPlayCount>)
    ensures |top| == if |counts| < 5 then |counts| else 5
  {
    var all := SortAll(counts);
    if |all| <= 5 then all else all[..5]
  }

  /** In a full ranking, the entry at position i is beaten by exactly i songs. */
  lemma {:induction false} RankIsPosition(s: seq<SongPlayCount>, counts: map<Long, Long>, i: nat)
    requires Ordered(s) && forall e :: e in s <==> Holds(e, counts)
    requires i < |s|
    ensures |Ahead(s[i], counts)| == i
  {
    if i == 0 {
      forall id | id in counts
        ensures !Before(SongPlayCount(id, counts[id]), s[0])
      {
        assert SongPlayCount(id, counts[id]) in s;
      }
      assert Ahead(s[0], counts) == {};
    } else {
      RankIsPosition(s, counts, i - 1);
      var previous := s[i - 1];
      assert previous in s;
      forall id | id in counts
        ensures id in Ahead(s[i], counts) <==> id in Ahead(previous, counts) || id == previous.songId
      {
        assert SongPlayCount(id, counts[id]) in s;
      }
      assert Ahead(s[i], counts) == Ahead(previous, counts) + {previous.songId};
    }
  }

  /** Sorting and cutting after five selects exactly the entries beaten by fewer than five. */
  lemma FiveBestIsFiveBest(counts: map<Long, Long>)
    ensures IsFiveBest(FiveBest(counts), counts)
  {
    var all := SortAll(counts);
    var top := FiveBest(counts);
    forall e
      ensures e in top <==> Holds(e, counts) && |Ahead(e, counts)| < 5
    {
      if Holds(e, counts) {
        assert e in all;
        var k :| 0 <= k < |all| && all[k] == e;
        RankIsPosition(all, counts, k);
        if k < 5 {
          assert top[k] == e;
        } else {
          assert forall j | 0 <= j < |top| :: Before(top[j], e);
        }
      }
    }
  }

  /** Two ordered lists with the same members are the same list. */
  lemma {:induction false} OrderedUnique(s: seq<SongPlayCount>, t: seq<SongPlayCount>)
    requires Ordered(s) && Ordered(t)
    requires forall e :: e in s <==> e in t
    ensures s == t
  {
    assert |s| > 0 ==> s[0] in t;
    assert |t| > 0 ==> t[0] in s;
    if s != [] {
      assert s[0] == t[0];
      forall e
        ensures e in s[1..] <==> e in t[1..]
      {
        if e in s[1..] { assert e in s && e != s[0]; assert e in t; }
        if e in t[1..] { assert e in t && e != t[0]; assert e in s; }
      }
      OrderedUnique(s[1..], t[1..]);
      assert s == [s[0]] + s[1..] && t == [t[0]] + t[1..];
    }
  }

  /** The five best are determined: any list that meets the definition is the sorted prefix. */
  lemma FiveBestUnique(top: seq<SongPlayCount>, counts: map<Long, Long>)
    requires IsFiveBest(top, counts)
    ensures top == FiveBest(counts)
  {
    FiveBestIsFiveBest(counts);
    OrderedUnique(top, FiveBest(counts));
  }

  lemma ListedBeatsUnlisted(counts: map<Long, Long>, e: SongPlayCount, x: SongPlayCount)
    requires e in FiveBest(counts) && Holds(x, counts) && x !in FiveBest(counts)
    ensures Before(e, x)
  {
    FiveBestIsFiveBest(counts);
    FewerAheadIsBefore(e, x, counts);
  }

  /** The list without the comparator: plays fall along it, and equal plays stand by rising song id. */
  lemma FiveBestFalls(counts: map<Long, Long>, i: nat, j: nat)
    requires i < j < |FiveBest(counts)|
    ensures var top := FiveBest(counts);
            top[i].plays > top[j].plays || (top[i].plays == top[j].plays && top[i].songId < top[j].songId)
  {
    FiveBestIsFiveBest(counts);
    assert Before(FiveBest(counts)[i], FiveBest(counts)[j]);
  }

  /** A counted song that is left out has fewer plays than every listed one, or as many and a larger id. */
  lemma LeftOutHasFewer(counts: map<Long, Long>, id: Long, e: SongPlayCount)
    requires id in counts && SongPlayCount(id, counts[id]) !in FiveBest(counts) && e in FiveBest(counts)
    ensures counts[id] < e.plays || (counts[id] == e.plays && e.songId < id)
  {
    ListedBeatsUnlisted(counts, e, SongPlayCount(id, counts[id]));
  }

  ghost function IdsOf(s: seq<SongPlayCount>): set<Long> {
    set e | e in s :: e.songId
  }

  predicate DistinctIds(s: seq<SongPlayCount>) {
    forall i, j :: 0 <= i < j < |s| ==> s[i].songId != s[j].songId
  }

  lemma {:induction false} IdsOfSize(s: seq<SongPlayCount>)
    requires DistinctIds(s)
    ensures |IdsOf(s)| == |s|
  {
    if s != [] {
      var front, last := s[..|s| - 1], s[|s| - 1];
      IdsOfSize(front);
      assert forall e :: e in s <==> e in front || e == last;
      assert IdsOf(s) == IdsOf(front) + {last.songId};
    }
  }

  lemma SubsetSize<T>(a: set<T>, b: set<T>)
    requires a <= b
    ensures |a| <= |b|
  {
    assert b == a + (b - a);
  }

  lemma HeldIdsDistinct(s: seq<SongPlayCount>, counts: map<Long, Long>)
    requires Ordered(s) && forall e :: e in s ==> Holds(e, counts)
    ensures DistinctIds(s)
  {
    forall i, j | 0 <= i < j < |s|
      ensures s[i].songId != s[j].songId
    {
      assert Holds(s[i], counts) && Holds(s[j], counts) && Before(s[i], s[j]);
    }
  }

  lemma OneMore(part: seq<SongPlayCount>, s: seq<SongPlayCount>, e: SongPlayCount, counts: map<Long, Long>)
    requires forall b :: b in part ==> b in s && Holds(b, counts)
    requires e in s && e !in part && Holds(e, counts)
    ensures |IdsOf(part)| < |IdsOf(s)|
  {
    assert forall b | b in part :: b.songId == e.songId ==> b == e;
    SubsetSize(IdsOf(part) + {e.songId}, IdsOf(s));
  }

  /**
   A short list of current entries is exactly the five best as soon as everything it leaves out
   is beaten by five: nothing has to be checked about the entries it keeps.
   */
  lemma LeftOutBeatenSuffices(top: seq<SongPlayCount>, counts: map<Long, Long>)
    requires Ordered(top) && |top| <= 5
    requires forall e :: e in top ==> Holds(e, counts)
    requires forall e :: Holds(e, counts) && e !in top ==> |Ahead(e, counts)| >= 5
    ensures top == FiveBest(counts)
  {
    var best := FiveBest(counts);
    FiveBestIsFiveBest(counts);
    HeldIdsDistinct(top, counts);
    HeldIdsDistinct(best, counts);
    IdsOfSize(top);
    IdsOfSize(best);
    assert forall b :: b in best ==> b in top;
    forall e | e in top
      ensures |Ahead(e, counts)| < 5
    {
      if e !in best {
        OneMore(best, top, e, counts);
        SubsetSize(Ahead(e, counts), counts.Keys);
      }
    }
    FiveBestUnique(top, counts);
  }

  lemma FewerAheadIsBefore(a: SongPlayCount, b: SongPlayCount, counts: map<Long, Long>)
    requires |Ahead(a, counts)| < |Ahead(b, counts)|
    ensures Before(a, b)
  {
    if a == b || Before(b, a) {
      SubsetSize(Ahead(b, counts), Ahead(a, counts));
    }
  }

  /**
   Ranking any part of the counts that still contains the five best of the whole gives the
   five best of the whole.
   */
  lemma FiveBestOfPart(part: map<Long, Long>, counts: map<Long, Long>)
    requires forall id :: id in part ==> id in counts && part[id] == counts[id]
    requires forall e :: e in FiveBest(counts) ==> Holds(e, part)
    ensures FiveBest(part) == FiveBest(counts)
  {
    var best := FiveBest(counts);
    FiveBestIsFiveBest(counts);
    HeldIdsDistinct(best, counts);
    IdsOfSize(best);
    forall e | Holds(e, part) && e !in best
      ensures |Ahead(e, part)| >= 5
    {
      assert Holds(e, counts) && |Ahead(e, counts)| >= 5;
      SubsetSize(Ahead(e, counts), counts.Keys);
      assert |counts.Keys| == |counts|;
      forall b | b in best
        ensures b.songId in Ahead(e, part)
      {
        FewerAheadIsBefore(b, e, counts);
      }
      SubsetSize(IdsOf(best), Ahead(e, part));
    }
    LeftOutBeatenSuffices(best, part);
  }

  /** The part of `counts` whose songs belong to one group. */
  function InGroup(counts: map<Long, Long>, group: map<Long, string>, g: string): map<Long, Long> {
    map id | id in counts && id in group && group[id] == g :: counts[id]
  }

  /** Everything that appears on the chart of some group. */
  ghost function OnSomeChart(counts: map<Long, Long>, group: map<Long, string>): map<Long, Long> {
    map id | id in counts && id in group &&
             SongPlayCount(id, counts[id]) in FiveBest(InGroup(counts, group, group[id])) :: counts[id]
  }

  lemma OnSomeChartIff(counts: map<Long, Long>, group: map<Long, string>, e: SongPlayCount)
    ensures Holds(e, OnSomeChart(counts, group)) <==> exists g :: e in FiveBest(InGroup(counts, group, g))
  {
    if g :| e in FiveBest(InGroup(counts, group, g)) {
      FiveBestIsFiveBest(InGroup(counts, group, g));
      assert Holds(e, InGroup(counts, group, g));
    }
  }

  /** Taking the five best of the union of all group charts gives the overall chart. */
  lemma {:induction false} GroupChartsDetermineOverall(counts: map<Long, Long>, group: map<Long, string>)
    requires counts.Keys <= group.Keys
    ensures FiveBest(OnSomeChart(counts, group)) == FiveBest(counts)
  {
    FiveBestIsFiveBest(counts);
    forall e | e in FiveBest(counts)
      ensures Holds(e, OnSomeChart(counts, group))
    {
      var mine := InGroup(counts, group, group[e.songId]);
      FiveBestIsFiveBest(mine);
      SubsetSize(Ahead(e, mine), Ahead(e, counts));
      assert Holds(e, mine);
    }
    FiveBestOfPart(OnSomeChart(counts, group), counts);
  }
}
