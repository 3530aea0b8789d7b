/**
 Region tables fed from change events through a materialized view into a ReplacingMergeTree:
 key id, version lsn, tombstone on delete. Background merges may run at any time.
 */
module RegionViews {
  import opened Wrappers

  datatype Weather = Weather(id: nat, region: nat, temperature: real)

  /** A change event; an absent image reads as default values. */
  datatype Event = Event(op: char, before: Weather, after: Weather, lsn: nat, tsMs: nat)

  datatype Stored = Stored(id: nat, ts: nat, region: nat, temperature: real, version: nat, deleted: bool)

  predicate IsData(e: Event) {
    e.op == 'c' || e.op == 'r' || e.op == 'u' || e.op == 'd'
  }

  /** if(op = 'd', before, after) */
  function Subject(e: Event): Weather {
    if e.op == 'd' then e.before else e.after
  }

  /** weather_mv for one region. */
  function Select(region: nat, e: Event): Option<Stored> {
    var row := Subject(e);
    if row.region == region && IsData(e) then
      Some(Stored(row.id, e.tsMs, row.region, row.temperature, e.lsn, e.op == 'd'))
    else None
  }

  /** The view takes creations, snapshots and updates from `after`, deletions from `before`, and nothing else. */
  lemma SelectMeans(region: nat, e: Event)
    ensures e.op == 'c' || e.op == 'r' || e.op == 'u' ==>
              Select(region, e) ==
                if e.after.region == region then
                  Some(Stored(e.after.id, e.tsMs, e.after.region, e.after.temperature, e.lsn, false))
                else None
    ensures e.op == 'd' ==>
              Select(region, e) ==
                if e.before.region == region then
                  Some(Stored(e.before.id, e.tsMs, e.before.region, e.before.temperature, e.lsn, true))
                else None
    ensures Select(region, e).Some? ==> e.op == 'c' || e.op == 'r' || e.op == 'u' || e.op == 'd'
  {
  }

  function SelectAll(region: nat, events: seq<Event>): seq<Stored> {
    if events == [] then []
    else
      SelectAll(region, events[..|events| - 1]) +
      match Select(region, events[|events| - 1])
      case None => []
      case Some(row) => [row]
  }

  // ---------- ReplacingMergeTree(version, deleted) ----------

  /** The row FINAL considers for `id`: the highest version, the last inserted among equals. */
  function Winner(rows: seq<Stored>, id: nat): Option<Stored> {
    if rows == [] then None
    else
      var w, last := Winner(rows[..|rows| - 1], id), rows[|rows| - 1];
      if last.id == id && (w == None || last.version >= w.value.version) then Some(last) else w
  }

  predicate Live(w: Option<Stored>) {
    w.Some? && !w.value.deleted
  }

  /** SELECT ... FINAL */
  function Final(rows: seq<Stored>): map<nat, Stored> {
    map r | r in rows && Live(Winner(rows, r.id)) :: r.id := Winner(rows, r.id).value
  }

  /** Put a row into a merged part: it replaces the part's row of its id unless that is newer. */
  function Upsert(part: seq<Stored>, row: Stored): seq<Stored> {
    if part == [] then [row]
    else if part[0].id == row.id then (if row.version >= part[0].version then [row] + part[1..] else part)
    else [part[0]] + Upsert(part[1..], row)
  }

  /** A merge of some rows keeps the winner of each id. */
  function Merged(rows: seq<Stored>): seq<Stored> {
    if rows == [] then [] else Upsert(Merged(rows[..|rows| - 1]), rows[|rows| - 1])
  }

  datatype Step =
    | Deliver(events: seq<Event>)
    | Merge(group: seq<Stored>, rest: seq<Stored>)

  /** Any rows may be merged, whatever stays aside. */
  ghost predicate Enabled(rows: seq<Stored>, step: Step) {
    step.Merge? ==> multiset(rows) == multiset(step.group) + multiset(step.rest)
  }

  function Next(region: nat, rows: seq<Stored>, step: Step): seq<Stored> {
    match step
    case Deliver(events) => rows + SelectAll(region, events)
    case Merge(group, rest) => rest + Merged(group)
  }

  ghost predicate IsRun(region: nat, steps: seq<Step>, rows: seq<Stored>) {
    if steps == [] then rows == []
    else
      var front, last := steps[..|steps| - 1], steps[|steps| - 1];
      exists before :: IsRun(region, front, before) && Enabled(before, last) && rows == Next(region, before, last)
  }

  function Delivered(steps: seq<Step>): seq<Event> {
    if steps == [] then []
    else
      Delivered(steps[..|steps| - 1]) +
      match steps[|steps| - 1]
      case Deliver(events) => events
      case Merge(_, _) => []
  }

  /** At any moment any events can arrive, and any rows can be merged. */
  lemma {:induction false} RunContinues(
      region: nat, steps: seq<Step>, rows: seq<Stored>, events: seq<Event>, group: seq<Stored>, rest: seq<Stored>)
    requires IsRun(region, steps, rows)
    ensures IsRun(region, steps + [Deliver(events)], rows + SelectAll(region, events))
    ensures multiset(rows) == multiset(group) + multiset(rest) ==>
              IsRun(region, steps + [Merge(group, rest)], rest + Merged(group))
  {
    assert (steps + [Deliver(events)])[..|steps|] == steps;
    assert (steps + [Merge(group, rest)])[..|steps|] == steps;
    if multiset(rows) == multiset(group) + multiset(rest) {
      assert Enabled(rows, Merge(group, rest));
    }
  }

  // ---------- Winners depend on contents only ----------

  /** Rows of one id and version are copies of one row. */
  ghost predicate OneRowPerVersion(rows: seq<Stored>) {
    forall a, b :: a in rows && b in rows && a.id == b.id && a.version == b.version ==> a == b
  }

  ghost predicate IsWinner(w: Stored, rows: seq<Stored>, id: nat) {
    w in rows && w.id == id && forall r :: r in rows && r.id == id ==> r.version <= w.version
  }

  lemma {:induction false} WinnerIsWinner(rows: seq<Stored>, id: nat)
    ensures Winner(rows, id).Some? <==> exists r :: r in rows && r.id == id
    ensures Winner(rows, id).Some? ==> IsWinner(Winner(rows, id).value, rows, id)
  {
    if rows != [] {
      var front, last := rows[..|rows| - 1], rows[|rows| - 1];
      WinnerIsWinner(front, id);
      assert forall r :: r in rows <==> r in front || r == last;
    }
  }

  /** Some row of the same id is at least as new. */
  ghost predicate Covered(r: Stored, rows: seq<Stored>) {
    exists s :: s in rows && s.id == r.id && s.version >= r.version
  }

  ghost predicate AllCovered(rows: seq<Stored>, others: seq<Stored>) {
    forall r {:trigger Covered(r, others)} :: r in rows ==> Covered(r, others)
  }

  /**
   If two tables hold the same rows up to rows that a newer version in the other table covers,
   they have the same winners.
   */
  lemma {:induction false} SameWinner(rows: seq<Stored>, others: seq<Stored>, id: nat)
    requires OneRowPerVersion(rows)
    requires forall r :: r in others ==> r in rows
    requires AllCovered(rows, others)
    ensures Winner(rows, id) == Winner(others, id)
  {
    WinnerIsWinner(rows, id);
    WinnerIsWinner(others, id);
    if Winner(rows, id).Some? {
      var w := Winner(rows, id).value;
      assert Covered(w, others);
      var s :| s in others && s.id == w.id && s.version >= w.version;
    }
  }

  lemma SameWinnersSameFinal(rows: seq<Stored>, others: seq<Stored>)
    requires forall id :: Winner(rows, id) == Winner(others, id)
    ensures Final(rows) == Final(others)
  {
    FinalIsLiveWinners(rows);
    FinalIsLiveWinners(others);
  }

  lemma FinalIsLiveWinners(rows: seq<Stored>)
    ensures forall id :: id in Final(rows) <==> Live(Winner(rows, id))
    ensures forall id :: id in Final(rows) ==> Final(rows)[id] == Winner(rows, id).value
  {
    forall id
      ensures id in Final(rows) <==> Live(Winner(rows, id))
      ensures id in Final(rows) ==> Final(rows)[id] == Winner(rows, id).value
    {
      WinnerIsWinner(rows, id);
    }
  }

  lemma {:induction false} UpsertContents(part: seq<Stored>, row: Stored)
    ensures forall r :: r in Upsert(part, row) ==> r in part || r == row
    ensures Covered(row, Upsert(part, row)) && AllCovered(part, Upsert(part, row))
  {
    var after := Upsert(part, row);
    if part == [] {
      assert row in after;
    } else if part[0].id == row.id {
      assert after[0] in after;
      forall r | r in part
        ensures Covered(r, after)
      {
        assert r == part[0] || r in part[1..];
        assert r in part[1..] ==> r in after;
      }
    } else {
      var rest := Upsert(part[1..], row);
      UpsertContents(part[1..], row);
      forall r | Covered(r, rest)
        ensures Covered(r, after)
      {
        var s :| s in rest && s.id == r.id && s.version >= r.version;
        assert s in after;
      }
      forall r | r in part
        ensures Covered(r, after)
      {
        if r in part[1..] {
          assert Covered(r, rest);
        } else {
          assert r == part[0] == after[0];
        }
      }
    }
  }

  lemma CoveredTrans(r: Stored, rows: seq<Stored>, others: seq<Stored>)
    requires Covered(r, rows) && AllCovered(rows, others)
    ensures Covered(r, others)
  {
    var s :| s in rows && s.id == r.id && s.version >= r.version;
    assert Covered(s, others);
  }

  lemma {:induction false} MergedContents(rows: seq<Stored>)
    ensures forall r :: r in Merged(rows) ==> r in rows
    ensures AllCovered(rows, Merged(rows))
  {
    if rows != [] {
      var front, last := rows[..|rows| - 1], rows[|rows| - 1];
      MergedContents(front);
      UpsertContents(Merged(front), last);
      assert forall r :: r in rows <==> r in front || r == last;
      forall r | r in rows
        ensures Covered(r, Merged(rows))
      {
        if r != last {
          assert Covered(r, Merged(front));
          CoveredTrans(r, Merged(front), Merged(rows));
        }
      }
    }
  }

  /** A background merge of any rows, at any time, is invisible to FINAL. */
  lemma {:induction false} MergeInvisible(rows: seq<Stored>, group: seq<Stored>, rest: seq<Stored>)
    requires OneRowPerVersion(rows) && multiset(rows) == multiset(group) + multiset(rest)
    ensures Final(rest + Merged(group)) == Final(rows)
    ensures forall id :: Winner(rest + Merged(group), id) == Winner(rows, id)
    ensures forall r :: r in rest + Merged(group) ==> r in rows
  {
    MergeContents(rows, group, rest);
    forall id {
      SameWinner(rows, rest + Merged(group), id);
    }
    SameWinnersSameFinal(rows, rest + Merged(group));
  }

  lemma MergeContents(rows: seq<Stored>, group: seq<Stored>, rest: seq<Stored>)
    requires multiset(rows) == multiset(group) + multiset(rest)
    ensures forall r :: r in rest + Merged(group) ==> r in rows
    ensures AllCovered(rows, rest + Merged(group))
  {
    MergedContents(group);
    forall r
      ensures r in rows <==> r in group || r in rest
    {
      assert r in multiset(rows) <==> r in multiset(group) || r in multiset(rest);
    }
    forall r | r in rows
      ensures Covered(r, rest + Merged(group))
    {
      if r in rest {
        assert r in rest + Merged(group);
      } else {
        assert Covered(r, Merged(group));
        var s :| s in Merged(group) && s.id == r.id && s.version >= r.version;
        assert s in rest + Merged(group);
      }
    }
  }

  /** So is inserting a row that is a duplicate or older than one of its id. */
  lemma StaleInsertInvisible(rows: seq<Stored>, row: Stored)
    requires OneRowPerVersion(rows + [row]) && Covered(row, rows)
    ensures Final(rows + [row]) == Final(rows)
  {
    assert AllCovered(rows + [row], rows);
    forall id {
      SameWinner(rows + [row], rows, id);
    }
    SameWinnersSameFinal(rows + [row], rows);
  }

  // ---------- Convergence ----------

  lemma {:induction false} SelectAllContents(region: nat, events: seq<Event>)
    ensures forall r :: r in SelectAll(region, events) <==> exists e :: e in events && Select(region, e) == Some(r)
  {
    if events != [] {
      var front, last := events[..|events| - 1], events[|events| - 1];
      SelectAllContents(region, front);
      assert forall e :: e in events <==> e in front || e == last;
    }
  }

  /** Data events about one id carry different log positions. */
  ghost predicate DistinctVersions(events: seq<Event>) {
    forall a, b :: a in events && b in events && IsData(a) && IsData(b)
                   && Subject(a).id == Subject(b).id && a.lsn == b.lsn
                   ==> a == b
  }

  lemma SelectedOneRowPerVersion(region: nat, events: seq<Event>)
    requires DistinctVersions(events)
    ensures OneRowPerVersion(SelectAll(region, events))
  {
    SelectAllContents(region, events);
  }

  lemma {:induction false} RunContents(region: nat, steps: seq<Step>, rows: seq<Stored>)
    requires IsRun(region, steps, rows)
    ensures forall r :: r in rows ==> r in SelectAll(region, Delivered(steps))
    ensures AllCovered(SelectAll(region, Delivered(steps)), rows)
  {
    if steps != [] {
      var front, last := steps[..|steps| - 1], steps[|steps| - 1];
      var before :| IsRun(region, front, before) && Enabled(before, last) && rows == Next(region, before, last);
      RunContents(region, front, before);
      var seen := SelectAll(region, Delivered(front));
      match last {
        case Deliver(events) =>
          SelectAllSplits(region, Delivered(front), events);
          CoveredBySum(seen, before, SelectAll(region, events));
        case Merge(group, rest) =>
          assert Delivered(steps) == Delivered(front);
          MergeContents(before, group, rest);
          forall r | r in seen
            ensures Covered(r, rows)
          {
            assert Covered(r, before);
            CoveredTrans(r, before, rows);
          }
      }
    }
  }

  lemma {:induction false} SelectAllSplits(region: nat, a: seq<Event>, b: seq<Event>)
    ensures SelectAll(region, a + b) == SelectAll(region, a) + SelectAll(region, b)
    decreases |b|
  {
    if b == [] {
      assert a + b == a;
    } else {
      SelectAllSplits(region, a, b[..|b| - 1]);
      assert (a + b)[..|a + b| - 1] == a + b[..|b| - 1];
    }
  }

  lemma CoveredBySum(all: seq<Stored>, rows: seq<Stored>, added: seq<Stored>)
    requires AllCovered(all, rows)
    ensures AllCovered(all + added, rows + added)
  {
    forall r | r in all + added
      ensures Covered(r, rows + added)
    {
      if r in all {
        assert Covered(r, rows);
        var s :| s in rows && s.id == r.id && s.version >= r.version;
        assert s in rows + added;
      } else {
        assert r in rows + added;
      }
    }
  }

  /**
   For every run of deliveries and merges, however the events are ordered, repeated and batched
   and whenever parts are merged: once all of the region's events of the history have arrived,
   FINAL is what one orderly pass over the history gives.
   */
  lemma ViewConverges(region: nat, history: seq<Event>, steps: seq<Step>, rows: seq<Stored>)
    requires IsRun(region, steps, rows) && DistinctVersions(history)
    requires forall e :: e in Delivered(steps) ==> e in history
    requires forall e :: e in history && Select(region, e).Some? ==> e in Delivered(steps)
    ensures Final(rows) == Final(SelectAll(region, history))
  {
    var all := SelectAll(region, history);
    RunContents(region, steps, rows);
    SelectAllContents(region, history);
    SelectAllContents(region, Delivered(steps));
    SelectedOneRowPerVersion(region, history);
    assert forall r :: r in all <==> r in SelectAll(region, Delivered(steps));
    forall id {
      SameWinner(all, rows, id);
    }
    SameWinnersSameFinal(all, rows);
  }

  // ---------- The source table ----------

  function SourceAfter(history: seq<Event>): map<nat, Weather> {
    if history == [] then map[]
    else
      var table, e := SourceAfter(history[..|history| - 1]), history[|history| - 1];
      match e.op
      case 'c' => table[e.after.id := e.after]
      case 'r' => table[e.after.id := e.after]
      case 'u' => table[e.after.id := e.after]
      case 'd' => table - {e.before.id}
      case _ => table
  }

  /** The event could come next: full old images, keys that do not change, fresh keys on create. */
  predicate Emits(table: map<nat, Weather>, e: Event) {
    match e.op
    case 'c' => e.after.id !in table
    case 'r' => e.after.id !in table
    case 'u' => e.before.id in table && table[e.before.id] == e.before && e.after.id == e.before.id
    case 'd' => e.before.id in table && table[e.before.id] == e.before
    case _ => true
  }

  /** A history of the source table whose versions increase from event to event of one row. */
  predicate ValidHistory(history: seq<Event>) {
    history == [] ||
    var front, last := history[..|history| - 1], history[|history| - 1];
    && ValidHistory(front)
    && Emits(SourceAfter(front), last)
    && (IsData(last) ==>
          forall e :: e in front && IsData(e) && Subject(e).id == Subject(last).id ==> e.lsn < last.lsn)
  }

  /** Whatever the source does next to one row, at a later version, has its event. */
  lemma {:induction false} ChangesAreEmitted(history: seq<Event>, e: Event)
    requires ValidHistory(history) && forall f :: f in history ==> f.lsn < e.lsn
    requires var table := SourceAfter(history);
             || ((e.op == 'c' || e.op == 'r') && e.after.id !in table)
             || (e.before.id in table && table[e.before.id] == e.before
                 && (e.op == 'd' || (e.op == 'u' && e.after.id == e.before.id)))
    ensures ValidHistory(history + [e])
    ensures SourceAfter(history + [e]) ==
              if e.op == 'd' then SourceAfter(history) - {e.before.id} else SourceAfter(history)[e.after.id := e.after]
  {
    assert (history + [e])[..|history|] == history;
  }

  predicate MovesOut(region: nat, e: Event) {
    e.op == 'u' && e.before.region == region && e.after.region != region
  }

  /** The last event by which row `id` met the region moved it out. */
  predicate Stranded(region: nat, history: seq<Event>, id: nat) {
    if history == [] then false
    else
      var front, last := history[..|history| - 1], history[|history| - 1];
      if !IsData(last) || Subject(last).id != id then Stranded(region, front, id)
      else if Subject(last).region == region then false
      else MovesOut(region, last) || Stranded(region, front, id)
  }

  ghost predicate NoneStranded(region: nat, history: seq<Event>) {
    forall id :: !Stranded(region, history, id)
  }

  /** Put plainly: some update moved the row out, and no later event brought it back in. */
  lemma {:induction false} StrandedIff(region: nat, history: seq<Event>, id: nat)
    ensures Stranded(region, history, id) <==>
            exists i :: 0 <= i < |history| && MovesOut(region, history[i]) && Subject(history[i]).id == id &&
              forall j :: i < j < |history| && IsData(history[j]) && Subject(history[j]).id == id ==>
                Subject(history[j]).region != region
  {
    if history != [] {
      var n := |history| - 1;
      StrandedIff(region, history[..n], id);
      assert forall i | 0 <= i < n :: history[i] == history[..n][i];
    }
  }

  /** The history's own pass over one row: what the region table ends up with. */
  lemma {:induction false} WinnerAfterHistory(region: nat, history: seq<Event>, id: nat)
    requires ValidHistory(history)
    ensures var table, w := SourceAfter(history), Winner(SelectAll(region, history), id);
            && (id in table ==> table[id].id == id)
            && (w.Some? ==> exists e :: e in history && IsData(e) && Subject(e).id == id && e.lsn == w.value.version)
            && (id in table && table[id].region == region ==>
                  Live(w) && Weather(w.value.id, w.value.region, w.value.temperature) == table[id])
            && (!(id in table && table[id].region == region) ==> (Live(w) <==> Stranded(region, history, id)))
            && (id in table && table[id].region == region ==> !Stranded(region, history, id))
  {
    if history != [] {
      var front, last := history[..|history| - 1], history[|history| - 1];
      WinnerAfterHistory(region, front, id);
      var rows := SelectAll(region, front);
      match Select(region, last)
      case None =>
        assert SelectAll(region, history) == rows;
      case Some(row) =>
        var all := SelectAll(region, history);
        assert all[..|all| - 1] == rows;
    }
  }

  lemma {:induction false} VersionsDistinct(history: seq<Event>)
    requires ValidHistory(history)
    ensures DistinctVersions(history)
  {
    if history != [] {
      var front, last := history[..|history| - 1], history[|history| - 1];
      VersionsDistinct(front);
      assert forall e :: e in history <==> e in front || e == last;
    }
  }

  /** A view's rows without the bookkeeping columns. */
  function Readings(view: map<nat, Stored>): map<nat, Weather> {
    map id | id in view :: Weather(view[id].id, view[id].region, view[id].temperature)
  }

  function RowsOfRegion(region: nat, table: map<nat, Weather>): map<nat, Weather> {
    map id | id in table && table[id].region == region :: table[id]
  }

  /**
   A region's view, after any run that has delivered the region's events, is exactly the
   source's rows of that region if and only if no row was moved out by an update and never
   came back.
   */
  lemma ViewIsSourceIff(region: nat, history: seq<Event>, steps: seq<Step>, rows: seq<Stored>)
    requires IsRun(region, steps, rows) && ValidHistory(history)
    requires forall e :: e in Delivered(steps) ==> e in history
    requires forall e :: e in history && Select(region, e).Some? ==> e in Delivered(steps)
    ensures Readings(Final(rows)) == RowsOfRegion(region, SourceAfter(history)) <==>
            NoneStranded(region, history)
  {
    VersionsDistinct(history);
    ViewConverges(region, history, steps, rows);
    HistoryViewIff(region, history);
  }

  /** How a view and the source's rows of its region differ at one id: by a stranded row, if at all. */
  ghost predicate Compare(view: map<nat, Weather>, source: map<nat, Weather>, id: nat, stranded: bool) {
    && (id in view <==> id in source || stranded)
    && (id in source ==> view[id] == source[id] && !stranded)
  }

  lemma ViewAt(region: nat, history: seq<Event>, id: nat)
    requires ValidHistory(history)
    ensures Compare(Readings(Final(SelectAll(region, history))), RowsOfRegion(region, SourceAfter(history)),
                    id, Stranded(region, history, id))
  {
    WinnerAfterHistory(region, history, id);
    FinalIsLiveWinners(SelectAll(region, history));
  }

  lemma CompareIff(view: map<nat, Weather>, source: map<nat, Weather>, region: nat, history: seq<Event>)
    requires forall id :: Compare(view, source, id, Stranded(region, history, id))
    ensures view == source <==> NoneStranded(region, history)
  {
    if view == source {
      forall id: nat
        ensures !Stranded(region, history, id)
      {
        assert Compare(view, source, id, Stranded(region, history, id));
      }
    }
    if NoneStranded(region, history) {
      forall id: nat
        ensures id in view <==> id in source
        ensures id in source ==> view[id] == source[id]
      {
        assert Compare(view, source, id, Stranded(region, history, id));
      }
      assert view == source;
    }
  }

  lemma HistoryViewIff(region: nat, history: seq<Event>)
    requires ValidHistory(history)
    ensures Readings(Final(SelectAll(region, history))) == RowsOfRegion(region, SourceAfter(history)) <==>
            NoneStranded(region, history)
  {
    var view, source := Readings(Final(SelectAll(region, history))), RowsOfRegion(region, SourceAfter(history));
    forall id
      ensures Compare(view, source, id, Stranded(region, history, id))
    {
      ViewAt(region, history, id);
    }
    CompareIff(view, source, region, history);
  }

  ghost predicate NoUpdateMoves(history: seq<Event>) {
    forall e :: e in history && e.op == 'u' ==> e.before.region == e.after.region
  }

  lemma {:induction false} UnmovedIsNotStranded(region: nat, history: seq<Event>, id: nat)
    requires NoUpdateMoves(history)
    ensures !Stranded(region, history, id)
  {
    if history != [] {
      UnmovedIsNotStranded(region, history[..|history| - 1], id);
      assert history[|history| - 1] in history;
    }
  }

  /**
   When no update moves a row between regions, the views of two regions that have received
   their events never share a row, and a row of the source is shown, unchanged, by the view of
   its region and by no other; deleting a row and creating it again elsewhere is allowed.
   */
  lemma {:induction false} ViewsPartitionSource(
      history: seq<Event>, region: nat, steps: seq<Step>, rows: seq<Stored>,
      other: nat, otherSteps: seq<Step>, otherRows: seq<Stored>)
    requires ValidHistory(history) && NoUpdateMoves(history) && region != other
    requires IsRun(region, steps, rows) && IsRun(other, otherSteps, otherRows)
    requires forall e :: e in Delivered(steps) + Delivered(otherSteps) ==> e in history
    requires forall e :: e in history && Select(region, e).Some? ==> e in Delivered(steps)
    requires forall e :: e in history && Select(other, e).Some? ==> e in Delivered(otherSteps)
    ensures Final(rows).Keys !! Final(otherRows).Keys
    ensures forall id :: id in SourceAfter(history) && SourceAfter(history)[id].region == region ==>
              id in Final(rows) && Readings(Final(rows))[id] == SourceAfter(history)[id]
    ensures forall id :: id in Final(rows) ==> id in SourceAfter(history) && SourceAfter(history)[id].region == region
  {
    UnmovedViewIsSource(region, history, steps, rows);
    UnmovedViewIsSource(other, history, otherSteps, otherRows);
    SameKeys(Final(rows), RowsOfRegion(region, SourceAfter(history)));
    SameKeys(Final(otherRows), RowsOfRegion(other, SourceAfter(history)));
  }

  lemma UnmovedViewIsSource(region: nat, history: seq<Event>, steps: seq<Step>, rows: seq<Stored>)
    requires ValidHistory(history) && NoUpdateMoves(history) && IsRun(region, steps, rows)
    requires forall e :: e in Delivered(steps) ==> e in history
    requires forall e :: e in history && Select(region, e).Some? ==> e in Delivered(steps)
    ensures Readings(Final(rows)) == RowsOfRegion(region, SourceAfter(history))
  {
    forall id: nat
      ensures !Stranded(region, history, id)
    {
      UnmovedIsNotStranded(region, history, id);
    }
    ViewIsSourceIff(region, history, steps, rows);
  }

  lemma SameKeys(view: map<nat, Stored>, source: map<nat, Weather>)
    requires Readings(view) == source
    ensures forall id :: id in view <==> id in source
  {
  }

  /** One update between regions is enough: the old region keeps showing the row. */
  lemma {:induction false} MovedRowStaysBehind(history: seq<Event>, e: Event)
    requires ValidHistory(history) && Emits(SourceAfter(history), e) && MovesOut(e.before.region, e)
    requires forall f :: f in history && IsData(f) && Subject(f).id == Subject(e).id ==> f.lsn < e.lsn
    ensures ValidHistory(history + [e])
    ensures e.after.id in Readings(Final(SelectAll(e.before.region, history + [e])))
    ensures e.after.id in Readings(Final(SelectAll(e.after.region, history + [e])))
  {
    var after := history + [e];
    assert after[..|history|] == history;
    ViewAt(e.before.region, after, e.after.id);
    ViewAt(e.after.region, after, e.after.id);
  }
}
