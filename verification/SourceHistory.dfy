/**
 A source table and the change events it emits, and what delivering one event once or twice
 does to a replica. Rows are identified by the configured row identifier, which is the primary
 key on both sides.
 */
module SourceHistory {
  import opened Wrappers
  import opened Casting
  import opened Statements
  import opened ReplicaTable

  /** The source table after one event. */
  function SourceStep(rows: Table, m: Message): Table {
    if m.Tombstone? then rows
    else if IsUpdate(m) then rows - {RowOf(m.before.value)} + {RowOf(m.after.value)}
    else if IsInsert(m) then rows + {RowOf(m.after.value)}
    else if m.before.Some? then rows - {RowOf(m.before.value)}
    else rows
  }

  ghost predicate FreshKey(ids: seq<string>, rows: Table, row: Row) {
    HasKey(ids, row) && forall r :: r in rows ==> Key(ids, r) != Key(ids, row)
  }

  /**
   The event could have been emitted by a table holding `rows`: images list each column once,
   `before` is the full old row, and the row identifier stays unique and non-null.
   */
  ghost predicate Emits(ids: seq<string>, rows: Table, m: Message) {
    WellFormed(m) &&
    if m.Tombstone? then true
    else if IsUpdate(m) then
      var before, after := RowOf(m.before.value), RowOf(m.after.value);
      before in rows && after.Keys == before.Keys && FreshKey(ids, rows - {before}, after)
    else if IsInsert(m) then FreshKey(ids, rows, RowOf(m.after.value))
    else m.before.Some? && m.before.value != [] && RowOf(m.before.value) in rows
  }

  function SourceAfter(log: seq<Message>, k: nat): Table
    requires k <= |log|
  {
    if k == 0 then {} else SourceStep(SourceAfter(log, k - 1), log[k - 1])
  }

  ghost predicate ValidHistory(ids: seq<string>, log: seq<Message>) {
    forall k {:trigger Emits(ids, SourceAfter(log, k), log[k])} ::
      0 <= k < |log| ==> Emits(ids, SourceAfter(log, k), log[k])
  }

  lemma ChangesAreEmitted(ids: seq<string>, rows: Table, before: Dict, after: Dict)
    requires IsDict(before) && IsDict(after) && before != [] && after != []
    ensures FreshKey(ids, rows, RowOf(after)) ==>
              && Emits(ids, rows, Change(None, Some(after)))
              && SourceStep(rows, Change(None, Some(after))) == rows + {RowOf(after)}
    ensures RowOf(before) in rows ==>
              && Emits(ids, rows, Change(Some(before), None))
              && SourceStep(rows, Change(Some(before), None)) == rows - {RowOf(before)}
    ensures RowOf(before) in rows && RowOf(after).Keys == RowOf(before).Keys
            && FreshKey(ids, rows - {RowOf(before)}, RowOf(after)) ==>
              && Emits(ids, rows, Change(Some(before), Some(after)))
              && SourceStep(rows, Change(Some(before), Some(after))) == rows - {RowOf(before)} + {RowOf(after)}
  {
  }

  lemma {:induction false} HistoryExtends(ids: seq<string>, log: seq<Message>, m: Message)
    requires ValidHistory(ids, log) && Emits(ids, SourceAfter(log, |log|), m)
    ensures ValidHistory(ids, log + [m])
    ensures SourceAfter(log + [m], |log| + 1) == SourceStep(SourceAfter(log, |log|), m)
  {
    forall k | 0 <= k <= |log|
      ensures SourceAfter(log + [m], k) == SourceAfter(log, k)
    {
      PrefixDecides(log, m, k);
    }
    forall k | 0 <= k < |log + [m]|
      ensures Emits(ids, SourceAfter(log + [m], k), (log + [m])[k])
    {
      assert k < |log| ==> Emits(ids, SourceAfter(log, k), log[k]);
    }
  }

  lemma {:induction false} PrefixDecides(log: seq<Message>, m: Message, k: nat)
    requires k <= |log|
    ensures SourceAfter(log + [m], k) == SourceAfter(log, k)
  {
    if k > 0 {
      PrefixDecides(log, m, k - 1);
    }
  }

  /** Every identifying column has a value, and every other row differs in one of them. */
  ghost predicate NewIdentifier(ids: seq<string>, rows: Table, row: Row) {
    && (forall c :: c in ids ==> c in row && row[c] != Null)
    && (forall r :: r in rows ==> exists c :: c in ids && c in row && (c in r ==> r[c] != row[c]))
  }

  lemma {:induction false} NewIdentifierIsFresh(ids: seq<string>, rows: Table, row: Row)
    requires NewIdentifier(ids, rows, row)
    ensures FreshKey(ids, rows, row)
  {
    forall r | r in rows
      ensures Key(ids, r) != Key(ids, row)
    {
      var c :| c in ids && c in row && (c in r ==> r[c] != row[c]);
      var i :| 0 <= i < |ids| && ids[i] == c;
      assert Key(ids, r)[i] != Key(ids, row)[i];
    }
  }

  /**
   Whatever the source does next to one row, as long as rows have unique keys, has an event
   that continues its history: an insertion, a deletion with the full old image, or an update
   of the columns a row has, its key included; and tombstones may follow.
   */
  lemma {:induction false} HistoryGoesOn(ids: seq<string>, log: seq<Message>, before: Dict, after: Dict)
    requires ValidHistory(ids, log) && IsDict(before) && IsDict(after) && before != [] && after != []
    ensures var rows := SourceAfter(log, |log|);
            && (NewIdentifier(ids, rows, RowOf(after)) ==>
                  var more := log + [Change(None, Some(after))];
                  ValidHistory(ids, more) && SourceAfter(more, |more|) == rows + {RowOf(after)})
            && (RowOf(before) in rows ==>
                  var more := log + [Change(Some(before), None)];
                  ValidHistory(ids, more) && SourceAfter(more, |more|) == rows - {RowOf(before)})
            && (RowOf(before) in rows && RowOf(after).Keys == RowOf(before).Keys
                && NewIdentifier(ids, rows - {RowOf(before)}, RowOf(after)) ==>
                  var more := log + [Change(Some(before), Some(after))];
                  ValidHistory(ids, more) && SourceAfter(more, |more|) == rows - {RowOf(before)} + {RowOf(after)})
            && (var more := log + [Tombstone];
                ValidHistory(ids, more) && SourceAfter(more, |more|) == rows)
  {
    var rows := SourceAfter(log, |log|);
    ChangesAreEmitted(ids, rows, before, after);
    if NewIdentifier(ids, rows, RowOf(after)) {
      NewIdentifierIsFresh(ids, rows, RowOf(after));
      HistoryExtends(ids, log, Change(None, Some(after)));
    }
    if RowOf(before) in rows {
      HistoryExtends(ids, log, Change(Some(before), None));
      if RowOf(after).Keys == RowOf(before).Keys && NewIdentifier(ids, rows - {RowOf(before)}, RowOf(after)) {
        NewIdentifierIsFresh(ids, rows - {RowOf(before)}, RowOf(after));
        HistoryExtends(ids, log, Change(Some(before), Some(after)));
      }
    }
    assert Emits(ids, rows, Tombstone);
    HistoryExtends(ids, log, Tombstone);
  }

  /** What a faithful replica holds. */
  function Image(cfg: TableConfig, rows: Table): Table {
    set r | r in rows :: CastRow(cfg, r)
  }

  ghost predicate UniqueKeys(ids: seq<string>, rows: Table) {
    && (forall r :: r in rows ==> HasKey(ids, r))
    && (forall r, s :: r in rows && s in rows && r != s ==> Key(ids, r) != Key(ids, s))
  }

  /** Different rows have different identifiers in the replica. */
  ghost predicate KeysApart(cfg: TableConfig, rows: Table) {
    forall r, s :: r in rows && s in rows && r != s ==>
      Key(cfg.rowIdentifier, CastRow(cfg, r)) != Key(cfg.rowIdentifier, CastRow(cfg, s))
  }

  /** The rows can be cast, and casting keeps their identifiers apart. */
  ghost predicate Representable(cfg: TableConfig, rows: Table) {
    && (forall r :: r in rows ==> Castable(cfg, r))
    && UniqueKeys(cfg.rowIdentifier, rows)
    && KeysApart(cfg, rows)
  }

  /** No identifying column loses milliseconds in the cast: a check on the configuration alone. */
  predicate IdentifierKept(cfg: TableConfig) {
    cfg.rowIdentifier != [] && forall i :: 0 <= i < |cfg.rowIdentifier| ==> !DropsMillis(cfg, cfg.rowIdentifier[i])
  }

  lemma StepKeepsUniqueKeys(ids: seq<string>, rows: Table, m: Message)
    requires UniqueKeys(ids, rows) && Emits(ids, rows, m)
    ensures UniqueKeys(ids, SourceStep(rows, m))
  {
  }

  lemma {:induction false} HistoryKeepsUniqueKeys(ids: seq<string>, log: seq<Message>, k: nat)
    requires ValidHistory(ids, log) && k <= |log|
    ensures UniqueKeys(ids, SourceAfter(log, k))
  {
    if k > 0 {
      HistoryKeepsUniqueKeys(ids, log, k - 1);
      StepKeepsUniqueKeys(ids, SourceAfter(log, k - 1), log[k - 1]);
    }
  }

  /** The two identifiers agree up to the milliseconds that the cast of a time column drops. */
  ghost predicate SameSeconds(cfg: TableConfig, r: Row, s: Row)
    requires HasKey(cfg.rowIdentifier, r) && HasKey(cfg.rowIdentifier, s)
  {
    forall i :: 0 <= i < |cfg.rowIdentifier| ==>
      var column := cfg.rowIdentifier[i];
      r[column] == s[column] ||
      (DropsMillis(cfg, column) && r[column].Int? && s[column].Int? && r[column].n / 1000 == s[column].n / 1000)
  }

  /** Exactly these identifiers are the same in the replica. */
  lemma {:induction false} IdentifiersCollideIff(cfg: TableConfig, r: Row, s: Row)
    requires Castable(cfg, r) && Castable(cfg, s)
    requires HasKey(cfg.rowIdentifier, r) && HasKey(cfg.rowIdentifier, s)
    ensures Key(cfg.rowIdentifier, CastRow(cfg, r)) == Key(cfg.rowIdentifier, CastRow(cfg, s)) <==>
              SameSeconds(cfg, r, s)
  {
    var ids := cfg.rowIdentifier;
    forall i | 0 <= i < |ids|
      ensures CastRow(cfg, r)[ids[i]] == CastRow(cfg, s)[ids[i]] <==>
                r[ids[i]] == s[ids[i]] ||
                (DropsMillis(cfg, ids[i]) && r[ids[i]].Int? && s[ids[i]].Int?
                 && r[ids[i]].n / 1000 == s[ids[i]].n / 1000)
    {
      if r[ids[i]] != s[ids[i]] {
        CastCollidesIff(cfg, ids[i], r[ids[i]], s[ids[i]]);
      }
    }
    var k, l := Key(ids, CastRow(cfg, r)), Key(ids, CastRow(cfg, s));
    assert k == l <==> forall i :: 0 <= i < |ids| ==> k[i] == l[i];
  }

  lemma KeptIdentifierStaysApart(cfg: TableConfig, r: Row, s: Row)
    requires IdentifierKept(cfg) && Castable(cfg, r) && Castable(cfg, s)
    requires HasKey(cfg.rowIdentifier, r) && HasKey(cfg.rowIdentifier, s)
    requires Key(cfg.rowIdentifier, r) != Key(cfg.rowIdentifier, s)
    ensures Key(cfg.rowIdentifier, CastRow(cfg, r)) != Key(cfg.rowIdentifier, CastRow(cfg, s))
  {
  }

  lemma {:induction false} KeptIdentifierRepresents(cfg: TableConfig, rows: Table)
    requires IdentifierKept(cfg) && UniqueKeys(cfg.rowIdentifier, rows)
    requires forall r :: r in rows ==> Castable(cfg, r)
    ensures Representable(cfg, rows)
  {
    forall r, s | r in rows && s in rows && r != s
      ensures Key(cfg.rowIdentifier, CastRow(cfg, r)) != Key(cfg.rowIdentifier, CastRow(cfg, s))
    {
      KeptIdentifierStaysApart(cfg, r, s);
    }
  }

  lemma CastHasKey(cfg: TableConfig, row: Row)
    requires HasKey(cfg.rowIdentifier, row)
    ensures HasKey(cfg.rowIdentifier, CastRow(cfg, row))
  {
  }

  /** On copies of source rows, the WHERE clause compares keys. */
  lemma IdentifiesByKey(cfg: TableConfig, before: Dict, row: Row)
    requires cfg.rowIdentifier != [] && HasKey(cfg.rowIdentifier, row) && HasKey(cfg.rowIdentifier, RowOf(before))
    ensures Identifies(cfg, before, CastRow(cfg, row)) <==>
            Key(cfg.rowIdentifier, CastRow(cfg, row)) == Key(cfg.rowIdentifier, CastRow(cfg, RowOf(before)))
  {
    var ids, copy, was := cfg.rowIdentifier, CastRow(cfg, row), CastRow(cfg, RowOf(before));
    CastHasKey(cfg, row);
    if Key(ids, copy) == Key(ids, was) {
      forall i | 0 <= i < |ids|
        ensures copy[ids[i]] == was[ids[i]]
      {
        assert Key(ids, copy)[i] == Key(ids, was)[i];
      }
    }
    if Identifies(cfg, before, copy) {
      forall i | 0 <= i < |ids|
        ensures Key(ids, copy)[i] == Key(ids, was)[i]
      {
        assert ids[i] in WhereColumns(cfg, before);
      }
    }
  }

  /** What a delivery of `m` does to the copy of one source row. */
  lemma {:induction false} UpdateOnCopy(cfg: TableConfig, rows: Table, m: Message, row: Row)
    requires Representable(cfg, rows) && cfg.rowIdentifier != []
    requires IsUpdate(m) && RowOf(m.before.value) in rows && row in rows
    requires RowOf(m.after.value).Keys == RowOf(m.before.value).Keys
    ensures UpdateEffect(cfg, m, CastRow(cfg, row)) ==
              CastRow(cfg, if row == RowOf(m.before.value) then RowOf(m.after.value) else row)
  {
    IdentifiesByKey(cfg, m.before.value, row);
    if row == RowOf(m.before.value) {
      assert CastRow(cfg, row) + CastRow(cfg, RowOf(m.after.value)) == CastRow(cfg, RowOf(m.after.value));
    }
  }

  ghost predicate Deliverable(cfg: TableConfig, rows: Table, rows': Table, m: Message) {
    && cfg.rowIdentifier != []
    && m.Change? && Emits(cfg.rowIdentifier, rows, m) && ValuesFit(cfg, m)
    && Representable(cfg, rows) && rows' == SourceStep(rows, m) && Representable(cfg, rows')
  }

  /** An update that leaves every row a key of its own is carried out. */
  lemma UpdateIsDone(ids: seq<string>, cfg: TableConfig, m: Message, copies: Table, outcome: Outcome)
    requires IsUpdate(m) && IsIntended(ids, cfg, m, copies, outcome)
    requires forall r :: r in copies ==> HasKey(ids, UpdateEffect(cfg, m, r))
    requires forall r, s :: r in copies && s in copies && r != s ==>
               Key(ids, UpdateEffect(cfg, m, r)) != Key(ids, UpdateEffect(cfg, m, s))
    ensures outcome == Done(set r | r in copies :: UpdateEffect(cfg, m, r))
  {
  }

  /** The source row that replaces `row` when `m` is an update. */
  function Moved(m: Message, row: Row): Row
    requires IsUpdate(m)
  {
    if row == RowOf(m.before.value) then RowOf(m.after.value) else row
  }

  /**
   If an update does to the copies what `to` does to the source rows, and the new rows keep
   keys of their own, executing it yields their image.
   */
  lemma UpdateOnImage(cfg: TableConfig, rows: Table, rows': Table, m: Message, to: Row -> Row)
    requires m.Change? && WellFormed(m) && IsUpdate(m) && ValuesFit(cfg, m)
    requires Representable(cfg, rows')
    requires forall r :: r in rows ==> to(r) in rows' && UpdateEffect(cfg, m, CastRow(cfg, r)) == CastRow(cfg, to(r))
    requires forall r :: r in rows' ==> exists s :: s in rows && to(s) == r
    requires forall r, s :: r in rows && s in rows && to(r) == to(s) ==> r == s
    ensures Plan(cfg, m).Ok? && Plan(cfg, m).value.Some?
    ensures Execute(cfg.rowIdentifier, Image(cfg, rows), Plan(cfg, m).value.value) == Done(Image(cfg, rows'))
  {
    var ids, copies := cfg.rowIdentifier, Image(cfg, rows);
    CommandMeansRowOperation(ids, cfg, m, copies);
    forall r | r in copies
      ensures HasKey(ids, UpdateEffect(cfg, m, r))
    {
      var x :| x in rows && r == CastRow(cfg, x);
      CastHasKey(cfg, to(x));
    }
    forall r, s | r in copies && s in copies && r != s
      ensures Key(ids, UpdateEffect(cfg, m, r)) != Key(ids, UpdateEffect(cfg, m, s))
    {
      var x :| x in rows && r == CastRow(cfg, x);
      var y :| y in rows && s == CastRow(cfg, y);
      assert to(x) != to(y);
    }
    UpdateIsDone(ids, cfg, m, copies, Execute(ids, copies, Plan(cfg, m).value.value));
    ImageOfMoved(cfg, rows, rows', m, to);
  }

  lemma ImageOfMoved(cfg: TableConfig, rows: Table, rows': Table, m: Message, to: Row -> Row)
    requires IsUpdate(m)
    requires forall r :: r in rows ==> to(r) in rows' && UpdateEffect(cfg, m, CastRow(cfg, r)) == CastRow(cfg, to(r))
    requires forall r :: r in rows' ==> exists s :: s in rows && to(s) == r
    ensures (set r | r in Image(cfg, rows) :: UpdateEffect(cfg, m, r)) == Image(cfg, rows')
  {
  }

  /** Delivered for the first time, every event takes the image of the source to the next image. */
  lemma FirstDelivery(cfg: TableConfig, rows: Table, rows': Table, m: Message)
    requires Deliverable(cfg, rows, rows', m)
    ensures Plan(cfg, m).Ok? && Plan(cfg, m).value.Some?
    ensures Execute(cfg.rowIdentifier, Image(cfg, rows), Plan(cfg, m).value.value) == Done(Image(cfg, rows'))
  {
    if IsUpdate(m) {
      FirstUpdate(cfg, rows, rows', m);
    } else if IsInsert(m) {
      FirstInsert(cfg, rows, rows', m);
    } else {
      FirstDelete(cfg, rows, rows', m);
    }
  }

  lemma MovedIsOneToOne(ids: seq<string>, rows: Table, m: Message)
    requires m.Change? && Emits(ids, rows, m) && IsUpdate(m)
    ensures forall r :: r in rows ==> Moved(m, r) in SourceStep(rows, m)
    ensures forall r :: r in SourceStep(rows, m) ==> exists s :: s in rows && Moved(m, s) == r
    ensures forall r, s :: r in rows && s in rows && Moved(m, r) == Moved(m, s) ==> r == s
  {
    var before, after := RowOf(m.before.value), RowOf(m.after.value);
    assert Moved(m, before) == after;
    forall r | r in SourceStep(rows, m) && r != after
      ensures Moved(m, r) == r
    {
    }
  }

  lemma {:induction false} FirstUpdate(cfg: TableConfig, rows: Table, rows': Table, m: Message)
    requires Deliverable(cfg, rows, rows', m) && IsUpdate(m)
    ensures Plan(cfg, m).Ok? && Plan(cfg, m).value.Some?
    ensures Execute(cfg.rowIdentifier, Image(cfg, rows), Plan(cfg, m).value.value) == Done(Image(cfg, rows'))
  {
    UpdateMeansRowOperation(cfg, m);
    MovedIsOneToOne(cfg.rowIdentifier, rows, m);
    forall r | r in rows
      ensures UpdateEffect(cfg, m, CastRow(cfg, r)) == CastRow(cfg, Moved(m, r))
    {
      UpdateOnCopy(cfg, rows, m, r);
    }
    UpdateOnImage(cfg, rows, rows', m, r => Moved(m, r));
  }

  lemma FirstInsert(cfg: TableConfig, rows: Table, rows': Table, m: Message)
    requires Deliverable(cfg, rows, rows', m) && IsInsert(m)
    ensures Plan(cfg, m).Ok? && Plan(cfg, m).value.Some?
    ensures Execute(cfg.rowIdentifier, Image(cfg, rows), Plan(cfg, m).value.value) == Done(Image(cfg, rows'))
  {
    var after := RowOf(m.after.value);
    CommandMeansRowOperation(cfg.rowIdentifier, cfg, m, Image(cfg, rows));
    CastHasKey(cfg, after);
    forall r | r in rows
      ensures Key(cfg.rowIdentifier, CastRow(cfg, r)) != Key(cfg.rowIdentifier, CastRow(cfg, after))
    {
      assert r in rows' && after in rows';
    }
    assert Image(cfg, rows') == Image(cfg, rows) + {CastRow(cfg, after)};
  }

  lemma FirstDelete(cfg: TableConfig, rows: Table, rows': Table, m: Message)
    requires Deliverable(cfg, rows, rows', m) && IsDelete(m)
    ensures Plan(cfg, m).Ok? && Plan(cfg, m).value.Some?
    ensures Execute(cfg.rowIdentifier, Image(cfg, rows), Plan(cfg, m).value.value) == Done(Image(cfg, rows'))
  {
    CommandMeansRowOperation(cfg.rowIdentifier, cfg, m, Image(cfg, rows));
    DeleteOnImage(cfg, rows, rows', rows, m);
  }

  /** Deleting from the image of part of the table leaves the image of that part without the row. */
  lemma DeleteOnImage(cfg: TableConfig, rows: Table, rows': Table, part: Table, m: Message)
    requires Deliverable(cfg, rows, rows', m) && IsDelete(m) && part <= rows
    ensures (set r | r in Image(cfg, part) && !Identifies(cfg, m.before.value, r)) ==
            Image(cfg, part - {RowOf(m.before.value)})
  {
    var before := RowOf(m.before.value);
    forall r | r in part
      ensures Identifies(cfg, m.before.value, CastRow(cfg, r)) <==> r == before
    {
      IdentifiesByKey(cfg, m.before.value, r);
    }
    var kept := set r | r in Image(cfg, part) && !Identifies(cfg, m.before.value, r);
    forall r | r in kept
      ensures r in Image(cfg, part - {before})
    {
      var x :| x in part && r == CastRow(cfg, x);
      assert x in part - {before};
    }
  }

  /**
   Delivered again, no event changes the replica: an insert is refused as a duplicate, an
   update finds no row or rewrites what it wrote, even when it moved the key, a delete finds
   nothing.
   */
  lemma Redelivery(cfg: TableConfig, rows: Table, rows': Table, m: Message)
    requires Deliverable(cfg, rows, rows', m)
    ensures Plan(cfg, m).Ok? && Plan(cfg, m).value.Some?
    ensures var copies := Image(cfg, rows');
            Execute(cfg.rowIdentifier, copies, Plan(cfg, m).value.value) ==
              if IsInsert(m) then UniqueViolation else Done(copies)
  {
    var ids := cfg.rowIdentifier;
    CommandMeansRowOperation(ids, cfg, m, Image(cfg, rows'));
    if IsUpdate(m) {
      forall r | r in rows'
        ensures UpdateEffect(cfg, m, CastRow(cfg, r)) == CastRow(cfg, r)
      {
        UpdateAgain(cfg, rows, rows', m, r);
      }
      UpdateOnImage(cfg, rows', rows', m, r => r);
    } else if IsInsert(m) {
      InsertAgain(cfg, rows, rows', m);
    } else {
      DeleteOnImage(cfg, rows, rows', rows', m);
      assert rows' - {RowOf(m.before.value)} == rows';
    }
  }

  lemma {:induction false} UpdateAgain(cfg: TableConfig, rows: Table, rows': Table, m: Message, row: Row)
    requires Deliverable(cfg, rows, rows', m) && IsUpdate(m) && row in rows'
    ensures UpdateEffect(cfg, m, CastRow(cfg, row)) == CastRow(cfg, row)
  {
    if row == RowOf(m.after.value) {
      WrittenAgain(cfg, m);
    } else {
      assert row in rows && row != RowOf(m.before.value);
      UpdateOnCopy(cfg, rows, m, row);
    }
  }

  lemma WrittenAgain(cfg: TableConfig, m: Message)
    requires IsUpdate(m)
    ensures var copy := CastRow(cfg, RowOf(m.after.value));
            UpdateEffect(cfg, m, copy) == copy
  {
    var copy := CastRow(cfg, RowOf(m.after.value));
    assert copy + copy == copy;
  }

  lemma InsertAgain(cfg: TableConfig, rows: Table, rows': Table, m: Message)
    requires Deliverable(cfg, rows, rows', m) && IsInsert(m)
    ensures Plan(cfg, m).Ok? && Plan(cfg, m).value.Some?
    ensures Execute(cfg.rowIdentifier, Image(cfg, rows'), Plan(cfg, m).value.value) == UniqueViolation
  {
    var after := RowOf(m.after.value);
    InsertMeansRowOperation(cfg, m);
    CastHasKey(cfg, after);
    assert after in rows';
    assert CastRow(cfg, after) in Image(cfg, rows');
  }

  /**
   What the assumptions buy: an insert event is accepted exactly when no copy already carries
   its cast identifier. Two identifiers that the cast confuses, or an update whose event came
   without its old image and so reads as an insert, are refused on first delivery.
   */
  lemma InsertAcceptedIff(cfg: TableConfig, rows: Table, m: Message)
    requires IsInsert(m) && WellFormed(m) && ValuesFit(cfg, m)
    requires HasKey(cfg.rowIdentifier, RowOf(m.after.value))
    ensures Plan(cfg, m).Ok? && Plan(cfg, m).value.Some?
    ensures Execute(cfg.rowIdentifier, Image(cfg, rows), Plan(cfg, m).value.value).Done? <==>
            forall r :: r in rows ==>
              Key(cfg.rowIdentifier, CastRow(cfg, r)) != Key(cfg.rowIdentifier, CastRow(cfg, RowOf(m.after.value)))
  {
    InsertMeansRowOperation(cfg, m);
    CastHasKey(cfg, RowOf(m.after.value));
    var copies := Image(cfg, rows);
    assert forall r | r in rows :: CastRow(cfg, r) in copies;
  }
}
