/**
 What the database is taken to do with a statement and its parameters: placeholders are filled
 in order, `=` never holds of NULL, the primary key is unique and non-null, and a statement
 that fails changes nothing.
 */
module ReplicaTable {
  import opened Wrappers
  import opened Casting
  import opened Statements

  type Row = map<string, Value>

  type Table = set<Row>

  datatype Outcome = Done(rows: Table) | UniqueViolation | Failed

  function Key(columns: seq<string>, row: Row): (k: seq<Value>)
    ensures |k| == |columns|
    ensures forall i :: 0 <= i < |columns| ==> k[i] == if columns[i] in row then row[columns[i]] else Null
  {
    seq(|columns|, i requires 0 <= i < |columns| => if columns[i] in row then row[columns[i]] else Null)
  }

  predicate HasKey(columns: seq<string>, row: Row) {
    forall i :: 0 <= i < |columns| ==> columns[i] in row && row[columns[i]] != Null
  }

  /** WHERE c1 = %s AND c2 = %s ... */
  predicate Satisfies(row: Row, columns: seq<string>, params: seq<Value>)
    requires |params| == |columns|
  {
    forall i :: 0 <= i < |columns| ==> columns[i] in row && row[columns[i]] != Null && row[columns[i]] == params[i]
  }

  /** SET c1 = %s, c2 = %s ... */
  function Assign(row: Row, columns: seq<string>, params: seq<Value>): Row
    requires |params| == |columns|
  {
    if columns == [] then row
    else
      var n := |columns| - 1;
      Assign(row, columns[..n], params[..n])[columns[n] := params[n]]
  }

  function UpdatedRow(q: Statement, params: seq<Value>, row: Row): Row
    requires q.Update? && |params| == PlaceholderCount(q)
  {
    if Satisfies(row, q.wheres, params[|q.sets|..]) then Assign(row, q.sets, params[..|q.sets|]) else row
  }

  function Execute(primaryKey: seq<string>, rows: Table, command: Command): Outcome {
    var Command(q, params) := command;
    if |params| != PlaceholderCount(q) then Failed
    else
      match q
      case Update(_, _) =>
        if exists r :: r in rows && !HasKey(primaryKey, UpdatedRow(q, params, r)) then Failed
        else if exists r, s :: r in rows && s in rows && r != s &&
                               Key(primaryKey, UpdatedRow(q, params, r)) == Key(primaryKey, UpdatedRow(q, params, s))
        then UniqueViolation
        else Done(set r | r in rows :: UpdatedRow(q, params, r))
      case Insert(columns, placeholders) =>
        if placeholders != |columns| then Failed
        else
          var row := Assign(map[], columns, params);
          if !HasKey(primaryKey, row) then Failed
          else if exists r :: r in rows && Key(primaryKey, r) == Key(primaryKey, row) then UniqueViolation
          else Done(rows + {row})
      case Delete(wheres) => Done(set r | r in rows && !Satisfies(r, wheres, params))
  }

  // ---------- The row operations a change event stands for ----------

  function RowOf(d: Dict): Row {
    map c: string | c in Columns(d) && Lookup(d, c).Some? :: Lookup(d, c).value
  }

  predicate Castable(cfg: TableConfig, row: Row) {
    forall c :: c in row ==> Cast(cfg, c, row[c]).Ok?
  }

  /** A cast value; a value that cannot be cast stands for itself. */
  function CastOr(cfg: TableConfig, column: string, v: Value): Value {
    match Cast(cfg, column, v)
    case Ok(w) => w
    case Err(_) => v
  }

  function CastRow(cfg: TableConfig, row: Row): Row {
    map c | c in row :: CastOr(cfg, c, row[c])
  }

  /** The replica row agrees with the cast of `before` on every identifying column, none of them NULL. */
  predicate Identifies(cfg: TableConfig, before: Dict, row: Row) {
    forall c :: c in WhereColumns(cfg, before) ==>
      c in row && row[c] != Null && c in RowOf(before) && row[c] == CastOr(cfg, c, RowOf(before)[c])
  }

  predicate IsUpdate(m: Message) {
    m.Change? && m.before.Some? && m.before.value != [] && m.after.Some? && m.after.value != []
  }

  predicate IsInsert(m: Message) {
    m.Change? && m.before == None && m.after.Some?
  }

  predicate IsDelete(m: Message) {
    m.Change? && m.before.Some? && !IsUpdate(m)
  }

  function UpdateEffect(cfg: TableConfig, m: Message, row: Row): Row
    requires IsUpdate(m)
  {
    if Identifies(cfg, m.before.value, row) then row + CastRow(cfg, RowOf(m.after.value)) else row
  }

  predicate WellFormed(m: Message) {
    m.Change? ==> (m.before.Some? ==> IsDict(m.before.value)) && (m.after.Some? ==> IsDict(m.after.value))
  }

  lemma RowOfColumns(d: Dict)
    ensures forall c :: c in RowOf(d) <==> c in Columns(d)
    ensures forall c :: c in RowOf(d) ==> Lookup(d, c) == Some(RowOf(d)[c])
  {
    forall c {
      LookupIffColumn(d, c);
    }
  }

  lemma {:induction false} AssignContents(row: Row, columns: seq<string>, params: seq<Value>, values: Row)
    requires |params| == |columns|
    requires forall i :: 0 <= i < |columns| ==> columns[i] in values && values[columns[i]] == params[i]
    ensures forall c :: c in Assign(row, columns, params) <==> c in row || c in columns
    ensures forall c :: c in Assign(row, columns, params) ==>
              Assign(row, columns, params)[c] == if c in columns then values[c] else row[c]
  {
    if columns != [] {
      var n := |columns| - 1;
      AssignContents(row, columns[..n], params[..n], values);
      assert forall c :: c in columns <==> c in columns[..n] || c == columns[n];
    }
  }

  /** Setting the columns of a dictionary from its cast parameters overlays the row with its cast. */
  lemma AssignIsOverlay(cfg: TableConfig, row: Row, d: Dict, params: seq<Value>)
    requires IsDict(d) && Aligned(cfg, Columns(d), params, d)
    ensures Assign(row, Columns(d), params) == row + CastRow(cfg, RowOf(d))
    ensures Castable(cfg, RowOf(d))
  {
    RowOfColumns(d);
    AlignedIsCastable(cfg, d, params);
    AssignContents(row, Columns(d), params, CastRow(cfg, RowOf(d)));
  }

  lemma AlignedIsCastable(cfg: TableConfig, d: Dict, params: seq<Value>)
    requires IsDict(d) && Aligned(cfg, Columns(d), params, d)
    ensures Castable(cfg, RowOf(d))
    ensures forall i :: 0 <= i < |d| ==> Columns(d)[i] in RowOf(d) && CastRow(cfg, RowOf(d))[Columns(d)[i]] == params[i]
  {
  }

  lemma SatisfiesIsIdentifies(cfg: TableConfig, before: Dict, params: seq<Value>, row: Row)
    requires IsDict(before) && Aligned(cfg, WhereColumns(cfg, before), params, before)
    ensures Satisfies(row, WhereColumns(cfg, before), params) <==> Identifies(cfg, before, row)
  {
    var columns := WhereColumns(cfg, before);
    RowOfColumns(before);
    forall i | 0 <= i < |columns|
      ensures columns[i] in RowOf(before) && CastOr(cfg, columns[i], RowOf(before)[columns[i]]) == params[i]
    {
      LookupIffColumn(before, columns[i]);
    }
    if Satisfies(row, columns, params) {
      forall c | c in columns
        ensures c in row && row[c] != Null && row[c] == CastOr(cfg, c, RowOf(before)[c])
      {
        var i :| 0 <= i < |columns| && columns[i] == c;
      }
    }
  }

  /**
   An UPDATE executed with the separately built parameter list changes every row the way the
   event intends, and its placeholders are all filled.
   */
  lemma UpdateMeansRowOperation(cfg: TableConfig, m: Message)
    requires IsUpdate(m) && WellFormed(m) && ValuesFit(cfg, m)
    ensures Plan(cfg, m).Ok? && Plan(cfg, m).value.Some?
    ensures var Command(q, params) := Plan(cfg, m).value.value;
            && q.Update? && |params| == PlaceholderCount(q)
            && forall row :: UpdatedRow(q, params, row) == UpdateEffect(cfg, m, row)
    ensures Castable(cfg, RowOf(m.after.value))
  {
    PlannedIff(cfg, m);
    var Command(q, params) := Plan(cfg, m).value.value;
    var before, after := m.before.value, m.after.value;
    AllColumnsAligned(cfg, after);
    WhereAligned(cfg, before);
    AssignIsOverlay(cfg, map[], after, params[..|q.sets|]);
    forall row
      ensures UpdatedRow(q, params, row) == UpdateEffect(cfg, m, row)
    {
      AssignIsOverlay(cfg, row, after, params[..|q.sets|]);
      SatisfiesIsIdentifies(cfg, before, params[|q.sets|..], row);
    }
  }

  lemma InsertMeansRowOperation(cfg: TableConfig, m: Message)
    requires IsInsert(m) && WellFormed(m) && ValuesFit(cfg, m)
    ensures Plan(cfg, m).Ok? && Plan(cfg, m).value.Some?
    ensures var Command(q, params) := Plan(cfg, m).value.value;
            && q.Insert? && |params| == PlaceholderCount(q) == |q.columns|
            && Assign(map[], q.columns, params) == CastRow(cfg, RowOf(m.after.value))
    ensures Castable(cfg, RowOf(m.after.value))
  {
    PlannedIff(cfg, m);
    var Command(q, params) := Plan(cfg, m).value.value;
    AllColumnsAligned(cfg, m.after.value);
    AssignIsOverlay(cfg, map[], m.after.value, params);
    assert map[] + CastRow(cfg, RowOf(m.after.value)) == CastRow(cfg, RowOf(m.after.value));
  }

  lemma DeleteMeansRowOperation(cfg: TableConfig, m: Message)
    requires IsDelete(m) && WellFormed(m) && ValuesFit(cfg, m)
    ensures Plan(cfg, m).Ok? && Plan(cfg, m).value.Some?
    ensures var Command(q, params) := Plan(cfg, m).value.value;
            && q.Delete? && |params| == PlaceholderCount(q)
            && forall row :: Satisfies(row, q.wheres, params) <==> Identifies(cfg, m.before.value, row)
  {
    PlannedIff(cfg, m);
    var Command(q, params) := Plan(cfg, m).value.value;
    WhereAligned(cfg, m.before.value);
    forall row {
      SatisfiesIsIdentifies(cfg, m.before.value, params, row);
    }
  }

  /** The update would leave some row without a key. */
  ghost predicate LosesKey(primaryKey: seq<string>, cfg: TableConfig, m: Message, rows: Table)
    requires IsUpdate(m)
  {
    exists r :: r in rows && !HasKey(primaryKey, UpdateEffect(cfg, m, r))
  }

  /** The update would leave two rows with the same key. */
  ghost predicate KeysCollide(primaryKey: seq<string>, cfg: TableConfig, m: Message, rows: Table)
    requires IsUpdate(m)
  {
    exists r, s | r in rows && s in rows && r != s ::
      Key(primaryKey, UpdateEffect(cfg, m, r)) == Key(primaryKey, UpdateEffect(cfg, m, s))
  }

  /**
   The intended outcome of one message, stated on rows: the cases of each kind of message
   exclude one another, so a violation is reported exactly when there is one. Executing the
   planned command is this for every message, configuration and table.
   */
  ghost predicate IsIntended(primaryKey: seq<string>, cfg: TableConfig, m: Message, rows: Table, outcome: Outcome)
    requires m.Change?
  {
    if IsUpdate(m) then
      match outcome
      case Done(rows') =>
        && !LosesKey(primaryKey, cfg, m, rows) && !KeysCollide(primaryKey, cfg, m, rows)
        && rows' == set r | r in rows :: UpdateEffect(cfg, m, r)
      case UniqueViolation => !LosesKey(primaryKey, cfg, m, rows) && KeysCollide(primaryKey, cfg, m, rows)
      case Failed => LosesKey(primaryKey, cfg, m, rows)
    else if IsInsert(m) then
      var row := CastRow(cfg, RowOf(m.after.value));
      var taken := exists r :: r in rows && Key(primaryKey, r) == Key(primaryKey, row);
      match outcome
      case Done(rows') => HasKey(primaryKey, row) && !taken && rows' == rows + {row}
      case UniqueViolation => HasKey(primaryKey, row) && taken
      case Failed => !HasKey(primaryKey, row)
    else
      m.before.Some? && outcome == Done(set r | r in rows && !Identifies(cfg, m.before.value, r))
  }

  lemma CommandMeansRowOperation(primaryKey: seq<string>, cfg: TableConfig, m: Message, rows: Table)
    requires m.Change? && WellFormed(m) && ValuesFit(cfg, m)
    ensures Plan(cfg, m).Ok? && Plan(cfg, m).value.Some?
    ensures IsIntended(primaryKey, cfg, m, rows, Execute(primaryKey, rows, Plan(cfg, m).value.value))
  {
    PlannedIff(cfg, m);
    if IsUpdate(m) {
      UpdateMeansRowOperation(cfg, m);
    } else if IsInsert(m) {
      InsertMeansRowOperation(cfg, m);
    } else {
      DeleteMeansRowOperation(cfg, m);
    }
  }

  lemma RowOfFields(d: Dict)
    requires IsDict(d)
    ensures forall c :: c in Columns(d) <==> c in RowOf(d)
    ensures forall i :: 0 <= i < |d| ==> d[i].column in RowOf(d) && RowOf(d)[d[i].column] == d[i].value
  {
    RowOfColumns(d);
    forall i | 0 <= i < |d|
      ensures d[i].column in RowOf(d) && RowOf(d)[d[i].column] == d[i].value
    {
      LookupIsField(d, i);
      assert Columns(d)[i] == d[i].column;
    }
  }

  /**
   With no row identifier the statement finds the replica's copy of the row exactly when no
   column of `before` is NULL: a NULL anywhere makes the update or delete miss its own row.
   */
  lemma WithoutIdentifierFindsRowIff(cfg: TableConfig, before: Dict)
    requires cfg.rowIdentifier == [] && IsDict(before) && Castable(cfg, RowOf(before))
    ensures Identifies(cfg, before, CastRow(cfg, RowOf(before))) <==>
              forall i :: 0 <= i < |before| ==> before[i].value != Null
  {
    RowOfFields(before);
    if Identifies(cfg, before, CastRow(cfg, RowOf(before))) {
      forall i | 0 <= i < |before|
        ensures before[i].value != Null
      {
        assert Columns(before)[i] in WhereColumns(cfg, before);
      }
    }
  }
}
