/**
 The statements with positional placeholders and, built by other code, their parameter lists.
 A statement is its columns in order; the SQL text around them is not modelled.
 */
module Statements {
  import opened Wrappers
  import opened Casting

  /** A Python dictionary in insertion order. */
  datatype Field = Field(column: string, value: Value)

  type Dict = seq<Field>

  function Columns(d: Dict): (c: seq<string>)
    ensures |c| == |d| && forall i :: 0 <= i < |d| ==> c[i] == d[i].column
  {
    seq(|d|, i requires 0 <= i < |d| => d[i].column)
  }

  function Values(d: Dict): (v: seq<Value>)
    ensures |v| == |d| && forall i :: 0 <= i < |d| ==> v[i] == d[i].value
  {
    seq(|d|, i requires 0 <= i < |d| => d[i].value)
  }

  /** The keys of a dictionary are distinct. */
  predicate IsDict(d: Dict) {
    forall i, j :: 0 <= i < j < |d| ==> d[i].column != d[j].column
  }

  function Lookup(d: Dict, column: string): Option<Value> {
    if d == [] then None else if d[0].column == column then Some(d[0].value) else Lookup(d[1..], column)
  }

  lemma {:induction false} LookupIsField(d: Dict, i: nat)
    requires IsDict(d) && i < |d|
    ensures Lookup(d, d[i].column) == Some(d[i].value)
  {
    if i > 0 {
      LookupIsField(d[1..], i - 1);
    }
  }

  lemma {:induction false} LookupIffColumn(d: Dict, column: string)
    ensures Lookup(d, column).Some? <==> column in Columns(d)
  {
    if d != [] {
      LookupIffColumn(d[1..], column);
      assert Columns(d) == [d[0].column] + Columns(d[1..]);
    }
  }

  datatype Statement =
    | Update(sets: seq<string>, wheres: seq<string>)
    | Insert(columns: seq<string>, placeholders: nat)
    | Delete(wheres: seq<string>)

  /** A message of the topic: a change event, or the tombstone that follows a deletion. */
  datatype Message = Change(before: Option<Dict>, after: Option<Dict>) | Tombstone

  /** The row identifier if one is configured, otherwise every column of `before`. */
  function WhereColumns(cfg: TableConfig, before: Dict): seq<string> {
    if cfg.rowIdentifier != [] then cfg.rowIdentifier else Columns(before)
  }

  method CreateUpdateStatement(cfg: TableConfig, before: Dict, after: Dict) returns (q: Statement)
    ensures q == Update(Columns(after), WhereColumns(cfg, before))
  {
    q := Update([], []);
    var keys := if cfg.rowIdentifier != [] then cfg.rowIdentifier else Columns(before);
    var columns := Columns(after);
    for i := 0 to |columns|
      invariant q == Update(columns[..i], [])
    {
      q := q.(sets := q.sets + [columns[i]]);
      assert columns[..i + 1] == columns[..i] + [columns[i]];
    }
    for i := 0 to |keys|
      invariant q == Update(columns, keys[..i])
    {
      q := q.(wheres := q.wheres + [keys[i]]);
      assert keys[..i + 1] == keys[..i] + [keys[i]];
    }
    assert keys[..|keys|] == keys;
  }

  function CreateInsertStatement(after: Dict): Statement {
    Insert(Columns(after), |Values(after)|)
  }

  method CreateDeleteStatement(cfg: TableConfig, before: Dict) returns (q: Statement)
    ensures q == Delete(WhereColumns(cfg, before))
  {
    q := Delete([]);
    var keys := if cfg.rowIdentifier != [] then cfg.rowIdentifier else Columns(before);
    for i := 0 to |keys|
      invariant q == Delete(keys[..i])
    {
      q := Delete(q.wheres + [keys[i]]);
      assert keys[..i + 1] == keys[..i] + [keys[i]];
    }
    assert keys[..|keys|] == keys;
  }

  /** [before[k] for k in keys], or a KeyError. */
  function Select(before: Dict, keys: seq<string>): Result<seq<Value>> {
    if keys == [] then Ok([])
    else
      match Lookup(before, keys[0])
      case None => Err("KeyError")
      case Some(v) =>
        match Select(before, keys[1..])
        case Err(e) => Err(e)
        case Ok(rest) => Ok([v] + rest)
  }

  lemma {:induction false} SelectPointwise(before: Dict, keys: seq<string>)
    ensures Select(before, keys).Ok? <==> forall i :: 0 <= i < |keys| ==> Lookup(before, keys[i]).Some?
    ensures Select(before, keys).Ok? ==>
              && |Select(before, keys).value| == |keys|
              && forall i :: 0 <= i < |keys| ==> Lookup(before, keys[i]) == Some(Select(before, keys).value[i])
  {
    if keys != [] {
      SelectPointwise(before, keys[1..]);
      assert forall i | 1 <= i < |keys| :: keys[i] == keys[1..][i - 1];
    }
  }

  /** The cast values that identify the row, in the order the loop lists them. */
  function WhereParams(cfg: TableConfig, before: Dict): Result<seq<Value>> {
    if cfg.rowIdentifier != [] then
      match Select(before, cfg.rowIdentifier)
      case Err(e) => Err(e)
      case Ok(values) => CastAll(cfg, cfg.rowIdentifier, values)
    else CastAll(cfg, Columns(before), Values(before))
  }

  /** A statement with its parameters. */
  datatype Command = Command(statement: Statement, params: seq<Value>)

  function Both(a: Result<seq<Value>>, b: Result<seq<Value>>): Result<seq<Value>> {
    if a.Err? then a else if b.Err? then b else Ok(a.value + b.value)
  }

  function WithParams(statement: Statement, params: Result<seq<Value>>): Result<Option<Command>> {
    match params
    case Err(e) => Err(e)
    case Ok(values) => Ok(Some(Command(statement, values)))
  }

  /** What one message makes the loop execute: nothing, a command, or an exception. */
  function Plan(cfg: TableConfig, m: Message): Result<Option<Command>> {
    if m.Tombstone? then Ok(None)
    else if m.before.Some? && m.before.value != [] && m.after.Some? && m.after.value != [] then
      var before, after := m.before.value, m.after.value;
      WithParams(Update(Columns(after), WhereColumns(cfg, before)),
                 Both(CastAll(cfg, Columns(after), Values(after)), WhereParams(cfg, before)))
    else if m.before == None then
      if m.after == None then Err("AttributeError")
      else WithParams(CreateInsertStatement(m.after.value), CastAll(cfg, Columns(m.after.value), Values(m.after.value)))
    else
      WithParams(Delete(WhereColumns(cfg, m.before.value)), WhereParams(cfg, m.before.value))
  }

  // ---------- When a command is built ----------

  predicate AllValuesCast(cfg: TableConfig, d: Dict) {
    forall i :: 0 <= i < |d| ==> Cast(cfg, d[i].column, d[i].value).Ok?
  }

  /** The image has the identifying columns, if any are configured, and what identifies the row can be cast. */
  predicate IdentifierCasts(cfg: TableConfig, before: Dict) {
    if cfg.rowIdentifier == [] then AllValuesCast(cfg, before)
    else
      forall i {:trigger Lookup(before, cfg.rowIdentifier[i])} :: 0 <= i < |cfg.rowIdentifier| ==>
        && Lookup(before, cfg.rowIdentifier[i]).Some?
        && Cast(cfg, cfg.rowIdentifier[i], Lookup(before, cfg.rowIdentifier[i]).value).Ok?
  }

  /**
   The values of a message can be turned into parameters: of `before` those that identify the
   row, of `after` all of them, as far as the kind of change uses them.
   */
  predicate ValuesFit(cfg: TableConfig, m: Message) {
    match m
    case Tombstone => true
    case Change(None, None) => false
    case Change(None, Some(after)) => AllValuesCast(cfg, after)
    case Change(Some(before), None) => IdentifierCasts(cfg, before)
    case Change(Some(before), Some(after)) =>
      IdentifierCasts(cfg, before) && (before != [] ==> AllValuesCast(cfg, after))
  }

  lemma AllValuesCastIff(cfg: TableConfig, d: Dict)
    ensures CastAll(cfg, Columns(d), Values(d)).Ok? <==> AllValuesCast(cfg, d)
  {
    CastAllPointwise(cfg, Columns(d), Values(d));
  }

  lemma {:induction false} IdentifierCastsIff(cfg: TableConfig, before: Dict)
    ensures WhereParams(cfg, before).Ok? <==> IdentifierCasts(cfg, before)
  {
    if cfg.rowIdentifier == [] {
      AllValuesCastIff(cfg, before);
    } else {
      SelectPointwise(before, cfg.rowIdentifier);
      if Select(before, cfg.rowIdentifier).Ok? {
        CastAllPointwise(cfg, cfg.rowIdentifier, Select(before, cfg.rowIdentifier).value);
      }
    }
  }

  /** Something is executed, or a tombstone passed over, exactly if the values fit; otherwise an exception is raised. */
  lemma {:induction false} PlannedIff(cfg: TableConfig, m: Message)
    ensures Plan(cfg, m).Ok? <==> ValuesFit(cfg, m)
    ensures Plan(cfg, m) == Ok(None) <==> m.Tombstone?
  {
    if m.Change? {
      if m.before.Some? {
        IdentifierCastsIff(cfg, m.before.value);
      }
      if m.after.Some? {
        AllValuesCastIff(cfg, m.after.value);
      }
      if m.after == Some([]) {
        assert AllValuesCast(cfg, []);
      }
    }
  }

  method BuildWhereParams(cfg: TableConfig, before: Dict) returns (r: Result<seq<Value>>)
    ensures r.Ok? == WhereParams(cfg, before).Ok?
    ensures r.Ok? ==> r == WhereParams(cfg, before)
  {
    if cfg.rowIdentifier != [] {
      var keys := cfg.rowIdentifier;
      SelectPointwise(before, keys);
      var values := [];
      for i := 0 to |keys|
        invariant |values| == i
        invariant forall j :: 0 <= j < i ==> Lookup(before, keys[j]) == Some(values[j])
      {
        var value := Lookup(before, keys[i]);
        if value == None { return Err("KeyError"); }
        values := values + [value.value];
      }
      assert values == Select(before, keys).value;
      r := CastValues(cfg, keys, values);
    } else {
      r := CastValues(cfg, Columns(before), Values(before));
    }
  }

  /** The branch structure of the loop body: statement and parameters built side by side. */
  method BuildCommand(cfg: TableConfig, m: Message) returns (r: Result<Option<Command>>)
    ensures r.Ok? <==> ValuesFit(cfg, m)
    ensures r.Ok? == Plan(cfg, m).Ok?
    ensures r.Ok? ==> r == Plan(cfg, m)
  {
    PlannedIff(cfg, m);
    if m.Tombstone? {
      return Ok(None);
    }
    if m.before.Some? && m.before.value != [] && m.after.Some? && m.after.value != [] {
      var query := CreateUpdateStatement(cfg, m.before.value, m.after.value);
      var afterCast := CastValues(cfg, Columns(m.after.value), Values(m.after.value));
      if afterCast.Err? { return Err(afterCast.error); }
      var beforeCast := BuildWhereParams(cfg, m.before.value);
      if beforeCast.Err? { return Err(beforeCast.error); }
      return Ok(Some(Command(query, afterCast.value + beforeCast.value)));
    } else if m.before == None {
      if m.after == None { return Err("AttributeError"); }
      var query := CreateInsertStatement(m.after.value);
      var cast := CastValues(cfg, Columns(m.after.value), Values(m.after.value));
      if cast.Err? { return Err(cast.error); }
      return Ok(Some(Command(query, cast.value)));
    } else {
      var query := CreateDeleteStatement(cfg, m.before.value);
      var cast := BuildWhereParams(cfg, m.before.value);
      if cast.Err? { return Err(cast.error); }
      return Ok(Some(Command(query, cast.value)));
    }
  }

  // ---------- Placeholders and parameters line up ----------

  /** The column each placeholder stands for, in the order of the text. */
  function PlaceholderColumns(s: Statement): seq<string> {
    match s
    case Update(sets, wheres) => sets + wheres
    case Insert(columns, _) => columns
    case Delete(wheres) => wheres
  }

  function PlaceholderCount(s: Statement): nat {
    match s
    case Update(sets, wheres) => |sets| + |wheres|
    case Insert(_, placeholders) => placeholders
    case Delete(wheres) => |wheres|
  }

  /** The dictionary that supplies placeholder i. */
  function Supplier(s: Statement, m: Message, i: nat): Option<Dict>
    requires m.Change?
  {
    if s.Insert? || (s.Update? && i < |s.sets|) then m.after else m.before
  }

  /** Parameter i is the cast value of placeholder i's column. */
  ghost predicate Aligned(cfg: TableConfig, columns: seq<string>, params: seq<Value>, d: Dict) {
    && |params| == |columns|
    && forall i :: 0 <= i < |columns| ==>
         Lookup(d, columns[i]).Some? && Cast(cfg, columns[i], Lookup(d, columns[i]).value) == Ok(params[i])
  }

  lemma AllColumnsAligned(cfg: TableConfig, d: Dict)
    requires IsDict(d) && CastAll(cfg, Columns(d), Values(d)).Ok?
    ensures Aligned(cfg, Columns(d), CastAll(cfg, Columns(d), Values(d)).value, d)
  {
    CastAllPointwise(cfg, Columns(d), Values(d));
    forall i | 0 <= i < |d| {
      LookupIsField(d, i);
    }
  }

  lemma WhereAligned(cfg: TableConfig, before: Dict)
    requires IsDict(before) && WhereParams(cfg, before).Ok?
    ensures Aligned(cfg, WhereColumns(cfg, before), WhereParams(cfg, before).value, before)
  {
    if cfg.rowIdentifier != [] {
      SelectPointwise(before, cfg.rowIdentifier);
      CastAllPointwise(cfg, cfg.rowIdentifier, Select(before, cfg.rowIdentifier).value);
    } else {
      AllColumnsAligned(cfg, before);
    }
  }

  /**
   For every message, with or without a row identifier, whenever a command is built at all: it has one
   parameter per placeholder, and parameter i is the cast value of placeholder i's column.
   */
  lemma ParametersFitPlaceholders(cfg: TableConfig, m: Message)
    requires m.Change? && (m.before.Some? ==> IsDict(m.before.value)) && (m.after.Some? ==> IsDict(m.after.value))
    requires ValuesFit(cfg, m)
    ensures Plan(cfg, m).Ok? && Plan(cfg, m).value.Some?
    ensures var Command(s, params) := Plan(cfg, m).value.value;
            && PlaceholderCount(s) == |PlaceholderColumns(s)| == |params|
            && forall i :: 0 <= i < |params| ==>
                 && Supplier(s, m, i).Some?
                 && Lookup(Supplier(s, m, i).value, PlaceholderColumns(s)[i]).Some?
                 && Cast(cfg, PlaceholderColumns(s)[i], Lookup(Supplier(s, m, i).value, PlaceholderColumns(s)[i]).value)
                      == Ok(params[i])
  {
    PlannedIff(cfg, m);
    var Command(s, params) := Plan(cfg, m).value.value;
    match s {
      case Update(_, _) =>
        AllColumnsAligned(cfg, m.after.value);
        WhereAligned(cfg, m.before.value);
      case Insert(_, _) => AllColumnsAligned(cfg, m.after.value);
      case Delete(_) => WhereAligned(cfg, m.before.value);
    }
  }
}
