/** Column values of a change event, and how they are cast before they become parameters. */
module Casting {
  import opened Wrappers

  datatype Value =
    | Null
    | Int(n: int)
    | Text(s: string)
    | Date(days: int)
    | Time(hour: int, minute: int, second: int)
    | Timestamp(micros: int)

  /** One table's entry of the configuration file. */
  datatype TableConfig = TableConfig(
    dateFields: set<string>,
    timeFields: set<string>,
    datetimeMilliFields: set<string>,
    datetimeMicroFields: set<string>,
    timestampFields: set<string>,
    setFields: set<string>,
    rowIdentifier: seq<string>)

  // The ranges of datetime.date and datetime.datetime, counted from 1970-01-01.
  const MIN_DAYS := -719162
  const MAX_DAYS := 2932896
  const DAY_MICROS := 86_400_000_000

  function AsDate(v: Value): Result<Value> {
    if v.Int? then
      if MIN_DAYS <= v.n <= MAX_DAYS then Ok(Date(v.n)) else Err("OverflowError")
    else Err("TypeError")
  }

  function AsDatetime(micros: int): Result<Value> {
    if MIN_DAYS * DAY_MICROS <= micros < (MAX_DAYS + 1) * DAY_MICROS then Ok(Timestamp(micros))
    else Err("OverflowError")
  }

  /** The moment a date begins or a timestamp stands for, in microseconds since the epoch. */
  function Instant(v: Value): int
    requires v.Date? || v.Timestamp?
  {
    match v
    case Date(days) => 86_400_000_000 * days
    case Timestamp(micros) => micros
  }

  /** EPOCH_DATE + timedelta(days): the day whose midnight is that many days after the epoch. */
  method IntToDate(daysSinceEpoch: Value) returns (r: Result<Value>)
    ensures r == AsDate(daysSinceEpoch)
    ensures r.Ok? <==> daysSinceEpoch.Int? && -719_162 <= daysSinceEpoch.n <= 2_932_896
    ensures r.Ok? ==> r.value.Date? && Instant(r.value) == daysSinceEpoch.n * 86_400_000_000
  {
    if !daysSinceEpoch.Int? { return Err("TypeError"); }
    var day := daysSinceEpoch.n;
    if day < MIN_DAYS || MAX_DAYS < day { return Err("OverflowError"); }
    return Ok(Date(day));
  }

  /** EPOCH_DATETIME + timedelta(microseconds): whole days and a rest, within the years 1 to 9999. */
  method MicroToDatetime(microseconds: Value) returns (r: Result<Value>)
    ensures r == if microseconds.Int? then AsDatetime(microseconds.n) else Err("TypeError")
    ensures r.Ok? <==> microseconds.Int? && -62_135_596_800_000_000 <= microseconds.n <= 253_402_300_799_999_999
    ensures r.Ok? ==> r.value.Timestamp? && Instant(r.value) == microseconds.n
  {
    if !microseconds.Int? { return Err("TypeError"); }
    var days, rest := microseconds.n / DAY_MICROS, microseconds.n % DAY_MICROS;
    if days < MIN_DAYS || MAX_DAYS < days { return Err("OverflowError"); }
    return Ok(Timestamp(days * DAY_MICROS + rest));
  }

  /** EPOCH_DATETIME + timedelta(microseconds=milliseconds * 1000) */
  method MilliToDatetime(milliseconds: Value) returns (r: Result<Value>)
    ensures r == if milliseconds.Int? then AsDatetime(milliseconds.n * 1000) else Err("TypeError")
    ensures r.Ok? <==> milliseconds.Int? && -62_135_596_800_000 <= milliseconds.n <= 253_402_300_799_999
    ensures r.Ok? ==> r.value.Timestamp? && Instant(r.value) == milliseconds.n * 1000
  {
    if !milliseconds.Int? { return Err("TypeError"); }
    r := MicroToDatetime(Int(milliseconds.n * 1000));
  }

  const DAY_MILLIS := 86_400_000

  /** The time of day `milliseconds` after midnight, cut to whole seconds. */
  function MilliTime(milliseconds: int): Result<Value> {
    if 0 <= milliseconds < DAY_MILLIS then
      Ok(Time(milliseconds / 3_600_000, milliseconds / 60_000 % 60, milliseconds / 1000 % 60))
    else Err("ValueError")
  }

  /** datetime.time accepts only hours, minutes and seconds of one day. */
  function MakeTime(hour: int, minute: int, second: int): Result<Value> {
    if 0 <= hour < 24 && 0 <= minute < 60 && 0 <= second < 60 then Ok(Time(hour, minute, second)) else Err("ValueError")
  }

  /**
   The conversion as written, with its mistaken last subtraction: it fails exactly outside one
   day, and otherwise yields the one time of day that starts at most a second before.
   */
  method ConvertMilliTime(milliseconds: int) returns (r: Result<Value>)
    ensures r == MilliTime(milliseconds)
    ensures r.Ok? <==> 0 <= milliseconds < DAY_MILLIS
    ensures r.Ok? ==>
              && r.value.Time?
              && 0 <= r.value.hour < 24 && 0 <= r.value.minute < 60 && 0 <= r.value.second < 60
              && var start := 3_600_000 * r.value.hour + 60_000 * r.value.minute + 1000 * r.value.second;
                 start <= milliseconds < start + 1000
  {
    var rest := milliseconds;
    var hours := rest / 3_600_000;
    rest := rest - hours * 3_600_000;
    var minutes := rest / 60_000;
    rest := rest - minutes * 60_000;
    var seconds := rest / 1000;
    rest := rest - rest * 1000;
    if rest < 0 {
      rest := 0;
    }
    DivideStepwise(milliseconds);
    r := MakeTime(hours, minutes, seconds);
  }

  /** Dividing what is left over is dividing the whole and reducing. */
  lemma {:induction false} DivideStepwise(ms: int)
    ensures var inHour := ms - ms / 3_600_000 * 3_600_000;
            var inMinute := inHour - inHour / 60_000 * 60_000;
            && inHour / 60_000 == ms / 60_000 % 60
            && inMinute / 1000 == ms / 1000 % 60
    ensures ms / 3_600_000 * 3_600_000 + ms / 60_000 % 60 * 60_000 + ms / 1000 % 60 * 1000 == ms - ms % 1000
  {
    var minutes, seconds := ms / 60_000, ms / 1000;
    assert ms / 3_600_000 == minutes / 60;
    assert minutes == seconds / 60;
    var inHour := ms - ms / 3_600_000 * 3_600_000;
    assert inHour == 60_000 * (minutes % 60) + ms % 60_000;
    var inMinute := inHour - inHour / 60_000 * 60_000;
    assert inMinute == 1000 * (seconds % 60) + ms % 1000;
  }

  /** Within one day, the conversion loses exactly the part below a second. */
  lemma {:induction false} MilliTimeCollidesIff(a: int, b: int)
    requires 0 <= a < DAY_MILLIS && 0 <= b < DAY_MILLIS
    ensures MilliTime(a) == MilliTime(b) <==> a / 1000 == b / 1000
  {
    SecondsOfDay(a);
    SecondsOfDay(b);
  }

  lemma SecondsOfDay(ms: int)
    requires 0 <= ms < DAY_MILLIS
    ensures ms / 1000 == 3600 * (ms / 3_600_000) + 60 * (ms / 60_000 % 60) + ms / 1000 % 60
  {
  }

  /** Later moments never convert to an earlier time of day. */
  lemma MilliTimeMonotone(a: int, b: int)
    requires 0 <= a <= b < DAY_MILLIS
    ensures var s, t := MilliTime(a).value, MilliTime(b).value;
            3600 * s.hour + 60 * s.minute + s.second <= 3600 * t.hour + 60 * t.minute + t.second
  {
    SecondsOfDay(a);
    SecondsOfDay(b);
  }

  /** The first field list that names the column decides; an unlisted column passes unchanged. */
  function Cast(cfg: TableConfig, column: string, v: Value): Result<Value> {
    if column in cfg.dateFields then AsDate(v)
    else if column in cfg.timeFields then (if v.Int? then MilliTime(v.n) else Err("TypeError"))
    else if column in cfg.datetimeMilliFields then (if v.Int? then AsDatetime(v.n * 1000) else Err("TypeError"))
    else if column in cfg.datetimeMicroFields then (if v.Int? then AsDatetime(v.n) else Err("TypeError"))
    else if column in cfg.timestampFields then (if v.Int? then AsDatetime(v.n * 1000) else Err("TypeError"))
    else Ok(v)
  }

  /** What a number means in a column that is cast: days, or thousandths or millionths of a second. */
  datatype Kind = Days | TimeOfDay | Millis | Micros | Uncast

  /** The lists are asked in this order. */
  function KindOf(cfg: TableConfig, column: string): Kind {
    if column in cfg.dateFields then Days
    else if column in cfg.timeFields then TimeOfDay
    else if column in cfg.datetimeMilliFields then Millis
    else if column in cfg.datetimeMicroFields then Micros
    else if column in cfg.timestampFields then Millis
    else Uncast
  }

  /** The numbers that can be cast: the years 1 to 9999, or one day. */
  predicate InRange(kind: Kind, n: int) {
    match kind
    case Days => -719_162 <= n <= 2_932_896
    case TimeOfDay => 0 <= n < 86_400_000
    case Millis => -62_135_596_800_000 <= n <= 253_402_300_799_999
    case Micros => -62_135_596_800_000_000 <= n <= 253_402_300_799_999_999
    case Uncast => true
  }

  /**
   A cast fails exactly on what is not a number of the kind's range, and yields the moment the
   number counts up to from the epoch, the time of day it falls in, or the value itself.
   */
  lemma CastMeans(cfg: TableConfig, column: string, v: Value)
    ensures KindOf(cfg, column).Uncast? ==> Cast(cfg, column, v) == Ok(v)
    ensures !KindOf(cfg, column).Uncast? ==>
              (Cast(cfg, column, v).Ok? <==> v.Int? && InRange(KindOf(cfg, column), v.n))
    ensures Cast(cfg, column, v).Ok? && v.Int? ==>
              var w := Cast(cfg, column, v).value;
              match KindOf(cfg, column)
              case Days => w.Date? && Instant(w) == v.n * 86_400_000_000
              case TimeOfDay =>
                && w.Time? && 0 <= w.hour && 0 <= w.minute < 60 && 0 <= w.second < 60
                && 3600 * w.hour + 60 * w.minute + w.second == v.n / 1000
              case Millis => w.Timestamp? && Instant(w) == v.n * 1000
              case Micros => w.Timestamp? && Instant(w) == v.n
              case Uncast => w == v
  {
    if KindOf(cfg, column).TimeOfDay? && v.Int? && 0 <= v.n < DAY_MILLIS {
      SecondsOfDay(v.n);
    }
  }

  /** The column is cast by the conversion that drops milliseconds. */
  predicate DropsMillis(cfg: TableConfig, column: string) {
    column in cfg.timeFields && column !in cfg.dateFields
  }

  /** Casting confuses two values of a column exactly when it drops the milliseconds they differ in. */
  lemma {:induction false} CastCollidesIff(cfg: TableConfig, column: string, v: Value, w: Value)
    requires Cast(cfg, column, v).Ok? && Cast(cfg, column, w).Ok? && v != w
    ensures Cast(cfg, column, v) == Cast(cfg, column, w) <==>
            DropsMillis(cfg, column) && v.n / 1000 == w.n / 1000
  {
    if DropsMillis(cfg, column) {
      MilliTimeCollidesIff(v.n, w.n);
    }
  }

  /** The casts of zip(keys, values), up to the first failure. */
  function CastAll(cfg: TableConfig, keys: seq<string>, values: seq<Value>): Result<seq<Value>> {
    if keys == [] || values == [] then Ok([])
    else
      match Cast(cfg, keys[0], values[0])
      case Err(e) => Err(e)
      case Ok(first) =>
        match CastAll(cfg, keys[1..], values[1..])
        case Err(e) => Err(e)
        case Ok(rest) => Ok([first] + rest)
  }

  function ZipLength(keys: seq<string>, values: seq<Value>): nat {
    if |keys| <= |values| then |keys| else |values|
  }

  /** All or nothing: one cast value per pair, in order, or a failure exactly when some cast fails. */
  lemma {:induction false} CastAllPointwise(cfg: TableConfig, keys: seq<string>, values: seq<Value>)
    ensures CastAll(cfg, keys, values).Ok? <==>
            forall i :: 0 <= i < ZipLength(keys, values) ==> Cast(cfg, keys[i], values[i]).Ok?
    ensures CastAll(cfg, keys, values).Ok? ==>
              && |CastAll(cfg, keys, values).value| == ZipLength(keys, values)
              && forall i :: 0 <= i < ZipLength(keys, values) ==>
                   Cast(cfg, keys[i], values[i]) == Ok(CastAll(cfg, keys, values).value[i])
  {
    if keys != [] && values != [] {
      CastAllPointwise(cfg, keys[1..], values[1..]);
      assert forall i | 1 <= i < ZipLength(keys, values) ::
          keys[i] == keys[1..][i - 1] && values[i] == values[1..][i - 1];
    }
  }

  /** cast_values: the loop appends cast after cast and stops at the first exception. */
  method CastValues(cfg: TableConfig, keys: seq<string>, values: seq<Value>) returns (r: Result<seq<Value>>)
    ensures r.Ok? == CastAll(cfg, keys, values).Ok?
    ensures r.Ok? ==> r == CastAll(cfg, keys, values)
  {
    CastAllPointwise(cfg, keys, values);
    var castVals := [];
    for i := 0 to ZipLength(keys, values)
      invariant |castVals| == i
      invariant forall j :: 0 <= j < i ==> Cast(cfg, keys[j], values[j]) == Ok(castVals[j])
    {
      var v: Value;
      if keys[i] in cfg.dateFields {
        var date := IntToDate(values[i]);
        if date.Err? { return Err(date.error); }
        v := date.value;
      } else if keys[i] in cfg.timeFields {
        if !values[i].Int? { return Err("TypeError"); }
        var time := ConvertMilliTime(values[i].n);
        if time.Err? { return Err(time.error); }
        v := time.value;
      } else if keys[i] in cfg.datetimeMilliFields {
        var milli := MilliToDatetime(values[i]);
        if milli.Err? { return Err(milli.error); }
        v := milli.value;
      } else if keys[i] in cfg.datetimeMicroFields {
        var micro := MicroToDatetime(values[i]);
        if micro.Err? { return Err(micro.error); }
        v := micro.value;
      } else if keys[i] in cfg.timestampFields {
        var timestamp := MilliToDatetime(values[i]);
        if timestamp.Err? { return Err(timestamp.error); }
        v := timestamp.value;
      } else {
        v := values[i];
      }
      castVals := castVals + [v];
    }
    r := Ok(castVals);
    if CastAll(cfg, keys, values).Ok? {
      assert castVals == CastAll(cfg, keys, values).value;
    }
  }
}
