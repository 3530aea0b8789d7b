/**
 A chart as the state store keeps it: bytes, loaded and written back around every message.
 Facts about Kafka Streams taken as given: an aggregate that loads as null is skipped by the
 subtractor and replaced by a fresh one for the adder; a null result deletes the key.
 */
module ChartStore {
  import opened Ranking
  import opened BigEndian
  import opened TopFive
  import opened ChartProtocol
  import opened TopFiveSerde
  import opened Wrappers

  /** A missing key and an empty value both load as null. */
  function Fetch(store: map<string, seq<Byte>>, key: string): seq<Byte> {
    if key in store then store[key] else []
  }

  /** The stored bytes after one message; no bytes where the aggregate became null. */
  function Process(bytes: seq<Byte>, m: Message): Result<seq<Byte>> {
    match Load(bytes)
    case Err(e) => Err(e)
    case Ok(None) => Ok(if m.Add? then Encode(AddTo(EMPTY_CHART, m.value).top) else [])
    case Ok(Some(c)) => Ok(Encode(Update(c, m).top))
  }

  class ChartAggregator {
    var store: map<string, seq<Byte>>

    constructor ()
      ensures store == map[]
    {
      store := map[];
    }

    /** Deserialize, run the subtractor or the adder on the aggregate, serialize, put. */
    method Aggregate(key: string, m: Message) returns (ok: bool)
      modifies this
      ensures ok == Process(Fetch(old(store), key), m).Ok?
      ensures !ok ==> store == old(store)
      ensures ok ==> Fetch(store, key) == Process(Fetch(old(store), key), m).value
      ensures ok ==> forall other :: other != key ==> Fetch(store, other) == Fetch(old(store), other)
    {
      var loaded, aggregate := Deserialize(Fetch(store, key));
      if !loaded {
        return false;
      }
      match m {
      case Subtract(value) =>
        if aggregate == null {
          store := store - {key};
        } else {
          aggregate.Remove(value);
          var bytes := Serialize(aggregate);
          store := store[key := bytes];
        }
      case Add(value) =>
        if aggregate == null {
          aggregate := new TopFiveSongs();
        }
        aggregate.Add(value);
        var bytes := Serialize(aggregate);
        store := store[key := bytes];
      }
      return true;
    }
  }

  /** The bytes are those of a chart that tracks the ledger. */
  ghost predicate StoreTracks(bytes: seq<Byte>, l: Ledger) {
    exists c :: Tracks(c, l) && bytes == Encode(c.top)
  }

  lemma LoadTracked(bytes: seq<Byte>, l: Ledger) returns (c: Chart)
    requires StoreTracks(bytes, l)
    ensures Tracks(c, l) && bytes == Encode(c.top)
    ensures Load(bytes) == Ok(if c == EMPTY_CHART then None else Some(c))
  {
    c :| Tracks(c, l) && bytes == Encode(c.top);
    LoadStored(c);
  }

  /** One message, through bytes: loading never fails and the new bytes track the new ledger. */
  lemma {:induction false} ProcessKeepsTrack(bytes: seq<Byte>, l: Ledger, m: Message)
    requires StoreTracks(bytes, l) && Rising(l, m)
    ensures Process(bytes, m).Ok?
    ensures StoreTracks(Process(bytes, m).value, Record(l, m))
  {
    var c := LoadTracked(bytes, l);
    match m {
      case Add(v) =>
        AddKeepsTrack(c, l, v);
        assert Tracks(AddTo(c, v), Record(l, m));
      case Subtract(v) =>
        var after := SubtractInStore(c, l, v);
        assert Tracks(after, Record(l, m));
    }
  }

  /** After a subtraction the bytes are those of some tracking chart, whatever became of the map in memory. */
  lemma SubtractInStore(c: Chart, l: Ledger, v: SongPlayCount) returns (after: Chart)
    requires Tracks(c, l)
    ensures Tracks(after, Record(l, Subtract(v))) && after.top == RemoveFrom(c, v).top
  {
    SubtractKeepsTrack(c, l, v);
    RemoveFromValidIff(c, v);
    if v in c.top {
      after := RemoveFrom(c, v);
    } else {
      TreeRemoveAbsent(c.top, v);
      after := c;
    }
  }

  /** A settled store holds exactly the bytes of the five best. */
  lemma {:induction false} StoreAtRest(bytes: seq<Byte>, l: Ledger)
    requires StoreTracks(bytes, l) && l.pending == {}
    ensures bytes == Encode(FiveBest(l.counts))
  {
    var c := LoadTracked(bytes, l);
    TrackedAtRest(c, l);
  }

  lemma NewStoreTracks()
    ensures StoreTracks([], EMPTY_LEDGER)
  {
    assert Tracks(EMPTY_CHART, EMPTY_LEDGER);
  }

  // ---------- Whole runs of one chart ----------

  function LedgerAfter(messages: seq<Message>): Ledger {
    if messages == [] then EMPTY_LEDGER
    else Record(LedgerAfter(messages[..|messages| - 1]), messages[|messages| - 1])
  }

  function StoreAfter(messages: seq<Message>): Result<seq<Byte>> {
    if messages == [] then Ok([])
    else
      match StoreAfter(messages[..|messages| - 1])
      case Err(e) => Err(e)
      case Ok(bytes) => Process(bytes, messages[|messages| - 1])
  }

  predicate AllRising(messages: seq<Message>) {
    messages == [] ||
    (AllRising(messages[..|messages| - 1]) &&
     Rising(LedgerAfter(messages[..|messages| - 1]), messages[|messages| - 1]))
  }

  lemma {:induction false} RunTracks(messages: seq<Message>)
    requires AllRising(messages)
    ensures StoreAfter(messages).Ok?
    ensures StoreTracks(StoreAfter(messages).value, LedgerAfter(messages))
  {
    if messages == [] {
      NewStoreTracks();
    } else {
      var front := messages[..|messages| - 1];
      RunTracks(front);
      ProcessKeepsTrack(StoreAfter(front).value, LedgerAfter(front), messages[|messages| - 1]);
    }
  }

  /**
   Every run of subtractions and additions, in any interleaving of songs and in either order of
   subtractor and adder, in which no song's count falls: whenever no song is between its
   subtraction and its addition, the stored bytes are those of the five best of all counts,
   the forgotten ones included.
   */
  lemma RunYieldsFiveBest(messages: seq<Message>)
    requires AllRising(messages) && LedgerAfter(messages).pending == {}
    ensures StoreAfter(messages) == Ok(Encode(FiveBest(LedgerAfter(messages).counts)))
  {
    RunTracks(messages);
    StoreAtRest(StoreAfter(messages).value, LedgerAfter(messages));
  }

  /** During an update the chart may be short, but it misses no settled song of the five best. */
  lemma RunMissesNoSettledSong(messages: seq<Message>) returns (c: Chart)
    requires AllRising(messages)
    ensures ValidChart(c) && StoreAfter(messages) == Ok(Encode(c.top))
    ensures forall e | e in FiveBest(LedgerAfter(messages).counts) && e.songId !in LedgerAfter(messages).pending ::
              e in c.top
  {
    RunTracks(messages);
    c := LoadTracked(StoreAfter(messages).value, LedgerAfter(messages));
    BestSettledAreListed(c, LedgerAfter(messages));
  }
}
