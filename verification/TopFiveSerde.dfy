/** The byte format of a stored chart: sixteen bytes per entry, song id then plays. */
module TopFiveSerde {
  import opened Ranking
  import opened BigEndian
  import opened TopFive
  import opened ChartProtocol
  import opened Wrappers

  function EncodeEntry(e: SongPlayCount): (b: seq<Byte>)
    ensures |b| == 16
  {
    WriteLong(e.songId) + WriteLong(e.plays)
  }

  function DecodeEntry(b: seq<Byte>): SongPlayCount
    requires |b| == 16
  {
    SongPlayCount(ReadLong(b[..8]), ReadLong(b[8..]))
  }

  function Encode(top: seq<SongPlayCount>): (b: seq<Byte>)
    ensures |b| == 16 * |top|
  {
    if top == [] then [] else Encode(top[..|top| - 1]) + EncodeEntry(top[|top| - 1])
  }

  /** Entry i stands at byte 16 i: first the song id, then the plays. */
  lemma {:induction false} EntryLayout(top: seq<SongPlayCount>, i: nat)
    requires i < |top|
    ensures Encode(top)[16 * i..16 * i + 8] == WriteLong(top[i].songId)
    ensures Encode(top)[16 * i + 8..16 * i + 16] == WriteLong(top[i].plays)
  {
    var front, last := top[..|top| - 1], top[|top| - 1];
    if i < |top| - 1 {
      EntryLayout(front, i);
      assert Encode(top)[16 * i..16 * i + 8] == Encode(front)[16 * i..16 * i + 8];
      assert Encode(top)[16 * i + 8..16 * i + 16] == Encode(front)[16 * i + 8..16 * i + 16];
    }
  }

  /** The first n records. */
  function Records(b: seq<Byte>, n: nat): (top: seq<SongPlayCount>)
    requires 16 * n <= |b|
    ensures |top| == n
  {
    if n == 0 then [] else Records(b, n - 1) + [DecodeEntry(b[16 * n - 16..16 * n])]
  }

  /** All records; what is left of a cut one is ignored here. */
  function Decode(b: seq<Byte>): seq<SongPlayCount> {
    Records(b, |b| / 16)
  }

  lemma EntryReadsBack(top: seq<SongPlayCount>, i: nat)
    requires i < |top|
    ensures DecodeEntry(Encode(top)[16 * i..16 * i + 16]) == top[i]
  {
    var b, id, plays := Encode(top), WriteLong(top[i].songId), WriteLong(top[i].plays);
    EntryLayout(top, i);
    LongRoundTrip(top[i].songId);
    LongRoundTrip(top[i].plays);
    ReadsBack(b, 16 * i, id, plays);
  }

  lemma ReadsBack(b: seq<Byte>, at: nat, id: seq<Byte>, plays: seq<Byte>)
    requires at + 16 <= |b| && |id| == 8 && |plays| == 8
    requires b[at..at + 8] == id && b[at + 8..at + 16] == plays
    ensures DecodeEntry(b[at..at + 16]) == SongPlayCount(ReadLong(id), ReadLong(plays))
  {
    HalvesOfSlice(b, at);
  }

  lemma HalvesOfSlice(b: seq<Byte>, at: nat)
    requires at + 16 <= |b|
    ensures b[at..at + 16][..8] == b[at..at + 8] && b[at..at + 16][8..] == b[at + 8..at + 16]
  {
  }

  lemma {:induction false} RecordsOfEncoded(top: seq<SongPlayCount>, n: nat)
    requires n <= |top|
    ensures Records(Encode(top), n) == top[..n]
  {
    if n > 0 {
      RecordsOfEncoded(top, n - 1);
      EntryReadsBack(top, n - 1);
      assert top[..n] == top[..n - 1] + [top[n - 1]];
    }
  }

  lemma LengthInRecords(length: nat, n: nat)
    requires 16 * n <= length < 16 * (n + 1)
    ensures length % 16 == length - 16 * n && length / 16 == n
  {
  }

  lemma {:induction false} DecodeEncode(top: seq<SongPlayCount>)
    ensures Decode(Encode(top)) == top
  {
    LengthInRecords(|Encode(top)|, |top|);
    RecordsOfEncoded(top, |top|);
    assert top[..|top|] == top;
  }

  lemma EntryWritesBack(b: seq<Byte>)
    requires |b| == 16
    ensures EncodeEntry(DecodeEntry(b)) == b
  {
    BytesRoundTrip(b[..8]);
    BytesRoundTrip(b[8..]);
    assert b == b[..8] + b[8..];
  }

  lemma {:induction false} EncodeOfRecords(b: seq<Byte>, n: nat)
    requires 16 * n <= |b|
    ensures Encode(Records(b, n)) == b[..16 * n]
  {
    if n > 0 {
      EncodeOfRecords(b, n - 1);
      var last := b[16 * n - 16..16 * n];
      EntryWritesBack(last);
      assert Records(b, n)[..n - 1] == Records(b, n - 1);
      assert b[..16 * n] == b[..16 * n - 16] + last;
    }
  }

  lemma {:induction false} EncodeDecode(b: seq<Byte>)
    requires |b| % 16 == 0
    ensures Encode(Decode(b)) == b
  {
    EncodeOfRecords(b, |b| / 16);
    assert b[..16 * (|b| / 16)] == b;
  }

  /** The serializer writes what iterating the tree set yields. */
  method Serialize(topFiveSongs: TopFiveSongs) returns (bytes: seq<Byte>)
    ensures bytes == Encode(topFiveSongs.topFive)
  {
    bytes := [];
    for k := 0 to |topFiveSongs.topFive|
      invariant bytes == Encode(topFiveSongs.topFive[..k])
    {
      var songPlayCount := topFiveSongs.topFive[k];
      bytes := bytes + WriteLong(songPlayCount.songId);
      bytes := bytes + WriteLong(songPlayCount.plays);
      assert topFiveSongs.topFive[..k + 1][..k] == topFiveSongs.topFive[..k];
    }
    assert topFiveSongs.topFive[..|topFiveSongs.topFive|] == topFiveSongs.topFive;
  }

  /**
   What deserializing yields: null for no bytes, a failure for a cut record, otherwise the
   records added one after the other.
   */
  function Load(bytes: seq<Byte>): Result<Option<Chart>> {
    if bytes == [] then Ok(None)
    else if |bytes| % 16 != 0 then Err("EOFException")
    else Ok(Some(AddAll(EMPTY_CHART, Decode(bytes))))
  }

  /** The two readLong calls of one record; either may find the stream cut short. */
  method ReadRecord(bytes: seq<Byte>, at: nat) returns (ok: bool, record: SongPlayCount)
    requires at < |bytes|
    ensures ok <==> at + 16 <= |bytes|
    ensures ok ==> record == DecodeEntry(bytes[at..at + 16])
  {
    record := SongPlayCount(0, 0);
    if |bytes| - at < 8 {
      return false, record;
    }
    var songId := ReadLong(bytes[at..at + 8]);
    if |bytes| - at < 16 {
      return false, record;
    }
    var plays := ReadLong(bytes[at + 8..at + 16]);
    HalvesOfSlice(bytes, at);
    return true, SongPlayCount(songId, plays);
  }

  method Deserialize(bytes: seq<Byte>) returns (ok: bool, result: TopFiveSongs?)
    ensures ok <==> Load(bytes).Ok?
    ensures ok ==> (result == null <==> Load(bytes).value == None)
    ensures ok && result != null ==> fresh(result) && result.Valid() && Load(bytes).value == Some(result.Value())
  {
    if |bytes| == 0 {
      return true, null;
    }
    var songs := new TopFiveSongs();
    ok := ReadAll(bytes, songs);
    result := songs;
  }

  /** `while available() > 0: add(...)` */
  method ReadAll(bytes: seq<Byte>, songs: TopFiveSongs) returns (ok: bool)
    requires songs.Valid() && songs.Value() == EMPTY_CHART
    modifies songs
    ensures songs.Valid()
    ensures ok <==> |bytes| % 16 == 0
    ensures ok ==> songs.Value() == AddAll(EMPTY_CHART, Decode(bytes))
  {
    var at := 0;
    ghost var n := 0;
    while at < |bytes|
      invariant at == 16 * n <= |bytes|
      invariant songs.Valid() && LoadedRecords(bytes, n, songs.Value())
    {
      var record;
      ok, record := ReadRecord(bytes, at);
      if !ok {
        LengthInRecords(|bytes|, n);
        return;
      }
      LoadedNext(bytes, n, songs.Value());
      songs.Add(record);
      at, n := at + 16, n + 1;
    }
    LengthInRecords(|bytes|, n);
    return true;
  }

  /** The chart holds the first n records. */
  ghost predicate LoadedRecords(bytes: seq<Byte>, n: nat, c: Chart)
    requires 16 * n <= |bytes|
  {
    c == AddAll(EMPTY_CHART, Records(bytes, n))
  }

  lemma LoadedNext(bytes: seq<Byte>, n: nat, c: Chart)
    requires 16 * (n + 1) <= |bytes| && LoadedRecords(bytes, n, c)
    ensures LoadedRecords(bytes, n + 1, AddTo(c, DecodeEntry(bytes[16 * n..16 * n + 16])))
  {
  }

  /** Storing and loading a valid chart gives it back, both structures; only the empty one is lost. */
  lemma LoadStored(c: Chart)
    requires ValidChart(c)
    ensures Load(Encode(c.top)) == Ok(if c == EMPTY_CHART then None else Some(c))
  {
    if c.top == [] {
      ListDeterminesChart(c, EMPTY_CHART);
    } else {
      LoadNonEmpty(c);
    }
  }

  lemma LoadNonEmpty(c: Chart)
    requires ValidChart(c) && c.top != []
    ensures Load(Encode(c.top)) == Ok(Some(c)) && c != EMPTY_CHART
  {
    LoadEncoded(c.top);
    assert AddAll(EMPTY_CHART, c.top) == c by {
      AddAllRebuilds(c);
    }
  }

  lemma {:induction false} LoadEncoded(top: seq<SongPlayCount>)
    requires top != []
    ensures Load(Encode(top)) == Ok(Some(AddAll(EMPTY_CHART, top)))
  {
    DecodeEncode(top);
  }

  /** Equal bytes mean equal charts. */
  lemma StoredDeterminesChart(c: Chart, d: Chart)
    requires ValidChart(c) && ValidChart(d) && Encode(c.top) == Encode(d.top)
    ensures c == d
  {
    DecodeEncode(c.top);
    DecodeEncode(d.top);
    ListDeterminesChart(c, d);
  }

  /** Any whole-record bytes about different songs load as the valid chart of the five best of them. */
  lemma {:induction false} LoadDistinctRecords(bytes: seq<Byte>)
    requires bytes != [] && |bytes| % 16 == 0 && DistinctIds(Decode(bytes))
    ensures Load(bytes).Ok? && Load(bytes).value.Some?
    ensures ValidChart(Load(bytes).value.value)
    ensures Load(bytes).value.value.top == FiveBest(CountsOf(Decode(bytes)))
  {
    AddAllYieldsFiveBest(Decode(bytes));
  }

  /**
   Bytes written in the middle of an adder-first update hold the right list, so loading them
   repairs the map that the subtractor damaged in memory.
   */
  lemma LoadRepairs(c: Chart, before: SongPlayCount, after: SongPlayCount)
    requires ValidChart(c)
    requires before.songId == after.songId && before != after
    requires before.songId !in c.current || c.current[before.songId] == before
    ensures Load(Encode(RemoveFrom(AddTo(c, after), before).top)) == Ok(Some(AddTo(RemoveFrom(c, before), after)))
  {
    UpdateOrderSameList(c, before, after);
    var good := AddTo(RemoveFrom(c, before), after);
    RemoveFromValidIff(c, before);
    AddToKeepsBest(RemoveFrom(c, before), after);
    assert Candidate(after, RemoveFrom(c, before), after);
    assert good != EMPTY_CHART;
    LoadStored(good);
  }
}
