/**
 * The byte image of the package-state file: a 24-byte header followed by 40-byte records,
 * little-endian, with 4 bytes of structure padding inside each record.
 */
module StateImage {
  import opened Basics

  const MAGIC: u32 := 0x46525348
  const VERSION: u32 := 1
  const HEADER_SIZE: nat := 24
  const RECORD_SIZE: nat := 40

  function PayloadSize(count: nat): nat { 40 * count }

  datatype PackageState = PackageState(
    hash: u32,
    lastScanMs: u64,
    lastCleanupMs: u64,
    lastSizeBytes: u64,
    cleanupCount: u32,
    growthRateBytesPerDay: u32)

  /** A record as it lies in memory: its fields and whatever its padding bytes happen to hold. */
  datatype Slot = Slot(state: PackageState, padding: seq<octet>)

  ghost predicate Padded(slots: seq<Slot>) { forall i :: 0 <= i < |slots| ==> |slots[i].padding| == 4 }

  function States(slots: seq<Slot>): (r: seq<PackageState>)
    ensures |r| == |slots| && forall i :: 0 <= i < |r| ==> r[i] == slots[i].state
  {
    seq(|slots|, i requires 0 <= i < |slots| => slots[i].state)
  }

  // ----- Little-endian words

  function Pow256(k: nat): nat { if k == 0 then 1 else 256 * Pow256(k - 1) }

  function LE(n: nat, k: nat): (bs: seq<octet>)
    ensures |bs| == k
  {
    if k == 0 then [] else [n % 256] + LE(n / 256, k - 1)
  }

  function Value(bs: seq<octet>): nat {
    if bs == [] then 0 else bs[0] + 256 * Value(bs[1..])
  }

  /** Everything a reader sees of `LE(n, k)` in front of `rest`. */
  lemma {:induction false} ReadBack(n: nat, k: nat, rest: seq<octet>)
    requires n < Pow256(k)
    ensures Value((LE(n, k) + rest)[..k]) == n && (LE(n, k) + rest)[k..] == rest
  {
    assert (LE(n, k) + rest)[..k] == LE(n, k);
    if k != 0 {
      ReadBack(n / 256, k - 1, []);
      assert LE(n / 256, k - 1) + [] == LE(n / 256, k - 1);
      assert LE(n / 256, k - 1)[..k - 1] == LE(n / 256, k - 1);
      assert LE(n, k)[1..] == LE(n / 256, k - 1);
    }
  }

  lemma {:induction false} WordSizes()
    ensures Pow256(4) == MOD32 && Pow256(8) == MOD64
  {
    assert Pow256(2) == 0x1_0000 && Pow256(4) == MOD32 && Pow256(6) == 0x1_0000_0000_0000;
  }

  lemma {:induction false} ValueBounded(bs: seq<octet>)
    ensures Value(bs) < Pow256(|bs|)
  {
    if bs != [] { ValueBounded(bs[1..]); }
  }

  /** A byte string is determined by its value, so changing one byte changes the value. */
  lemma {:induction false} ChangedByteChangesValue(bs: seq<octet>, i: nat, b: octet)
    requires i < |bs| && b != bs[i]
    ensures Value(bs[i := b]) != Value(bs)
  {
    if i == 0 {
      assert bs[0 := b][1..] == bs[1..];
    } else {
      ChangedByteChangesValue(bs[1..], i - 1, b);
      assert bs[i := b][1..] == bs[1..][i - 1 := b];
    }
  }

  // ----- Records

  function RecordBytes(s: Slot): (bs: seq<octet>)
    ensures |s.padding| == 4 ==> |bs| == RECORD_SIZE
  {
    LE(s.state.hash, 4) + (s.padding + (LE(s.state.lastScanMs, 8) + (LE(s.state.lastCleanupMs, 8) +
    (LE(s.state.lastSizeBytes, 8) + (LE(s.state.cleanupCount, 4) + LE(s.state.growthRateBytesPerDay, 4))))))
  }

  function Word32(bs: seq<octet>): u32 requires |bs| >= 4 { AsU32(Value(bs[..4])) }

  function Word64(bs: seq<octet>): u64 requires |bs| >= 8 { AsU64(Value(bs[..8])) }

  /** The fields of the record that starts at the front of `bs`. */
  function ReadRecord(bs: seq<octet>): PackageState
    requires |bs| >= RECORD_SIZE
  {
    PackageState(Word32(bs), Word64(bs[8..]), Word64(bs[16..]), Word64(bs[24..]), Word32(bs[32..]), Word32(bs[36..]))
  }

  function Body(slots: seq<Slot>): seq<octet> {
    if slots == [] then [] else RecordBytes(slots[0]) + Body(slots[1..])
  }

  function ReadRecords(bs: seq<octet>, count: nat): seq<PackageState>
    requires |bs| >= PayloadSize(count)
  {
    if count == 0 then [] else [ReadRecord(bs)] + ReadRecords(bs[RECORD_SIZE..], count - 1)
  }

  lemma {:induction false} ReadWord32(n: u32, rest: seq<octet>)
    ensures Word32(LE(n, 4) + rest) == n && (LE(n, 4) + rest)[4..] == rest
  {
    WordSizes();
    ReadBack(n, 4, rest);
  }

  lemma {:induction false} ReadWord64(n: u64, rest: seq<octet>)
    ensures Word64(LE(n, 8) + rest) == n && (LE(n, 8) + rest)[8..] == rest
  {
    WordSizes();
    ReadBack(n, 8, rest);
  }

  lemma {:induction false} DropDrop(bs: seq<octet>, i: nat, j: nat)
    requires i + j <= |bs|
    ensures bs[i..][j..] == bs[i + j..]
  {
  }

  lemma {:induction false} ReadRecordBack(s: Slot, rest: seq<octet>)
    requires |s.padding| == 4
    ensures ReadRecord(RecordBytes(s) + rest) == s.state && (RecordBytes(s) + rest)[RECORD_SIZE..] == rest
  {
    var p := s.state;
    var r36 := LE(p.growthRateBytesPerDay, 4) + rest;
    var r32 := LE(p.cleanupCount, 4) + r36;
    var r24 := LE(p.lastSizeBytes, 8) + r32;
    var r16 := LE(p.lastCleanupMs, 8) + r24;
    var r8 := LE(p.lastScanMs, 8) + r16;
    var bs := LE(p.hash, 4) + (s.padding + r8);
    assert RecordBytes(s) + rest == bs;
    ReadWord32(p.hash, s.padding + r8);
    assert bs[8..] == r8;
    ReadWord64(p.lastScanMs, r16);
    DropDrop(bs, 8, 8);
    ReadWord64(p.lastCleanupMs, r24);
    DropDrop(bs, 16, 8);
    ReadWord64(p.lastSizeBytes, r32);
    DropDrop(bs, 24, 8);
    ReadWord32(p.cleanupCount, r36);
    DropDrop(bs, 32, 4);
    ReadWord32(p.growthRateBytesPerDay, rest);
  }

  lemma {:induction false} BodySize(slots: seq<Slot>)
    requires Padded(slots)
    ensures |Body(slots)| == PayloadSize(|slots|)
  {
    if slots != [] { BodySize(slots[1..]); }
  }

  lemma {:induction false} ReadFirst(s: Slot, rest: seq<octet>, count: nat)
    requires |s.padding| == 4 && |rest| >= PayloadSize(count)
    ensures |RecordBytes(s) + rest| >= PayloadSize(count + 1)
    ensures ReadRecords(RecordBytes(s) + rest, count + 1) == [s.state] + ReadRecords(rest, count)
  {
    ReadRecordBack(s, rest);
  }

  lemma {:induction false} ReadBodyBack(slots: seq<Slot>, rest: seq<octet>)
    requires Padded(slots)
    ensures |Body(slots)| == PayloadSize(|slots|)
    ensures ReadRecords(Body(slots) + rest, |slots|) == States(slots)
  {
    BodySize(slots);
    if slots != [] {
      var first, tail := slots[0], slots[1..];
      ReadBodyBack(tail, rest);
      ReadFirst(first, Body(tail) + rest, |tail|);
      Associative(RecordBytes(first), Body(tail), rest);
      assert States(slots) == [first.state] + States(tail);
    }
  }

  // ----- The image

  function Sum(bs: seq<octet>): nat { if bs == [] then 0 else bs[|bs| - 1] + Sum(bs[..|bs| - 1]) }

  function Checksum(bs: seq<octet>): u32 { AsU32(Sum(bs)) }

  /** The accumulator loop of `CalculateChecksum`, over the memory of the record vector. */
  method CalculateChecksum(memory: seq<octet>) returns (sum: u32)
    ensures sum == Checksum(memory)
  {
    sum := 0;
    for i := 0 to |memory|
      invariant sum == Checksum(memory[..i])
    {
      assert memory[..i + 1][..i] == memory[..i];
      sum := AsU32(sum + memory[i]);
    }
    assert memory[..|memory|] == memory;
  }

  function Header(timestamp: u64, count: u32, checksum: u32): (bs: seq<octet>)
    ensures |bs| == HEADER_SIZE
  {
    LE(MAGIC, 4) + (LE(VERSION, 4) + (LE(timestamp, 8) + (LE(count, 4) + LE(checksum, 4))))
  }

  /** What a complete save writes. The count is narrowed to 32 bits. */
  function Image(slots: seq<Slot>, timestamp: u64): seq<octet> {
    Header(timestamp, AsU32(|slots|), Checksum(Body(slots))) + Body(slots)
  }

  datatype LoadResult = Rejected | Accepted(records: seq<PackageState>)

  /** The verdict of `InitializeStateStorage` on the bytes of a file. Bytes past the last record are not looked at. */
  function Load(file: seq<octet>): LoadResult {
    if |file| < HEADER_SIZE then Rejected
    else if Word32(file) != MAGIC || Word32(file[4..]) != VERSION then Rejected
    else LoadPayload(Word32(file[16..]), Word32(file[20..]), file[HEADER_SIZE..])
  }

  function LoadPayload(count: u32, checksum: u32, payload: seq<octet>): LoadResult {
    if |payload| < PayloadSize(count) then Rejected
    else if Checksum(payload[..PayloadSize(count)]) != checksum then Rejected
    else Accepted(ReadRecords(payload, count))
  }

  /** The header fields a reader finds in front of any payload. */
  lemma {:induction false} ReadHeader(timestamp: u64, count: u32, checksum: u32, payload: seq<octet>)
    ensures var file := Header(timestamp, count, checksum) + payload;
      && Word32(file) == MAGIC && Word32(file[4..]) == VERSION
      && Word32(file[16..]) == count && Word32(file[20..]) == checksum && file[HEADER_SIZE..] == payload
  {
    var r20 := LE(checksum, 4) + payload;
    var r16 := LE(count, 4) + r20;
    var r8 := LE(timestamp, 8) + r16;
    var r4 := LE(VERSION, 4) + r8;
    var file := LE(MAGIC, 4) + r4;
    assert Header(timestamp, count, checksum) + payload == file;
    ReadWord32(MAGIC, r4);
    ReadWord32(VERSION, r8);
    DropDrop(file, 4, 4);
    ReadWord64(timestamp, r16);
    DropDrop(file, 8, 8);
    ReadWord32(count, r20);
    DropDrop(file, 16, 4);
    ReadWord32(checksum, payload);
    DropDrop(file, 20, 4);
  }

  lemma {:induction false} LoadWithHeader(timestamp: u64, count: u32, checksum: u32, payload: seq<octet>)
    ensures Load(Header(timestamp, count, checksum) + payload) == LoadPayload(count, checksum, payload)
  {
    ReadHeader(timestamp, count, checksum, payload);
  }

  lemma {:induction false} SmallWord(n: nat)
    requires n < MOD32
    ensures AsU32(n) == n
  {
  }

  lemma {:induction false} NearWordsDiffer(x: nat, y: nat)
    requires x != y && -256 < x - y < 256
    ensures AsU32(x) != AsU32(y)
  {
  }

  lemma {:induction false} ImageParts(slots: seq<Slot>, timestamp: u64)
    requires |slots| < MOD32
    ensures Image(slots, timestamp) == Header(timestamp, |slots|, Checksum(Body(slots))) + Body(slots)
  {
    SmallWord(|slots|);
  }

  /** A saved image with fewer than 2^32 records loads back to exactly its records. */
  lemma {:induction false} LoadImage(slots: seq<Slot>, timestamp: u64)
    requires Padded(slots) && |slots| < MOD32
    ensures Load(Image(slots, timestamp)) == Accepted(States(slots))
  {
    ImageParts(slots, timestamp);
    BodyReadBack(slots);
    LoadWhole(timestamp, Body(slots), |slots|);
  }

  lemma {:induction false} BodyReadBack(slots: seq<Slot>)
    requires Padded(slots)
    ensures |Body(slots)| == PayloadSize(|slots|)
    ensures ReadRecords(Body(slots), |slots|) == States(slots)
  {
    ReadBodyBack(slots, []);
    assert Body(slots) + [] == Body(slots);
  }

  lemma {:induction false} LoadWhole(timestamp: u64, body: seq<octet>, count: u32)
    requires |body| == PayloadSize(count)
    ensures Load(Header(timestamp, count, Checksum(body)) + body) == Accepted(ReadRecords(body, count))
  {
    LoadWithHeader(timestamp, count, Checksum(body), body);
    assert body[..PayloadSize(count)] == body;
  }

  /** Truncation is detected: no strict prefix of a saved image is accepted. */
  lemma {:induction false} StrictPrefixRejected(slots: seq<Slot>, timestamp: u64, n: nat)
    requires Padded(slots) && |slots| < MOD32
    requires n < |Image(slots, timestamp)|
    ensures Load(Image(slots, timestamp)[..n]) == Rejected
  {
    ImageParts(slots, timestamp);
    BodyReadBack(slots);
    CutRejected(timestamp, Body(slots), |slots|, n);
  }

  lemma {:induction false} CutRejected(timestamp: u64, body: seq<octet>, count: u32, n: nat)
    requires |body| == PayloadSize(count) && n < HEADER_SIZE + |body|
    ensures Load((Header(timestamp, count, Checksum(body)) + body)[..n]) == Rejected
  {
    if n >= HEADER_SIZE {
      var header, cut := Header(timestamp, count, Checksum(body)), body[..n - HEADER_SIZE];
      LoadWithHeader(timestamp, count, Checksum(body), cut);
      assert LoadPayload(count, Checksum(body), cut) == Rejected;
      TakeConcat(header, body, n - HEADER_SIZE);
    }
  }

  lemma {:induction false} TakeConcat(a: seq<octet>, b: seq<octet>, m: nat)
    requires m <= |b|
    ensures (a + b)[..|a| + m] == a + b[..m]
  {
  }

  lemma {:induction false} ChangeConcat(a: seq<octet>, b: seq<octet>, i: nat, x: octet)
    requires i < |b|
    ensures (a + b)[|a| + i := x] == a + b[i := x]
  {
  }

  // ----- One changed byte

  lemma {:induction false} SumOfChanged(bs: seq<octet>, i: nat, b: octet)
    requires i < |bs|
    ensures Sum(bs[i := b]) == Sum(bs) - bs[i] + b
  {
    var n := |bs| - 1;
    if i == n {
      assert bs[i := b][..n] == bs[..n];
    } else {
      SumOfChanged(bs[..n], i, b);
      assert bs[i := b][..n] == bs[..n][i := b];
    }
  }

  lemma {:induction false} SumOfConcat(a: seq<octet>, b: seq<octet>)
    ensures Sum(a + b) == Sum(a) + Sum(b)
  {
    if b == [] {
      assert a + b == a;
    } else {
      SumOfConcat(a, b[..|b| - 1]);
      assert (a + b)[..|a + b| - 1] == a + b[..|b| - 1];
    }
  }

  lemma {:induction false} WordChanged(file: seq<octet>, at: nat, i: nat, b: octet)
    requires at <= i < at + 4 <= |file| && b != file[i]
    ensures Word32(file[i := b][at..]) != Word32(file[at..])
  {
    var word := file[at..][..4];
    WordSizes();
    ValueBounded(word);
    ValueBounded(word[i - at := b]);
    ChangedByteChangesValue(word, i - at, b);
    assert file[i := b][at..][..4] == word[i - at := b];
  }

  lemma {:induction false} WordUnchanged(file: seq<octet>, at: nat, i: nat, b: octet)
    requires i < |file| && at + 4 <= |file| && (i < at || at + 4 <= i)
    ensures Word32(file[i := b][at..]) == Word32(file[at..])
  {
    assert file[i := b][at..][..4] == file[at..][..4];
  }

  lemma {:induction false} ChangedPayload(body: seq<octet>, count: u32, j: nat, b: octet)
    requires |body| == PayloadSize(count) && j < |body| && b != body[j]
    ensures LoadPayload(count, Checksum(body), body[j := b]) == Rejected
  {
    SumOfChanged(body, j, b);
    NearWordsDiffer(Sum(body[j := b]), Sum(body));
    assert body[j := b][..PayloadSize(count)] == body[j := b];
  }

  lemma {:induction false} PayloadByteRejected(timestamp: u64, body: seq<octet>, count: u32, j: nat, b: octet)
    requires |body| == PayloadSize(count) && j < |body| && b != body[j]
    ensures Load((Header(timestamp, count, Checksum(body)) + body)[HEADER_SIZE + j := b]) == Rejected
  {
    ChangedPayload(body, count, j, b);
    LoadWithHeader(timestamp, count, Checksum(body), body[j := b]);
    ChangeConcat(Header(timestamp, count, Checksum(body)), body, j, b);
  }

  /** The readings that decide a load, after a byte of the header was changed. */
  lemma {:induction false} HeaderAfterChange(file: seq<octet>, i: nat, b: octet)
    requires i < HEADER_SIZE <= |file| && b != file[i]
    ensures var changed := file[i := b];
      && (Word32(changed) == Word32(file) <==> i >= 4)
      && (Word32(changed[4..]) == Word32(file[4..]) <==> !(4 <= i < 8))
      && (Word32(changed[16..]) == Word32(file[16..]) <==> !(16 <= i < 20))
      && (Word32(changed[20..]) == Word32(file[20..]) <==> i < 20)
      && changed[HEADER_SIZE..] == file[HEADER_SIZE..]
  {
    assert file[0..] == file && file[i := b][0..] == file[i := b];
    if i < 4 { WordChanged(file, 0, i, b); } else { WordUnchanged(file, 0, i, b); }
    if 4 <= i < 8 { WordChanged(file, 4, i, b); } else { WordUnchanged(file, 4, i, b); }
    if 16 <= i < 20 { WordChanged(file, 16, i, b); } else { WordUnchanged(file, 16, i, b); }
    if i < 20 { WordUnchanged(file, 20, i, b); } else { WordChanged(file, 20, i, b); }
  }

  lemma {:induction false} TailWeighsNothing(body: seq<octet>, n: nat)
    requires n <= |body|
    ensures Checksum(body) == Checksum(body[..n]) <==> Checksum(body[n..]) == 0
  {
    assert body == body[..n] + body[n..];
    SumOfConcat(body[..n], body[n..]);
  }

  /**
   * One changed byte of a saved image goes unnoticed in the timestamp, and in the record
   * count exactly when the count shrinks and the bytes of the dropped records add up to a
   * multiple of 2^32. Everywhere else it is noticed.
   */
  ghost predicate Unnoticed(image: seq<octet>, i: nat, b: octet)
    requires HEADER_SIZE <= |image| && i < |image|
  {
    || 8 <= i < 16
    || (16 <= i < 20 &&
        var size := PayloadSize(Word32(image[i := b][16..]));
        size < |image| - HEADER_SIZE && Checksum(image[HEADER_SIZE + size..]) == 0)
  }

  lemma {:induction false} HeaderByteVerdict(timestamp: u64, body: seq<octet>, count: u32, i: nat, b: octet)
    requires |body| == PayloadSize(count) && i < HEADER_SIZE
    requires b != (Header(timestamp, count, Checksum(body)) + body)[i]
    ensures var image := Header(timestamp, count, Checksum(body)) + body;
      Load(image[i := b]) == Rejected <==> !Unnoticed(image, i, b)
  {
    var image := Header(timestamp, count, Checksum(body)) + body;
    ReadHeader(timestamp, count, Checksum(body), body);
    HeaderAfterChange(image, i, b);
    assert body[..PayloadSize(count)] == body;
    var size := PayloadSize(Word32(image[i := b][16..]));
    if size < |body| {
      TailWeighsNothing(body, size);
      assert image[HEADER_SIZE + size..] == body[size..];
    }
  }

  lemma {:induction false} ChangedByteVerdict(slots: seq<Slot>, timestamp: u64, i: nat, b: octet)
    requires Padded(slots) && |slots| < MOD32
    requires i < |Image(slots, timestamp)| && b != Image(slots, timestamp)[i]
    ensures Load(Image(slots, timestamp)[i := b]) == Rejected <==> !Unnoticed(Image(slots, timestamp), i, b)
  {
    ImageParts(slots, timestamp);
    BodyReadBack(slots);
    if i < HEADER_SIZE {
      HeaderByteVerdict(timestamp, Body(slots), |slots|, i, b);
    } else {
      PayloadByteRejected(timestamp, Body(slots), |slots|, i - HEADER_SIZE, b);
    }
  }
}
