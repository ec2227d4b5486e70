/** Where each field of the state file lies, byte by byte. */
module StateLayout {
  import opened Basics
  import opened StateImage

  /** The number with these four bytes, the lowest one first. */
  function Four(a: nat, b: nat, c: nat, d: nat): nat { a + 0x100 * b + 0x1_0000 * c + 0x100_0000 * d }

  /** The little-endian 32-bit word at offset `at`. */
  function U32(bs: seq<octet>, at: nat): nat
    requires at + 4 <= |bs|
  {
    Four(bs[at], bs[at + 1], bs[at + 2], bs[at + 3])
  }

  /** The little-endian 64-bit word at offset `at`. */
  function U64(bs: seq<octet>, at: nat): nat
    requires at + 8 <= |bs|
  {
    U32(bs, at) + 0x1_0000_0000 * U32(bs, at + 4)
  }

  lemma {:induction false} ValueOfFour(bs: seq<octet>)
    requires |bs| == 4
    ensures Value(bs) == Four(bs[0], bs[1], bs[2], bs[3]) < 0x1_0000_0000
  {
    assert bs[1..][0] == bs[1] && bs[2..][0] == bs[2] && bs[3..][0] == bs[3];
    assert bs[1..][1..] == bs[2..] && bs[2..][1..] == bs[3..] && bs[3..][1..] == [];
    assert Value(bs[3..]) == bs[3];
    assert Value(bs[2..]) == bs[2] + 256 * Value(bs[3..]);
    assert Value(bs[1..]) == bs[1] + 256 * Value(bs[2..]);
  }

  lemma {:induction false} ValueSplits(bs: seq<octet>)
    requires |bs| == 8
    ensures Value(bs) == Value(bs[..4]) + 0x1_0000_0000 * Value(bs[4..])
  {
    ValueConcat(bs[..4], bs[4..]);
    assert bs[..4] + bs[4..] == bs;
    WordSizes();
  }

  lemma {:induction false} ValueConcat(a: seq<octet>, b: seq<octet>)
    ensures Value(a + b) == Value(a) + Pow256(|a|) * Value(b)
  {
    if a == [] {
      assert a + b == b;
    } else {
      ValueConcat(a[1..], b);
      assert (a + b)[0] == a[0] && (a + b)[1..] == a[1..] + b;
      Shifted(Pow256(|a| - 1), Value(b));
    }
  }

  lemma {:induction false} Shifted(p: nat, v: nat)
    ensures 256 * (p * v) == (256 * p) * v
  {
  }

  lemma {:induction false} Word32At(bs: seq<octet>, at: nat)
    requires at + 4 <= |bs|
    ensures Word32(bs[at..]) == U32(bs, at)
  {
    var word := bs[at..][..4];
    assert word[0] == bs[at] && word[1] == bs[at + 1] && word[2] == bs[at + 2] && word[3] == bs[at + 3];
    ValueOfFour(word);
    SmallWord(Value(word));
  }

  lemma {:induction false} Word64At(bs: seq<octet>, at: nat)
    requires at + 8 <= |bs|
    ensures Word64(bs[at..]) == U64(bs, at)
  {
    var word := bs[at..][..8];
    var low, high := word[..4], word[4..];
    assert low[0] == bs[at] && low[1] == bs[at + 1] && low[2] == bs[at + 2] && low[3] == bs[at + 3];
    assert high[0] == bs[at + 4] && high[1] == bs[at + 5] && high[2] == bs[at + 6] && high[3] == bs[at + 7];
    ValueSplits(word);
    ValueOfFour(low);
    ValueOfFour(high);
    SmallLong(Value(low), Value(high));
  }

  lemma {:induction false} SmallLong(low: nat, high: nat)
    requires low < 0x1_0000_0000 && high < 0x1_0000_0000
    ensures AsU64(low + 0x1_0000_0000 * high) == low + 0x1_0000_0000 * high
  {
  }

  // ----- The header

  /** "FRSH" in little-endian, version 1, the time, the number of records and the checksum. */
  lemma {:induction false} HeaderLayout(timestamp: u64, count: u32, checksum: u32, payload: seq<octet>)
    ensures var file := Header(timestamp, count, checksum) + payload;
      && |file| >= 24 && file[24..] == payload
      && file[..4] == [0x48, 0x53, 0x52, 0x46]
      && U32(file, 4) == 1 && U64(file, 8) == timestamp && U32(file, 16) == count && U32(file, 20) == checksum
  {
    var file := Header(timestamp, count, checksum) + payload;
    ReadHeader(timestamp, count, checksum, payload);
    Word32At(file, 4);
    Word32At(file, 16);
    Word32At(file, 20);
    assert file[0..] == file;
    Word32At(file, 0);
    MagicBytes(file[..4]);
    TimeAt(timestamp, count, checksum, payload);
    Word64At(file, 8);
  }

  lemma {:induction false} TimeAt(timestamp: u64, count: u32, checksum: u32, payload: seq<octet>)
    ensures Word64((Header(timestamp, count, checksum) + payload)[8..]) == timestamp
  {
    var file := Header(timestamp, count, checksum) + payload;
    var rest := LE(count, 4) + (LE(checksum, 4) + payload);
    ReadWord64(timestamp, rest);
    assert file[8..] == LE(timestamp, 8) + rest;
  }

  lemma {:induction false} MagicBytes(bs: seq<octet>)
    requires |bs| == 4 && U32(bs, 0) == 0x46525348
    ensures bs == [0x48, 0x53, 0x52, 0x46]
  {
  }

  // ----- The records

  lemma {:induction false} RecordLayout(s: Slot, rest: seq<octet>)
    requires |s.padding| == 4
    ensures var bs, p := RecordBytes(s) + rest, s.state;
      && |bs| >= 40 && bs[40..] == rest
      && U32(bs, 0) == p.hash && bs[4..8] == s.padding
      && U64(bs, 8) == p.lastScanMs && U64(bs, 16) == p.lastCleanupMs && U64(bs, 24) == p.lastSizeBytes
      && U32(bs, 32) == p.cleanupCount && U32(bs, 36) == p.growthRateBytesPerDay
  {
    var bs := RecordBytes(s) + rest;
    ReadRecordBack(s, rest);
    assert bs[0..] == bs;
    Word32At(bs, 0);
    Word64At(bs, 8);
    Word64At(bs, 16);
    Word64At(bs, 24);
    Word32At(bs, 32);
    Word32At(bs, 36);
    PaddingAt(s, rest);
  }

  lemma {:induction false} PaddingAt(s: Slot, rest: seq<octet>)
    requires |s.padding| == 4
    ensures (RecordBytes(s) + rest)[4..8] == s.padding
  {
    assert RecordBytes(s)[4..8] == s.padding;
  }

  lemma {:induction false} BodyFrom(slots: seq<Slot>, i: nat)
    requires Padded(slots) && i <= |slots|
    ensures |Body(slots)| == 40 * |slots| && Body(slots)[40 * i..] == Body(slots[i..])
  {
    BodySize(slots);
    if i == 0 {
      assert slots[0..] == slots && Body(slots)[0..] == Body(slots);
    } else {
      BodyFrom(slots[1..], i - 1);
      RecordLayout(slots[0], Body(slots[1..]));
      DropDrop(Body(slots), 40, 40 * (i - 1));
      assert slots[1..][i - 1..] == slots[i..];
    }
  }

  /**
   * The layout of every saved image: a header of 24 bytes, then the records of 40 bytes each
   * in order, with four bytes of padding behind the hash; the checksum covers the records.
   */
  lemma {:induction false} ImageLayout(slots: seq<Slot>, timestamp: u64, i: nat)
    requires Padded(slots) && i < |slots| < 0x1_0000_0000
    ensures var file, p, at := Image(slots, timestamp), slots[i].state, 24 + 40 * i;
      && |file| == 24 + 40 * |slots|
      && file[..4] == [0x48, 0x53, 0x52, 0x46] && U32(file, 4) == 1 && U64(file, 8) == timestamp
      && U32(file, 16) == |slots| && U32(file, 20) == Sum(file[24..]) % 0x1_0000_0000
      && U32(file, at) == p.hash && file[at + 4..at + 8] == slots[i].padding
      && U64(file, at + 8) == p.lastScanMs && U64(file, at + 16) == p.lastCleanupMs
      && U64(file, at + 24) == p.lastSizeBytes
      && U32(file, at + 32) == p.cleanupCount && U32(file, at + 36) == p.growthRateBytesPerDay
  {
    var file, body := Image(slots, timestamp), Body(slots);
    SmallWord(|slots|);
    HeaderLayout(timestamp, AsU32(|slots|), Checksum(body), body);
    BodyFrom(slots, i);
    BodySize(slots);
    RecordLayout(slots[i], Body(slots[i + 1..]));
    assert slots[i..][1..] == slots[i + 1..];
    DropDrop(file, 24, 40 * i);
    Moved(file, 24 + 40 * i, Body(slots[i..]));
  }

  /** Fields at the front of a tail, seen from the whole. */
  lemma {:induction false} Moved(file: seq<octet>, at: nat, tail: seq<octet>)
    requires at <= |file| && file[at..] == tail && |tail| >= 40
    ensures U32(file, at) == U32(tail, 0) && file[at + 4..at + 8] == tail[4..8]
    ensures U64(file, at + 8) == U64(tail, 8) && U64(file, at + 16) == U64(tail, 16) &&
        U64(file, at + 24) == U64(tail, 24)
    ensures U32(file, at + 32) == U32(tail, 32) && U32(file, at + 36) == U32(tail, 36)
  {
    assert forall k :: 0 <= k < 40 ==> file[at + k] == tail[k];
    assert file[at + 4..at + 8] == tail[4..8];
  }

  /** The checksum adds up plain bytes: one byte counts itself, and order and grouping do not matter. */
  lemma {:induction false} SumIsPlain(a: seq<octet>, b: seq<octet>, x: octet)
    ensures Sum([]) == 0 && Sum([x]) == x && Sum(a + b) == Sum(a) + Sum(b)
  {
    assert [x][..0] == [];
    SumOfConcat(a, b);
  }
}
