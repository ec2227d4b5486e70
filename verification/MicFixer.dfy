/**
 * The inotify loop of the audio fixer: decoding variable-length event records, counting
 * open capture streams, and rebuilding the microphone route on the first of them.
 */
module MicFixer {
  import opened Basics
  import opened StateImage

  // ----- Event records

  /** `struct inotify_event` with the (already padded) name that follows it. */
  datatype Record = Record(wd: u32, mask: u32, cookie: u32, name: seq<octet>)

  ghost predicate Encodable(rs: seq<Record>) { forall i :: 0 <= i < |rs| ==> |rs[i].name| < 0x1_0000_0000 }

  function Encode(r: Record): seq<octet>
    requires |r.name| < 0x1_0000_0000
  {
    LE(r.wd, 4) + (LE(r.mask, 4) + (LE(r.cookie, 4) + (LE(|r.name|, 4) + r.name)))
  }

  function EncodeAll(rs: seq<Record>): seq<octet>
    requires Encodable(rs)
  {
    if rs == [] then [] else Encode(rs[0]) + EncodeAll(rs[1..])
  }

  function Masks(rs: seq<Record>): seq<u32> { if rs == [] then [] else [rs[0].mask] + Masks(rs[1..]) }

  function MaskAt(bs: seq<octet>, ptr: nat): u32
    requires ptr + 16 <= |bs|
  {
    Word32(bs[ptr + 4..ptr + 8])
  }

  /** Where the record after the one at `ptr` starts, from its length field. */
  function NextAt(bs: seq<octet>, ptr: nat): (next: nat)
    requires ptr + 16 <= |bs|
    ensures next >= ptr + 16
  {
    ptr + 16 + Word32(bs[ptr + 12..ptr + 16])
  }

  /** From `ptr` on, `bs` is made of whole records, as every inotify read is. */
  predicate WholeFrom(bs: seq<octet>, ptr: nat)
    decreases |bs| - ptr
  {
    ptr == |bs| || (ptr + 16 <= |bs| && NextAt(bs, ptr) <= |bs| && WholeFrom(bs, NextAt(bs, ptr)))
  }

  /** The masks the pointer visits from `ptr` on, in order. */
  function WalkFrom(bs: seq<octet>, ptr: nat): seq<u32>
    requires WholeFrom(bs, ptr)
    decreases |bs| - ptr
  {
    if ptr == |bs| then [] else [MaskAt(bs, ptr)] + WalkFrom(bs, NextAt(bs, ptr))
  }

  predicate WholeRecords(bs: seq<octet>) { WholeFrom(bs, 0) }

  function Walk(bs: seq<octet>): seq<u32>
    requires WholeRecords(bs)
  {
    WalkFrom(bs, 0)
  }

  lemma {:induction false} SliceOfSlice(s: seq<octet>, i: nat, j: nat, k: nat, l: nat)
    requires i <= j <= |s| && k <= l <= j - i
    ensures s[i..j][k..l] == s[i + k..i + l]
  {
    forall n | 0 <= n < l - k ensures s[i..j][k..l][n] == s[i + k..i + l][n] { }
  }

  lemma {:induction false} SliceBehind(a: seq<octet>, b: seq<octet>, k: nat, l: nat)
    requires k <= l <= |b|
    ensures (a + b)[|a| + k..|a| + l] == b[k..l]
  {
  }

  /** The mask and the length field of an encoded record. */
  lemma {:induction false} EncodedFields(r: Record, rest: seq<octet>)
    requires |r.name| < 0x1_0000_0000
    ensures var bs := Encode(r) + rest;
      && |bs| >= 16 && |Encode(r)| == 16 + |r.name|
      && Word32(bs[4..8]) == r.mask && Word32(bs[12..16]) == |r.name|
  {
    var r12 := LE(|r.name|, 4) + (r.name + rest);
    var r8 := LE(r.cookie, 4) + r12;
    var r4 := LE(r.mask, 4) + r8;
    var bs := LE(r.wd, 4) + r4;
    assert Encode(r) + rest == bs;
    ReadWord32(r.wd, r4);
    ReadWord32(r.mask, r8);
    ReadWord32(r.cookie, r12);
    ReadWord32(|r.name|, r.name + rest);
    assert bs[4..8] == r4[..4] && bs[4..8][..4] == bs[4..8];
    assert bs[12..16] == r12[..4] && bs[12..16][..4] == bs[12..16];
  }

  /** What the reader of a record that follows `before` finds. */
  lemma {:induction false} DecodeOne(before: seq<octet>, r: Record, rest: seq<octet>)
    requires |r.name| < 0x1_0000_0000
    ensures var bs := before + (Encode(r) + rest);
      && |before| + 16 <= |bs| && MaskAt(bs, |before|) == r.mask
      && NextAt(bs, |before|) == |before + Encode(r)| && bs == (before + Encode(r)) + rest
  {
    var record := Encode(r) + rest;
    EncodedFields(r, rest);
    SliceBehind(before, record, 4, 8);
    SliceBehind(before, record, 12, 16);
  }

  lemma {:induction false} WalkEncoded(before: seq<octet>, rs: seq<Record>)
    requires Encodable(rs)
    ensures var bs := before + EncodeAll(rs); WholeFrom(bs, |before|) && WalkFrom(bs, |before|) == Masks(rs)
    decreases |rs|
  {
    if rs != [] {
      DecodeOne(before, rs[0], EncodeAll(rs[1..]));
      WalkEncoded(before + Encode(rs[0]), rs[1..]);
    }
  }

  /** Every encoded record is visited exactly once, in order, and the walk ends at the end of the buffer. */
  lemma {:induction false} WalkVisitsAll(rs: seq<Record>)
    requires Encodable(rs)
    ensures WholeRecords(EncodeAll(rs)) && Walk(EncodeAll(rs)) == Masks(rs)
  {
    WalkEncoded([], rs);
    assert [] + EncodeAll(rs) == EncodeAll(rs);
  }

  lemma {:induction false} SameFields(a: seq<octet>, b: seq<octet>, shift: nat, ptr: nat)
    requires ptr + 16 <= |a| && shift + ptr + 16 <= |b| && b[shift + ptr..shift + ptr + 16] == a[ptr..ptr + 16]
    ensures MaskAt(b, shift + ptr) == MaskAt(a, ptr) && NextAt(b, shift + ptr) == shift + NextAt(a, ptr)
  {
    SliceOfSlice(a, ptr, ptr + 16, 4, 8);
    SliceOfSlice(a, ptr, ptr + 16, 12, 16);
    SliceOfSlice(b, shift + ptr, shift + ptr + 16, 4, 8);
    SliceOfSlice(b, shift + ptr, shift + ptr + 16, 12, 16);
  }

  lemma {:induction false} WalkShifted(a: seq<octet>, b: seq<octet>, ptr: nat)
    requires WholeFrom(b, ptr)
    ensures WholeFrom(a + b, |a| + ptr) && WalkFrom(a + b, |a| + ptr) == WalkFrom(b, ptr)
    decreases |b| - ptr
  {
    if ptr != |b| {
      SameFields(b, a + b, |a|, ptr);
      WalkShifted(a, b, NextAt(b, ptr));
    }
  }

  lemma {:induction false} WalkOver(a: seq<octet>, b: seq<octet>, ptr: nat)
    requires WholeFrom(a, ptr) && WholeRecords(b)
    ensures WholeFrom(a + b, ptr) && WalkFrom(a + b, ptr) == WalkFrom(a, ptr) + Walk(b)
    decreases |a| - ptr
  {
    if ptr == |a| {
      WalkShifted(a, b, 0);
    } else {
      var next, mask := NextAt(a, ptr), MaskAt(a, ptr);
      SameFields(a, a + b, 0, ptr);
      WalkOver(a, b, next);
      Associative([mask], WalkFrom(a, next), Walk(b));
    }
  }

  function Join(chunks: seq<seq<octet>>): seq<octet> { if chunks == [] then [] else chunks[0] + Join(chunks[1..]) }

  ghost predicate AllWhole(chunks: seq<seq<octet>>) {
    forall i :: 0 <= i < |chunks| ==> WholeRecords(chunks[i])
  }

  function WalkEach(chunks: seq<seq<octet>>): seq<u32>
    requires AllWhole(chunks)
  {
    if chunks == [] then [] else Walk(chunks[0]) + WalkEach(chunks[1..])
  }

  /** However the same records are split into chunks, the same events are handled in the same order. */
  lemma {:induction false} SplittingDoesNotMatter(chunks: seq<seq<octet>>, rs: seq<Record>)
    requires forall i :: 0 <= i < |chunks| ==> WholeRecords(chunks[i])
    requires Encodable(rs) && Join(chunks) == EncodeAll(rs)
    ensures WalkEach(chunks) == Masks(rs)
  {
    JoinWalks(chunks);
    WalkVisitsAll(rs);
  }

  lemma {:induction false} JoinWalks(chunks: seq<seq<octet>>)
    requires forall i :: 0 <= i < |chunks| ==> WholeRecords(chunks[i])
    ensures WholeRecords(Join(chunks)) && Walk(Join(chunks)) == WalkEach(chunks)
  {
    if chunks != [] {
      JoinWalks(chunks[1..]);
      WalkOver(chunks[0], Join(chunks[1..]), 0);
    }
  }

  // ----- Mixer routes

  datatype Command = Command(control: string, values: seq<string>)

  type Mixer = map<string, seq<string>>

  const MUTE_VOICE := Command("Voice Tx Mute", ["1", "1", "1"])
  const MUTE_VOIP := Command("Voip Tx Mute", ["1", "1"])
  const UNMUTE_VOICE := Command("Voice Tx Mute", ["0", "0", "0"])
  const UNMUTE_VOIP := Command("Voip Tx Mute", ["0", "0"])

  const PRE_INIT: seq<Command> := [
    MUTE_VOICE,
    MUTE_VOIP,
    Command("TX_AIF1_CAP Mixer DEC0", ["1"]),
    Command("TX_AIF1_CAP Mixer DEC1", ["1"]),
    Command("ADC1_MIXER Switch", ["1"]),
    Command("ADC2_MIXER Switch", ["1"]),
    Command("ADC1 MUX", ["INP2"]),
    Command("ADC2 MUX", ["INP3"]),
    Command("IIR0 INP0 MUX", ["DEC0"])]

  const MIC_FIX: seq<Command> := [
    Command("TX_CDC_DMA_TX_3 Channels", ["Two"]),
    Command("TX DEC0 MUX", ["SWR_MIC"]),
    Command("TX DEC1 MUX", ["SWR_MIC"]),
    Command("TX SMIC MUX0", ["ADC0"]),
    Command("TX SMIC MUX1", ["ADC2"]),
    Command("IIR0 INP0 MUX", ["DEC0"]),
    Command("RX_RX0 Digital Volume", ["84"]),
    Command("TX_DEC0 Volume", ["84"]),
    Command("TX_DEC1 Volume", ["84"]),
    UNMUTE_VOICE,
    UNMUTE_VOIP]

  /** The mixer after running `cmds`, of which those that `accepts` refuses change nothing. */
  function Route(m: Mixer, cmds: seq<Command>, accepts: nat -> bool, issued: nat): Mixer
    decreases |cmds|
  {
    if cmds == [] then m
    else Route(if accepts(issued) then m[cmds[0].control := cmds[0].values] else m, cmds[1..], accepts, issued + 1)
  }

  predicate Holds(m: Mixer, c: Command) { c.control in m && m[c.control] == c.values }

  predicate Unmuted(m: Mixer) { Holds(m, UNMUTE_VOICE) && Holds(m, UNMUTE_VOIP) }

  lemma {:induction false} RouteConcat(m: Mixer, a: seq<Command>, b: seq<Command>, accepts: nat -> bool, issued: nat)
    ensures Route(m, a + b, accepts, issued) == Route(Route(m, a, accepts, issued), b, accepts, issued + |a|)
    decreases |a|
  {
    if a == [] {
      assert a + b == b;
    } else {
      RouteConcat(if accepts(issued) then m[a[0].control := a[0].values] else m, a[1..], b, accepts, issued + 1);
      assert (a + b)[1..] == a[1..] + b;
    }
  }

  lemma {:induction false} RouteElsewhere(m: Mixer, cmds: seq<Command>, accepts: nat -> bool, issued: nat, c: Command)
    requires forall i :: 0 <= i < |cmds| ==> cmds[i].control != c.control
    ensures Holds(Route(m, cmds, accepts, issued), c) <==> Holds(m, c)
    decreases |cmds|
  {
    if cmds != [] {
      var after := if accepts(issued) then m[cmds[0].control := cmds[0].values] else m;
      RouteElsewhere(after, cmds[1..], accepts, issued + 1, c);
    }
  }

  lemma {:induction false} RouteOne(m: Mixer, d: Command, accepts: nat -> bool, issued: nat, c: Command)
    ensures Holds(Route(m, [d], accepts, issued), c) <==>
            if accepts(issued) && d.control == c.control then d.values == c.values else Holds(m, c)
  {
    assert [d][1..] == [];
  }

  /** What a control holds is decided by the last command that writes it, if it is accepted. */
  lemma {:induction false} LastWriter(m: Mixer, cmds: seq<Command>, accepts: nat -> bool, issued: nat, i: nat,
      c: Command)
    requires i < |cmds| && cmds[i].control == c.control
    requires forall k :: i < k < |cmds| ==> cmds[k].control != c.control
    ensures Holds(Route(m, cmds, accepts, issued), c) <==>
            if accepts(issued + i) then cmds[i].values == c.values else Holds(Route(m, cmds[..i], accepts, issued), c)
  {
    var upTo, after := cmds[..i] + [cmds[i]], cmds[i + 1..];
    assert cmds == upTo + after;
    RouteConcat(m, upTo, after, accepts, issued);
    RouteConcat(m, cmds[..i], [cmds[i]], accepts, issued);
    RouteOne(Route(m, cmds[..i], accepts, issued), cmds[i], accepts, issued + i, c);
    RouteElsewhere(Route(m, upTo, accepts, issued), after, accepts, issued + i + 1, c);
  }

  /** A control that is set to something else at `i` and to `c` at `j`, and written nowhere else. */
  lemma {:induction false} TwoWrites(m: Mixer, cmds: seq<Command>, accepts: nat -> bool, issued: nat, i: nat, j: nat,
      c: Command)
    requires i < j < |cmds| && cmds[i].control == c.control && cmds[i].values != c.values && cmds[j] == c
    requires forall k :: 0 <= k < |cmds| && k != i && k != j ==> cmds[k].control != c.control
    ensures Holds(Route(m, cmds, accepts, issued), c) <==>
            accepts(issued + j) || (!accepts(issued + i) && Holds(m, c))
  {
    LastWriter(m, cmds, accepts, issued, j, c);
    LastWriter(m, cmds[..j], accepts, issued, i, c);
    assert cmds[..j][..i] == cmds[..i];
    RouteElsewhere(m, cmds[..i], accepts, issued, c);
  }

  function Rebuild(m: Mixer, accepts: nat -> bool, issued: nat): Mixer {
    Route(Route(m, PRE_INIT, accepts, issued), MIC_FIX, accepts, issued + |PRE_INIT|)
  }

  const REBUILD: seq<Command> := PRE_INIT + MIC_FIX

  lemma {:induction false} VoiceLine(m: Mixer, accepts: nat -> bool, issued: nat)
    ensures Holds(Route(m, REBUILD, accepts, issued), UNMUTE_VOICE) <==>
            accepts(issued + 18) || (!accepts(issued) && Holds(m, UNMUTE_VOICE))
  {
    TwoWrites(m, REBUILD, accepts, issued, 0, 18, UNMUTE_VOICE);
  }

  lemma {:induction false} VoipLine(m: Mixer, accepts: nat -> bool, issued: nat)
    ensures Holds(Route(m, REBUILD, accepts, issued), UNMUTE_VOIP) <==>
            accepts(issued + 19) || (!accepts(issued + 1) && Holds(m, UNMUTE_VOIP))
  {
    TwoWrites(m, REBUILD, accepts, issued, 1, 19, UNMUTE_VOIP);
  }

  /**
   * When a rebuild leaves the line unmuted, for every pattern of refused commands: each
   * unmute was accepted, or its mute was refused as well and the line was open before.
   */
  lemma {:induction false} UnmutedExactlyWhen(m: Mixer, accepts: nat -> bool, issued: nat)
    ensures Unmuted(Rebuild(m, accepts, issued)) <==>
      && (accepts(issued + 18) || (!accepts(issued) && Holds(m, UNMUTE_VOICE)))
      && (accepts(issued + 19) || (!accepts(issued + 1) && Holds(m, UNMUTE_VOIP)))
  {
    RouteConcat(m, PRE_INIT, MIC_FIX, accepts, issued);
    VoiceLine(m, accepts, issued);
    VoipLine(m, accepts, issued);
  }

  /**
   * While the routes are rebuilt the line is muted: after any part of the commands between the mutes
   * and the unmutes.
   */
  lemma {:induction false} MutedWhileRouting(m: Mixer, accepts: nat -> bool, issued: nat, n: nat)
    requires 2 <= n <= 18 && accepts(issued) && accepts(issued + 1)
    ensures var now := Route(m, REBUILD[..n], accepts, issued);
      Holds(now, Command("Voice Tx Mute", ["1", "1", "1"])) && Holds(now, Command("Voip Tx Mute", ["1", "1"]))
  {
    var part := REBUILD[..n];
    assert part[0] == MUTE_VOICE && part[1] == MUTE_VOIP;
    forall k | 2 <= k < |part|
      ensures part[k].control != "Voice Tx Mute" && part[k].control != "Voip Tx Mute"
    {
      RouteIsNoMute(k);
      assert part[k] == REBUILD[k];
    }
    LastWriter(m, part, accepts, issued, 0, Command("Voice Tx Mute", ["1", "1", "1"]));
    LastWriter(m, part, accepts, issued, 1, Command("Voip Tx Mute", ["1", "1"]));
  }

  lemma {:induction false} RouteIsNoMute(k: nat)
    requires 2 <= k < 18
    ensures REBUILD[k].control != "Voice Tx Mute" && REBUILD[k].control != "Voip Tx Mute"
  {
    if k == 8 { assert REBUILD[8].control == "IIR0 INP0 MUX"; } else { TableEntries(); }
  }

  /** The route that a rebuild sets up besides the two mutes. */
  predicate Routed(m: Mixer) {
    && Holds(m, Command("TX_AIF1_CAP Mixer DEC0", ["1"])) && Holds(m, Command("TX_AIF1_CAP Mixer DEC1", ["1"]))
    && Holds(m, Command("ADC1_MIXER Switch", ["1"])) && Holds(m, Command("ADC2_MIXER Switch", ["1"]))
    && Holds(m, Command("ADC1 MUX", ["INP2"])) && Holds(m, Command("ADC2 MUX", ["INP3"]))
    && Holds(m, Command("TX_CDC_DMA_TX_3 Channels", ["Two"]))
    && Holds(m, Command("TX DEC0 MUX", ["SWR_MIC"])) && Holds(m, Command("TX DEC1 MUX", ["SWR_MIC"]))
    && Holds(m, Command("TX SMIC MUX0", ["ADC0"])) && Holds(m, Command("TX SMIC MUX1", ["ADC2"]))
    && Holds(m, Command("IIR0 INP0 MUX", ["DEC0"]))
    && Holds(m, Command("RX_RX0 Digital Volume", ["84"]))
    && Holds(m, Command("TX_DEC0 Volume", ["84"])) && Holds(m, Command("TX_DEC1 Volume", ["84"]))
  }

  /** Behind index `i` no command of a rebuild writes the same control again. */
  ghost predicate LastOfItsControl(i: nat)
    requires i < |REBUILD|
  {
    forall k :: i < k < |REBUILD| ==> REBUILD[k].control != REBUILD[i].control
  }

  lemma {:induction false} LastOnes(i: nat)
    requires 2 <= i < 20 && i != 8
    ensures LastOfItsControl(i)
  {
  }

  lemma {:induction false} SetByRebuild(m: Mixer, accepts: nat -> bool, issued: nat, i: nat)
    requires 2 <= i < 20 && i != 8 && accepts(issued + i)
    ensures Holds(Rebuild(m, accepts, issued), REBUILD[i])
  {
    LastOnes(i);
    RouteConcat(m, PRE_INIT, MIC_FIX, accepts, issued);
    LastWriter(m, REBUILD, accepts, issued, i, REBUILD[i]);
  }

  /** If all commands are accepted a rebuild leaves the whole route set up and the line open. */
  lemma {:induction false} RebuildRoutes(m: Mixer, accepts: nat -> bool, issued: nat)
    requires forall k: nat :: accepts(k)
    ensures var after := Rebuild(m, accepts, issued);
      && Routed(after)
      && Holds(after, Command("Voice Tx Mute", ["0", "0", "0"])) && Holds(after, Command("Voip Tx Mute", ["0", "0"]))
  {
    forall i | 2 <= i < 20 && i != 8 ensures Holds(Rebuild(m, accepts, issued), REBUILD[i]) {
      SetByRebuild(m, accepts, issued, i);
    }
    TableEntries();
  }

  /** The controls that a rebuild may write; it leaves every other one as it was. */
  lemma {:induction false} OtherControlsKept(m: Mixer, accepts: nat -> bool, issued: nat, c: Command)
    requires c.control !in {"Voice Tx Mute", "Voip Tx Mute", "TX_AIF1_CAP Mixer DEC0", "TX_AIF1_CAP Mixer DEC1",
      "ADC1_MIXER Switch", "ADC2_MIXER Switch", "ADC1 MUX", "ADC2 MUX", "IIR0 INP0 MUX", "TX_CDC_DMA_TX_3 Channels",
      "TX DEC0 MUX", "TX DEC1 MUX", "TX SMIC MUX0", "TX SMIC MUX1", "RX_RX0 Digital Volume", "TX_DEC0 Volume",
          "TX_DEC1 Volume"}
    ensures Holds(Rebuild(m, accepts, issued), c) <==> Holds(m, c)
  {
    RouteConcat(m, PRE_INIT, MIC_FIX, accepts, issued);
    RouteElsewhere(m, REBUILD, accepts, issued, c);
  }

  /** The commands of a rebuild behind the mutes, in order. */
  lemma {:induction false} TableEntries()
    ensures REBUILD[2] == Command("TX_AIF1_CAP Mixer DEC0", ["1"]) &&
        REBUILD[3] == Command("TX_AIF1_CAP Mixer DEC1", ["1"])
    ensures REBUILD[4] == Command("ADC1_MIXER Switch", ["1"]) && REBUILD[5] == Command("ADC2_MIXER Switch", ["1"])
    ensures REBUILD[6] == Command("ADC1 MUX", ["INP2"]) && REBUILD[7] == Command("ADC2 MUX", ["INP3"])
    ensures REBUILD[9] == Command("TX_CDC_DMA_TX_3 Channels", ["Two"])
    ensures REBUILD[10] == Command("TX DEC0 MUX", ["SWR_MIC"]) && REBUILD[11] == Command("TX DEC1 MUX", ["SWR_MIC"])
    ensures REBUILD[12] == Command("TX SMIC MUX0", ["ADC0"]) && REBUILD[13] == Command("TX SMIC MUX1", ["ADC2"])
    ensures REBUILD[14] == Command("IIR0 INP0 MUX", ["DEC0"]) && REBUILD[15] == Command("RX_RX0 Digital Volume", ["84"])
    ensures REBUILD[16] == Command("TX_DEC0 Volume", ["84"]) && REBUILD[17] == Command("TX_DEC1 Volume", ["84"])
    ensures REBUILD[18] == Command("Voice Tx Mute", ["0", "0", "0"]) &&
        REBUILD[19] == Command("Voip Tx Mute", ["0", "0"])
  {
  }

  // ----- Counting streams

  predicate Opens(mask: u32) { mask / 0x20 % 2 == 1 }

  /** IN_CLOSE_WRITE or IN_CLOSE_NOWRITE. */
  predicate Closes(mask: u32) { mask / 0x8 % 2 == 1 || mask / 0x10 % 2 == 1 }

  /** IN_OPEN is bit 5; IN_CLOSE_WRITE and IN_CLOSE_NOWRITE are bits 3 and 4, one of which is enough. */
  lemma {:induction false} EventBits(high: nat, open: nat, close: nat, low: nat)
    requires open < 2 && close < 4 && low < 8 && 64 * high + 32 * open + 8 * close + low < 0x1_0000_0000
    ensures var mask := 64 * high + 32 * open + 8 * close + low;
      (Opens(mask) <==> open == 1) && (Closes(mask) <==> close != 0)
  {
    BitsOf(high, open, close, low);
    LowestBit(high, open);
    LowestBit(2 * high + open, close / 2);
    LowestBit(4 * high + 2 * open + close / 2, close % 2);
  }

  lemma {:induction false} LowestBit(high: nat, bit: nat)
    requires bit < 2
    ensures (2 * high + bit) % 2 == bit
  {
  }

  lemma {:induction false} BitsOf(high: nat, open: nat, close: nat, low: nat)
    requires open < 2 && close < 4 && low < 8
    ensures var mask := 64 * high + 32 * open + 8 * close + low;
      mask / 32 == 2 * high + open && mask / 16 == 4 * high + 2 * open + close / 2 &&
          mask / 8 == 8 * high + 4 * open + close
  {
  }

  /** The signals of one event: an open (true) is handled before a close (false). */
  function Signals(mask: u32): seq<bool> {
    (if Opens(mask) then [true] else []) + (if Closes(mask) then [false] else [])
  }

  function AllSignals(masks: seq<u32>): seq<bool> {
    if masks == [] then [] else AllSignals(masks[..|masks| - 1]) + Signals(masks[|masks| - 1])
  }

  /** The open streams, the rebuilds so far, the mixer, and how many commands were issued. */
  datatype Audio = Audio(count: nat, rebuilds: nat, mixer: Mixer, issued: nat)

  function OnSignal(accepts: nat -> bool, a: Audio, open: bool): Audio {
    if open then
      if a.count == 0 then
        Audio(1, a.rebuilds + 1, Rebuild(a.mixer, accepts, a.issued), a.issued + |PRE_INIT| + |MIC_FIX|)
      else a.(count := a.count + 1)
    else if a.count > 0 then a.(count := a.count - 1)
    else a
  }

  function OnSignals(accepts: nat -> bool, a: Audio, signals: seq<bool>): Audio {
    if signals == [] then a
    else OnSignal(accepts, OnSignals(accepts, a, signals[..|signals| - 1]), signals[|signals| - 1])
  }

  lemma {:induction false} OnSignalsConcat(accepts: nat -> bool, a: Audio, s: seq<bool>, t: seq<bool>)
    ensures OnSignals(accepts, a, s + t) == OnSignals(accepts, OnSignals(accepts, a, s), t)
  {
    if t == [] {
      assert s + t == s;
    } else {
      OnSignalsConcat(accepts, a, s, t[..|t| - 1]);
      assert (s + t)[..|s + t| - 1] == s + t[..|t| - 1];
    }
  }

  lemma {:induction false} AllSignalsAppend(s: seq<u32>, mask: u32)
    ensures AllSignals(s + [mask]) == AllSignals(s) + Signals(mask)
  {
    assert (s + [mask])[..|s|] == s;
  }

  lemma {:induction false} AllSignalsConcat(s: seq<u32>, t: seq<u32>)
    ensures AllSignals(s + t) == AllSignals(s) + AllSignals(t)
  {
    if t == [] {
      assert s + t == s;
    } else {
      var init, last := t[..|t| - 1], t[|t| - 1];
      AllSignalsConcat(s, init);
      assert t == init + [last];
      Associative(s, init, [last]);
      AllSignalsAppend(s + init, last);
      AllSignalsAppend(init, last);
      Associative(AllSignals(s), AllSignals(init), Signals(last));
    }
  }

  /** Handling the record at `ptr` first and the rest later is handling all from `ptr` on. */
  lemma {:induction false} WalkTurn(accepts: nat -> bool, a: Audio, bs: seq<octet>, ptr: nat)
    requires WholeFrom(bs, ptr) && ptr < |bs|
    ensures ptr + 16 <= |bs| && NextAt(bs, ptr) <= |bs| && WholeFrom(bs, NextAt(bs, ptr))
    ensures OnSignals(accepts, a, AllSignals(WalkFrom(bs, ptr))) ==
            OnSignals(accepts, OnSignals(accepts, a, Signals(MaskAt(bs, ptr))),
                AllSignals(WalkFrom(bs, NextAt(bs, ptr))))
  {
    var mask, rest := MaskAt(bs, ptr), WalkFrom(bs, NextAt(bs, ptr));
    AllSignalsConcat([mask], rest);
    AllSignalsAppend([], mask);
    assert [] + [mask] == [mask] && [] + Signals(mask) == Signals(mask);
    OnSignalsConcat(accepts, a, Signals(mask), AllSignals(rest));
  }

  /** Opens minus closes. */
  function Balance(signals: seq<bool>): int {
    if signals == [] then 0 else Balance(signals[..|signals| - 1]) + if signals[|signals| - 1] then 1 else -1
  }

  /** The least balance of any prefix, the empty one included. */
  function Lowest(signals: seq<bool>): int {
    if signals == [] then 0
    else
      var earlier := Lowest(signals[..|signals| - 1]);
      if Balance(signals) < earlier then Balance(signals) else earlier
  }

  /** How often the count comes back to zero. */
  function Returns(accepts: nat -> bool, a: Audio, signals: seq<bool>): nat {
    if signals == [] then 0
    else
      var init := signals[..|signals| - 1];
      Returns(accepts, a, init) +
      if OnSignals(accepts, a, init).count > 0 && OnSignals(accepts, a, signals).count == 0 then 1 else 0
  }

  lemma {:induction false} LowestIsMinimum(signals: seq<bool>)
    ensures forall k :: 0 <= k <= |signals| ==> Lowest(signals) <= Balance(signals[..k])
    ensures exists k :: 0 <= k <= |signals| && Lowest(signals) == Balance(signals[..k])
  {
    assert signals[..|signals|] == signals;
    if signals != [] {
      var init := signals[..|signals| - 1];
      LowestIsMinimum(init);
      forall k | 0 <= k <= |signals| ensures Lowest(signals) <= Balance(signals[..k]) {
        if k < |signals| { assert init[..k] == signals[..k]; }
      }
      if Balance(signals) >= Lowest(init) {
        var k :| 0 <= k <= |init| && Lowest(init) == Balance(init[..k]);
        assert init[..k] == signals[..k];
        assert Lowest(signals) == Balance(signals[..k]);
      }
    } else {
      assert Lowest(signals) == Balance(signals[..0]);
    }
  }

  /**
   * From silence, for every sequence of opens and closes: the count is the balance
   * reflected at its lowest point, and the route was rebuilt once for every return to zero
   * and once more if a stream is open now.
   */
  lemma {:induction false} CountIsReflectedWalk(accepts: nat -> bool, a: Audio, signals: seq<bool>)
    requires a.count == 0
    ensures var b := OnSignals(accepts, a, signals);
      && b.count == Balance(signals) - Lowest(signals)
      && b.rebuilds == a.rebuilds + Returns(accepts, a, signals) + if b.count > 0 then 1 else 0
  {
    if signals != [] { CountIsReflectedWalk(accepts, a, signals[..|signals| - 1]); }
  }

  /** With every command accepted the line is open from the first rebuild on. */
  lemma {:induction false} UnmutedFromFirstRebuild(accepts: nat -> bool, a: Audio, signals: seq<bool>)
    requires forall i :: accepts(i)
    ensures var b := OnSignals(accepts, a, signals); b.rebuilds > a.rebuilds || Unmuted(a.mixer) ==> Unmuted(b.mixer)
    ensures OnSignals(accepts, a, signals).rebuilds >= a.rebuilds
  {
    if signals != [] {
      var init := signals[..|signals| - 1];
      UnmutedFromFirstRebuild(accepts, a, init);
      var b := OnSignals(accepts, a, init);
      UnmutedExactlyWhen(b.mixer, accepts, b.issued);
    }
  }

  // ----- The loop

  /** What one turn of the loop gets from `poll` and `read`. */
  datatype Arrival = Timeout | PollFailed | Nothing | Bytes(data: seq<octet>)

  const BUFFER_SIZE: nat := 4096

  /** Reads return whole records that fit the buffer. */
  ghost predicate Delivered(arrivals: seq<Arrival>) {
    forall i :: 0 <= i < |arrivals| && arrivals[i].Bytes? ==>
      0 < |arrivals[i].data| <= 4096 && WholeRecords(arrivals[i].data)
  }

  /** The reads before the loop ends. */
  function ReadsOf(arrivals: seq<Arrival>): seq<seq<octet>> {
    if arrivals == [] || arrivals[0].PollFailed? || arrivals[0].Nothing? then []
    else (if arrivals[0].Bytes? then [arrivals[0].data] else []) + ReadsOf(arrivals[1..])
  }

  lemma {:induction false} ReadsAreWhole(arrivals: seq<Arrival>)
    requires Delivered(arrivals)
    ensures AllWhole(ReadsOf(arrivals))
  {
    if arrivals != [] && !arrivals[0].PollFailed? && !arrivals[0].Nothing? { ReadsAreWhole(arrivals[1..]); }
  }

  /** What arrival `i` adds to the reads to come. */
  lemma {:induction false} ArrivalTurn(arrivals: seq<Arrival>, i: nat)
    requires i < |arrivals|
    ensures ReadsOf(arrivals[i..]) == match arrivals[i]
      case Timeout => ReadsOf(arrivals[i + 1..])
      case PollFailed => []
      case Nothing => []
      case Bytes(data) => [data] + ReadsOf(arrivals[i + 1..])
  {
    assert arrivals[i..][1..] == arrivals[i + 1..] && arrivals[i..][0] == arrivals[i];
    assert [] + ReadsOf(arrivals[i + 1..]) == ReadsOf(arrivals[i + 1..]);
  }

  /** Handling one read and then the others is handling them all. */
  lemma {:induction false} ReadTurn(accepts: nat -> bool, a: Audio, data: seq<octet>, rest: seq<seq<octet>>)
    requires AllWhole([data] + rest)
    ensures WholeRecords(data) && AllWhole(rest)
    ensures OnSignals(accepts, a, AllSignals(WalkEach([data] + rest))) ==
      OnSignals(accepts, OnSignals(accepts, a, AllSignals(Walk(data))), AllSignals(WalkEach(rest)))
  {
    FirstWhole(data, rest);
    assert ([data] + rest)[1..] == rest;
    AllSignalsConcat(Walk(data), WalkEach(rest));
    OnSignalsConcat(accepts, a, AllSignals(Walk(data)), AllSignals(WalkEach(rest)));
  }

  lemma {:induction false} FirstWhole(data: seq<octet>, rest: seq<seq<octet>>)
    requires AllWhole([data] + rest)
    ensures WholeRecords(data) && AllWhole(rest)
  {
    var all := [data] + rest;
    assert all[0] == data;
    forall i | 0 <= i < |rest| ensures WholeRecords(rest[i]) { assert all[i + 1] == rest[i]; }
  }

  class AlsaHook {
    const accepts: nat -> bool
    const buffer: array<octet>
    var streamCount: nat
    var mixer: Mixer
    var issued: nat
    ghost var rebuilds: nat

    constructor (accepts: nat -> bool, mixer: Mixer)
      ensures this.accepts == accepts && buffer.Length == BUFFER_SIZE && fresh(buffer)
      ensures Now() == Audio(0, 0, mixer, 0)
    {
      this.accepts, this.mixer := accepts, mixer;
      buffer := new octet[BUFFER_SIZE](_ => 0);
      streamCount, issued, rebuilds := 0, 0, 0;
    }

    ghost function Now(): Audio reads this { Audio(streamCount, rebuilds, mixer, issued) }

    method RunTinymix(c: Command)
      modifies this`mixer, this`issued
      ensures mixer == (if accepts(old(issued)) then old(mixer)[c.control := c.values] else old(mixer))
      ensures issued == old(issued) + 1
    {
      if accepts(issued) { mixer := mixer[c.control := c.values]; }
      issued := issued + 1;
    }

    /** Runs a table of mixer commands in order: `ApplyPreInit` or `ApplyMicFix`. */
    method Apply(cmds: seq<Command>)
      modifies this`mixer, this`issued
      ensures mixer == Route(old(mixer), cmds, accepts, old(issued)) && issued == old(issued) + |cmds|
    {
      for i := 0 to |cmds|
        invariant issued == old(issued) + i
        invariant Route(mixer, cmds[i..], accepts, issued) == Route(old(mixer), cmds, accepts, old(issued))
      {
        assert cmds[i..][1..] == cmds[i + 1..];
        RunTinymix(cmds[i]);
      }
    }

    method RebuildRoute()
      modifies this`mixer, this`issued, this`rebuilds
      ensures mixer == Rebuild(old(mixer), accepts, old(issued))
      ensures issued == old(issued) + |PRE_INIT| + |MIC_FIX| && rebuilds == old(rebuilds) + 1
    {
      Apply(PRE_INIT);
      Apply(MIC_FIX);
      rebuilds := rebuilds + 1;
    }

    method OpenStream()
      modifies this
      ensures Now() == OnSignal(accepts, old(Now()), true)
    {
      streamCount := streamCount + 1;
      if streamCount == 1 { RebuildRoute(); }
    }

    method HandleEvent(mask: u32)
      modifies this
      ensures Now() == OnSignals(accepts, old(Now()), Signals(mask))
    {
      SignalsUnfold(accepts, Now(), mask);
      if Opens(mask) { OpenStream(); }
      if Closes(mask) {
        if streamCount > 0 {
          streamCount := streamCount - 1;
        }
      }
    }

    /** The mask of the record at `ptr`, and where the next record starts. */
    method ReadEvent(ptr: nat, len: nat) returns (mask: u32, next: nat)
      requires ptr + 16 <= len <= buffer.Length
      ensures mask == MaskAt(buffer[..len], ptr) && next == NextAt(buffer[..len], ptr)
    {
      assert buffer[..len][ptr + 4..ptr + 8] == buffer[ptr + 4..ptr + 8];
      assert buffer[..len][ptr + 12..ptr + 16] == buffer[ptr + 12..ptr + 16];
      mask := Word32(buffer[ptr + 4..ptr + 8]);
      next := ptr + 16 + Word32(buffer[ptr + 12..ptr + 16]);
    }

    /** The pointer walk over the first `len` bytes of the buffer. */
    method HandleBuffer(len: nat)
      requires len <= buffer.Length && WholeRecords(buffer[..len])
      modifies this
      ensures Now() == OnSignals(accepts, old(Now()), AllSignals(Walk(buffer[..len])))
    {
      ghost var bytes, start := buffer[..len], Now();
      var ptr := 0;
      while ptr < len
        invariant ptr <= len && WholeFrom(bytes, ptr)
        invariant OnSignals(accepts, Now(), AllSignals(WalkFrom(bytes, ptr))) ==
            OnSignals(accepts, start, AllSignals(Walk(bytes)))
      {
        WalkTurn(accepts, Now(), bytes, ptr);
        var mask, next := ReadEvent(ptr, len);
        HandleEvent(mask);
        ptr := next;
      }
    }

    /** `read`: the kernel fills the front of the buffer. */
    method Read(data: seq<octet>) returns (len: nat)
      requires |data| <= buffer.Length
      modifies buffer
      ensures len == |data| && buffer[..len] == data
    {
      len := |data|;
      forall i | 0 <= i < len { buffer[i] := data[i]; }
    }

    method AlsaInotifyLoop(arrivals: seq<Arrival>)
      requires buffer.Length == BUFFER_SIZE && Delivered(arrivals)
      modifies this, buffer
      ensures AllWhole(ReadsOf(arrivals))
      ensures Now() == OnSignals(accepts, old(Now()), AllSignals(WalkEach(ReadsOf(arrivals))))
    {
      ReadsAreWhole(arrivals);
      ghost var start := Now();
      for i := 0 to |arrivals|
        invariant AllWhole(ReadsOf(arrivals[i..]))
        invariant OnSignals(accepts, Now(), AllSignals(WalkEach(ReadsOf(arrivals[i..])))) ==
                  OnSignals(accepts, start, AllSignals(WalkEach(ReadsOf(arrivals))))
      {
        ArrivalTurn(arrivals, i);
        match arrivals[i]
        case Timeout =>
        case PollFailed => return;
        case Nothing => return;
        case Bytes(data) =>
          ReadTurn(accepts, Now(), data, ReadsOf(arrivals[i + 1..]));
          var len := Read(data);
          HandleBuffer(len);
      }
    }
  }

  lemma {:induction false} SignalsUnfold(accepts: nat -> bool, a: Audio, mask: u32)
    ensures OnSignals(accepts, a, Signals(mask)) ==
      var b := if Opens(mask) then OnSignal(accepts, a, true) else a;
      if Closes(mask) then OnSignal(accepts, b, false) else b
  {
    OnSignalsConcat(accepts, a, if Opens(mask) then [true] else [], if Closes(mask) then [false] else []);
    assert [true][..0] == [] && [false][..0] == [];
  }
}
