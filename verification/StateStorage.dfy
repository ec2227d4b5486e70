/**
 * The in-memory package store, its save to a temporary file followed by a rename, and its
 * reload. What the storage medium does during a save is an input.
 */
module StateStorage {
  import opened Basics
  import opened StateImage
  import Fnv1a

  type Store = map<u32, PackageState>

  // ----- The store as a value

  /** The record under a hash, or a zeroed record that carries that hash. */
  function Lookup(m: Store, hash: u32): PackageState {
    if hash in m then m[hash] else PackageState(hash, 0, 0, 0, 0, 0)
  }

  function Get(m: Store, name: string): PackageState { Lookup(m, Fnv1a.Hash(name)) }

  function Update(m: Store, name: string, s: PackageState): Store { m[Fnv1a.Hash(name) := s] }

  /** Loading files records under their own hash field; this says that updating does so too. */
  ghost predicate KeysMatch(m: Store) { forall k :: k in m ==> m[k].hash == k }

  function Merge(m: Store, records: seq<PackageState>): Store {
    if records == [] then m
    else var last := records[|records| - 1]; Merge(m, records[..|records| - 1])[last.hash := last]
  }

  /** The store after `InitializeStateStorage` found `file` on disk. */
  function Recover(m: Store, file: Option<seq<octet>>): Store {
    if file.None? then m
    else match Load(file.value)
      case Rejected => m
      case Accepted(records) => Merge(m, records)
  }

  /** `slots` holds the records of `m` once each, in the key order `order` and with any padding. */
  ghost predicate Listing(m: Store, order: seq<u32>, slots: seq<Slot>) {
    && |order| == |slots| && Padded(slots)
    && (forall i, j :: 0 <= i < j < |order| ==> order[i] != order[j])
    && (forall k :: k in order <==> k in m)
    && (forall i :: 0 <= i < |order| ==> order[i] in m && slots[i].state == m[order[i]])
  }

  ghost predicate ImageOf(image: seq<octet>, m: Store, timestamp: u64) {
    exists order, slots :: Listing(m, order, slots) && image == Image(slots, timestamp)
  }

  // ----- Save and load are inverse exactly when the keys match

  lemma {:induction false} MergeKeepsKeysMatch(m: Store, records: seq<PackageState>)
    requires KeysMatch(m)
    ensures KeysMatch(Merge(m, records))
  {
    if records != [] { MergeKeepsKeysMatch(m, records[..|records| - 1]); }
  }

  lemma {:induction false} MergeOfDistinct(records: seq<PackageState>, i: nat)
    requires forall i, j :: 0 <= i < j < |records| ==> records[i].hash != records[j].hash
    requires i < |records|
    ensures var m := Merge(map[], records); records[i].hash in m && m[records[i].hash] == records[i]
  {
    if i < |records| - 1 { MergeOfDistinct(records[..|records| - 1], i); }
  }

  lemma {:induction false} MergeKeys(records: seq<PackageState>, k: u32) returns (i: nat)
    requires k in Merge(map[], records)
    ensures i < |records| && records[i].hash == k
  {
    var n := |records| - 1;
    if records[n].hash == k { i := n; } else { i := MergeKeys(records[..n], k); }
  }

  lemma {:induction false} MergeOfListing(m: Store, order: seq<u32>, slots: seq<Slot>)
    requires Listing(m, order, slots) && KeysMatch(m)
    ensures Merge(map[], States(slots)) == m
  {
    var records := States(slots);
    forall i | 0 <= i < |records| ensures records[i].hash == order[i] { }
    var loaded := Merge(map[], records);
    forall k | k in m ensures k in loaded && loaded[k] == m[k] {
      var i :| 0 <= i < |order| && order[i] == k;
      MergeOfDistinct(records, i);
    }
    forall k | k in loaded ensures k in m {
      var i := MergeKeys(records, k);
      assert order[i] == k;
    }
  }

  lemma {:induction false} FewBelow(s: set<int>, n: nat)
    requires forall x :: x in s ==> 0 <= x < n
    ensures |s| <= n
  {
    if n == 0 {
      assert forall x :: x !in s;
    } else {
      FewBelow(s - {n - 1}, n - 1);
    }
  }

  lemma {:induction false} DistinctCount(order: seq<u32>, s: set<u32>)
    requires forall i, j :: 0 <= i < j < |order| ==> order[i] != order[j]
    requires forall k :: k in order <==> k in s
    ensures |order| == |s|
  {
    if order == [] {
      assert s == {};
    } else {
      var n := |order| - 1;
      forall k ensures k in order[..n] <==> k in s - {order[n]} {
        if k in s && k != order[n] {
          var i :| 0 <= i < |order| && order[i] == k;
          assert order[..n][i] == k;
        }
      }
      DistinctCount(order[..n], s - {order[n]});
    }
  }

  lemma {:induction false} ListingCount(m: Store, order: seq<u32>, slots: seq<Slot>)
    requires Listing(m, order, slots)
    ensures |slots| == |m| <= MOD32
  {
    DistinctCount(order, m.Keys);
    FewBelow(m.Keys, MOD32);
  }

  /** With 2^32 records the narrowed count is 0 and nothing comes back. */
  lemma {:induction false} FullStoreLost(slots: seq<Slot>, timestamp: u64)
    requires |slots| == MOD32
    ensures Recover(map[], Some(Image(slots, timestamp))) == map[]
  {
    LoadWithHeader(timestamp, 0, Checksum(Body(slots)), Body(slots));
    assert AsU32(|slots|) == 0;
  }

  /**
   * Loading a complete image into an empty store gives back the saved store exactly when
   * every key is its record's hash and there are fewer than 2^32 records, for every
   * iteration order, padding and timestamp.
   */
  lemma {:induction false} RoundTrip(m: Store, image: seq<octet>, timestamp: u64)
    requires ImageOf(image, m, timestamp)
    ensures Recover(map[], Some(image)) == m <==> KeysMatch(m) && |m| < MOD32
  {
    var order, slots :| Listing(m, order, slots) && image == Image(slots, timestamp);
    ListingCount(m, order, slots);
    if |m| == MOD32 {
      FullStoreLost(slots, timestamp);
      assert m != map[];
    } else {
      LoadImage(slots, timestamp);
      MergeKeepsKeysMatch(map[], States(slots));
      if KeysMatch(m) { MergeOfListing(m, order, slots); }
    }
  }

  /** The records that the analyzer and the cleaner write back keep the keys matching. */
  lemma {:induction false} UpdateKeepsKeysMatch(m: Store, name: string, s: PackageState)
    requires KeysMatch(m)
    ensures Get(m, name).hash == Fnv1a.Hash(name)
    ensures KeysMatch(Update(m, name, s)) <==> s.hash == Get(m, name).hash
  {
    if s.hash != Get(m, name).hash {
      assert Update(m, name, s)[Fnv1a.Hash(name)].hash != Fnv1a.Hash(name);
    }
  }

  lemma {:induction false} RecoverKeepsKeysMatch(m: Store, file: Option<seq<octet>>)
    requires KeysMatch(m)
    ensures KeysMatch(Recover(m, file))
  {
    if file.Some? {
      match Load(file.value)
      case Rejected =>
      case Accepted(records) => MergeKeepsKeysMatch(m, records);
    }
  }

  // ----- The medium during a save

  datatype DiskState = DiskState(file: Option<seq<octet>>, tmp: Option<seq<octet>>)

  /**
   * What the medium grants one save: whether the temporary file opens, how many bytes of
   * the image reach it (neither `fwrite` result is looked at), and whether the rename works.
   */
  datatype SaveChance = SaveChance(timestamp: u64, opens: bool, accepted: nat, renames: bool)

  function Written(image: seq<octet>, chance: SaveChance): nat {
    if chance.accepted < |image| then chance.accepted else |image|
  }

  /** The temporary file growing byte by byte up to `n` bytes of the image. */
  function Growing(d: DiskState, image: seq<octet>, n: nat): (ds: seq<DiskState>)
    requires n <= |image|
    ensures |ds| == n + 1
    ensures forall k :: 0 <= k <= n ==> ds[k] == d.(tmp := Some(image[..k]))
  {
    seq(n + 1, k requires 0 <= k <= n => d.(tmp := Some(image[..k])))
  }

  /** Every state in which a power cut during the save can leave the two files, in order. */
  function CrashPoints(d: DiskState, image: seq<octet>, chance: SaveChance): (ds: seq<DiskState>)
    ensures ds != []
  {
    if !chance.opens then [d]
    else
      var n := Written(image, chance);
      [d] + Growing(d, image, n) + (if chance.renames then [DiskState(Some(image[..n]), None)] else [])
  }

  /**
   * A save whose writes succeed is atomic: whichever point it is cut at, a restart recovers
   * the store of the previous save or the one being saved, and the latter once it is through.
   */
  lemma {:induction false} CrashRecovery(d: DiskState, before: Store, m: Store, image: seq<octet>, chance: SaveChance,
      at: nat)
    requires Recover(map[], d.file) == before
    requires ImageOf(image, m, chance.timestamp) && KeysMatch(m) && |m| < MOD32
    requires chance.accepted >= |image|
    requires at < |CrashPoints(d, image, chance)|
    ensures var cut := CrashPoints(d, image, chance)[at];
      && (cut.file == d.file || cut.file == Some(image))
      && (Recover(map[], cut.file) == before || Recover(map[], cut.file) == m)
      && (at == |CrashPoints(d, image, chance)| - 1 && chance.opens && chance.renames ==>
            Recover(map[], cut.file) == m && cut.tmp.None?)
  {
    RoundTrip(m, image, chance.timestamp);
    CutFile(d, image, chance, at);
  }

  /** Where all bytes are written, the file is the old one or the whole new one at every crash point. */
  lemma {:induction false} CutFile(d: DiskState, image: seq<octet>, chance: SaveChance, at: nat)
    requires chance.accepted >= |image| && at < |CrashPoints(d, image, chance)|
    ensures var cut := CrashPoints(d, image, chance)[at];
      && (cut.file == d.file || cut.file == Some(image))
      && (at == |CrashPoints(d, image, chance)| - 1 && chance.opens && chance.renames ==>
            cut == DiskState(Some(image), None))
  {
    assert image[..|image|] == image;
  }

  /**
   * Since write results are ignored, a short write is renamed into place as well. The file
   * a save leaves behind is readable exactly when all of the image was written.
   */
  lemma {:induction false} ShortWriteLosesStore(d: DiskState, m: Store, image: seq<octet>, chance: SaveChance)
    requires ImageOf(image, m, chance.timestamp) && |m| < MOD32
    requires chance.opens && chance.renames
    ensures var last := CrashPoints(d, image, chance)[|CrashPoints(d, image, chance)| - 1];
      last.file.Some? && (Load(last.file.value) != Rejected <==> chance.accepted >= |image|)
  {
    var order, slots :| Listing(m, order, slots) && image == Image(slots, chance.timestamp);
    ListingCount(m, order, slots);
    if chance.accepted >= |image| {
      assert image[..|image|] == image;
      LoadImage(slots, chance.timestamp);
    } else {
      StrictPrefixRejected(slots, chance.timestamp, chance.accepted);
    }
  }

  /** `after` is where one whole save of `m`, begun in `before`, leaves the medium. */
  ghost predicate Saved(before: DiskState, after: DiskState, m: Store, chance: SaveChance) {
    exists image :: ImageOf(image, m, chance.timestamp) && EndsAt(before, after, image, chance)
  }

  ghost predicate EndsAt(before: DiskState, after: DiskState, image: seq<octet>, chance: SaveChance) {
    var points := CrashPoints(before, image, chance); after == points[|points| - 1]
  }

  // ----- The medium over many saves

  /** Every byte that is written reaches the medium; the largest image has 2^32 records. */
  ghost predicate WritesSucceed(chances: nat -> SaveChance) {
    forall i: nat :: chances(i).accepted >= HEADER_SIZE + PayloadSize(MOD32)
  }

  ghost predicate SavesSucceed(chances: nat -> SaveChance) { forall i: nat :: chances(i).opens && chances(i).renames }

  /** A restart recovers what was there at first, or one of the stores saved since. */
  ghost predicate Restores(file: Option<seq<octet>>, initial: Store, saved: seq<Store>) {
    Recover(map[], file) == initial || Recover(map[], file) in saved
  }

  ghost predicate AllRestore(ds: seq<DiskState>, initial: Store, saved: seq<Store>) {
    forall d :: d in ds ==> Restores(d.file, initial, saved)
  }

  /** None of the stores has more records than the file format can count. */
  ghost predicate AllSmall(saved: seq<Store>) { forall m :: m in saved ==> |m| < MOD32 }

  /**
   * What holds of a medium after any number of saves whose writes succeeded: at no moment
   * so far would a power cut have lost more than the changes since some save, and if the
   * saves went through a restart now finds the last of them.
   */
  ghost predicate Dependable(chances: nat -> SaveChance, history: seq<DiskState>, now: DiskState, initial: Store,
      saved: seq<Store>) {
    WritesSucceed(chances) && AllSmall(saved) ==>
      && AllRestore(history, initial, saved) && Restores(now.file, initial, saved)
      && (SavesSucceed(chances) ==> Recover(map[], now.file) == if saved == [] then initial else saved[|saved| - 1])
  }

  lemma {:induction false} ImageLength(m: Store, image: seq<octet>, timestamp: u64)
    requires ImageOf(image, m, timestamp) && |m| < MOD32
    ensures |image| <= HEADER_SIZE + PayloadSize(MOD32)
  {
    var order, slots :| Listing(m, order, slots) && image == Image(slots, timestamp);
    ListingCount(m, order, slots);
    BodySize(slots);
    Larger(|slots|, MOD32);
  }

  lemma {:induction false} Larger(m: nat, n: nat)
    requires m <= n
    ensures PayloadSize(m) <= PayloadSize(n)
  {
  }

  /** One more save keeps a medium dependable, wherever it is cut. */
  lemma {:induction false} SaveKeepsDependable(chances: nat -> SaveChance, k: nat, history: seq<DiskState>,
      now: DiskState, initial: Store,
      saved: seq<Store>, m: Store, image: seq<octet>)
    requires Dependable(chances, history, now, initial, saved) && KeysMatch(m)
    requires ImageOf(image, m, chances(k).timestamp)
    ensures var points := CrashPoints(now, image, chances(k));
      Dependable(chances, history + points[1..], points[|points| - 1], initial, saved + [m])
  {
    var points, more := CrashPoints(now, image, chances(k)), saved + [m];
    if WritesSucceed(chances) && AllSmall(more) {
      assert m in more && AllSmall(saved) by { assert forall x :: x in saved ==> x in more; }
      ImageLength(m, image, chances(k).timestamp);
      forall d | d in points ensures Restores(d.file, initial, more) {
        var at :| 0 <= at < |points| && points[at] == d;
        CrashRecovery(now, Recover(map[], now.file), m, image, chances(k), at);
      }
      CrashRecovery(now, Recover(map[], now.file), m, image, chances(k), |points| - 1);
    }
  }

  // ----- The storage objects

  class StateDisk {
    const chances: nat -> SaveChance
    var now: DiskState
    var saves: nat
    /** The states the two files went through, what a restart found at first, and the stores saved since. */
    ghost var history: seq<DiskState>
    ghost const initial: Store
    ghost var saved: seq<Store>

    constructor (chances: nat -> SaveChance, file: Option<seq<octet>>)
      ensures this.chances == chances && now == DiskState(file, None) && saves == 0 && history == [now]
      ensures initial == Recover(map[], file) && saved == [] && Sound()
    {
      this.chances := chances;
      now := DiskState(file, None);
      saves := 0;
      history := [DiskState(file, None)];
      initial, saved := Recover(map[], file), [];
    }

    ghost predicate Sound() reads this {
      Dependable(chances, history, now, initial, saved)
    }

    /** `fopen(..., "wb")` on the temporary file: truncates it. */
    method OpenTemporary() returns (ok: bool)
      modifies this`now, this`history
      ensures ok == chances(saves).opens
      ensures now == (if ok then old(now).(tmp := Some([])) else old(now))
      ensures history == old(history) + (if ok then [now] else [])
    {
      ok := chances(saves).opens;
      if ok {
        now := now.(tmp := Some([]));
        history := history + [now];
      }
    }

    /** The two `fwrite`s, the flush and the close, of which `accepted` bytes reach the file. */
    method WriteTemporary(bytes: seq<octet>)
      requires now.tmp == Some([])
      modifies this`now, this`history
      ensures now == old(now).(tmp := Some(bytes[..Written(bytes, chances(saves))]))
      ensures history == old(history) + Growing(old(now), bytes, Written(bytes, chances(saves)))[1..]
    {
      var n := Written(bytes, chances(saves));
      ghost var steps := Growing(now, bytes, n);
      for k := 0 to n
        invariant now == old(now).(tmp := Some(bytes[..k]))
        invariant history == old(history) + steps[1..k + 1]
      {
        assert bytes[..k] + [bytes[k]] == bytes[..k + 1];
        now := now.(tmp := Some(now.tmp.value + [bytes[k]]));
        assert steps[1..k + 1] + [steps[k + 1]] == steps[1..k + 2];
        history := history + [now];
      }
      assert steps[1..n + 1] == steps[1..];
    }

    /** `rename` is atomic: both names change together or neither does. */
    method Rename()
      requires now.tmp.Some?
      modifies this`now, this`history
      ensures now == (if chances(saves).renames then DiskState(old(now).tmp, None) else old(now))
      ensures history == old(history) + (if chances(saves).renames then [now] else [])
    {
      if chances(saves).renames {
        now := DiskState(now.tmp, None);
        history := history + [now];
      }
    }

    /** Open, write, flush, close and rename; a temporary file that does not open ends the attempt. */
    method Publish(bytes: seq<octet>)
      modifies this`now, this`saves, this`history
      ensures var points := CrashPoints(old(now), bytes, chances(old(saves)));
        && now == points[|points| - 1]
        && history == old(history) + points[1..]
      ensures saves == old(saves) + 1
    {
      var open := OpenTemporary();
      if open {
        WriteTemporary(bytes);
        Rename();
        PointsInOrder(old(history), old(now), bytes, chances(saves));
      }
      saves := saves + 1;
    }
  }

  class PackageStore {
    var states: Store
    const disk: StateDisk

    constructor (disk: StateDisk)
      ensures states == map[] && this.disk == disk
      ensures disk.Sound() ==> Trusted()
    {
      states := map[];
      this.disk := disk;
    }

    /** The keys match, and what was saved so far can be relied on. */
    ghost predicate Trusted() reads this, disk { KeysMatch(states) && disk.Sound() }

    method InitializeStateStorage()
      modifies this
      ensures old(Trusted()) ==> Trusted()
      ensures states == Recover(old(states), disk.now.file)
    {
      if disk.now.file.None? { return; }
      var verdict := Load(disk.now.file.value);
      if verdict.Rejected? { return; }
      var records := verdict.records;
      for i := 0 to |records|
        invariant states == Merge(old(states), records[..i])
      {
        assert records[..i + 1][..i] == records[..i];
        states := states[records[i].hash := records[i]];
      }
      assert records[..|records|] == records;
      if KeysMatch(old(states)) { RecoverKeepsKeysMatch(old(states), disk.now.file); }
    }

    method GetPackageState(name: string) returns (s: PackageState)
      ensures s == Get(states, name)
    {
      var hash := Fnv1a.HashPackageName(name);
      if hash in states { return states[hash]; }
      s := PackageState(hash, 0, 0, 0, 0, 0);
    }

    method UpdatePackageState(name: string, s: PackageState)
      modifies this
      ensures states == Update(old(states), name, s)
    {
      var hash := Fnv1a.HashPackageName(name);
      states := states[hash := s];
    }

    /** Copies the records into a vector, in an order and with padding bytes that nothing fixes. */
    method CopyRecords() returns (slots: seq<Slot>, ghost order: seq<u32>)
      ensures Listing(states, order, slots)
    {
      slots, order := [], [];
      var rest := states.Keys;
      while rest != {}
        invariant rest <= states.Keys
        invariant |order| == |slots| && Padded(slots)
        invariant forall i, j :: 0 <= i < j < |order| ==> order[i] != order[j]
        invariant forall k :: k in order <==> k in states && k !in rest
        invariant forall i :: 0 <= i < |order| ==> order[i] in states && slots[i].state == states[order[i]]
        decreases rest
      {
        var key :| key in rest;
        var p0: octet, p1: octet, p2: octet, p3: octet := *, *, *, *;
        slots := slots + [Slot(states[key], [p0, p1, p2, p3])];
        order := order + [key];
        rest := rest - {key};
      }
    }

    /** The header and the record vector as they are handed to `fwrite`. */
    method Serialize(timestamp: u64) returns (bytes: seq<octet>)
      ensures ImageOf(bytes, states, timestamp)
    {
      var slots; ghost var order;
      slots, order := CopyRecords();
      var body := Body(slots);
      var checksum := CalculateChecksum(body);
      bytes := Header(timestamp, AsU32(|slots|), checksum) + body;
      assert Listing(states, order, slots) && bytes == Image(slots, timestamp);
    }

    method SaveStateAtomic() returns (ghost image: seq<octet>)
      modifies disk
      ensures ImageOf(image, states, disk.chances(old(disk.saves)).timestamp)
      ensures var points := CrashPoints(old(disk.now), image, disk.chances(old(disk.saves)));
        && disk.now == points[|points| - 1]
        && disk.history == old(disk.history) + points[1..]
      ensures disk.saves == old(disk.saves) + 1
      ensures disk.saved == old(disk.saved) + [states]
      ensures old(Trusted()) ==> Trusted()
      ensures Saved(old(disk.now), disk.now, states, disk.chances(old(disk.saves)))
    {
      var bytes := Serialize(disk.chances(disk.saves).timestamp);
      image := bytes;
      disk.Publish(bytes);
      disk.saved := disk.saved + [states];
      ghost var was := old(disk.now);
      if old(Trusted()) {
        SaveKeepsDependable(disk.chances, old(disk.saves), old(disk.history), was, disk.initial, old(disk.saved),
            states, image);
      }
      assert EndsAt(old(disk.now), disk.now, image, disk.chances(old(disk.saves)));
    }
  }

  lemma {:induction false} PointsInOrder(h: seq<DiskState>, d: DiskState, image: seq<octet>, chance: SaveChance)
    requires chance.opens
    ensures var n := Written(image, chance);
      h + [d.(tmp := Some([]))] + Growing(d.(tmp := Some([])), image, n)[1..] +
      (if chance.renames then [DiskState(Some(image[..n]), None)] else []) ==
      h + CrashPoints(d, image, chance)[1..]
  {
  }
}
