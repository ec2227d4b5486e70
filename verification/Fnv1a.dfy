/**
 * The 32-bit FNV-1a hash of package names (draft-eastlake-fnv, section 2), over unbounded
 * integers with the wrap-around of `uint32_t` written out. A string stands for the bytes of
 * a `std::string`; only the low eight bits of a character count.
 */
module Fnv1a {
  import opened Basics

  const OFFSET_BASIS: u32 := 2166136261
  const PRIME: int := 16777619

  function Octet(c: char): octet { c as int % 256 }

  /** Bitwise exclusive or. */
  function Xor(a: nat, b: nat): nat {
    if a == 0 && b == 0 then 0 else (a + b) % 2 + 2 * Xor(a / 2, b / 2)
  }

  /** One round: xor in the octet, then multiply modulo 2^32. */
  function Step(h: u32, b: octet): u32 { AsU32(Xor(h, b) * PRIME) }

  function Hash(name: string): u32 {
    if name == [] then OFFSET_BASIS
    else Step(Hash(name[..|name| - 1]), Octet(name[|name| - 1]))
  }

  method HashPackageName(name: string) returns (hash: u32)
    ensures hash == Hash(name)
  {
    hash := OFFSET_BASIS;
    for i := 0 to |name|
      invariant hash == Hash(name[..i])
    {
      assert name[..i + 1][..i] == name[..i];
      hash := AsU32(Xor(hash, Octet(name[i])) * PRIME);
    }
    assert name[..|name|] == name;
  }

  // ----- Each round is a bijection on 32-bit words

  function Pow2(k: nat): nat { if k == 0 then 1 else 2 * Pow2(k - 1) }

  lemma {:induction false} XorCommutes(a: nat, b: nat)
    ensures Xor(a, b) == Xor(b, a)
  {
    if a != 0 || b != 0 { XorCommutes(a / 2, b / 2); }
  }

  lemma {:induction false} Parity(a: nat, b: nat, y: nat)
    ensures var x := (a + b) % 2 + 2 * y; x / 2 == y && (x + b) % 2 == a % 2
  {
  }

  lemma {:induction false} XorCancels(a: nat, b: nat)
    ensures Xor(Xor(a, b), b) == a
  {
    if a != 0 || b != 0 {
      XorCancels(a / 2, b / 2);
      Parity(a, b, Xor(a / 2, b / 2));
      XorOnce(Xor(a, b), b);
      assert a == a % 2 + 2 * (a / 2);
    }
  }

  lemma {:induction false} XorOnce(a: nat, b: nat)
    ensures Xor(a, b) == (a + b) % 2 + 2 * Xor(a / 2, b / 2)
  {
  }

  lemma {:induction false} XorBounded(a: nat, b: nat, k: nat)
    requires a < Pow2(k) && b < Pow2(k)
    ensures Xor(a, b) < Pow2(k)
  {
    if k != 0 { XorBounded(a / 2, b / 2, k - 1); }
  }

  lemma {:induction false} WordXorBounded(a: u32, b: u32)
    ensures Xor(a, b) < MOD32
  {
    assert Pow2(8) == 256;
    assert Pow2(16) == 0x1_0000;
    assert Pow2(24) == 0x100_0000;
    assert Pow2(32) == MOD32;
    XorBounded(a, b, 32);
  }

  /** The prime is odd, so multiplying by it loses nothing: 899433627 is its inverse modulo 2^32. */
  lemma {:induction false} MultiplyInjective(x: u32, y: u32)
    requires AsU32(x * PRIME) == AsU32(y * PRIME)
    ensures x == y
  {
    var d, e := x * PRIME / MOD32, y * PRIME / MOD32;
    var q := (d - e) * 899433627 - 3513497 * (x - y);
    assert x * PRIME == MOD32 * d + AsU32(x * PRIME) && y * PRIME == MOD32 * e + AsU32(y * PRIME);
    assert x - y == MOD32 * q;
  }

  lemma {:induction false} StepInjectiveInState(h: u32, k: u32, b: octet)
    ensures Step(h, b) == Step(k, b) <==> h == k
  {
    if Step(h, b) == Step(k, b) {
      WordXorBounded(h, b);
      WordXorBounded(k, b);
      MultiplyInjective(Xor(h, b), Xor(k, b));
      XorCancels(h, b);
      XorCancels(k, b);
    }
  }

  lemma {:induction false} StepInjectiveInOctet(h: u32, b: octet, c: octet)
    ensures Step(h, b) == Step(h, c) <==> b == c
  {
    if Step(h, b) == Step(h, c) {
      WordXorBounded(h, b);
      WordXorBounded(h, c);
      MultiplyInjective(Xor(h, b), Xor(h, c));
      XorCommutes(h, b);
      XorCommutes(h, c);
      XorCancels(b, h);
      XorCancels(c, h);
    }
  }

  // ----- Separation

  /** A common suffix neither creates nor removes a collision. */
  lemma {:induction false} CommonSuffix(x: string, y: string, s: string)
    ensures Hash(x + s) == Hash(y + s) <==> Hash(x) == Hash(y)
  {
    if s == [] {
      assert x + s == x && y + s == y;
    } else {
      var init, last := s[..|s| - 1], s[|s| - 1];
      CommonSuffix(x, y, init);
      assert (x + s)[..|x + s| - 1] == x + init && (y + s)[..|y + s| - 1] == y + init;
      StepInjectiveInState(Hash(x + init), Hash(y + init), Octet(last));
    }
  }

  /** Names of one length that agree everywhere but at `i` collide exactly when the bytes at `i` agree too. */
  lemma {:induction false} OneByteSeparates(a: string, b: string, i: nat)
    requires |a| == |b| && i < |a|
    requires a[..i] == b[..i] && a[i + 1..] == b[i + 1..]
    ensures Hash(a) == Hash(b) <==> Octet(a[i]) == Octet(b[i])
  {
    var p, s := a[..i], a[i + 1..];
    assert a == (p + [a[i]]) + s && b == (p + [b[i]]) + s;
    CommonSuffix(p + [a[i]], p + [b[i]], s);
    assert (p + [a[i]])[..i] == p && (p + [b[i]])[..i] == p;
    StepInjectiveInOctet(Hash(p), Octet(a[i]), Octet(b[i]));
  }

  // ----- Known hashes

  lemma {:induction false} XorZero(a: nat)
    ensures Xor(a, 0) == a
  {
    if a != 0 { XorZero(a / 2); }
  }

  /** How the lowest bits of two words combine. */
  lemma {:induction false} XorHalf(a: nat, b: nat, x: nat)
    requires a != 0 && Xor(a / 2, b / 2) == x
    ensures Xor(a, b) == (a + b) % 2 + 2 * x
  {
  }

  lemma {:induction false} XorTwoBits(a: nat, b: nat, x: nat)
    requires a >= 2 && Xor(a / 4, b / 4) == x
    ensures Xor(a, b) == (a + b) % 2 + 2 * ((a / 2 + b / 2) % 2 + 2 * x)
  {
    assert a / 2 / 2 == a / 4 && b / 2 / 2 == b / 4;
    XorHalf(a / 2, b / 2, x);
    XorHalf(a, b, (a / 2 + b / 2) % 2 + 2 * x);
  }

  /** The lowest two bits of the exclusive or. */
  function LowBits(a: nat, b: nat): nat { (a + b) % 2 + 2 * ((a / 2 + b / 2) % 2) }

  lemma {:induction false} XorFourBits(a: nat, b: nat, x: nat)
    requires a >= 8 && Xor(a / 16, b / 16) == x
    ensures Xor(a, b) == LowBits(a, b) + 4 * LowBits(a / 4, b / 4) + 16 * x
  {
    assert a / 4 / 4 == a / 16 && b / 4 / 4 == b / 16;
    XorTwoBits(a / 4, b / 4, x);
    XorTwoBits(a, b, LowBits(a / 4, b / 4) + 4 * x);
  }

  lemma {:induction false} XorEightBits(a: nat, b: nat, x: nat)
    requires a >= 128 && Xor(a / 256, b / 256) == x
    ensures Xor(a, b) == LowBits(a, b) + 4 * LowBits(a / 4, b / 4) +
      16 * (LowBits(a / 16, b / 16) + 4 * LowBits(a / 64, b / 64) + 16 * x)
  {
    assert a / 16 / 16 == a / 256 && b / 16 / 16 == b / 256;
    assert a / 16 / 4 == a / 64 && b / 16 / 4 == b / 64;
    XorFourBits(a / 16, b / 16, x);
    XorFourBits(a, b, LowBits(a / 16, b / 16) + 4 * LowBits(a / 64, b / 64) + 16 * x);
  }

  lemma {:induction false} KnownBits(h: nat, b: nat)
    requires h == 0x811c9dc5 && b == 97
    ensures LowBits(h, b) + 4 * LowBits(h / 4, b / 4) +
      16 * (LowBits(h / 16, b / 16) + 4 * LowBits(h / 64, b / 64) + 16 * (h / 256)) == 0x811c9da4
  {
  }

  /** The offset basis and the letter "a". */
  lemma {:induction false} KnownXor(h: nat, b: nat)
    requires h == 0x811c9dc5 && b == 97
    ensures Xor(h, b) == 0x811c9da4
  {
    XorZero(h / 256);
    KnownBits(h, b);
    XorEightBits(h, b, h / 256);
  }

  lemma {:induction false} KnownProduct(x: nat)
    requires x == 0x811c9da4
    ensures AsU32(x * 16777619) == 0xe40c292c
  {
  }

  lemma {:induction false} OneLetter(name: string)
    requires |name| == 1
    ensures Hash(name) == Step(0x811c9dc5, Octet(name[0]))
  {
    assert name[..0] == [];
  }

  /** The test vectors of the algorithm for the empty string and for "a". */
  lemma {:induction false} KnownHashes(name: string)
    ensures name == "" ==> Hash(name) == 0x811c9dc5
    ensures name == "a" ==> Hash(name) == 0xe40c292c
  {
    if name == "a" {
      var h := 0x811c9dc5;
      OneLetter(name);
      KnownXor(h, Octet(name[0]));
      KnownProduct(Xor(h, Octet(name[0])));
    }
  }
}
