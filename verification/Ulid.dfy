/** Positional notation: big-endian digit strings, their values and their order. */
module Positional {

  function Pow(base: nat, k: nat): (p: nat)
    ensures base > 0 ==> p > 0
  {
    if k == 0 then 1 else base * Pow(base, k - 1)
  }

  ghost predicate Digits(base: nat, ds: seq<nat>) {
    forall i :: 0 <= i < |ds| ==> ds[i] < base
  }

  /** The number a big-endian digit string denotes. */
  function Val(base: nat, ds: seq<nat>): nat {
    if ds == [] then 0 else Val(base, ds[..|ds| - 1]) * base + ds[|ds| - 1]
  }

  /** Lexicographic order, which is how strings and byte strings compare. */
  predicate LexLess(a: seq<nat>, b: seq<nat>) {
    b != [] && (a == [] || a[0] < b[0] || (a[0] == b[0] && LexLess(a[1..], b[1..])))
  }

  lemma ValSnoc(base: nat, ds: seq<nat>, x: nat)
    ensures Val(base, ds + [x]) == Val(base, ds) * base + x
  {
    assert (ds + [x])[..|ds|] == ds;
  }

  lemma {:induction false} ValBound(base: nat, ds: seq<nat>)
    requires base > 0 && Digits(base, ds)
    ensures Val(base, ds) < Pow(base, |ds|)
  {
    if ds != [] {
      var last := |ds| - 1;
      ValBound(base, ds[..last]);
      LeadingDigit(base, Val(base, ds[..last]), ds[last], Pow(base, last), 0);
    }
  }

  /** Concatenation shifts the left part by the length of the right. */
  lemma {:induction false} ValConcat(base: nat, a: seq<nat>, b: seq<nat>)
    ensures Val(base, a + b) == Val(base, a) * Pow(base, |b|) + Val(base, b)
  {
    if b == [] {
      assert a + b == a;
    } else {
      var init, x := b[..|b| - 1], b[|b| - 1];
      assert a + b == (a + init) + [x];
      ValSnoc(base, a + init, x);
      ValConcat(base, a, init);
      Distribute(Val(base, a), Pow(base, |init|), Val(base, init), base);
    }
  }

  lemma Distribute(x: nat, p: nat, v: nat, q: nat)
    ensures (x * p + v) * q == x * (q * p) + v * q
  {
  }

  lemma LeadingDigit(p: nat, a: nat, u: nat, b: nat, v: nat)
    requires u < p && v < p && a < b
    ensures a * p + u < b * p + v
  {
    assert (a + 1) * p <= b * p;
    assert (a + 1) * p == a * p + p;
  }

  lemma ValCons(base: nat, ds: seq<nat>)
    requires ds != []
    ensures Val(base, ds) == ds[0] * Pow(base, |ds| - 1) + Val(base, ds[1..])
  {
    assert ds == [ds[0]] + ds[1..];
    ValConcat(base, [ds[0]], ds[1..]);
    assert Val(base, [ds[0]]) == ds[0];
  }

  /** Between digit strings of one length, lexicographic order is numeric order. */
  lemma {:induction false} LexIsNumeric(base: nat, a: seq<nat>, b: seq<nat>)
    requires base > 0 && |a| == |b| && Digits(base, a) && Digits(base, b)
    ensures LexLess(a, b) <==> Val(base, a) < Val(base, b)
    ensures a == b <==> Val(base, a) == Val(base, b)
  {
    if a != [] {
      LexIsNumeric(base, a[1..], b[1..]);
      ValBound(base, a[1..]);
      ValBound(base, b[1..]);
      ValCons(base, a);
      ValCons(base, b);
      var p := Pow(base, |a| - 1);
      if a[0] < b[0] {
        LeadingDigit(p, a[0], Val(base, a[1..]), b[0], Val(base, b[1..]));
      } else if b[0] < a[0] {
        LeadingDigit(p, b[0], Val(base, b[1..]), a[0], Val(base, a[1..]));
      } else {
        assert a == [a[0]] + a[1..] && b == [b[0]] + b[1..];
      }
    }
  }
}

/**
  ULID minting (internal/id/id.go): 48 bits of milliseconds, then 80 bits of
  entropy that count up within one millisecond, written as 26 base-32 characters.
 */
module Ulid {
  import opened Positional

  const CROCKFORD: string := "0123456789ABCDEFGHJKMNPQRSTVWXYZ"

  type Byte = b: nat | b < 256

  /** The number a byte string denotes, big-endian. */
  function Number(b: seq<Byte>): nat {
    Val(256, b)
  }

  // ---- the in-place counter ----

  /** Adding one with carry, least significant byte last. */
  function Incremented(e: seq<Byte>): (r: seq<Byte>)
    ensures |r| == |e|
  {
    if e == [] then []
    else
      var last := |e| - 1;
      if e[last] == 255 then Incremented(e[..last]) + [0] else e[..last] + [e[last] + 1]
  }

  method Incr(e: array<Byte>)
    modifies e
    ensures e[..] == Incremented(old(e[..]))
  {
    var i := e.Length - 1;
    ghost var was := e[..];
    assert was[..i + 1] == was;
    while i >= 0
      invariant -1 <= i < e.Length
      invariant e[..i + 1] == was[..i + 1]
      invariant Incremented(was) == Incremented(was[..i + 1]) + e[i + 1..]
    {
      e[i] := if e[i] == 255 then 0 else e[i] + 1;
      assert was[..i + 1][..i] == was[..i];
      if e[i] != 0 {
        assert Incremented(was[..i + 1]) == was[..i] + [e[i]];
        assert e[..] == was[..i] + [e[i]] + e[i + 1..];
        return;
      }
      assert was[i] == 255;
      assert Incremented(was[..i + 1]) == Incremented(was[..i]) + [e[i]];
      assert e[i..] == [e[i]] + e[i + 1..];
      i := i - 1;
    }
  }

  /** The counter is plus one modulo 256^n: it wraps exactly when every byte is 255. */
  lemma {:induction false} IncrementedIsPlusOne(e: seq<Byte>)
    ensures Number(e) < Pow(256, |e|)
    ensures Number(Incremented(e)) == if Number(e) + 1 == Pow(256, |e|) then 0 else Number(e) + 1
  {
    ValBound(256, e);
    if e != [] {
      var last := |e| - 1;
      var init, x := e[..last], e[last];
      assert e == init + [x];
      ValSnoc(256, init, x);
      IncrementedIsPlusOne(init);
      if x == 255 {
        ValSnoc(256, Incremented(init), 0);
      } else {
        ValSnoc(256, init, x + 1);
      }
    }
  }

  // ---- the 26-character encoding ----

  /** A base-32 digit string as Crockford characters. */
  function Letters(ds: seq<nat>): (s: string)
    requires Digits(32, ds)
    ensures |s| == |ds|
  {
    seq(|ds|, i requires 0 <= i < |ds| => CROCKFORD[ds[i]])
  }

  /** The last `k` base-32 digits of `n`, most significant first. */
  function Base32(n: nat, k: nat): (ds: seq<nat>)
    ensures |ds| == k && Digits(32, ds)
  {
    if k == 0 then [] else Base32(n / 32, k - 1) + [n % 32]
  }

  lemma {:induction false} Base32Val(n: nat, k: nat)
    requires n < Pow(32, k)
    ensures Val(32, Base32(n, k)) == n
  {
    if k > 0 {
      Base32Val(n / 32, k - 1);
      ValSnoc(32, Base32(n / 32, k - 1), n % 32);
    }
  }

  // The encoder's masks and shifts, on bytes taken as bit vectors: each cuts the
  // digit that the arithmetic below computes.

  lemma TopBits(b: bv8)
    ensures ((b & 224) >> 5) as nat == b as nat / 32
    ensures ((b & 248) >> 3) as nat == b as nat / 8
  {
  }

  lemma LowBits(b: bv8)
    ensures (b & 31) as nat == b as nat % 32
  {
  }

  lemma MiddleBits62(b: bv8)
    ensures ((b & 62) >> 1) as nat == b as nat / 2 % 32
  {
    assert (b & 62) >> 1 == (b >> 1) & 31;
    LowBits(b >> 1);
    assert (b >> 1) as nat == b as nat / 2;
  }

  lemma MiddleBits124(b: bv8)
    ensures ((b & 124) >> 2) as nat == b as nat / 4 % 32
  {
    assert (b & 124) >> 2 == (b >> 2) & 31;
    LowBits(b >> 2);
    assert (b >> 2) as nat == b as nat / 4;
  }

  lemma Join3And2(b: bv8, c: bv8)
    ensures (((b & 7) << 2) | ((c & 192) >> 6)) as nat == b as nat % 8 * 4 + c as nat / 64
  {
    Above2(b);
    if c & 192 == 0 {
      assert c as nat / 64 == 0;
    } else if c & 192 == 64 {
      assert c as nat / 64 == 1;
    } else if c & 192 == 128 {
      assert c as nat / 64 == 2;
    } else {
      assert c & 192 == 192 && c as nat / 64 == 3;
    }
  }

  lemma Above2(b: bv8)
    ensures ((b & 7) << 2) as nat == b as nat % 8 * 4
    ensures (((b & 7) << 2) | 1) as nat == b as nat % 8 * 4 + 1
    ensures (((b & 7) << 2) | 2) as nat == b as nat % 8 * 4 + 2
    ensures (((b & 7) << 2) | 3) as nat == b as nat % 8 * 4 + 3
  {
  }

  lemma Join1And4(b: bv8, c: bv8)
    ensures (((b & 1) << 4) | ((c & 240) >> 4)) as nat == b as nat % 2 * 16 + c as nat / 16
  {
    if b & 1 == 0 {
      assert b as nat % 2 == 0;
    } else {
      assert b & 1 == 1 && b as nat % 2 == 1;
    }
  }

  lemma Join4And1(b: bv8, c: bv8)
    ensures (((b & 15) << 1) | ((c & 128) >> 7)) as nat == b as nat % 16 * 2 + c as nat / 128
  {
    if c & 128 == 0 {
      assert c as nat / 128 == 0;
    } else {
      assert c & 128 == 128 && c as nat / 128 == 1;
    }
  }

  lemma Join2And3(b: bv8, c: bv8)
    ensures (((b & 3) << 3) | ((c & 224) >> 5)) as nat == b as nat % 4 * 8 + c as nat / 32
  {
    var x := (b & 3) << 3;
    Above3(b);
    Below3(c);
    assert x == 0 || x == 8 || x == 16 || x == 24;
  }

  lemma Above3(b: bv8)
    ensures ((b & 3) << 3) as nat == b as nat % 4 * 8
  {
  }

  lemma Below3(c: bv8)
    ensures ((c & 224) >> 5) as nat == c as nat / 32
    ensures (8 | ((c & 224) >> 5)) as nat == 8 + c as nat / 32
    ensures (16 | ((c & 224) >> 5)) as nat == 16 + c as nat / 32
    ensures (24 | ((c & 224) >> 5)) as nat == 24 + c as nat / 32
  {
  }

  /** Eight 5-bit digits cut from five bytes. */
  function FortyBits(a: nat, b: nat, c: nat, d: nat, e: nat): seq<nat> {
    [a / 8, a % 8 * 4 + b / 64, b / 2 % 32, b % 2 * 16 + c / 16,
     c % 16 * 2 + d / 128, d / 4 % 32, d % 4 * 8 + e / 32, e % 32]
  }

  /** Forty bits read as five bytes and as eight 5-bit digits are the same number. */
  lemma FortyBitsVal(a: nat, b: nat, c: nat, d: nat, e: nat)
    requires a < 256 && b < 256 && c < 256 && d < 256 && e < 256
    ensures var ds := FortyBits(a, b, c, d, e);
            Digits(32, ds) && Val(32, ds) == Val(256, [a, b, c, d, e])
  {
    var ds, bytes := FortyBits(a, b, c, d, e), [a, b, c, d, e];
    Five(bytes);
    Eight(ds);
    Regroup(a, b, c, d, e);
  }

  lemma Regroup(a: nat, b: nat, c: nat, d: nat, e: nat)
    requires a < 256 && b < 256 && c < 256 && d < 256 && e < 256
    ensures (((a * 256 + b) * 256 + c) * 256 + d) * 256 + e
            == (((((((a / 8) * 32 + a % 8 * 4 + b / 64) * 32 + b / 2 % 32) * 32 + b % 2 * 16 + c / 16) * 32
                   + c % 16 * 2 + d / 128) * 32 + d / 4 % 32) * 32 + d % 4 * 8 + e / 32) * 32 + e % 32
  {
    assert a == a / 8 * 8 + a % 8;
    assert b == b / 64 * 64 + b / 2 % 32 * 2 + b % 2;
    assert c == c / 16 * 16 + c % 16;
    assert d == d / 128 * 128 + d / 4 % 32 * 4 + d % 4;
    assert e == e / 32 * 32 + e % 32;
  }

  lemma Five(ds: seq<nat>)
    requires |ds| == 5
    ensures Val(256, ds) == (((ds[0] * 256 + ds[1]) * 256 + ds[2]) * 256 + ds[3]) * 256 + ds[4]
  {
    assert Val(256, ds[..1]) == ds[0];
    assert ds[..2][..1] == ds[..1] && Val(256, ds[..2]) == ds[0] * 256 + ds[1];
    assert ds[..3][..2] == ds[..2] && Val(256, ds[..3]) == (ds[0] * 256 + ds[1]) * 256 + ds[2];
    assert ds[..4][..3] == ds[..3];
  }

  lemma Eight(ds: seq<nat>)
    requires |ds| == 8
    ensures Val(32, ds) == ((((((ds[0] * 32 + ds[1]) * 32 + ds[2]) * 32 + ds[3]) * 32 + ds[4]) * 32
                             + ds[5]) * 32 + ds[6]) * 32 + ds[7]
  {
    assert Val(32, ds[..1]) == ds[0];
    assert ds[..2][..1] == ds[..1] && Val(32, ds[..2]) == ds[0] * 32 + ds[1];
    assert ds[..3][..2] == ds[..2] && Val(32, ds[..3]) == (ds[0] * 32 + ds[1]) * 32 + ds[2];
    assert ds[..4][..3] == ds[..3];
    var v := Val(32, ds[..4]);
    assert v == ((ds[0] * 32 + ds[1]) * 32 + ds[2]) * 32 + ds[3];
    assert ds[..5][..4] == ds[..4] && Val(32, ds[..5]) == v * 32 + ds[4];
    assert ds[..6][..5] == ds[..5] && Val(32, ds[..6]) == (v * 32 + ds[4]) * 32 + ds[5];
    assert ds[..7][..6] == ds[..6] && Val(32, ds[..7]) == ((v * 32 + ds[4]) * 32 + ds[5]) * 32 + ds[6];
  }

  function Forty(five: seq<nat>): seq<nat>
    requires |five| == 5
  {
    FortyBits(five[0], five[1], five[2], five[3], five[4])
  }

  /** The 26 digits the encoder writes for sixteen bytes. */
  function EncodedDigits(n: seq<nat>): (ds: seq<nat>)
    requires |n| == 16
    ensures |ds| == 26
  {
    [n[0] / 32, n[0] % 32] + Forty(n[1..6]) + Forty(n[6..11]) + Forty(n[11..16])
  }

  /** Appending forty bits shifts both readings by the same amount. */
  lemma AppendForty(bytes: seq<nat>, ds: seq<nat>, five: seq<nat>)
    requires |five| == 5 && Digits(256, five) && Digits(32, ds)
    requires Val(256, bytes) == Val(32, ds)
    ensures Digits(32, ds + Forty(five)) && Val(256, bytes + five) == Val(32, ds + Forty(five))
  {
    FortyBitsVal(five[0], five[1], five[2], five[3], five[4]);
    assert five == [five[0], five[1], five[2], five[3], five[4]];
    ValConcat(256, bytes, five);
    ValConcat(32, ds, Forty(five));
    FortyBitPowers();
  }

  lemma FortyBitPowers()
    ensures Pow(256, 5) == 0x100_0000_0000 && Pow(32, 8) == 0x100_0000_0000
  {
    assert Pow(256, 2) == 0x1_0000 && Pow(256, 4) == 0x1_0000_0000;
    assert Pow(32, 2) == 1024 && Pow(32, 4) == 0x10_0000 && Pow(32, 6) == 0x4000_0000;
  }

  lemma EncodedDigitsVal(n: seq<nat>)
    requires |n| == 16 && Digits(256, n)
    ensures Digits(32, EncodedDigits(n)) && Val(32, EncodedDigits(n)) == Val(256, n)
  {
    var ds := ElevenBytes(n);
    AppendForty(n[..11], ds, n[11..16]);
    assert n == n[..11] + n[11..16];
  }

  lemma ElevenBytes(n: seq<nat>) returns (ds: seq<nat>)
    requires |n| == 16 && Digits(256, n)
    ensures ds == [n[0] / 32, n[0] % 32] + Forty(n[1..6]) + Forty(n[6..11])
    ensures Digits(32, ds) && Val(32, ds) == Val(256, n[..11])
  {
    var top := [n[0] / 32, n[0] % 32];
    TopDigits(n[0]);
    AppendForty([n[0]], top, n[1..6]);
    assert n[..6] == [n[0]] + n[1..6];
    AppendForty(n[..6], top + Forty(n[1..6]), n[6..11]);
    assert n[..11] == n[..6] + n[6..11];
    ds := top + Forty(n[1..6]) + Forty(n[6..11]);
  }

  lemma TopDigits(x: nat)
    ensures Val(256, [x]) == Val(32, [x / 32, x % 32])
  {
    var ds := [x / 32, x % 32];
    assert ds[..1] == [x / 32] && Val(32, ds[..1]) == x / 32;
    assert Val(256, [x]) == x;
  }

  /** The canonical text of a 128-bit number: 26 base-32 digits. */
  function Canonical(n: nat): (s: string)
    ensures |s| == 26
  {
    Letters(Base32(n, 26))
  }

  /** Each character is the matching 5-bit digit of the 128-bit number. */
  lemma EncodedDigitsAreBase32(n: seq<nat>)
    requires |n| == 16 && Digits(256, n)
    ensures EncodedDigits(n) == Base32(Val(256, n), 26)
  {
    EncodedDigitsVal(n);
    ValBound(32, EncodedDigits(n));
    Base32Val(Val(256, n), 26);
    LexIsNumeric(32, EncodedDigits(n), Base32(Val(256, n), 26));
  }

  method Encode(b: seq<Byte>) returns (s: string)
    requires |b| == 16
    ensures s == Canonical(Number(b))
  {
    var ds := EncodeDigits(seq(16, i requires 0 <= i < 16 => Bits(b[i])));
    assert Values(seq(16, i requires 0 <= i < 16 => Bits(b[i]))) == b;
    EncodedDigitsAreBase32(b);
    EncodedDigitsVal(b);
    s := Letters(ds);
  }

  lemma ShiftIn(v: bv8)
    ensures v as nat < 128 ==> (v << 1) as nat == 2 * v as nat && ((v << 1) | 1) as nat == 2 * v as nat + 1
  {
  }

  /** A byte as the machine holds it, built bit by bit. */
  function Bits(x: nat): (v: bv8)
    requires x < 256
    ensures v as nat == x
  {
    if x == 0 then 0
    else
      var v := Bits(x / 2);
      ShiftIn(v);
      if x % 2 == 0 then v << 1 else (v << 1) | 1
  }

  function Values(s: seq<bv8>): (r: seq<nat>)
    ensures |r| == |s| && Digits(256, r)
  {
    seq(|s|, i requires 0 <= i < |s| => s[i] as nat)
  }

  /** The digits the masks and shifts cut from five bytes. */
  function Masked(a: bv8, b: bv8, c: bv8, d: bv8, e: bv8): seq<bv8> {
    [(a & 248) >> 3, ((a & 7) << 2) | ((b & 192) >> 6), (b & 62) >> 1, ((b & 1) << 4) | ((c & 240) >> 4),
     ((c & 15) << 1) | ((d & 128) >> 7), (d & 124) >> 2, ((d & 3) << 3) | ((e & 224) >> 5), e & 31]
  }

  function FortyOf(five: seq<bv8>): (m: seq<bv8>)
    requires |five| == 5
    ensures |m| == 8
  {
    Masked(five[0], five[1], five[2], five[3], five[4])
  }

  lemma FirstFour(a: bv8, b: bv8, c: bv8, d: bv8, e: bv8)
    ensures var m := Masked(a, b, c, d, e);
            && m[0] as nat == a as nat / 8 && m[1] as nat == a as nat % 8 * 4 + b as nat / 64
            && m[2] as nat == b as nat / 2 % 32 && m[3] as nat == b as nat % 2 * 16 + c as nat / 16
  {
    TopBits(a);
    Join3And2(a, b);
    MiddleBits62(b);
    Join1And4(b, c);
  }

  lemma LastFour(a: bv8, b: bv8, c: bv8, d: bv8, e: bv8)
    ensures var m := Masked(a, b, c, d, e);
            && m[4] as nat == c as nat % 16 * 2 + d as nat / 128 && m[5] as nat == d as nat / 4 % 32
            && m[6] as nat == d as nat % 4 * 8 + e as nat / 32 && m[7] as nat == e as nat % 32
  {
    Join4And1(c, d);
    MiddleBits124(d);
    Join2And3(d, e);
    LowBits(e);
  }

  lemma EightDigits(m: seq<bv8>, v: seq<nat>)
    requires |m| == 8 && |v| == 5
    requires m[0] as nat == v[0] / 8 && m[1] as nat == v[0] % 8 * 4 + v[1] / 64
    requires m[2] as nat == v[1] / 2 % 32 && m[3] as nat == v[1] % 2 * 16 + v[2] / 16
    requires m[4] as nat == v[2] % 16 * 2 + v[3] / 128 && m[5] as nat == v[3] / 4 % 32
    requires m[6] as nat == v[3] % 4 * 8 + v[4] / 32 && m[7] as nat == v[4] % 32
    ensures Values(m) == Forty(v)
  {
  }

  /** The digits the masks cut are those of the same forty bits. */
  lemma MaskedIsForty(five: seq<bv8>)
    requires |five| == 5
    ensures Values(FortyOf(five)) == Forty(Values(five))
  {
    FirstFour(five[0], five[1], five[2], five[3], five[4]);
    LastFour(five[0], five[1], five[2], five[3], five[4]);
    EightDigits(FortyOf(five), Values(five));
  }

  /** The digits as the source writes them, before the alphabet is applied to all of them. */
  method EncodeDigits(b: seq<bv8>) returns (ds: seq<nat>)
    requires |b| == 16
    ensures ds == EncodedDigits(Values(b))
  {
    var d := new bv8[26];
    d[0] := (b[0] & 224) >> 5;
    d[1] := b[0] & 31;
    ghost var top := d[..2];
    assert top == [(b[0] & 224) >> 5, b[0] & 31];
    EncodeForty(d, 2, b[1..6]);
    EncodeForty(d, 10, b[6..11]);
    EncodeForty(d, 18, b[11..16]);
    assert d[..] == top + FortyOf(b[1..6]) + FortyOf(b[6..11]) + FortyOf(b[11..16]);
    DigitsCut(b, d[..]);
    ds := Values(d[..]);
  }

  lemma DigitsCut(b: seq<bv8>, d: seq<bv8>)
    requires |b| == 16
    requires d == [(b[0] & 224) >> 5, b[0] & 31] + FortyOf(b[1..6]) + FortyOf(b[6..11]) + FortyOf(b[11..16])
    ensures Values(d) == EncodedDigits(Values(b))
  {
    TopValues(b[0]);
    MaskedIsForty(b[1..6]);
    MaskedIsForty(b[6..11]);
    MaskedIsForty(b[11..16]);
    ValuesSlice(b, 1, 6);
    ValuesSlice(b, 6, 11);
    ValuesSlice(b, 11, 16);
    Gather(Values(b), [(b[0] & 224) >> 5, b[0] & 31], FortyOf(b[1..6]), FortyOf(b[6..11]), FortyOf(b[11..16]));
  }

  lemma TopValues(x: bv8)
    ensures Values([(x & 224) >> 5, x & 31]) == [x as nat / 32, x as nat % 32]
  {
    TopBits(x);
    LowBits(x);
  }

  lemma ValuesSlice(b: seq<bv8>, i: nat, j: nat)
    requires i <= j <= |b|
    ensures Values(b[i..j]) == Values(b)[i..j]
  {
  }

  lemma Gather(v: seq<nat>, top: seq<bv8>, x: seq<bv8>, y: seq<bv8>, z: seq<bv8>)
    requires |v| == 16 && Values(top) == [v[0] / 32, v[0] % 32]
    requires Values(x) == Forty(v[1..6]) && Values(y) == Forty(v[6..11]) && Values(z) == Forty(v[11..16])
    ensures Values(top + x + y + z) == EncodedDigits(v)
  {
    ValuesConcat(top, x);
    ValuesConcat(top + x, y);
    ValuesConcat(top + x + y, z);
  }

  lemma ValuesConcat(x: seq<bv8>, y: seq<bv8>)
    ensures Values(x + y) == Values(x) + Values(y)
  {
  }

  /** Digits `at` to `at + 7`, cut from five bytes. */
  method EncodeForty(d: array<bv8>, at: nat, b: seq<bv8>)
    requires at + 8 <= d.Length && |b| == 5
    modifies d
    ensures d[..at + 8] == old(d[..at]) + FortyOf(b)
  {
    var digits := FortyOf(b);
    forall i | 0 <= i < 8 {
      d[at + i] := digits[i];
    }
    assert d[..at + 8] == d[..at] + d[at..at + 8];
  }

  // ---- string order ----

  function Codes(s: string): seq<nat> {
    seq(|s|, i requires 0 <= i < |s| => s[i] as nat)
  }

  /** Strings compare bytewise; every character here is ASCII. */
  predicate StringLess(a: string, b: string) {
    LexLess(Codes(a), Codes(b))
  }

  /** The alphabet: digits, then capital letters without I, L, O and U. */
  lemma AlphabetIs(d: nat)
    requires d < 32
    ensures CROCKFORD[d] as int == if d < 10 then 48 + d else if d < 18 then 55 + d else if d < 20 then 56 + d
                                   else if d < 22 then 57 + d else if d < 27 then 58 + d else 59 + d
  {
  }

  lemma AlphabetAscends(i: nat, j: nat)
    requires i < j < 32
    ensures CROCKFORD[i] < CROCKFORD[j]
  {
  }

  lemma {:induction false} LettersOrder(a: seq<nat>, b: seq<nat>)
    requires Digits(32, a) && Digits(32, b)
    ensures LexLess(Codes(Letters(a)), Codes(Letters(b))) <==> LexLess(a, b)
  {
    if a != [] && b != [] {
      if a[0] < b[0] {
        AlphabetAscends(a[0], b[0]);
      } else if b[0] < a[0] {
        AlphabetAscends(b[0], a[0]);
      }
      LettersOrder(a[1..], b[1..]);
      assert Codes(Letters(a))[1..] == Codes(Letters(a[1..]));
      assert Codes(Letters(b))[1..] == Codes(Letters(b[1..]));
    }
  }

  lemma CanonicalOrder(m: nat, n: nat)
    requires m < Pow(32, 26) && n < Pow(32, 26)
    ensures StringLess(Canonical(m), Canonical(n)) <==> m < n
  {
    Base32Val(m, 26);
    Base32Val(n, 26);
    LexIsNumeric(32, Base32(m, 26), Base32(n, 26));
    LettersOrder(Base32(m, 26), Base32(n, 26));
  }

  lemma SixteenBytesFit(b: seq<Byte>)
    requires |b| == 16
    ensures Number(b) < Pow(32, 26)
  {
    EncodedDigitsVal(b);
    ValBound(32, EncodedDigits(b));
  }

  /** The encoding is an order embedding: strings compare as the numbers, and as the bytes, do. */
  lemma EncodingOrder(a: seq<Byte>, b: seq<Byte>)
    requires |a| == 16 && |b| == 16
    ensures StringLess(Canonical(Number(a)), Canonical(Number(b))) <==> Number(a) < Number(b)
    ensures StringLess(Canonical(Number(a)), Canonical(Number(b))) <==> LexLess(a, b)
  {
    SixteenBytesFit(a);
    SixteenBytesFit(b);
    CanonicalOrder(Number(a), Number(b));
    LexIsNumeric(256, a, b);
  }

  /** No two byte strings share an encoding. */
  lemma EncodingInjective(a: seq<Byte>, b: seq<Byte>)
    requires |a| == 16 && |b| == 16 && Canonical(Number(a)) == Canonical(Number(b))
    ensures a == b
  {
    EncodingOrder(a, b);
    EncodingOrder(b, a);
    EncodingOrder(a, a);
    LexIsNumeric(256, a, b);
  }

  // ---- minting ----

  const MS_LIMIT: nat := 0x1_0000_0000_0000

  /** The low 48 bits of the millisecond clock, big-endian. */
  function TimeBytes(ms: nat): seq<Byte> {
    [ms / 0x100_0000_0000 % 256, ms / 0x1_0000_0000 % 256, ms / 0x100_0000 % 256,
     ms / 0x1_0000 % 256, ms / 0x100 % 256, ms % 256]
  }

  /** The generator between calls: the millisecond and entropy of the last id. */
  datatype Generator = Generator(lastMs: nat, lastEnt: seq<Byte>) {
    ghost predicate Valid() {
      |lastEnt| == 10
    }

    function Bytes(): seq<Byte> {
      TimeBytes(lastMs) + lastEnt
    }

    function Text(): string {
      Canonical(Number(Bytes()))
    }
  }

  /**
    One call of `New`: the clock reading, what the entropy read left in the
    buffer, and whether the read succeeded.  A failed read may have overwritten
    part of the buffer.
   */
  datatype Call = Call(ms: nat, buffer: seq<Byte>, ok: bool)

  function Next(g: Generator, c: Call): Generator {
    if c.ms == g.lastMs then g.(lastEnt := Incremented(g.lastEnt))
    else Generator(c.ms, if c.ok then c.buffer else Incremented(c.buffer))
  }

  /** `f` is `e` counted up by one, round to zero after the last. */
  ghost predicate CountsUp(e: seq<Byte>, f: seq<Byte>) {
    |f| == |e| && Number(f) == if Number(e) + 1 == Pow(256, |e|) then 0 else Number(e) + 1
  }

  /** The 128-bit number: 48 bits of milliseconds above 80 of entropy. */
  ghost function IdValue(ms: nat, ent: seq<Byte>): nat {
    ms % MS_LIMIT * Pow(256, 10) + Number(ent)
  }

  class ULID {
    var lastMs: nat
    const lastEnt: array<Byte>

    ghost function Abs(): Generator
      reads this, lastEnt
    {
      Generator(lastMs, lastEnt[..])
    }

    constructor ()
      ensures fresh(lastEnt) && Abs() == Generator(0, seq(10, _ => 0))
    {
      lastMs := 0;
      lastEnt := new Byte[10](_ => 0);
    }

    method New(c: Call) returns (s: string)
      requires Abs().Valid() && |c.buffer| == 10
      modifies this, lastEnt
      ensures Abs() == Next(old(Abs()), c) && Abs().Valid()
      ensures s == Abs().Text()
      ensures lastMs == c.ms
      ensures c.ms != old(lastMs) && c.ok ==> lastEnt[..] == c.buffer
      ensures c.ms != old(lastMs) && !c.ok ==> CountsUp(c.buffer, lastEnt[..])
      ensures c.ms == old(lastMs) ==> CountsUp(old(lastEnt[..]), lastEnt[..])
      ensures s == Canonical(IdValue(c.ms, lastEnt[..]))
    {
      IncrementedIsPlusOne(lastEnt[..]);
      IncrementedIsPlusOne(c.buffer);
      if c.ms == lastMs {
        Incr(lastEnt);
      } else {
        lastMs := c.ms;
        forall i | 0 <= i < lastEnt.Length {
          lastEnt[i] := c.buffer[i];
        }
        assert lastEnt[..] == c.buffer;
        if !c.ok {
          Incr(lastEnt);
        }
      }
      s := Encode(TimeBytes(c.ms) + lastEnt[..]);
      TimeNumber(c.ms);
      Shift(TimeBytes(c.ms), lastEnt[..], c.ms % MS_LIMIT, 10);
    }
  }

  lemma TimeNumber(ms: nat)
    ensures Number(TimeBytes(ms)) == ms % MS_LIMIT
  {
    var b := TimeBytes(ms);
    Five(b[..5]);
    TimeArithmetic(ms);
  }

  lemma TimeArithmetic(ms: nat)
    ensures ((((ms / 0x100_0000_0000 % 256 * 256 + ms / 0x1_0000_0000 % 256) * 256 + ms / 0x100_0000 % 256) * 256
              + ms / 0x1_0000 % 256) * 256 + ms / 0x100 % 256) * 256 + ms % 256 == ms % MS_LIMIT
  {
    var q1, q2, q3 := ms / 0x100, ms / 0x1_0000, ms / 0x100_0000;
    var q4, q5, q6 := ms / 0x1_0000_0000, ms / 0x100_0000_0000, ms / MS_LIMIT;
    assert ms == q1 * 256 + ms % 256;
    assert q2 == q1 / 256 && q1 == q2 * 256 + q1 % 256;
    assert q3 == q2 / 256 && q2 == q3 * 256 + q2 % 256;
    assert q4 == q3 / 256 && q3 == q4 * 256 + q3 % 256;
    assert q5 == q4 / 256 && q4 == q5 * 256 + q4 % 256;
    assert q6 == q5 / 256 && q5 == q6 * 256 + q5 % 256;
  }

  /** Milliseconds lead, entropy follows. */
  lemma IdNumber(g: Generator)
    requires g.Valid() && g.lastMs < MS_LIMIT
    ensures Number(g.Bytes()) == g.lastMs * Pow(256, 10) + Number(g.lastEnt)
    ensures Number(g.lastEnt) < Pow(256, 10)
  {
    assert Number(TimeBytes(g.lastMs)) == g.lastMs by {
      TimeNumber(g.lastMs);
    }
    Shift(TimeBytes(g.lastMs), g.lastEnt, g.lastMs, 10);
  }

  lemma Shift(high: seq<Byte>, low: seq<Byte>, n: nat, k: nat)
    requires n == Number(high) && k == |low|
    ensures Number(high + low) == n * Pow(256, k) + Number(low)
    ensures Number(low) < Pow(256, k)
  {
    ValConcat(256, high, low);
    ValBound(256, low);
  }

  /** The clock moved on, or the millisecond is the last one again and its entropy has a successor. */
  ghost predicate MovesOn(g: Generator, c: Call) {
    g.lastMs < c.ms || (g.lastMs == c.ms && Number(g.lastEnt) + 1 < Pow(256, 10))
  }

  lemma NextNumber(g: Generator, c: Call)
    requires g.Valid() && |c.buffer| == 10 && g.lastMs < MS_LIMIT && c.ms < MS_LIMIT
    ensures Number(g.Bytes()) < Number(Next(g, c).Bytes()) <==> MovesOn(g, c)
  {
    var h := Next(g, c);
    IdNumber(g);
    IdNumber(h);
    PairOrder(Pow(256, 10), g.lastMs, Number(g.lastEnt), h.lastMs, Number(h.lastEnt));
    IncrementedIsPlusOne(g.lastEnt);
  }

  lemma PairOrder(p: nat, a: nat, u: nat, b: nat, v: nat)
    requires u < p && v < p
    ensures a * p + u < b * p + v <==> a < b || (a == b && u < v)
  {
    if a < b {
      LeadingDigit(p, a, u, b, v);
    } else if b < a {
      LeadingDigit(p, b, v, a, u);
    }
  }

  /** Ids compare as strings exactly as their numbers do. */
  lemma TextOrder(g: Generator, h: Generator)
    requires g.Valid() && h.Valid()
    ensures StringLess(g.Text(), h.Text()) <==> Number(g.Bytes()) < Number(h.Bytes())
  {
    EncodingOrder(g.Bytes(), h.Bytes());
  }

  /**
    Whatever the clock reads below 2^48 milliseconds, forwards or back, the next id sorts after the
    last one if and only if the millisecond is later, or the same and the counter not at its maximum.
   */
  lemma NextSortsAfter(g: Generator, c: Call)
    requires g.Valid() && |c.buffer| == 10 && g.lastMs < MS_LIMIT && c.ms < MS_LIMIT
    ensures Next(g, c).Valid()
    ensures StringLess(g.Text(), Next(g, c).Text()) <==> MovesOn(g, c)
  {
    NextNumber(g, c);
    TextOrder(g, Next(g, c));
  }

  /** The generator after each of a run of calls. */
  ghost function States(g: Generator, calls: seq<Call>): (r: seq<Generator>)
    ensures |r| == |calls|
    decreases |calls|
  {
    if calls == [] then [] else [Next(g, calls[0])] + States(Next(g, calls[0]), calls[1..])
  }

  /** Full-length reads, and a clock below 2^48 milliseconds; it may go back. */
  ghost predicate Readings(g: Generator, calls: seq<Call>) {
    g.lastMs < MS_LIMIT && forall i :: 0 <= i < |calls| ==> |calls[i].buffer| == 10 && calls[i].ms < MS_LIMIT
  }

  lemma {:induction false} StatesStep(g: Generator, calls: seq<Call>, i: nat)
    requires i < |calls| && g.Valid() && Readings(g, calls)
    ensures var s := States(g, calls);
            && s[i].Valid() && s[i].lastMs == calls[i].ms
            && s[i] == Next(if i == 0 then g else s[i - 1], calls[i])
    decreases i
  {
    if i > 0 {
      StatesStep(Next(g, calls[0]), calls[1..], i - 1);
    }
  }

  ghost predicate Ascends(s: seq<Generator>, i: nat, j: nat)
    requires i < |s| && j < |s|
  {
    StringLess(s[i].Text(), s[j].Text())
  }

  lemma {:induction false} NumbersAscend(g: Generator, calls: seq<Call>, i: nat, j: nat)
    requires g.Valid() && Readings(g, calls) && i < j < |calls|
    requires AllMoveOn(States(g, calls), calls)
    ensures Number(States(g, calls)[i].Bytes()) < Number(States(g, calls)[j].Bytes())
    decreases j
  {
    var s := States(g, calls);
    StatesStep(g, calls, j);
    StatesStep(g, calls, j - 1);
    NextNumber(s[j - 1], calls[j]);
    if i < j - 1 {
      NumbersAscend(g, calls, i, j - 1);
    }
  }

  /** Every string sorts after every earlier one. */
  ghost predicate AllAscend(s: seq<Generator>) {
    forall i, j :: 0 <= i < j < |s| ==> Ascends(s, i, j)
  }

  /** Every call after the first moves on from the state before it. */
  ghost predicate AllMoveOn(s: seq<Generator>, calls: seq<Call>)
    requires |s| == |calls|
  {
    forall k :: 0 < k < |s| ==> MovesOn(s[k - 1], calls[k])
  }

  lemma LaterSortsAfter(g: Generator, calls: seq<Call>, i: nat, j: nat)
    requires g.Valid() && Readings(g, calls) && i < j < |calls| && AllMoveOn(States(g, calls), calls)
    ensures Ascends(States(g, calls), i, j)
  {
    NumbersAscend(g, calls, i, j);
    StatesStep(g, calls, i);
    StatesStep(g, calls, j);
    TextOrder(States(g, calls)[i], States(g, calls)[j]);
  }

  lemma NeighboursIff(g: Generator, calls: seq<Call>, k: nat)
    requires g.Valid() && Readings(g, calls) && 0 < k < |calls|
    ensures Ascends(States(g, calls), k - 1, k) <==> MovesOn(States(g, calls)[k - 1], calls[k])
  {
    StatesStep(g, calls, k - 1);
    StatesStep(g, calls, k);
    NextSortsAfter(States(g, calls)[k - 1], calls[k]);
  }

  /**
    Over any run below 2^48 milliseconds the minted strings strictly increase, each against every
    later one, if and only if the milliseconds never go back and no id is minted in a millisecond
    whose 80-bit counter is already at its maximum.
   */
  lemma MintedStringsIncrease(g: Generator, calls: seq<Call>)
    requires g.Valid() && Readings(g, calls)
    ensures AllAscend(States(g, calls)) <==> AllMoveOn(States(g, calls), calls)
  {
    var s := States(g, calls);
    if AllMoveOn(s, calls) {
      forall i, j | 0 <= i < j < |s| ensures Ascends(s, i, j) {
        LaterSortsAfter(g, calls, i, j);
      }
    }
    if AllAscend(s) {
      forall k | 0 < k < |s| ensures MovesOn(s[k - 1], calls[k]) {
        NeighboursIff(g, calls, k);
      }
    }
  }
}
