/**
  The theme paste string (internal/uikit/vtheme.go): "vtheme1:" followed by
  unpadded base64url, with a hand-written encoder and a decoder that never fails.
 */
module PasteString {

  type Byte = bv8

  /** The base64url alphabet, section 5 of RFC 4648. */
  const UPPER: string := "ABCDEFGHIJKLMNOPQRSTUVWXYZ"
  const LOWER: string := "abcdefghijklmnopqrstuvwxyz"
  const OTHER: string := "0123456789-_"
  const CHARS: string := UPPER + LOWER + OTHER

  const PREFIX: string := "vtheme1:"

  datatype Parsed = Ok(data: seq<Byte>) | NotAPasteString

  // ---- the alphabet, forwards and backwards ----

  /** The position of a character in the alphabet, or -1. */
  function Position(c: char): (r: int)
    ensures -1 <= r < 64
  {
    var k := c as int;
    if 65 <= k <= 90 then k - 65
    else if 97 <= k <= 122 then k - 71
    else if 48 <= k <= 57 then k + 4
    else if k == 45 then 62 else if k == 95 then 63 else -1
  }

  lemma UpperCode(i: nat)
    requires i < 26
    ensures UPPER[i] as int == 65 + i
  {
  }

  lemma LowerCode(i: nat)
    requires i < 26
    ensures LOWER[i] as int == 97 + i
  {
  }

  lemma CodeOfChar(i: nat)
    requires i < 64
    ensures |CHARS| == 64
    ensures CHARS[i] as int == if i < 26 then 65 + i else if i < 52 then 71 + i
                               else if i < 62 then i - 4 else if i == 62 then 45 else 95
  {
    if i < 26 {
      assert CHARS[i] == UPPER[i];
      UpperCode(i);
    } else if i < 52 {
      assert CHARS[i] == LOWER[i - 26];
      LowerCode(i - 26);
    } else {
      assert CHARS[i] == OTHER[i - 52];
    }
  }

  /** `Position` inverts the alphabet. */
  lemma PositionOfChar(i: nat)
    requires i < 64
    ensures |CHARS| == 64 && Position(CHARS[i]) == i
  {
    CodeOfChar(i);
  }

  lemma CharOfPosition(c: char)
    ensures |CHARS| == 64
    ensures Position(c) >= 0 ==> CHARS[Position(c)] == c
    ensures Position(c) >= 0 <==> c in CHARS
  {
    if Position(c) >= 0 {
      CodeOfChar(Position(c));
    }
    if c in CHARS {
      var i :| 0 <= i < |CHARS| && CHARS[i] == c;
      PositionOfChar(i);
    }
  }

  /** What the decoder reads: characters outside the alphabet count as zero. */
  function Digit(c: char): (d: Byte)
    ensures d < 64
  {
    if Position(c) < 0 then 0 else Position(c) as Byte
  }

  predicate Sixes(ds: seq<Byte>) {
    forall i :: 0 <= i < |ds| ==> ds[i] < 64
  }

  function Symbols(ds: seq<Byte>): (s: string)
    requires Sixes(ds)
    ensures |s| == |ds|
  {
    seq(|ds|, i requires 0 <= i < |ds| => CHARS[ds[i] as nat])
  }

  function DigitsOf(s: string): (ds: seq<Byte>)
    ensures |ds| == |s| && Sixes(ds)
  {
    seq(|s|, i requires 0 <= i < |s| => Digit(s[i]))
  }

  // ---- bytes to 6-bit digits and back, one group at a time ----

  /** Three bytes as four digits. */
  function Cut(b0: Byte, b1: Byte, b2: Byte): (g: seq<Byte>)
    ensures |g| == 4 && Sixes(g)
  {
    [(b0 >> 2) & 0x3f, ((b0 & 0x3) << 4) | ((b1 >> 4) & 0xf), ((b1 & 0xf) << 2) | ((b2 >> 6) & 0x3), b2 & 0x3f]
  }

  /** Four digits as three bytes. */
  function Glue(a: Byte, b: Byte, c: Byte, d: Byte): (g: seq<Byte>)
    requires a < 64 && b < 64 && c < 64 && d < 64
    ensures |g| == 3
  {
    [(a << 2) | (b >> 4), ((b & 0xf) << 4) | (c >> 2), ((c & 0x3) << 6) | d]
  }

  lemma GlueCut(b0: Byte, b1: Byte, b2: Byte)
    ensures var g := Cut(b0, b1, b2); Glue(g[0], g[1], g[2], g[3]) == [b0, b1, b2]
    ensures Cut(b0, 0, 0)[2] == 0 && Cut(b0, b1, 0)[3] == 0
  {
  }

  lemma CutGlue(a: Byte, b: Byte, c: Byte, d: Byte)
    requires a < 64 && b < 64 && c < 64 && d < 64
    ensures var g := Glue(a, b, c, d); Cut(g[0], g[1], g[2]) == [a, b, c, d]
    ensures var g := Glue(a, b, c, 0); Cut(g[0], g[1], 0) == [a, b, c & 0x3c, 0]
    ensures var g := Glue(a, b, 0, 0); Cut(g[0], 0, 0) == [a, b & 0x30, 0, 0]
  {
  }

  /** Missing bytes of the last group count as zero, and its missing digits are not written. */
  function Sextets(data: seq<Byte>): (ds: seq<Byte>)
    ensures Sixes(ds) && |ds| == (4 * |data| + 2) / 3
  {
    if |data| == 0 then []
    else if |data| == 1 then Cut(data[0], 0, 0)[..2]
    else if |data| == 2 then Cut(data[0], data[1], 0)[..3]
    else Cut(data[0], data[1], data[2]) + Sextets(data[3..])
  }

  /** Digits past the end of the last group read as zero. */
  function Octets(ds: seq<Byte>): (data: seq<Byte>)
    requires Sixes(ds)
  {
    if |ds| == 0 then []
    else if |ds| == 1 then Glue(ds[0], 0, 0, 0)[..1]
    else if |ds| == 2 then Glue(ds[0], ds[1], 0, 0)[..1]
    else if |ds| == 3 then Glue(ds[0], ds[1], ds[2], 0)[..2]
    else Glue(ds[0], ds[1], ds[2], ds[3]) + Octets(ds[4..])
  }

  lemma {:induction false} OctetsUndoSextets(data: seq<Byte>)
    ensures Octets(Sextets(data)) == data
  {
    if |data| == 1 {
      GlueCut(data[0], 0, 0);
    } else if |data| == 2 {
      GlueCut(data[0], data[1], 0);
    } else if |data| >= 3 {
      OctetsUndoSextets(data[3..]);
      GlueCut(data[0], data[1], data[2]);
      assert Sextets(data)[4..] == Sextets(data[3..]);
    }
  }

  /** No stray last digit, and the bits that do not reach a byte are zero. */
  ghost predicate Whole(ds: seq<Byte>) {
    var rest := |ds| % 4;
    && rest != 1
    && (rest == 2 ==> ds[|ds| - 1] & 0xf == 0)
    && (rest == 3 ==> ds[|ds| - 1] & 0x3 == 0)
  }

  lemma {:induction false} SextetsUndoOctets(ds: seq<Byte>)
    requires Sixes(ds)
    ensures Sextets(Octets(ds)) == ds <==> Whole(ds)
  {
    if 0 < |ds| < 4 {
      LastGroup(ds);
    } else if |ds| >= 4 {
      var rest := ds[4..];
      SextetsUndoOctets(rest);
      var back := Sextets(Octets(rest));
      FullGroup(ds, rest, Octets(rest), back);
      HeadIff(Sextets(Octets(ds)), ds, back);
      WholeTail(ds);
    }
  }

  lemma WholeTail(ds: seq<Byte>)
    requires |ds| >= 4
    ensures Whole(ds) <==> Whole(ds[4..])
  {
    assert |ds| % 4 == |ds[4..]| % 4;
    assert |ds| > 4 ==> ds[|ds| - 1] == ds[4..][|ds| - 5];
  }

  lemma LastGroup(ds: seq<Byte>)
    requires Sixes(ds) && 0 < |ds| < 4
    ensures Sextets(Octets(ds)) == ds <==> Whole(ds)
  {
    if |ds| == 1 {
      LastOne(ds);
    } else if |ds| == 2 {
      LastTwoWhole(ds);
    } else {
      LastThreeWhole(ds);
    }
  }

  lemma LastOne(ds: seq<Byte>)
    requires Sixes(ds) && |ds| == 1
    ensures Sextets(Octets(ds)) != ds && !Whole(ds)
  {
    assert |Octets(ds)| == 1;
    assert |Sextets(Octets(ds))| == 2;
  }

  lemma LastTwoWhole(ds: seq<Byte>)
    requires Sixes(ds) && |ds| == 2
    ensures Sextets(Octets(ds)) == ds <==> Whole(ds)
  {
    assert ds == [ds[0], ds[1]];
    LastTwo(ds[0], ds[1]);
  }

  lemma LastThreeWhole(ds: seq<Byte>)
    requires Sixes(ds) && |ds| == 3
    ensures Sextets(Octets(ds)) == ds <==> Whole(ds)
  {
    assert ds == [ds[0], ds[1], ds[2]];
    LastThree(ds[0], ds[1], ds[2]);
  }

  lemma LastTwo(a: Byte, b: Byte)
    requires a < 64 && b < 64
    ensures Sextets(Octets([a, b])) == [a, b] <==> b & 0xf == 0
  {
    CutGlue(a, b, 0, 0);
    assert Sextets(Octets([a, b])) == [a, b & 0x30];
    assert b & 0x30 == b <==> b & 0xf == 0;
  }

  lemma LastThree(a: Byte, b: Byte, c: Byte)
    requires a < 64 && b < 64 && c < 64
    ensures Sextets(Octets([a, b, c])) == [a, b, c] <==> c & 0x3 == 0
  {
    CutGlue(a, b, c, 0);
    assert Sextets(Octets([a, b, c])) == [a, b, c & 0x3c];
    assert c & 0x3c == c <==> c & 0x3 == 0;
  }

  lemma SextetsCons(g: seq<Byte>, rest: seq<Byte>)
    requires |g| == 3
    ensures Sextets(g + rest) == Cut(g[0], g[1], g[2]) + Sextets(rest)
  {
    assert (g + rest)[3..] == rest;
  }

  lemma GroupThrough(a: Byte, b: Byte, c: Byte, d: Byte, data: seq<Byte>)
    requires a < 64 && b < 64 && c < 64 && d < 64
    ensures Sextets(Glue(a, b, c, d) + data) == [a, b, c, d] + Sextets(data)
  {
    SextetsCons(Glue(a, b, c, d), data);
    CutGlue(a, b, c, d);
  }

  lemma OctetsCons(ds: seq<Byte>, rest: seq<Byte>, data: seq<Byte>)
    requires Sixes(ds) && |ds| >= 4 && rest == ds[4..] && data == Octets(rest)
    ensures Octets(ds) == Glue(ds[0], ds[1], ds[2], ds[3]) + data
  {
  }

  lemma FullGroup(ds: seq<Byte>, rest: seq<Byte>, data: seq<Byte>, back: seq<Byte>)
    requires Sixes(ds) && |ds| >= 4 && rest == ds[4..] && data == Octets(rest) && back == Sextets(data)
    ensures Sextets(Octets(ds)) == [ds[0], ds[1], ds[2], ds[3]] + back
  {
    OctetsCons(ds, rest, data);
    GroupThrough(ds[0], ds[1], ds[2], ds[3], data);
  }

  lemma HeadIff(whole: seq<Byte>, ds: seq<Byte>, back: seq<Byte>)
    requires |ds| >= 4 && whole == [ds[0], ds[1], ds[2], ds[3]] + back
    ensures whole == ds <==> back == ds[4..]
  {
    SameHead([ds[0], ds[1], ds[2], ds[3]], back, ds[4..]);
    assert ds == [ds[0], ds[1], ds[2], ds[3]] + ds[4..];
  }

  lemma SameHead(head: seq<Byte>, x: seq<Byte>, y: seq<Byte>)
    ensures head + x == head + y <==> x == y
  {
    assert (head + x)[|head|..] == x && (head + y)[|head|..] == y;
  }

  // ---- the codec ----

  function Encode(data: seq<Byte>): string {
    Symbols(Sextets(data))
  }

  function Decode(s: string): seq<Byte> {
    Octets(DigitsOf(s))
  }

  function PasteOf(data: seq<Byte>): string {
    PREFIX + Encode(data)
  }

  function Parse(s: string): Parsed {
    if PREFIX <= s then Ok(Decode(s[|PREFIX|..])) else NotAPasteString
  }

  function ByteAt(data: seq<Byte>, i: nat): Byte {
    if i < |data| then data[i] else 0
  }

  function DigitAt(ds: seq<Byte>, i: nat): Byte {
    if i < |ds| then ds[i] else 0
  }

  /** What is still to be written, or read, from position `i` on. */
  ghost function SextetsFrom(data: seq<Byte>, i: nat): seq<Byte> {
    if i <= |data| then Sextets(data[i..]) else []
  }

  ghost function OctetsFrom(ds: seq<Byte>, i: nat): seq<Byte>
    requires Sixes(ds)
  {
    if i <= |ds| then Octets(ds[i..]) else []
  }

  function GroupAt(data: seq<Byte>, i: nat): (g: seq<Byte>)
    requires i < |data|
    ensures |g| == 4
  {
    Cut(data[i], ByteAt(data, i + 1), ByteAt(data, i + 2))
  }

  function BytesAt(ds: seq<Byte>, i: nat): (g: seq<Byte>)
    requires Sixes(ds) && i < |ds|
    ensures |g| == 3
  {
    Glue(ds[i], DigitAt(ds, i + 1), DigitAt(ds, i + 2), DigitAt(ds, i + 3))
  }

  /** A group of the last round is cut short by the bytes, or digits, it lacks. */
  function Written(g: seq<Byte>, remaining: nat): seq<Byte>
    requires |g| == 4 && remaining > 0
  {
    if remaining > 2 then g else g[..remaining + 1]
  }

  function Kept(g: seq<Byte>, remaining: nat): seq<Byte>
    requires |g| == 3 && remaining > 0
  {
    if remaining > 3 then g else g[..if remaining == 1 then 1 else remaining - 1]
  }

  lemma EncoderRound(data: seq<Byte>, i: nat, sb: seq<Byte>)
    requires i < |data|
    ensures sb + SextetsFrom(data, i) == sb + Written(GroupAt(data, i), |data| - i) + SextetsFrom(data, i + 3)
  {
    if i + 3 <= |data| {
      assert data[i..][3..] == data[i + 3..];
    }
    assert SextetsFrom(data, i) == Written(GroupAt(data, i), |data| - i) + SextetsFrom(data, i + 3);
  }

  lemma DecoderRound(ds: seq<Byte>, i: nat, out: seq<Byte>)
    requires Sixes(ds) && i < |ds|
    ensures out + OctetsFrom(ds, i) == out + Kept(BytesAt(ds, i), |ds| - i) + OctetsFrom(ds, i + 4)
  {
    if i + 4 <= |ds| {
      assert ds[i..][4..] == ds[i + 4..];
    }
    assert OctetsFrom(ds, i) == Kept(BytesAt(ds, i), |ds| - i) + OctetsFrom(ds, i + 4);
  }

  method EncodeBase64ish(data: seq<Byte>) returns (s: string)
    ensures s == Encode(data)
  {
    var sb := EncodeLoop(data);
    s := Symbols(sb);
  }

  /** The builder holds digits here; the alphabet is applied to all of them at the end. */
  method EncodeLoop(data: seq<Byte>) returns (sb: seq<Byte>)
    ensures sb == Sextets(data)
  {
    sb := [];
    var i := 0;
    assert data[0..] == data;
    ghost var whole := SextetsFrom(data, 0);
    while i < |data|
      invariant 0 <= i <= |data| + 2
      invariant whole == sb + SextetsFrom(data, i)
    {
      EncoderRound(data, i, sb);
      sb := WriteDigits(sb, GroupAt(data, i), |data| - i);
      i := i + 3;
    }
  }

  method WriteDigits(sb: seq<Byte>, g: seq<Byte>, remaining: nat) returns (r: seq<Byte>)
    requires |g| == 4 && remaining > 0
    ensures r == sb + Written(g, remaining)
  {
    r := sb + [g[0]] + [g[1]];
    if remaining > 1 {
      r := r + [g[2]];
    }
    if remaining > 2 {
      r := r + [g[3]];
    }
  }

  method DecodeBase64ish(s: string) returns (out: seq<Byte>)
    ensures out == Decode(s)
  {
    var lookup := BuildLookup();
    out := DecodeLoop(s, lookup);
  }

  /** The table gives every byte's place in the alphabet, -1 outside it. */
  ghost predicate IsTable(lookup: array<int>)
    reads lookup
  {
    lookup.Length == 256 && forall c: char :: 0 <= c as int < 256 ==> lookup[c as int] == Position(c)
  }

  /** The decoder's `get`: past the end, and outside the alphabet, a digit is zero. */
  method GetDigit(s: string, j: nat, lookup: array<int>) returns (d: Byte)
    requires IsTable(lookup)
    ensures d == DigitAt(DigitsOf(s), j) && d < 64
  {
    if j >= |s| {
      return 0;
    }
    var v := if s[j] as int < 256 then lookup[s[j] as int] else -1;
    if v < 0 {
      return 0;
    }
    assert v == Position(s[j]);
    return v as Byte;
  }

  method DecodeLoop(s: string, lookup: array<int>) returns (out: seq<Byte>)
    requires IsTable(lookup)
    ensures out == Octets(DigitsOf(s))
  {
    out := [];
    var i := 0;
    ghost var ds := DigitsOf(s);
    assert ds[0..] == ds;
    ghost var whole := OctetsFrom(ds, 0);
    while i < |s|
      invariant 0 <= i <= |s| + 3
      invariant whole == out + OctetsFrom(ds, i)
    {
      DecoderRound(ds, i, out);
      var a := GetDigit(s, i, lookup);
      var b := GetDigit(s, i + 1, lookup);
      var c := GetDigit(s, i + 2, lookup);
      var d := GetDigit(s, i + 3, lookup);
      out := WriteBytes(out, Glue(a, b, c, d), |s| - i);
      i := i + 4;
    }
  }

  method WriteBytes(out: seq<Byte>, g: seq<Byte>, remaining: nat) returns (r: seq<Byte>)
    requires |g| == 3 && remaining > 0
    ensures r == out + Kept(g, remaining)
  {
    r := out + [g[0]];
    if remaining > 2 {
      r := r + [g[1]];
    }
    if remaining > 3 {
      r := r + [g[2]];
    }
  }

  /** How the decoder's table is filled. */
  method BuildLookup() returns (lookup: array<int>)
    ensures fresh(lookup) && IsTable(lookup)
  {
    lookup := new int[256](_ => -1);
    for i := 0 to |CHARS|
      invariant |CHARS| == 64
      invariant forall c: char :: 0 <= c as int < 256 ==>
                  lookup[c as int] == if Position(c) < i then Position(c) else -1
    {
      PositionOfChar(i);
      forall c: char | Position(c) == i ensures c == CHARS[i] {
        CharOfPosition(c);
      }
      CodeOfChar(i);
      lookup[CHARS[i] as int] := i;
    }
  }

  // ---- the format ----

  lemma CutDigits(b0: Byte, b1: Byte, b2: Byte)
    ensures ((b0 >> 2) & 0x3f) as nat == b0 as nat / 4
    ensures (b2 & 0x3f) as nat == b2 as nat % 64
  {
  }

  lemma CutSecond(b0: Byte, b1: Byte)
    ensures (((b0 & 0x3) << 4) | ((b1 >> 4) & 0xf)) as nat == b0 as nat % 4 * 16 + b1 as nat / 16
  {
    var x := (b0 & 0x3) << 4;
    HighPair(b0);
    BelowPair(b1);
    assert x == 0 || x == 16 || x == 32 || x == 48;
  }

  lemma HighPair(b: Byte)
    ensures ((b & 0x3) << 4) as nat == b as nat % 4 * 16
  {
  }

  lemma BelowPair(b: Byte)
    ensures ((b >> 4) & 0xf) as nat == b as nat / 16
    ensures (16 | ((b >> 4) & 0xf)) as nat == 16 + b as nat / 16
    ensures (32 | ((b >> 4) & 0xf)) as nat == 32 + b as nat / 16
    ensures (48 | ((b >> 4) & 0xf)) as nat == 48 + b as nat / 16
  {
  }

  lemma CutThird(b1: Byte, b2: Byte)
    ensures (((b1 & 0xf) << 2) | ((b2 >> 6) & 0x3)) as nat == b1 as nat % 16 * 4 + b2 as nat / 64
  {
    var y := (b2 >> 6) & 0x3;
    AbovePair(b1);
    TopPair(b2);
    assert y == 0 || y == 1 || y == 2 || y == 3;
  }

  lemma AbovePair(b: Byte)
    ensures ((b & 0xf) << 2) as nat == b as nat % 16 * 4
    ensures (((b & 0xf) << 2) | 1) as nat == b as nat % 16 * 4 + 1
    ensures (((b & 0xf) << 2) | 2) as nat == b as nat % 16 * 4 + 2
    ensures (((b & 0xf) << 2) | 3) as nat == b as nat % 16 * 4 + 3
  {
  }

  lemma TopPair(b: Byte)
    ensures ((b >> 6) & 0x3) as nat == b as nat / 64
  {
  }

  /** A group of digits, most significant first, as a number. */
  function Base64(a: nat, b: nat, c: nat, d: nat): nat {
    ((a * 64 + b) * 64 + c) * 64 + d
  }

  function Base256(a: nat, b: nat, c: nat): nat {
    (a * 256 + b) * 256 + c
  }

  /** Three bytes and their four digits are the same 24 bits, as section 4 of RFC 4648 lays them out. */
  lemma CutIsNumber(b0: Byte, b1: Byte, b2: Byte)
    ensures var g := Cut(b0, b1, b2);
            Base64(g[0] as nat, g[1] as nat, g[2] as nat, g[3] as nat) == Base256(b0 as nat, b1 as nat, b2 as nat)
  {
    CutDigits(b0, b1, b2);
    CutSecond(b0, b1);
    CutThird(b1, b2);
    SameBits(b0 as nat, b1 as nat, b2 as nat);
  }

  lemma SameBits(x: nat, y: nat, z: nat)
    ensures Base64(x / 4, x % 4 * 16 + y / 16, y % 16 * 4 + z / 64, z % 64) == Base256(x, y, z)
  {
    assert x == x / 4 * 4 + x % 4 && y == y / 16 * 16 + y % 16 && z == z / 64 * 64 + z % 64;
  }

  function Nats(s: seq<Byte>): (r: seq<nat>)
    ensures |r| == |s|
  {
    seq(|s|, i requires 0 <= i < |s| => s[i] as nat)
  }

  /** A missing entry counts as zero. */
  function NatAt(s: seq<nat>, j: nat): nat {
    if j < |s| then s[j] else 0
  }

  /** Group `k`: the digits `ds` and the bytes `bs` are the same number. */
  ghost predicate GroupOk(bs: seq<nat>, ds: seq<nat>, k: nat) {
    Base64(NatAt(ds, 4 * k), NatAt(ds, 4 * k + 1), NatAt(ds, 4 * k + 2), NatAt(ds, 4 * k + 3))
    == Base256(NatAt(bs, 3 * k), NatAt(bs, 3 * k + 1), NatAt(bs, 3 * k + 2))
  }

  lemma {:induction false} GroupDigits(data: seq<Byte>, k: nat)
    requires 3 * k < |data|
    ensures GroupOk(Nats(data), Nats(Sextets(data)), k)
    decreases k
  {
    if k == 0 {
      FirstGroup(data);
    } else {
      GroupDigits(data[3..], k - 1);
      SextetsTail(data);
      GroupShifts(Nats(data), Nats(Sextets(data)), k);
    }
  }

  lemma SextetsTail(data: seq<Byte>)
    requires |data| > 3
    ensures |Sextets(data)| >= 4 && Nats(Sextets(data))[4..] == Nats(Sextets(data[3..])) && Nats(data)[3..] == Nats(data[3..])
  {
    assert Sextets(data)[4..] == Sextets(data[3..]);
  }

  lemma GroupShifts(bs: seq<nat>, ds: seq<nat>, k: nat)
    requires k > 0 && |bs| >= 3 && |ds| >= 4 && GroupOk(bs[3..], ds[4..], k - 1)
    ensures GroupOk(bs, ds, k)
  {
    AtShifts(ds, 4, 4 * (k - 1));
    AtShifts(ds, 4, 4 * (k - 1) + 1);
    AtShifts(ds, 4, 4 * (k - 1) + 2);
    AtShifts(ds, 4, 4 * (k - 1) + 3);
    AtShifts(bs, 3, 3 * (k - 1));
    AtShifts(bs, 3, 3 * (k - 1) + 1);
    AtShifts(bs, 3, 3 * (k - 1) + 2);
  }

  lemma AtShifts(s: seq<nat>, n: nat, j: nat)
    requires n <= |s|
    ensures NatAt(s[n..], j) == NatAt(s, n + j)
  {
  }

  /** The first digits are the cut of the first three bytes, missing ones zero. */
  lemma FirstDigits(data: seq<Byte>, j: nat)
    requires data != [] && j < 4
    ensures NatAt(Nats(Sextets(data)), j) == Cut(data[0], ByteAt(data, 1), ByteAt(data, 2))[j] as nat
  {
    GlueCut(data[0], ByteAt(data, 1), ByteAt(data, 2));
    assert j < |Sextets(data)| ==> Sextets(data)[j] == Cut(data[0], ByteAt(data, 1), ByteAt(data, 2))[j];
  }

  lemma BytesAre(data: seq<Byte>, j: nat)
    ensures NatAt(Nats(data), j) == ByteAt(data, j) as nat
  {
  }

  lemma FirstGroup(data: seq<Byte>)
    requires data != []
    ensures GroupOk(Nats(data), Nats(Sextets(data)), 0)
  {
    FirstDigits(data, 0);
    FirstDigits(data, 1);
    FirstDigits(data, 2);
    FirstDigits(data, 3);
    BytesAre(data, 0);
    BytesAre(data, 1);
    BytesAre(data, 2);
    CutIsNumber(data[0], ByteAt(data, 1), ByteAt(data, 2));
  }

  /** The positions of a text's characters in the alphabet. */
  function Positions(s: string): (r: seq<nat>)
    ensures |r| == |s|
  {
    seq(|s|, i requires 0 <= i < |s| => if Position(s[i]) >= 0 then Position(s[i]) else 0)
  }

  /**
    The text is base64: characters 4k to 4k+3 are, as positions in the alphabet, the digits of bytes
    3k to 3k+2, with what the last group lacks read as zero on both sides.
   */
  lemma EncodingIsBase64(data: seq<Byte>, k: nat)
    requires 3 * k < |data|
    ensures GroupOk(Nats(data), Positions(Encode(data)), k)
  {
    GroupDigits(data, k);
    SymbolPositions(Sextets(data));
  }

  lemma SymbolPositions(ds: seq<Byte>)
    requires Sixes(ds)
    ensures Positions(Symbols(ds)) == Nats(ds)
  {
    forall i | 0 <= i < |ds| ensures Position(CHARS[ds[i] as nat]) == ds[i] as nat {
      PositionOfChar(ds[i] as nat);
    }
  }

  /** A paste string is the prefix and the encoding; anything without the prefix is refused. */
  lemma PasteFormat(data: seq<Byte>, s: string)
    ensures PasteOf(data) == "vtheme1:" + Encode(data)
    ensures Parse(s) == if "vtheme1:" <= s then Ok(Decode(s[8..])) else NotAPasteString
  {
  }

  // ---- round trips ----

  lemma DigitsUndoSymbols(ds: seq<Byte>)
    requires Sixes(ds)
    ensures DigitsOf(Symbols(ds)) == ds
  {
    forall i | 0 <= i < |ds| ensures Digit(CHARS[ds[i] as nat]) == ds[i] {
      PositionOfChar(ds[i] as nat);
    }
  }

  /** Every byte string comes back from its paste string. */
  lemma PasteRoundTrip(data: seq<Byte>)
    ensures Parse(PasteOf(data)) == Ok(data)
  {
    DigitsUndoSymbols(Sextets(data));
    OctetsUndoSextets(data);
    assert PasteOf(data)[|PREFIX|..] == Encode(data);
  }

  /** The body is ceil(4n/3) characters of the alphabet, so no padding is ever written. */
  lemma EncodingShape(data: seq<Byte>)
    ensures |Encode(data)| == (4 * |data| + 2) / 3
    ensures forall c :: c in Encode(data) ==> c in CHARS
  {
    forall c | c in Encode(data) ensures c in CHARS {
      var i :| 0 <= i < |Encode(data)| && Encode(data)[i] == c;
      PositionOfChar(Sextets(data)[i] as nat);
    }
  }

  /**
    Decoding accepts anything; it loses nothing exactly when every character is in
    the alphabet, no single character is left over, and the unused bits are zero.
   */
  lemma ReencodeIff(s: string)
    ensures Encode(Decode(s)) == s <==> Whole(DigitsOf(s)) && forall c :: c in s ==> c in CHARS
  {
    SextetsUndoOctets(DigitsOf(s));
    SymbolsUndoDigits(s);
    if Encode(Decode(s)) == s {
      EncodingShape(Decode(s));
      DigitsUndoSymbols(Sextets(Decode(s)));
    }
  }

  lemma SymbolsUndoDigits(s: string)
    ensures (forall c :: c in s ==> c in CHARS) ==> Symbols(DigitsOf(s)) == s
  {
    forall i | 0 <= i < |s| ensures s[i] in CHARS ==> CHARS[DigitsOf(s)[i] as nat] == s[i] {
      CharOfPosition(s[i]);
      DigitValue(s[i]);
    }
  }

  lemma DigitValue(c: char)
    ensures Position(c) >= 0 ==> Digit(c) as int == Position(c)
  {
  }
}
