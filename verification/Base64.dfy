/** The agent's base64 encoder against a decoder that follows section 4 of RFC 4648, with the
    strict reading of its section 3.5: unused bits of the last character must be zero. */
module Base64 {
  import opened Bytes
  import opened Wrappers

  const UPPER: string := "ABCDEFGHIJKLMNOPQRSTUVWXYZ"
  const LOWER: string := "abcdefghijklmnopqrstuvwxyz"
  const DIGITS: string := "0123456789+/"
  const ALPHABET: string := UPPER + LOWER + DIGITS

  // ---- Encoder ----

  function Char(k: nat): char
    requires k < 64
  {
    ALPHABET[k]
  }

  /** The four characters of a 24-bit group. */
  function Group(n: nat): (g: string)
    requires n < 0x100_0000
    ensures |g| == 4
  {
    [Char(n / 0x4_0000), Char(n / 0x1000 % 64), Char(n / 64 % 64), Char(n % 64)]
  }

  function Bits(a: byte, b: byte, c: byte): (n: nat)
    ensures n < 0x100_0000
  {
    a as int * 0x1_0000 + b as int * 0x100 + c as int
  }

  function Encoded(data: seq<byte>): string
  {
    if |data| == 0 then ""
    else if |data| == 1 then Group(Bits(data[0], 0, 0))[..2] + "=="
    else if |data| == 2 then Group(Bits(data[0], data[1], 0))[..3] + "="
    else Group(Bits(data[0], data[1], data[2])) + Encoded(data[3..])
  }

  method Base64Encode(data: seq<byte>) returns (out: string)
    ensures out == Encoded(data)
  {
    hide Group;
    out := "";
    var i := 0;
    assert data[0..] == data;
    while i + 3 <= |data|
      invariant 0 <= i <= |data|
      invariant out + Encoded(data[i..]) == Encoded(data)
      decreases |data| - i
    {
      var n := Bits(data[i], data[i + 1], data[i + 2]);
      assert data[i..][3..] == data[i + 3..];
      Associative(out, Group(n), Encoded(data[i + 3..]));
      out := PushGroup(out, n);
      i := i + 3;
    }
    var rem := |data| - i;
    if rem == 1 {
      out := out + Group(Bits(data[i], 0, 0))[..2] + "==";
    } else if rem == 2 {
      out := out + Group(Bits(data[i], data[i + 1], 0))[..3] + "=";
    }
  }

  method PushGroup(before: string, n: nat) returns (out: string)
    requires n < 0x100_0000
    ensures out == before + Group(n)
  {
    out := before + [Char(n / 0x4_0000)];
    out := out + [Char(n / 0x1000 % 64)];
    out := out + [Char(n / 64 % 64)];
    out := out + [Char(n % 64)];
  }

  // ---- Decoder ----

  /** Table 1 of RFC 4648. */
  function Value(c: char): Option<nat>
  {
    if 'A' <= c <= 'Z' then Some(c as int - 'A' as int)
    else if 'a' <= c <= 'z' then Some(c as int - 'a' as int + 26)
    else if '0' <= c <= '9' then Some(c as int - '0' as int + 52)
    else if c == '+' then Some(62)
    else if c == '/' then Some(63)
    else None
  }

  // The bytes that neighbouring six-bit digits share.

  function First(a: nat, b: nat): byte { ((a * 4 + b / 16) % 256) as byte }

  function Second(b: nat, c: nat): byte { ((b * 16 + c / 4) % 256) as byte }

  function Third(c: nat, d: nat): byte { ((c * 64 + d) % 256) as byte }

  function DecodeGroup(s: string): Option<seq<byte>>
    requires |s| == 4
  {
    var a, b, c, d := Value(s[0]), Value(s[1]), Value(s[2]), Value(s[3]);
    if a.None? || b.None? || c.None? || d.None? then None
    else Some([First(a.value, b.value), Second(b.value, c.value), Third(c.value, d.value)])
  }

  function DecodeLast(s: string): Option<seq<byte>>
    requires |s| == 4
  {
    var a, b, c := Value(s[0]), Value(s[1]), Value(s[2]);
    if a.Some? && b.Some? && s[2] == '=' && s[3] == '=' then
      if b.value % 16 != 0 then None else Some([First(a.value, b.value)])
    else if a.Some? && b.Some? && c.Some? && s[3] == '=' then
      if c.value % 4 != 0 then None else Some([First(a.value, b.value), Second(b.value, c.value)])
    else DecodeGroup(s)
  }

  /** Padding is accepted in the last group only. */
  function Decode(s: string): Option<seq<byte>>
  {
    if s == "" then Some([])
    else if |s| < 4 then None
    else if |s| == 4 then DecodeLast(s)
    else
      match (DecodeGroup(s[..4]), Decode(s[4..]))
      case (Some(first), Some(rest)) => Some(first + rest)
      case _ => None
  }

  // ---- Round trip ----

  lemma UpperValue(k: nat)
    requires k < 26
    ensures UPPER[k] == ('A' as int + k) as char
  {
  }

  lemma LowerValue(k: nat)
    requires k < 26
    ensures LOWER[k] == ('a' as int + k) as char
  {
  }

  lemma DigitValue(k: nat)
    requires k < 12
    ensures DIGITS[k] == if k < 10 then ('0' as int + k) as char else if k == 10 then '+' else '/'
  {
  }

  /** The encoder's table is the inverse of Table 1. */
  lemma AlphabetValue(k: nat)
    requires k < 64
    ensures Value(Char(k)) == Some(k) && Char(k) != '='
  {
    if k < 26 {
      UpperValue(k);
    } else if k < 52 {
      LowerValue(k - 26);
    } else {
      DigitValue(k - 52);
    }
  }

  // The six-bit digits of the bytes x, y, z.

  function Digit0(x: nat): nat { x / 4 }
  function Digit1(x: nat, y: nat): nat { x % 4 * 16 + y / 16 }
  function Digit2(y: nat, z: nat): nat { y % 16 * 4 + z / 64 }
  function Digit3(z: nat): nat { z % 64 }

  lemma HighDigits(x: nat, y: nat, z: nat)
    requires x < 256 && y < 256 && z < 256
    ensures var n := x * 0x1_0000 + y * 0x100 + z;
            n / 0x4_0000 == Digit0(x) && n / 0x1000 % 64 == Digit1(x, y)
  {
    var n := x * 0x1_0000 + y * 0x100 + z;
    assert n == x / 4 * 0x4_0000 + (x % 4 * 0x1_0000 + y * 0x100 + z);
    assert n == (x / 4 * 64 + Digit1(x, y)) * 0x1000 + (y % 16 * 0x100 + z);
    assert n / 0x1000 == x / 4 * 64 + Digit1(x, y);
  }

  lemma Divided(q: nat, r: nat)
    requires r < 64
    ensures (q * 64 + r) / 64 == q && (q * 64 + r) % 64 == r
  {
  }

  lemma ThirdDigit(x: nat, y: nat, z: nat)
    requires x < 256 && y < 256 && z < 256
    ensures (x * 0x1_0000 + y * 0x100 + z) / 64 % 64 == Digit2(y, z)
  {
    hide Digit2;
    var q, d := x * 16 + y / 16, Digit2(y, z);
    DigitTwo(y, z);
    Divided(q * 64 + d, z % 64);
    Divided(q, d);
    assert x * 0x1_0000 + y * 0x100 + z == (q * 64 + d) * 64 + z % 64;
  }

  lemma DigitTwo(y: nat, z: nat)
    requires y < 256 && z < 256
    ensures Digit2(y, z) < 64 && y * 0x100 + z == y / 16 * 4096 + Digit2(y, z) * 64 + z % 64
  {
  }

  lemma FourthDigit(x: nat, y: nat, z: nat)
    ensures (x * 0x1_0000 + y * 0x100 + z) % 64 == Digit3(z)
  {
    var q := x * 1024 + y * 4 + z / 64;
    Divided(q, z % 64);
    assert x * 0x1_0000 + y * 0x100 + z == q * 64 + z % 64;
  }

  lemma FirstIs(a: byte, y: nat)
    requires y < 256
    ensures First(Digit0(a as nat), Digit1(a as nat, y)) == a
  {
    var x := a as nat;
    assert Digit1(x, y) / 16 == x % 4;
  }

  lemma SecondIs(x: nat, b: byte, z: nat)
    requires x < 256 && z < 256
    ensures Second(Digit1(x, b as nat), Digit2(b as nat, z)) == b
  {
    var y := b as nat;
    assert Digit2(y, z) / 4 == y % 16;
    assert Digit1(x, y) * 16 == x % 4 * 256 + y / 16 * 16;
    assert y / 16 * 16 + y % 16 == y;
  }

  lemma ThirdIs(y: nat, c: byte)
    requires y < 256
    ensures Third(Digit2(y, c as nat), Digit3(c as nat)) == c
  {
    var z := c as nat;
    assert Digit2(y, z) * 64 == y % 16 * 256 + z / 64 * 64;
    assert z / 64 * 64 + z % 64 == z;
  }

  /** What the characters of a group stand for. */
  lemma {:induction false} GroupValues(a: byte, b: byte, c: byte)
    ensures var g := Group(Bits(a, b, c));
            && Value(g[0]) == Some(Digit0(a as nat)) && Value(g[1]) == Some(Digit1(a as nat, b as nat))
            && Value(g[2]) == Some(Digit2(b as nat, c as nat)) && Value(g[3]) == Some(Digit3(c as nat))
            && g[0] != '=' && g[1] != '=' && g[2] != '=' && g[3] != '='
  {
    hide Value, Digit0, Digit1, Digit2, Digit3, Char;
    var n := Bits(a, b, c);
    HighDigits(a as nat, b as nat, c as nat);
    ThirdDigit(a as nat, b as nat, c as nat);
    FourthDigit(a as nat, b as nat, c as nat);
    AlphabetValue(n / 0x4_0000);
    AlphabetValue(n / 0x1000 % 64);
    AlphabetValue(n / 64 % 64);
    AlphabetValue(n % 64);
  }

  lemma {:induction false} GroupBytes(a: byte, b: byte, c: byte)
    ensures DecodeGroup(Group(Bits(a, b, c))) == Some([a, b, c])
    ensures DecodeLast(Group(Bits(a, b, c))) == Some([a, b, c])
  {
    hide Value, Group, First, Second, Third, Digit0, Digit1, Digit2, Digit3;
    GroupValues(a, b, c);
    FirstIs(a, b as nat);
    SecondIs(a as nat, b, c as nat);
    ThirdIs(b as nat, c);
  }

  lemma {:induction false} OneByte(a: byte)
    ensures DecodeLast(Group(Bits(a, 0, 0))[..2] + "==") == Some([a])
  {
    hide Value, Group, First, Digit0, Digit1, Digit2, Digit3;
    GroupValues(a, 0, 0);
    FirstIs(a, 0);
    NoSpareBits(a as nat, 0);
  }

  lemma {:induction false} TwoBytes(a: byte, b: byte)
    ensures DecodeLast(Group(Bits(a, b, 0))[..3] + "=") == Some([a, b])
  {
    hide Value, Group, First, Second, Digit0, Digit1, Digit2, Digit3;
    GroupValues(a, b, 0);
    FirstIs(a, b as nat);
    SecondIs(a as nat, b, 0);
    NoSpareBits(a as nat, b as nat);
  }

  lemma NoSpareBits(x: nat, y: nat)
    ensures Digit1(x, 0) % 16 == 0 && Digit2(y, 0) % 4 == 0
  {
  }

  /** Output length is four characters per started group of three bytes. */
  lemma {:induction false} EncodedLength(data: seq<byte>)
    ensures |Encoded(data)| == (|data| + 2) / 3 * 4
    decreases |data|
  {
    hide Group, Bits;
    if |data| >= 3 {
      EncodedLength(data[3..]);
    }
  }

  /** Every byte string decodes back to itself. */
  lemma {:induction false} RoundTrip(data: seq<byte>)
    ensures Decode(Encoded(data)) == Some(data)
    decreases |data|
  {
    hide Group, DecodeGroup, DecodeLast;
    if |data| == 1 {
      OneByte(data[0]);
      assert data == [data[0]];
    } else if |data| == 2 {
      TwoBytes(data[0], data[1]);
      assert data == [data[0], data[1]];
    } else if |data| >= 3 {
      var g, rest := Group(Bits(data[0], data[1], data[2])), Encoded(data[3..]);
      GroupBytes(data[0], data[1], data[2]);
      RoundTrip(data[3..]);
      EncodedLength(data[3..]);
      assert (g + rest)[..4] == g && (g + rest)[4..] == rest;
      assert Encoded(data) == g + rest;
      assert data == [data[0], data[1], data[2]] + data[3..];
      if |data| == 3 {
        assert data[3..] == [] && g + rest == g;
        assert data == [data[0], data[1], data[2]];
        assert Decode(g) == DecodeLast(g);
      } else {
        assert |rest| >= 4;
        assert Decode(g + rest) == Some([data[0], data[1], data[2]] + data[3..]);
      }
    }
  }

  /** Padding stands only in the last two places. */
  lemma {:induction false} PaddingAtEnd(data: seq<byte>, i: nat)
    requires i < |Encoded(data)| && Encoded(data)[i] == '='
    ensures |Encoded(data)| - i <= 2 && |data| % 3 != 0
    decreases |data|
  {
    hide Value, Group, Digit0, Digit1, Digit2, Digit3;
    if |data| == 1 {
      GroupValues(data[0], 0, 0);
    } else if |data| == 2 {
      GroupValues(data[0], data[1], 0);
    } else if |data| >= 3 {
      GroupValues(data[0], data[1], data[2]);
      assert i >= 4;
      PaddingAtEnd(data[3..], i - 4);
    }
  }
}
