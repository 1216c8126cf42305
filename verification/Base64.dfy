/** The Base64 codec of source/utils/base64.h.

    `EncodeSpec` and `DecodeBlocks` are the block specification of section 4 of RFC 4648, group by group;
    `DecodeBlocks` also asks for the zero pad bits of section 3.5.  `Encode` and `DecodeWithoutPadding` are
    the streaming algorithms, proved equal to them. */
module Base64 {
  import opened Wrappers
  import opened Bytes

  // ---------------------------------------------------------------- tables

  const INVALID: byte := 64

  // CHAR_TABLE, by its ranges: A-Z, a-z, 0-9, '+', '/'.
  function CharTable(i: int): (c: byte)
    requires 0 <= i < 64
  {
    if i < 26 then 0x41 + i
    else if i < 52 then 0x61 + (i - 26)
    else if i < 62 then 0x30 + (i - 52)
    else if i == 62 then 0x2B
    else 0x2F
  }

  // REVERSE_LOOKUP_TABLE, by its ranges; 64 marks a byte outside the alphabet.
  function ReverseLookup(c: byte): (i: byte)
    ensures i <= INVALID
  {
    if 0x41 <= c <= 0x5A then c - 0x41
    else if 0x61 <= c <= 0x7A then c - 0x61 + 26
    else if 0x30 <= c <= 0x39 then c - 0x30 + 52
    else if c == 0x2B then 62
    else if c == 0x2F then 63
    else INVALID
  }

  predicate InAlphabet(c: byte) {
    ReverseLookup(c) != INVALID
  }

  predicate AllInAlphabet(t: Bytes) {
    forall k :: 0 <= k < |t| ==> InAlphabet(t[k])
  }

  lemma TablesAreInverse(i: byte, c: byte)
    ensures i < 64 ==> ReverseLookup(CharTable(i)) == i
    ensures InAlphabet(c) ==> CharTable(ReverseLookup(c)) == c
    ensures !InAlphabet(0x3D) && !InAlphabet(0x2D)
  {
  }

  // The alphabet of RFC 4648, in rows of eight.
  const ALPHABET: seq<string> :=
    ["ABCDEFGH", "IJKLMNOP", "QRSTUVWX", "YZabcdef", "ghijklmn", "opqrstuv", "wxyz0123", "456789+/"]

  function Letter(i: nat): char
    requires i < 64
  {
    assert |ALPHABET[i / 8]| == 8;
    ALPHABET[i / 8][i % 8]
  }

  // The table is the alphabet, symbol by symbol.
  lemma {:induction false} TableIsAlphabet(i: nat)
    requires i < 64
    ensures CharTable(i) == Letter(i) as int
  {
    var row, k := i / 8, i % 8;
    assert i == 8 * row + k;
    match row {
      case 0 => assert ALPHABET[row] == "ABCDEFGH";
      case 1 => assert ALPHABET[row] == "IJKLMNOP";
      case 2 => assert ALPHABET[row] == "QRSTUVWX";
      case 3 => assert ALPHABET[row] == "YZabcdef";
      case 4 => assert ALPHABET[row] == "ghijklmn";
      case 5 => assert ALPHABET[row] == "opqrstuv";
      case 6 => assert ALPHABET[row] == "wxyz0123";
      case _ => assert ALPHABET[row] == "456789+/";
    }
  }

  // ---------------------------------------------------------------- groups

  // The four 6-bit groups of three bytes, from the left, and the three bytes of four 6-bit groups.
  function Sextet(a: byte, b: byte, c: byte, k: nat): (s: int)
    requires k < 4
    ensures 0 <= s < 64
  {
    if k == 0 then a / 4
    else if k == 1 then (a % 4) * 16 + b / 16
    else if k == 2 then (b % 16) * 4 + c / 64
    else c % 64
  }

  function Octet(p: byte, q: byte, r: byte, s: byte, k: nat): byte
    requires p < 64 && q < 64 && r < 64 && s < 64 && k < 3
  {
    if k == 0 then p * 4 + q / 16
    else if k == 1 then (q % 16) * 16 + r / 4
    else (r % 4) * 64 + s
  }

  // Both are digits of the same 24-bit number: in base 64 from the bytes, in base 256 from the sextets.
  lemma SextetsAreDigits(a: byte, b: byte, c: byte)
    ensures a * 0x1_0000 + b * 0x100 + c
         == Sextet(a, b, c, 0) * 0x4_0000 + Sextet(a, b, c, 1) * 0x1000 + Sextet(a, b, c, 2) * 0x40 + Sextet(a, b, c, 3)
  {
    assert b == b / 16 * 16 + b % 16 && c == c / 64 * 64 + c % 64 && a == a / 4 * 4 + a % 4;
  }

  lemma OctetsAreDigits(p: byte, q: byte, r: byte, s: byte)
    requires p < 64 && q < 64 && r < 64 && s < 64
    ensures p * 0x4_0000 + q * 0x1000 + r * 0x40 + s
         == Octet(p, q, r, s, 0) * 0x1_0000 + Octet(p, q, r, s, 1) * 0x100 + Octet(p, q, r, s, 2)
  {
    assert q == q / 16 * 16 + q % 16 && r == r / 4 * 4 + r % 4;
  }

  // The first n symbols of the group a b c.
  function Symbols(a: byte, b: byte, c: byte, n: nat): (t: Bytes)
    requires n <= 4
    ensures |t| == n
  {
    seq(n, k requires 0 <= k < n => CharTable(Sextet(a, b, c, k)))
  }

  // The number behind symbol k of t, and zero past its end.
  function Value(t: Bytes, k: nat): (i: byte)
    requires AllInAlphabet(t)
    ensures i < 64
  {
    if k < |t| then ReverseLookup(t[k]) else 0
  }

  // The first n bytes of the group of the first four symbols of t, zero-filled on the right.
  function Octets(t: Bytes, n: nat): (x: Bytes)
    requires n <= 3 && AllInAlphabet(t)
    ensures |x| == n
  {
    seq(n, k requires 0 <= k < n => Octet(Value(t, 0), Value(t, 1), Value(t, 2), Value(t, 3), k))
  }

  // ---------------------------------------------------------------- block specification

  function Pad(n: nat, padding: bool): Bytes {
    if !padding then [] else seq(n, _ => EQUALS)
  }

  function EncodeSpec(x: Bytes, padding: bool): Bytes {
    if |x| == 0 then []
    else if |x| == 1 then Symbols(x[0], 0, 0, 2) + Pad(2, padding)
    else if |x| == 2 then Symbols(x[0], x[1], 0, 3) + Pad(1, padding)
    else Symbols(x[0], x[1], x[2], 4) + EncodeSpec(x[3..], padding)
  }

  // Unpadded decoding: None where t is not a canonical encoding.
  function DecodeBlocks(t: Bytes): Option<Bytes> {
    if !AllInAlphabet(t) || |t| == 1 then None
    else if |t| == 0 then Some([])
    else if |t| == 2 then
      if Value(t, 1) % 16 == 0 then Some(Octets(t, 1)) else None
    else if |t| == 3 then
      if Value(t, 2) % 4 == 0 then Some(Octets(t, 2)) else None
    else
      match DecodeBlocks(t[4..])
      case None => None
      case Some(rest) => Some(Octets(t, 3) + rest)
  }

  // The input without its trailing '=' characters, at most two of them.
  function Strip(s: Bytes): (t: Bytes)
    ensures |t| <= |s| && t == s[..|t|]
  {
    if |s| > 0 && s[|s| - 1] == EQUALS then
      if |s| > 1 && s[|s| - 2] == EQUALS then s[..|s| - 2] else s[..|s| - 1]
    else s
  }

  // The source reports every failure as the empty string.
  function DecodeSpec(s: Bytes): Bytes {
    match DecodeBlocks(Strip(s))
    case None => []
    case Some(v) => v
  }

  // ---------------------------------------------------------------- the two directions

  lemma SymbolsInAlphabet(a: byte, b: byte, c: byte, n: nat)
    requires n <= 4
    ensures AllInAlphabet(Symbols(a, b, c, n))
    ensures forall k :: 0 <= k < n ==> ReverseLookup(Symbols(a, b, c, n)[k]) == Sextet(a, b, c, k)
  {
    forall k | 0 <= k < n
      ensures ReverseLookup(Symbols(a, b, c, n)[k]) == Sextet(a, b, c, k)
    {
      TablesAreInverse(Sextet(a, b, c, k), 0);
    }
  }

  lemma SextetRoundTrip(a: byte, b: byte, c: byte)
    ensures Octet(Sextet(a, b, c, 0), Sextet(a, b, c, 1), Sextet(a, b, c, 2), Sextet(a, b, c, 3), 0) == a
    ensures Octet(Sextet(a, b, c, 0), Sextet(a, b, c, 1), Sextet(a, b, c, 2), Sextet(a, b, c, 3), 1) == b
    ensures Octet(Sextet(a, b, c, 0), Sextet(a, b, c, 1), Sextet(a, b, c, 2), Sextet(a, b, c, 3), 2) == c
  {
    Division((a % 4) * 16 + b / 16, a % 4, 16, b / 16);
    Division((b % 16) * 4 + c / 64, b % 16, 4, c / 64);
  }

  lemma OctetRoundTrip(p: byte, q: byte, r: byte, s: byte)
    requires p < 64 && q < 64 && r < 64 && s < 64
    ensures Sextet(Octet(p, q, r, s, 0), Octet(p, q, r, s, 1), Octet(p, q, r, s, 2), 0) == p
    ensures Sextet(Octet(p, q, r, s, 0), Octet(p, q, r, s, 1), Octet(p, q, r, s, 2), 1) == q
    ensures Sextet(Octet(p, q, r, s, 0), Octet(p, q, r, s, 1), Octet(p, q, r, s, 2), 2) == r
    ensures Sextet(Octet(p, q, r, s, 0), Octet(p, q, r, s, 1), Octet(p, q, r, s, 2), 3) == s
  {
    Division(p * 4 + q / 16, p, 4, q / 16);
    Division((q % 16) * 16 + r / 4, q % 16, 16, r / 4);
    Division((r % 4) * 64 + s, r % 4, 64, s);
  }

  // Decoding the symbols of a group, whole or cut to n bytes, gives the bytes back.
  lemma {:induction false} OctetsOfSymbols(a: byte, b: byte, c: byte, n: nat, t: Bytes)
    requires 1 <= n <= 3 && AllInAlphabet(t) && |t| > n && Symbols(a, b, c, n + 1) == t[..n + 1]
    requires n < 3 ==> |t| == n + 1 && c == 0
    requires n < 2 ==> b == 0
    ensures Octets(t, n) == [a, b, c][..n]
    ensures Value(t, n) == Sextet(a, b, c, n)
  {
    hide Octet, ReverseLookup;
    SymbolsInAlphabet(a, b, c, n + 1);
    forall k | 0 <= k < 4
      ensures Value(t, k) == Sextet(a, b, c, k)
    {
      if k <= n { assert t[k] == Symbols(a, b, c, n + 1)[k]; }
    }
    SextetRoundTrip(a, b, c);
  }

  // Encoding the bytes of a group of symbols gives the symbols back, if the bits cut off are zero.
  lemma {:induction false} SymbolsOfOctets(t: Bytes, n: nat)
    requires 1 <= n <= 3 && AllInAlphabet(t) && |t| > n
    requires n == 1 ==> |t| == 2 && Value(t, 1) % 16 == 0
    requires n == 2 ==> |t| == 3 && Value(t, 2) % 4 == 0
    ensures var x := Octets(t, 3);
            Symbols(x[0], x[1], x[2], n + 1) == t[..n + 1]
            && (n < 3 ==> x[2] == 0) && (n < 2 ==> x[1] == 0)
  {
    hide Sextet, ReverseLookup, CharTable;
    OctetRoundTrip(Value(t, 0), Value(t, 1), Value(t, 2), Value(t, 3));
    forall k | 0 <= k <= n
      ensures CharTable(Value(t, k)) == t[k]
    {
      assert InAlphabet(t[k]);
      TablesAreInverse(0, t[k]);
    }
  }

  lemma {:induction false} EncodedInAlphabet(x: Bytes)
    ensures AllInAlphabet(EncodeSpec(x, false))
  {
    hide InAlphabet;
    if |x| == 1 {
      SymbolsInAlphabet(x[0], 0, 0, 2);
    } else if |x| == 2 {
      SymbolsInAlphabet(x[0], x[1], 0, 3);
    } else if |x| >= 3 {
      SymbolsInAlphabet(x[0], x[1], x[2], 4);
      EncodedInAlphabet(x[3..]);
    }
  }

  lemma {:induction false} DecodeAfterEncode(x: Bytes)
    ensures DecodeBlocks(EncodeSpec(x, false)) == Some(x)
  {
    hide Sextet, Octet, InAlphabet;
    var t := EncodeSpec(x, false);
    EncodedInAlphabet(x);
    if |x| == 1 {
      OctetsOfSymbols(x[0], 0, 0, 1, t);
      assert x == [x[0], 0, 0][..1];
      CutBitsAreZero(x[0], 0);
    } else if |x| == 2 {
      OctetsOfSymbols(x[0], x[1], 0, 2, t);
      assert x == [x[0], x[1], 0][..2];
      CutBitsAreZero(x[0], x[1]);
    } else if |x| >= 3 {
      OctetsOfSymbols(x[0], x[1], x[2], 3, t);
      assert t[4..] == EncodeSpec(x[3..], false);
      DecodeAfterEncode(x[3..]);
      assert [x[0], x[1], x[2]] == [x[0], x[1], x[2]][..3];
      assert x == [x[0], x[1], x[2]] + x[3..];
    }
  }

  lemma CutBitsAreZero(a: byte, b: byte)
    ensures Sextet(a, 0, 0, 1) % 16 == 0 && Sextet(a, b, 0, 2) % 4 == 0
  {
  }

  lemma {:induction false} EncodeAfterDecode(t: Bytes)
    requires DecodeBlocks(t).Some?
    ensures EncodeSpec(DecodeBlocks(t).value, false) == t
  {
    hide Sextet, Octet, InAlphabet;
    if |t| == 2 {
      SymbolsOfOctets(t, 1);
    } else if |t| == 3 {
      SymbolsOfOctets(t, 2);
    } else if |t| >= 4 {
      SymbolsOfOctets(t, 3);
      EncodeAfterDecode(t[4..]);
      var x := DecodeBlocks(t).value;
      assert x[3..] == DecodeBlocks(t[4..]).value;
      assert x[0] == Octets(t, 3)[0] && x[1] == Octets(t, 3)[1] && x[2] == Octets(t, 3)[2];
      assert t == t[..4] + t[4..];
    }
  }

  function PadCount(n: nat): nat {
    if n % 3 == 0 then 0 else 3 - n % 3
  }

  // A padded encoding is the unpadded one and its padding characters.
  lemma {:induction false} PaddedIsUnpaddedThenEquals(x: Bytes)
    ensures EncodeSpec(x, true) == EncodeSpec(x, false) + Pad(PadCount(|x|), true)
  {
    hide Symbols;
    if |x| >= 3 {
      PaddedIsUnpaddedThenEquals(x[3..]);
      assert PadCount(|x|) == PadCount(|x[3..]|);
    }
  }

  lemma {:induction false} PaddedLength(x: Bytes)
    ensures |EncodeSpec(x, true)| == (|x| + 2) / 3 * 4
  {
    hide Symbols;
    if |x| >= 3 {
      PaddedLength(x[3..]);
      assert (|x| + 2) / 3 == (|x[3..]| + 2) / 3 + 1;
    }
  }

  lemma {:induction false} StripOfEncoded(x: Bytes, padding: bool)
    ensures Strip(EncodeSpec(x, padding)) == EncodeSpec(x, false)
  {
    PaddedIsUnpaddedThenEquals(x);
    EncodedInAlphabet(x);
    TablesAreInverse(0, 0);
    var t := EncodeSpec(x, false);
    assert |t| > 0 ==> InAlphabet(t[|t| - 1]);
  }

  // ---------------------------------------------------------------- main results

  // The codec loses nothing: every byte string, padded or not.
  lemma {:induction false} RoundTrip(x: Bytes, padding: bool)
    ensures DecodeSpec(EncodeSpec(x, padding)) == x
  {
    StripOfEncoded(x, padding);
    DecodeAfterEncode(x);
  }

  // The decoder accepts exactly the canonical encodings, with none, one or two '=' at their end, and each of them
  // names one value.
  lemma {:induction false} CanonicalAcceptance(s: Bytes, v: Bytes)
    requires v != []
    ensures DecodeSpec(s) == v <==> Strip(s) == EncodeSpec(v, false)
    ensures DecodeSpec(s) == v <==>
              var t := EncodeSpec(v, false); s == t || s == t + [0x3D] || s == t + [0x3D, 0x3D]
  {
    if DecodeSpec(s) == v {
      EncodeAfterDecode(Strip(s));
    }
    DecodeAfterEncode(v);
    EncodedInAlphabet(v);
    StripExactly(s, EncodeSpec(v, false));
  }

  lemma {:induction false} StripExactly(s: Bytes, t: Bytes)
    requires t != [] && AllInAlphabet(t)
    ensures Strip(s) == t <==> s == t || s == t + [0x3D] || s == t + [0x3D, 0x3D]
  {
    assert InAlphabet(t[|t| - 1]);
    assert Strip(s) == t ==> s == t + s[|t|..];
  }

  // The kth byte, zero past the end; the 24-bit number of group g; and its jth digit in base 64, from the left.
  function ByteAt(x: Bytes, k: nat): byte {
    if k < |x| then x[k] else 0
  }

  function GroupNumber(x: Bytes, g: nat): (n: int)
    ensures 0 <= n < 0x100_0000
  {
    ByteAt(x, 3 * g) * 0x1_0000 + ByteAt(x, 3 * g + 1) * 0x100 + ByteAt(x, 3 * g + 2)
  }

  function Digit64(n: int, j: nat): (d: int)
    requires n >= 0 && j < 4
    ensures 0 <= d < 64
  {
    n / (if j == 0 then 0x4_0000 else if j == 1 then 0x1000 else if j == 2 then 0x40 else 1) % 64
  }

  lemma {:induction false} SextetIsDigit(a: byte, b: byte, c: byte, j: nat)
    requires j < 4
    ensures Sextet(a, b, c, j) == Digit64(a * 0x1_0000 + b * 0x100 + c, j)
  {
    hide Sextet;
    SextetsAreDigits(a, b, c);
    DigitsOf(Sextet(a, b, c, 0), Sextet(a, b, c, 1), Sextet(a, b, c, 2), Sextet(a, b, c, 3), j);
  }

  lemma {:induction false} DigitsOf(p: int, q: int, r: int, s: int, j: nat)
    requires 0 <= p < 64 && 0 <= q < 64 && 0 <= r < 64 && 0 <= s < 64 && j < 4
    ensures Digit64(p * 0x4_0000 + q * 0x1000 + r * 0x40 + s, j)
         == if j == 0 then p else if j == 1 then q else if j == 2 then r else s
  {
    var n := p * 0x4_0000 + q * 0x1000 + r * 0x40 + s;
    if j == 0 {
      Division(n, p, 0x4_0000, q * 0x1000 + r * 0x40 + s);
    } else if j == 1 {
      Division(n, p * 64 + q, 0x1000, r * 0x40 + s);
      Division(p * 64 + q, p, 64, q);
    } else if j == 2 {
      var h := p * 0x1000 + q * 0x40 + r;
      Division(n, h, 0x40, s);
      Division(h, p * 64 + q, 64, r);
    } else {
      Division(n, p * 0x1000 + q * 0x40 + r, 0x40, s);
    }
  }

  // Every symbol of an encoding, by its place: the alphabet's symbol for that digit of that group.
  lemma {:induction false} EncodedDigits(x: Bytes, g: nat, j: nat)
    requires j < 4 && 4 * g + j < |EncodeSpec(x, false)|
    ensures EncodeSpec(x, false)[4 * g + j] == Letter(Digit64(GroupNumber(x, g), j)) as int
  {
    hide Sextet, Digit64, CharTable, Letter;
    if g == 0 {
      var a, b, c := ByteAt(x, 0), ByteAt(x, 1), ByteAt(x, 2);
      assert EncodeSpec(x, false)[j] == CharTable(Sextet(a, b, c, j));
      SextetIsDigit(a, b, c, j);
      TableIsAlphabet(Sextet(a, b, c, j));
    } else {
      EncodedDigits(x[3..], g - 1, j);
    }
  }

  // How many symbols there are, and the padding behind them.
  lemma {:induction false} EncodedPadding(x: Bytes)
    ensures |EncodeSpec(x, false)| == (4 * |x| + 2) / 3
    ensures EncodeSpec(x, true) == EncodeSpec(x, false) +
              (if |x| % 3 == 1 then [0x3D, 0x3D] else if |x| % 3 == 2 then [0x3D] else [])
  {
    hide Symbols;
    PaddedIsUnpaddedThenEquals(x);
    if |x| >= 3 {
      EncodedPadding(x[3..]);
    }
  }

  // The test vectors of section 10 of RFC 4648, and one that is decoded.
  lemma {:induction false} TestVectors()
    ensures EncodeSpec([], true) == []
    ensures EncodeSpec([0x66], true) == [0x5A, 0x67, 0x3D, 0x3D]
    ensures EncodeSpec([0x66, 0x6F], true) == [0x5A, 0x6D, 0x38, 0x3D]
    ensures EncodeSpec([0x66, 0x6F, 0x6F], true) == [0x5A, 0x6D, 0x39, 0x76]
    ensures EncodeSpec([0x66, 0x6F, 0x6F, 0x62], true) == [0x5A, 0x6D, 0x39, 0x76, 0x59, 0x67, 0x3D, 0x3D]
    ensures EncodeSpec([0x66, 0x6F, 0x6F, 0x62, 0x61], true) == [0x5A, 0x6D, 0x39, 0x76, 0x59, 0x6D, 0x45, 0x3D]
    ensures EncodeSpec([0x66, 0x6F, 0x6F, 0x62, 0x61, 0x72], true)
         == [0x5A, 0x6D, 0x39, 0x76, 0x59, 0x6D, 0x46, 0x79]
    ensures DecodeSpec([0x59, 0x51, 0x3D, 0x3D]) == [0x61]
  {
    var foo := ShortVectors();
    hide Symbols, DecodeSpec;
    RoundTrip([0x61], true);
    assert ([0x66, 0x6F, 0x6F] + [0x62])[3..] == [0x62];
    assert ([0x66, 0x6F, 0x6F] + [0x62, 0x61])[3..] == [0x62, 0x61];
    assert ([0x66, 0x6F, 0x6F] + [0x62, 0x61, 0x72])[3..] == [0x62, 0x61, 0x72];
  }

  // One group each.
  lemma ShortVectors() returns (foo: Bytes)
    ensures foo == Symbols(0x66, 0x6F, 0x6F, 4) == [0x5A, 0x6D, 0x39, 0x76]
    ensures EncodeSpec([], true) == []
    ensures EncodeSpec([0x61], true) == [0x59, 0x51, 0x3D, 0x3D]
    ensures EncodeSpec([0x66], true) == [0x5A, 0x67, 0x3D, 0x3D]
    ensures EncodeSpec([0x66, 0x6F], true) == [0x5A, 0x6D, 0x38, 0x3D]
    ensures EncodeSpec([0x66, 0x6F, 0x6F], true) == [0x5A, 0x6D, 0x39, 0x76]
    ensures EncodeSpec([0x62], true) == [0x59, 0x67, 0x3D, 0x3D]
    ensures EncodeSpec([0x62, 0x61], true) == [0x59, 0x6D, 0x45, 0x3D]
    ensures EncodeSpec([0x62, 0x61, 0x72], true) == [0x59, 0x6D, 0x46, 0x79]
  {
    foo := [0x5A, 0x6D, 0x39, 0x76];
    assert [0x66, 0x6F, 0x6F][3..] == [] && [0x62, 0x61, 0x72][3..] == [];
  }

  // What an encoding consists of: alphabet symbols, then at most two '='.
  lemma {:induction false} EncodedShape(x: Bytes, padding: bool)
    ensures var t := EncodeSpec(x, false);
            AllInAlphabet(t)
            && t <= EncodeSpec(x, padding)
            && |EncodeSpec(x, padding)| - |t| <= 2
            && (forall k :: |t| <= k < |EncodeSpec(x, padding)| ==> EncodeSpec(x, padding)[k] == 0x3D)
    ensures 0x2D !in EncodeSpec(x, padding)
    ensures padding ==> |EncodeSpec(x, padding)| == (|x| + 2) / 3 * 4
  {
    PaddedLength(x);
    PaddedIsUnpaddedThenEquals(x);
    EncodedInAlphabet(x);
    TablesAreInverse(0, 0);
    var t := EncodeSpec(x, false);
    forall k | 0 <= k < |t|
      ensures t[k] != DASH
    {
      assert InAlphabet(t[k]);
    }
  }

  // ---------------------------------------------------------------- streaming encoder

  // What the encoder has written, and the bits it carries, after consuming x.
  function Emitted(x: Bytes): Bytes {
    if |x| == 0 then []
    else if |x| == 1 then Symbols(x[0], 0, 0, 1)
    else if |x| == 2 then Symbols(x[0], x[1], 0, 2)
    else Symbols(x[0], x[1], x[2], 4) + Emitted(x[3..])
  }

  function Carry(x: Bytes): (c: int)
    ensures 0 <= c < 64
  {
    if |x| == 0 then 0
    else if |x| == 1 then Sextet(x[0], 0, 0, 1)
    else if |x| == 2 then Sextet(x[0], x[1], 0, 2)
    else Carry(x[3..])
  }

  // How the carried bits and the next byte make up a symbol.
  lemma CarriedSymbols(a: byte, b: byte, c: byte)
    ensures Sextet(a, b, c, 0) == a / 4 && Sextet(a, 0, 0, 1) == (a % 4) * 16
    ensures Sextet(a, b, c, 1) == Or(Sextet(a, 0, 0, 1), b / 16) && Sextet(a, b, 0, 2) == (b % 16) * 4
    ensures Sextet(a, b, c, 2) == Or(Sextet(a, b, 0, 2), c / 64) && Sextet(a, b, c, 3) == c % 64
  {
    hide Or;
    OrSplits((a % 4) * 16, b / 16);
    OrSplits((b % 16) * 4, c / 64);
  }

  lemma {:induction false} CarryRange(x: Bytes, c: byte)
    ensures |x| % 3 == 1 ==> Or(Carry(x), c / 16) < 64
    ensures |x| % 3 == 2 ==> Or(Carry(x), c / 64) < 64
  {
    hide Sextet, Or;
    if |x| == 1 {
      CarriedSymbols(x[0], c, 0);
    } else if |x| == 2 {
      CarriedSymbols(x[0], x[1], c);
    } else if |x| >= 3 {
      CarryRange(x[3..], c);
    }
  }

  // The symbols that `encodeBase` appends for c after the prefix x, and the bits it then carries.
  function Appended(x: Bytes, c: byte): Bytes {
    CarryRange(x, c);
    if |x| % 3 == 0 then [CharTable(c / 4)]
    else if |x| % 3 == 1 then [CharTable(Or(Carry(x), c / 16))]
    else [CharTable(Or(Carry(x), c / 64)), CharTable(c % 64)]
  }

  function CarryAfter(n: nat, c: byte): int {
    if n % 3 == 0 then (c % 4) * 16 else if n % 3 == 1 then (c % 16) * 4 else 0
  }

  lemma SymbolsListed(a: byte, b: byte, c: byte)
    ensures Symbols(a, b, c, 1) == [CharTable(Sextet(a, b, c, 0))]
    ensures Symbols(a, b, c, 2) == [CharTable(Sextet(a, b, c, 0)), CharTable(Sextet(a, b, c, 1))]
    ensures Symbols(a, b, c, 4) == [CharTable(Sextet(a, b, c, 0)), CharTable(Sextet(a, b, c, 1)),
                                    CharTable(Sextet(a, b, c, 2)), CharTable(Sextet(a, b, c, 3))]
  {
    hide CharTable, Sextet;
  }

  lemma FirstByte(c: byte)
    ensures Emitted([c]) == Appended([], c)
    ensures Carry([c]) == CarryAfter(0, c)
  {
    hide CharTable, Symbols, Sextet;
    SymbolsListed(c, 0, 0);
    CarriedSymbols(c, 0, 0);
  }

  lemma SecondByte(a: byte, c: byte)
    ensures Emitted([a, c]) == Emitted([a]) + Appended([a], c)
    ensures Carry([a, c]) == CarryAfter(1, c)
  {
    hide CharTable, Or, Symbols, Sextet;
    SymbolsListed(a, 0, 0);
    SymbolsListed(a, c, 0);
    CarriedSymbols(a, 0, 0);
    CarriedSymbols(a, c, 0);
  }

  lemma ThirdByte(a: byte, b: byte, c: byte)
    ensures Emitted([a, b, c]) == Emitted([a, b]) + Appended([a, b], c)
    ensures Carry([a, b, c]) == CarryAfter(2, c)
  {
    hide CharTable, Or, Symbols, Sextet;
    SymbolsListed(a, b, 0);
    SymbolsListed(a, b, c);
    CarriedSymbols(a, b, 0);
    CarriedSymbols(a, b, c);
    assert [a, b, c][3..] == [];
  }

  lemma {:induction false} EmittedSnocShort(x: Bytes, c: byte)
    requires |x| < 3
    ensures Emitted(x + [c]) == Emitted(x) + Appended(x, c)
    ensures Carry(x + [c]) == CarryAfter(|x|, c)
  {
    hide Emitted, Appended, Carry, CarryAfter;
    var y := x + [c];
    if |x| == 0 {
      FirstByte(c);
      assert x == [] && y == [c] && Emitted([]) == [] by { NothingEmitted(); }
    } else if |x| == 1 {
      SecondByte(x[0], c);
      assert x == [x[0]] && y == [x[0], c];
    } else {
      ThirdByte(x[0], x[1], c);
      assert x == [x[0], x[1]] && y == [x[0], x[1], c];
    }
  }

  lemma NothingEmitted()
    ensures Emitted([]) == [] && Carry([]) == 0
  {
  }

  // One more byte: what the three cases of `encodeBase` add to the prefix state.
  lemma {:induction false} EmittedSnoc(x: Bytes, c: byte)
    ensures Emitted(x + [c]) == Emitted(x) + Appended(x, c)
    ensures Carry(x + [c]) == CarryAfter(|x|, c)
  {
    hide CharTable, Or, Symbols, Sextet;
    if |x| < 3 {
      EmittedSnocShort(x, c);
    } else {
      var y := x + [c];
      EmittedSnoc(x[3..], c);
      assert y[3..] == x[3..] + [c];
      assert |x| % 3 == |x[3..]| % 3;
    }
  }

  // Closing the prefix state with `encodeLast` gives the block specification.
  lemma {:induction false} EmittedThenCarry(x: Bytes, padding: bool)
    ensures EncodeSpec(x, padding) == Emitted(x) +
              (if |x| % 3 == 0 then [] else [CharTable(Carry(x))] + Pad(3 - |x| % 3, padding))
  {
    hide CharTable;
    if |x| >= 3 {
      EmittedThenCarry(x[3..], padding);
    }
  }

  method EncodeBase(curChar: byte, pos: nat, nextC: byte, ret: Bytes, ghost x: Bytes)
      returns (nextC': byte, ret': Bytes)
    requires |x| == pos && ret == Emitted(x) && nextC == Carry(x)
    ensures ret' == Emitted(x + [curChar]) && nextC' == Carry(x + [curChar])
  {
    CarryRange(x, curChar);
    EmittedSnoc(x, curChar);
    match pos % 3 {
      case 0 =>
        ret' := ret + [CharTable(curChar / 4)];
        nextC' := (curChar % 4) * 16;
      case 1 =>
        ret' := ret + [CharTable(Or(nextC, curChar / 16))];
        nextC' := (curChar % 16) * 4;
      case _ =>
        ret' := ret + [CharTable(Or(nextC, curChar / 64))];
        ret' := ret' + [CharTable(curChar % 64)];
        nextC' := 0;
    }
  }

  method EncodeLast(pos: nat, lastChar: byte, ret: Bytes, addPadding: bool, ghost x: Bytes)
      returns (ret': Bytes)
    requires |x| == pos && ret == Emitted(x) && lastChar == Carry(x)
    ensures ret' == EncodeSpec(x, addPadding)
  {
    EmittedThenCarry(x, addPadding);
    ret' := ret;
    match pos % 3 {
      case 1 =>
        ret' := ret' + [CharTable(lastChar)];
        if addPadding {
          ret' := ret' + [EQUALS];
          ret' := ret' + [EQUALS];
        }
      case 2 =>
        ret' := ret' + [CharTable(lastChar)];
        if addPadding {
          ret' := ret' + [EQUALS];
        }
      case _ =>
    }
  }

  method Encode(input: Bytes, addPadding: bool) returns (ret: Bytes)
    ensures ret == EncodeSpec(input, addPadding)
  {
    ret := [];
    var pos := 0;
    var nextC: byte := 0;
    for i := 0 to |input|
      invariant pos == i
      invariant ret == Emitted(input[..i]) && nextC == Carry(input[..i])
    {
      nextC, ret := EncodeBase(input[i], pos, nextC, ret, input[..i]);
      pos := pos + 1;
      assert input[..i] + [input[i]] == input[..i + 1];
    }
    assert input[..|input|] == input;
    ret := EncodeLast(pos, nextC, ret, addPadding, input);
  }

  // ---------------------------------------------------------------- streaming decoder

  // What the decoder has written after consuming t: a symbol opens a byte with its low bits, and the
  // next one completes it.
  function Opened(t: Bytes): Bytes
    requires AllInAlphabet(t)
  {
    if |t| < 4 then Octets(t, |t|) else Octets(t, 3) + Opened(t[4..])
  }

  // The bytes after `decodeBase` consumes a symbol of value i at position n.
  function Consumed(b: Bytes, n: nat, i: byte): Bytes
    requires i < 64 && (n % 4 == 0 || |b| > 0)
  {
    if n % 4 == 0 then b + [i * 4]
    else if n % 4 == 1 then OrBack(b, i / 16) + [(i % 16) * 16]
    else if n % 4 == 2 then OrBack(b, i / 4) + [(i % 4) * 64]
    else OrBack(b, i)
  }

  // The bytes after `decodeLast` consumes a symbol of value i at position n, None where it refuses.
  function Closed(b: Bytes, n: nat, i: byte): Option<Bytes>
    requires i < 64 && (n % 4 == 0 || |b| > 0)
  {
    if n % 4 == 1 && i % 16 == 0 then Some(OrBack(b, i / 16))
    else if n % 4 == 2 && i % 4 == 0 then Some(OrBack(b, i / 4))
    else if n % 4 == 3 then Some(OrBack(b, i))
    else None
  }

  // A byte that the first of its symbols opened, and the second completes.
  lemma OpenedBits(p: byte, q: byte, r: byte, s: byte)
    requires p < 64 && q < 64 && r < 64 && s < 64
    ensures Octet(p, 0, 0, 0, 0) == p * 4
    ensures Octet(p, q, 0, 0, 1) == (q % 16) * 16
    ensures Octet(p, q, r, 0, 2) == (r % 4) * 64
    ensures Or(Octet(p, 0, 0, 0, 0), q / 16) == Octet(p, q, r, s, 0)
    ensures Or(Octet(p, q, 0, 0, 1), r / 4) == Octet(p, q, r, s, 1)
    ensures Or(Octet(p, q, r, 0, 2), s) == Octet(p, q, r, s, 2)
  {
    hide Or;
    OrSplits(p * 4, q / 16);
    OrSplits((q % 16) * 16, r / 4);
    OrSplits((r % 4) * 64, s);
  }

  // The steps of the decoder on the bytes of one group.
  lemma FirstOctets(p: byte, q: byte)
    requires p < 64 && q < 64
    ensures Consumed([], 0, p) == [Octet(p, 0, 0, 0, 0)]
    ensures Consumed([Octet(p, 0, 0, 0, 0)], 1, q) == [Octet(p, q, 0, 0, 0), Octet(p, q, 0, 0, 1)]
  {
    hide Or, Octet;
    OpenedBits(p, q, 0, 0);
  }

  lemma ThirdOctet(p: byte, q: byte, r: byte)
    requires p < 64 && q < 64 && r < 64
    ensures Consumed([Octet(p, q, 0, 0, 0), Octet(p, q, 0, 0, 1)], 2, r)
         == [Octet(p, q, r, 0, 0), Octet(p, q, r, 0, 1), Octet(p, q, r, 0, 2)]
  {
    hide Or, Octet;
    OpenedBits(p, q, 0, 0);
    OpenedBits(p, q, r, 0);
  }

  lemma FourthSymbol(p: byte, q: byte, r: byte, s: byte)
    requires p < 64 && q < 64 && r < 64 && s < 64
    ensures Consumed([Octet(p, q, r, 0, 0), Octet(p, q, r, 0, 1), Octet(p, q, r, 0, 2)], 3, s)
         == [Octet(p, q, r, s, 0), Octet(p, q, r, s, 1), Octet(p, q, r, s, 2)]
  {
    hide Or, Octet;
    OpenedBits(p, q, r, 0);
    OpenedBits(p, q, r, s);
  }

  lemma OctetsListed(t: Bytes)
    requires AllInAlphabet(t)
    ensures var p, q, r, s := Value(t, 0), Value(t, 1), Value(t, 2), Value(t, 3);
            && Octets(t, 0) == []
            && Octets(t, 1) == [Octet(p, q, r, s, 0)]
            && Octets(t, 2) == [Octet(p, q, r, s, 0), Octet(p, q, r, s, 1)]
            && Octets(t, 3) == [Octet(p, q, r, s, 0), Octet(p, q, r, s, 1), Octet(p, q, r, s, 2)]
  {
    hide Octet, ReverseLookup;
  }

  lemma {:induction false} OpenedSnocShort(t: Bytes, c: byte)
    requires |t| < 4 && AllInAlphabet(t) && InAlphabet(c)
    ensures Opened(t + [c]) == Consumed(Opened(t), |t|, ReverseLookup(c))
  {
    hide ReverseLookup, Octet, Octets, Consumed;
    var y := t + [c];
    OctetsListed(t);
    OctetsListed(y);
    FirstOctets(Value(y, 0), Value(y, 1));
    ThirdOctet(Value(y, 0), Value(y, 1), Value(y, 2));
    FourthSymbol(Value(y, 0), Value(y, 1), Value(y, 2), Value(y, 3));
    assert |t| == 3 ==> y[4..] == [];
    assert forall k :: 0 <= k < |t| ==> Value(t, k) == Value(y, k);
  }

  // `decodeLast` leaves what `decodeBase` would, without opening a new byte.
  lemma ClosedIsConsumed(b: Bytes, n: nat, i: byte)
    requires i < 64 && (n % 4 == 0 || |b| > 0)
    ensures Closed(b, n, i).None? <==> n % 4 == 0 || (n % 4 == 1 && i % 16 != 0) || (n % 4 == 2 && i % 4 != 0)
    ensures Closed(b, n, i).Some? ==>
              |Consumed(b, n, i)| >= |b| && Closed(b, n, i).value == Consumed(b, n, i)[..|b|]
  {
    hide Or;
  }

  lemma LastGroup(y: Bytes)
    requires 1 <= |y| <= 4 && AllInAlphabet(y)
    ensures DecodeBlocks(y) ==
              if |y| == 1 || (|y| == 2 && Value(y, 1) % 16 != 0) || (|y| == 3 && Value(y, 2) % 4 != 0) then None
              else Some(Octets(y, |y| - 1))
  {
    hide Value, Octets;
    if |y| == 4 {
      assert y[4..] == [] && DecodeBlocks([]) == Some([]);
      assert Octets(y, 3) + [] == Octets(y, 3);
    }
  }

  lemma {:induction false} ClosedSnocShort(t: Bytes, c: byte)
    requires |t| < 4 && AllInAlphabet(t) && InAlphabet(c)
    ensures DecodeBlocks(t + [c]) == Closed(Opened(t), |t|, ReverseLookup(c))
  {
    hide ReverseLookup, Octet, Octets, Closed, Consumed, DecodeBlocks;
    var y := t + [c];
    var i := ReverseLookup(c);
    LastGroup(y);
    OpenedSnocShort(t, c);
    OctetsListed(y);
    ClosedIsConsumed(Opened(t), |t|, i);
    assert |t| == 3 ==> y[4..] == [] && Opened(y[4..]) == [];
    assert Value(y, |t|) == i;
    assert |Opened(t)| == |t| && Opened(y)[..|t|] == Octets(y, |t|);
  }

  lemma ConsumedAfter(head: Bytes, b: Bytes, n: nat, i: byte)
    requires i < 64 && (n % 4 == 0 || |b| > 0)
    ensures Consumed(head + b, n, i) == head + Consumed(b, n, i)
    ensures Closed(head + b, n, i).Some? <==> Closed(b, n, i).Some?
    ensures Closed(b, n, i).Some? ==> Closed(head + b, n, i).value == head + Closed(b, n, i).value
  {
    hide Or;
  }

  // One more symbol, or the last one: what the cases of `decodeBase` and `decodeLast` do.
  lemma {:induction false} OpenedSnoc(t: Bytes, c: byte)
    requires AllInAlphabet(t) && InAlphabet(c)
    ensures |t| % 4 != 0 ==> |Opened(t)| > 0
    ensures Opened(t + [c]) == Consumed(Opened(t), |t|, ReverseLookup(c))
    ensures DecodeBlocks(t + [c]) == Closed(Opened(t), |t|, ReverseLookup(c))
  {
    hide ReverseLookup, Octets, Consumed, Closed;
    if |t| < 4 {
      OpenedSnocShort(t, c);
      ClosedSnocShort(t, c);
    } else {
      var y := t + [c];
      OpenedSnoc(t[4..], c);
      assert y[4..] == t[4..] + [c];
      OctetsFromFirstFour(t, y);
      PositionModFour(Opened(t[4..]), |t|, ReverseLookup(c));
      ConsumedAfter(Octets(t, 3), Opened(t[4..]), |t|, ReverseLookup(c));
    }
  }

  lemma OctetsFromFirstFour(t: Bytes, y: Bytes)
    requires AllInAlphabet(t) && AllInAlphabet(y) && |t| >= 4 && |y| >= 4 && t[..4] == y[..4]
    ensures Octets(t, 3) == Octets(y, 3)
  {
    hide ReverseLookup, Octet;
    assert forall k :: 0 <= k < 4 ==> t[k] == t[..4][k] && y[k] == y[..4][k];
  }

  lemma PositionModFour(b: Bytes, n: nat, i: byte)
    requires i < 64 && n >= 4 && (n % 4 == 0 || |b| > 0)
    ensures Consumed(b, n, i) == Consumed(b, n - 4, i) && Closed(b, n, i) == Closed(b, n - 4, i)
  {
    hide Or, OrBack;
  }

  // The number of bytes a canonical encoding of n symbols stands for: `max_length`.
  lemma {:induction false} DecodedLength(t: Bytes)
    requires DecodeBlocks(t).Some?
    ensures |DecodeBlocks(t).value| == MaxLength(|t|)
  {
    hide InAlphabet;
    hide Octets;
    if |t| >= 4 {
      DecodedLength(t[4..]);
      MaxLengthStep(|t|);
    }
  }

  lemma MaxLengthStep(n: nat)
    requires n >= 4
    ensures MaxLength(n) == MaxLength(n - 4) + 3
  {
    assert (n + 3) / 4 == (n - 1) / 4 + 1 && n % 4 == (n - 4) % 4;
  }

  function MaxLength(n: nat): int {
    (n + 3) / 4 * 3 - (if n % 4 == 3 then 1 else 0) - (if n % 4 == 2 then 2 else 0)
  }

  method DecodeBase(curChar: byte, pos: nat, ret: Bytes, ghost t: Bytes) returns (ok: bool, ret': Bytes)
    requires AllInAlphabet(t) && |t| == pos && ret == Opened(t)
    ensures ok == InAlphabet(curChar)
    ensures ok ==> AllInAlphabet(t + [curChar]) && ret' == Opened(t + [curChar])
  {
    var c := ReverseLookup(curChar);
    ret' := ret;
    if c == INVALID {
      return false, ret';
    }
    OpenedSnoc(t, curChar);
    match pos % 4 {
      case 0 =>
        ret' := ret' + [c * 4];
      case 1 =>
        ret' := OrBack(ret', c / 16);
        ret' := ret' + [(c % 16) * 16];
      case 2 =>
        ret' := OrBack(ret', c / 4);
        ret' := ret' + [(c % 4) * 64];
      case _ =>
        ret' := OrBack(ret', c);
    }
    return true, ret';
  }

  method DecodeLast(curChar: byte, pos: nat, ret: Bytes, ghost t: Bytes) returns (ok: bool, ret': Bytes)
    requires AllInAlphabet(t) && |t| == pos && ret == Opened(t)
    ensures ok == DecodeBlocks(t + [curChar]).Some?
    ensures ok ==> ret' == DecodeBlocks(t + [curChar]).value
  {
    var c := ReverseLookup(curChar);
    ret' := ret;
    if c == INVALID {
      assert !InAlphabet((t + [curChar])[|t|]);
      return false, ret';
    }
    OpenedSnoc(t, curChar);
    match pos % 4 {
      case 0 =>
        return false, ret';
      case 1 =>
        ret' := OrBack(ret', c / 16);
        return c % 16 == 0, ret';
      case 2 =>
        ret' := OrBack(ret', c / 4);
        return c % 4 == 0, ret';
      case _ =>
        ret' := OrBack(ret', c);
    }
    return true, ret';
  }

  lemma NotCanonical(t: Bytes)
    ensures |t| == 0 ==> DecodeBlocks(t) == Some([]) && Opened(t) == []
    ensures !AllInAlphabet(t) ==> DecodeBlocks(t) == None
  {
  }

  // `last` is computed in 64 bits: for the inputs "=" and "==" it wraps, and the loop refuses the '='
  // at index 0 before it can run past the input.
  method DecodeWithoutPadding(input: Bytes) returns (ret: Bytes)
    requires |input| < 0x1_0000_0000_0000_0000
    ensures ret == DecodeSpec(input)
  {
    hide ReverseLookup, Opened, DecodeBlocks, MaxLength;
    if |input| == 0 {
      NotCanonical(input);
      return [];
    }
    var n := |input|;
    if input[n - 1] == EQUALS {
      n := n - 1;
      if n > 0 && input[n - 1] == EQUALS {
        n := n - 1;
      }
    }
    ghost var t := Strip(input);
    assert t == input[..n];
    var last := (n - 1) % TWO_64;
    assert last == if n == 0 then TWO_64 - 1 else n - 1;
    var maxLength := (n + 3) / 4 * 3;
    if n % 4 == 3 {
      maxLength := maxLength - 1;
    }
    if n % 4 == 2 {
      maxLength := maxLength - 2;
    }
    MaxLengthCases(n, maxLength);
    ret := [];
    var i := 0;
    NotCanonical(input[..0]);
    TablesAreInverse(0, 0);
    while i < last
      invariant 0 <= i <= last
      invariant n == 0 ==> i == 0
      invariant AllInAlphabet(input[..i]) && ret == Opened(input[..i])
      decreases last - i
    {
      var ok;
      ok, ret := DecodeBase(input[i], i, ret, input[..i]);
      if !ok {
        NotCanonical(t);
        assert n > 0 ==> !InAlphabet(t[i]);
        return [];
      }
      assert input[..i] + [input[i]] == input[..i + 1];
      i := i + 1;
    }
    assert input[..last] + [input[last]] == t;
    var ok;
    ok, ret := DecodeLast(input[last], last, ret, input[..last]);
    if !ok {
      return [];
    }
    DecodedLength(t);
    assert |ret| == maxLength;
  }

  lemma MaxLengthCases(n: nat, m: int)
    requires m == (n + 3) / 4 * 3 - if n % 4 == 3 then 1 else if n % 4 == 2 then 2 else 0
    ensures m == MaxLength(n)
  {
  }
}
