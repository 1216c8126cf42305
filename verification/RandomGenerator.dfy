/** The buffered UUID generator of source/utils/random_generator.cc. */
module RandomGenerator {
  import opened Wrappers
  import opened Bytes

  const BUFFER_SIZE: nat := 2048
  const DRAW: nat := 16
  const UUID_LENGTH: nat := 36

  // ---------------------------------------------------------------- the text of a UUID

  function HexDigit(n: int): (c: byte)
    requires 0 <= n < 16
  {
    if n < 10 then ZERO + n else 0x61 + (n - 10)
  }

  function HexValue(c: byte): (v: Option<int>)
    ensures v.Some? ==> 0 <= v.value < 16
  {
    if ZERO <= c < ZERO + 10 then Some(c - ZERO)
    else if 0x61 <= c <= 0x66 then Some(c - 0x61 + 10)
    else None
  }

  // The two digits of each byte, in order.
  function HexEncode(x: Bytes): (h: Bytes)
    ensures |h| == 2 * |x|
  {
    if |x| == 0 then []
    else HexEncode(x[..|x| - 1]) + [HexDigit(x[|x| - 1] / 16), HexDigit(x[|x| - 1] % 16)]
  }

  function HexDecode(h: Bytes): Option<Bytes> {
    if |h| == 0 then Some([])
    else if |h| == 1 then None
    else
      match (HexDecode(h[..|h| - 2]), HexValue(h[|h| - 2]), HexValue(h[|h| - 1]))
      case (Some(x), Some(a), Some(b)) => Some(x + [a * 16 + b])
      case _ => None
  }

  function WithoutDashes(s: Bytes): Bytes {
    if |s| == 0 then []
    else WithoutDashes(s[..|s| - 1]) + (if s[|s| - 1] == DASH then [] else [s[|s| - 1]])
  }

  // The bits of section 4.4 of RFC 4122: version 4, and the variant.
  function Stamp(x: Bytes): (y: Bytes)
    requires |x| == DRAW
    ensures |y| == DRAW
  {
    x[6 := x[6] % 16 + 0x40][8 := x[8] % 64 + 0x80]
  }

  // Groups of 8, 4, 4, 4 and 12 digits.
  function Format(x: Bytes): (s: Bytes)
    requires |x| == DRAW
    ensures |s| == UUID_LENGTH
  {
    HexEncode(x[..4]) + [DASH] + HexEncode(x[4..6]) + [DASH] + HexEncode(x[6..8]) + [DASH]
    + HexEncode(x[8..10]) + [DASH] + HexEncode(x[10..])
  }

  // The digits, and what they stand for.
  lemma {:induction false} HexDigitsListed(n: nat)
    requires n < 16
    ensures HexDigit(n) == "0123456789abcdef"[n] as int
  {
    var low, high := "01234567", "89abcdef";
    assert "0123456789abcdef" == low + high;
  }

  lemma HexDigitRoundTrip(n: int)
    requires 0 <= n < 16
    ensures HexValue(HexDigit(n)) == Some(n)
  {
  }

  lemma HexDecodeTwoMore(h: Bytes, x: Bytes, a: int, b: int)
    requires HexDecode(h) == Some(x) && 0 <= a < 16 && 0 <= b < 16
    ensures HexDecode(h + [HexDigit(a), HexDigit(b)]) == Some(x + [a * 16 + b])
  {
    hide HexDigit, HexValue;
    HexDigitRoundTrip(a);
    HexDigitRoundTrip(b);
    var g := h + [HexDigit(a), HexDigit(b)];
    assert g[..|g| - 2] == h;
  }

  lemma {:induction false} HexRoundTrip(x: Bytes)
    ensures HexDecode(HexEncode(x)) == Some(x)
  {
    hide HexDigit, HexDecode;
    if |x| > 0 {
      var c := x[|x| - 1];
      HexRoundTrip(x[..|x| - 1]);
      HexDecodeTwoMore(HexEncode(x[..|x| - 1]), x[..|x| - 1], c / 16, c % 16);
      assert x == x[..|x| - 1] + [c];
    } else {
      NothingToDecode();
    }
  }

  lemma NothingToDecode()
    ensures HexDecode([]) == Some([])
  {
  }

  lemma {:induction false} NoDashInHex(x: Bytes)
    ensures WithoutDashes(HexEncode(x)) == HexEncode(x)
  {
    if |x| > 0 {
      var h := HexEncode(x[..|x| - 1]);
      NoDashInHex(x[..|x| - 1]);
      assert HexEncode(x)[..|h| + 1] == h + [HexEncode(x)[|h|]];
      assert HexEncode(x)[..|h| + 1][..|h|] == h;
    }
  }

  lemma {:induction false} WithoutDashesConcat(a: Bytes, b: Bytes)
    ensures WithoutDashes(a + b) == WithoutDashes(a) + WithoutDashes(b)
  {
    if |b| == 0 {
      assert a + b == a;
    } else {
      WithoutDashesConcat(a, b[..|b| - 1]);
      assert (a + b)[..|a + b| - 1] == a + b[..|b| - 1];
    }
  }

  lemma {:induction false} HexConcat(a: Bytes, b: Bytes)
    ensures HexEncode(a + b) == HexEncode(a) + HexEncode(b)
  {
    if |b| == 0 {
      assert a + b == a;
    } else {
      HexConcat(a, b[..|b| - 1]);
      assert (a + b)[..|a + b| - 1] == a + b[..|b| - 1];
    }
  }

  // A dashed group: dropping the dash leaves the digits of one byte string.
  lemma DashedGroup(s: Bytes, a: Bytes, b: Bytes)
    requires WithoutDashes(s) == HexEncode(a)
    ensures WithoutDashes(s + [DASH] + HexEncode(b)) == HexEncode(a + b)
  {
    WithoutDashesConcat(s + [DASH], HexEncode(b));
    WithoutDashesConcat(s, [DASH]);
    NoDashInHex(b);
    HexConcat(a, b);
    assert [DASH][..0] == [];
  }

  // The text carries the 16 bytes: without the dashes it is their hexadecimal digits.
  lemma {:induction false} FormatRoundTrip(x: Bytes)
    requires |x| == DRAW
    ensures HexDecode(WithoutDashes(Format(x))) == Some(x)
    ensures |Format(x)| == 36
    ensures Format(x)[8] == Format(x)[13] == Format(x)[18] == Format(x)[23] == 0x2D
  {
    assert x[..4] + x[4..6] == x[..6] && x[..6] + x[6..8] == x[..8] && x[..8] + x[8..10] == x[..10];
    assert x[..10] + x[10..] == x;
    var s1 := HexEncode(x[..4]);
    NoDashInHex(x[..4]);
    var s2 := s1 + [DASH] + HexEncode(x[4..6]);
    DashedGroup(s1, x[..4], x[4..6]);
    var s3 := s2 + [DASH] + HexEncode(x[6..8]);
    DashedGroup(s2, x[..6], x[6..8]);
    var s4 := s3 + [DASH] + HexEncode(x[8..10]);
    DashedGroup(s3, x[..8], x[8..10]);
    DashedGroup(s4, x[..10], x[10..]);
    HexRoundTrip(x);
  }

  // The stamp sets the six bits of the version and the variant, and keeps the other 122.
  lemma {:induction false} StampBits(x: Bytes)
    requires |x| == DRAW
    ensures var y := Stamp(x);
            && y[6] / 16 == 4 && y[6] % 16 == x[6] % 16
            && y[8] / 64 == 2 && y[8] % 64 == x[8] % 64
            && forall k :: 0 <= k < DRAW && k != 6 && k != 8 ==> y[k] == x[k]
  {
  }

  // ---------------------------------------------------------------- positions

  // How far the digits of byte i stand behind their place without dashes.
  function Shift(i: nat): nat {
    if i < 4 then 0 else if i < 6 then 1 else if i < 8 then 2 else if i < 10 then 3 else 4
  }

  // Of the stores to the text: each of the first k positions once, and no other.
  ghost predicate EachOnce(stores: multiset<nat>, k: nat) {
    forall p: nat :: stores[p] == if p < k then 1 else 0
  }

  lemma NothingStored()
    ensures EachOnce(multiset{}, 0)
  {
  }

  lemma {:induction false} EachOnceSnoc(stores: multiset<nat>, k: nat)
    requires EachOnce(stores, k)
    ensures EachOnce(stores + multiset{k}, k + 1)
  {
  }

  lemma ShiftsOfGroups()
    ensures Shift(0) == 0 && Shift(4) == 1 && Shift(6) == 2 && Shift(8) == 3 && Shift(10) == 4
  {
  }

  lemma FormatByGroups(x: Bytes, s1: Bytes, s2: Bytes, s3: Bytes, s4: Bytes)
    requires |x| == DRAW
    requires s1 == [] + HexEncode(x[0..4]) + [DASH] && s2 == s1 + HexEncode(x[4..6]) + [DASH]
    requires s3 == s2 + HexEncode(x[6..8]) + [DASH] && s4 == s3 + HexEncode(x[8..10]) + [DASH]
    ensures Format(x) == s4 + HexEncode(x[10..16])
  {
    hide HexEncode;
    assert x[0..4] == x[..4] && x[10..16] == x[10..] && [] + HexEncode(x[0..4]) == HexEncode(x[..4]);
  }

  // Digits behind a prefix: of no byte, and of one byte more.
  lemma HexOfNothing(prefix: Bytes, rand: Bytes, from: nat)
    requires from <= |rand|
    ensures prefix + HexEncode(rand[from..from]) == prefix
  {
    assert rand[from..from] == [];
  }

  lemma HexOfOneMore(prefix: Bytes, rand: Bytes, from: nat, i: nat)
    requires from <= i < |rand|
    ensures prefix + HexEncode(rand[from..i]) + [HexDigit(rand[i] / 16), HexDigit(rand[i] % 16)]
         == prefix + HexEncode(rand[from..i + 1])
  {
    hide HexDigit;
    assert rand[from..i + 1][..i - from] == rand[from..i];
  }

  // ---------------------------------------------------------------- draws from the buffer

  // The thread's buffer, and the index of its first unused byte.
  datatype Source = Source(buf: Bytes, idx: nat)

  predicate SourceValid(s: Source) {
    |s.buf| == BUFFER_SIZE && s.idx <= BUFFER_SIZE && s.idx % DRAW == 0
  }

  predicate NeedsRefill(s: Source) {
    s.idx + DRAW > BUFFER_SIZE
  }

  // One draw: the stamped window stays in the buffer, behind the index.
  function Draw(s: Source): (r: (Bytes, Source))
    requires SourceValid(s) && !NeedsRefill(s)
    ensures SourceValid(r.1)
  {
    var w := Stamp(s.buf[s.idx..s.idx + DRAW]);
    (Format(w), Source(s.buf[..s.idx] + w + s.buf[s.idx + DRAW..], s.idx + DRAW))
  }

  function NextUuid(s: Source, refill: Bytes): (r: (Bytes, Source))
    requires SourceValid(s) && |refill| == BUFFER_SIZE
    ensures SourceValid(r.1)
  {
    Draw(if NeedsRefill(s) then Source(refill, 0) else s)
  }

  // n draws in a row by one thread, with the number of refills they took.
  datatype Draws = Draws(source: Source, refills: nat, uuids: seq<Bytes>)

  predicate RefillsValid(entropy: seq<Bytes>) {
    forall k :: 0 <= k < |entropy| ==> |entropy[k]| == BUFFER_SIZE
  }

  function DrawMany(start: Source, entropy: seq<Bytes>, n: nat): (r: Option<Draws>)
    requires SourceValid(start) && RefillsValid(entropy)
    ensures r.Some? ==> SourceValid(r.value.source)
  {
    if n == 0 then Some(Draws(start, 0, []))
    else
      match DrawMany(start, entropy, n - 1)
      case None => None
      case Some(d) =>
        if !NeedsRefill(d.source) then
          var (u, s) := Draw(d.source);
          Some(Draws(s, d.refills, d.uuids + [u]))
        else if d.refills < |entropy| then
          var (u, s) := NextUuid(d.source, entropy[d.refills]);
          Some(Draws(s, d.refills + 1, d.uuids + [u]))
        else None
  }

  lemma {:induction false} FewerDraws(start: Source, entropy: seq<Bytes>, n: nat, k: nat)
    requires SourceValid(start) && RefillsValid(entropy) && k <= n && DrawMany(start, entropy, n).Some?
    ensures DrawMany(start, entropy, k).Some?
  {
    hide Draw, NextUuid;
    if k < n {
      FewerDraws(start, entropy, n - 1, k);
    }
  }

  const PER_REFILL: nat := 128

  lemma {:induction false} DrawFromWindow(s: Source, random: Bytes, k: nat)
    requires SourceValid(s) && |random| == BUFFER_SIZE && k < PER_REFILL
    requires s.idx == DRAW * k && s.buf[DRAW * k..] == random[DRAW * k..]
    ensures !NeedsRefill(s)
    ensures var (u, r) := Draw(s);
            && u == Format(Stamp(random[DRAW * k..DRAW * k + DRAW]))
            && r.idx == DRAW * (k + 1)
            && r.buf[DRAW * (k + 1)..] == random[DRAW * (k + 1)..]
  {
    hide Format, Stamp;
    assert s.buf[DRAW * k..DRAW * k + DRAW] == s.buf[DRAW * k..][..DRAW];
    assert random[DRAW * k..DRAW * k + DRAW] == random[DRAW * k..][..DRAW];
    assert random[DRAW * (k + 1)..] == random[DRAW * k..][DRAW..];
    assert s.buf[DRAW * (k + 1)..] == s.buf[DRAW * k..][DRAW..];
  }

  // The refill and the window of draw n, from those of the draw before.
  lemma PreviousDraw(n: nat, refills: nat)
    requires 0 < n < PER_REFILL * refills
    ensures n / PER_REFILL < refills
    ensures n % PER_REFILL == 0 ==> (n - 1) / PER_REFILL == n / PER_REFILL - 1 && (n - 1) % PER_REFILL == PER_REFILL - 1
    ensures n % PER_REFILL != 0 ==> (n - 1) / PER_REFILL == n / PER_REFILL && (n - 1) % PER_REFILL == n % PER_REFILL - 1
  {
  }

  lemma DrawManyStep(start: Source, entropy: seq<Bytes>, n: nat)
    requires SourceValid(start) && RefillsValid(entropy) && n > 0 && DrawMany(start, entropy, n - 1).Some?
    ensures var d := DrawMany(start, entropy, n - 1).value;
            && (!NeedsRefill(d.source) ==>
                  var (u, s) := Draw(d.source);
                  DrawMany(start, entropy, n) == Some(Draws(s, d.refills, d.uuids + [u])))
            && (NeedsRefill(d.source) && d.refills < |entropy| ==>
                  var (u, s) := Draw(Source(entropy[d.refills], 0));
                  DrawMany(start, entropy, n) == Some(Draws(s, d.refills + 1, d.uuids + [u])))
  {
    hide Draw;
  }

  // Where a thread stands after n draws: in refill (n - 1) / 128, behind its first 16 ((n - 1) mod 128 + 1) bytes.
  predicate StandsAfter(d: Draws, entropy: seq<Bytes>, n: nat)
    requires forall k :: 0 <= k < |entropy| ==> |entropy[k]| == 2048
  {
    && |d.uuids| == n && |d.source.buf| == 2048
    && d.refills == (if n == 0 then 0 else (n - 1) / 128 + 1) <= |entropy|
    && var k := if n == 0 then 128 else (n - 1) % 128 + 1;
       d.source.idx == 16 * k && (n > 0 ==> d.source.buf[16 * k..] == entropy[d.refills - 1][16 * k..])
  }

  lemma {:induction false} OneMoreDraw(start: Source, entropy: seq<Bytes>, n: nat)
    requires SourceValid(start) && RefillsValid(entropy) && 0 < n <= PER_REFILL * |entropy|
    requires DrawMany(start, entropy, n - 1).Some? && StandsAfter(DrawMany(start, entropy, n - 1).value, entropy, n - 1)
    ensures DrawMany(start, entropy, n).Some? && StandsAfter(DrawMany(start, entropy, n).value, entropy, n)
    ensures DrawMany(start, entropy, n).value.uuids == DrawMany(start, entropy, n - 1).value.uuids
              + [Format(Stamp(entropy[(n - 1) / 128][16 * ((n - 1) % 128)..16 * ((n - 1) % 128) + 16]))]
  {
    hide Format, Stamp, Draw, DrawMany;
    var d := DrawMany(start, entropy, n - 1).value;
    var k := (n - 1) % PER_REFILL;
    if n > 1 {
      PreviousDraw(n - 1, |entropy|);
    }
    DrawManyStep(start, entropy, n);
    if k == 0 {
      assert d.source.idx == BUFFER_SIZE && d.refills == (n - 1) / PER_REFILL;
      DrawFromWindow(Source(entropy[d.refills], 0), entropy[d.refills], 0);
    } else {
      assert d.refills - 1 == (n - 1) / PER_REFILL;
      DrawFromWindow(d.source, entropy[d.refills - 1], k);
    }
  }

  // Draw i takes bytes 16 (i mod 128) to 16 (i mod 128) + 15 of refill i / 128: no byte serves two draws,
  // and stamping a window never reaches another.
  lemma {:induction false} DrawsTakeDisjointWindows(start: Source, entropy: seq<Bytes>, n: nat)
    requires SourceValid(start) && start.idx == 2048
    requires forall k :: 0 <= k < |entropy| ==> |entropy[k]| == 2048
    requires n <= 128 * |entropy|
    ensures DrawMany(start, entropy, n).Some?
    ensures var d := DrawMany(start, entropy, n).value;
            && StandsAfter(d, entropy, n)
            && forall i :: 0 <= i < n ==>
                 d.uuids[i] == Format(Stamp(entropy[i / 128][16 * (i % 128)..16 * (i % 128) + 16]))
  {
    hide Format, Stamp, Draw;
    if n > 0 {
      DrawsTakeDisjointWindows(start, entropy, n - 1);
      hide StandsAfter, DrawMany;
      OneMoreDraw(start, entropy, n);
    }
  }

  // ---------------------------------------------------------------- the generator

  class RandomGeneratorImpl {
    const buffered: array<byte>
    var bufferedIdx: nat

    ghost predicate Valid()
      reads this, buffered
    {
      buffered.Length == BUFFER_SIZE && SourceValid(Model())
    }

    ghost function Model(): Source
      reads this, buffered
    {
      Source(buffered[..], bufferedIdx)
    }

    // The index starts at the end, so the first call refills.
    constructor ()
      ensures Valid() && fresh(buffered) && buffered.Length == bufferedIdx == 2048
    {
      buffered := new byte[BUFFER_SIZE](_ => 0);
      bufferedIdx := BUFFER_SIZE;
    }

    // `randomBuffer`: the bytes the random device yields are the argument.
    method RandomBuffer(random: Bytes)
      requires |random| == buffered.Length
      modifies buffered
      ensures buffered[..] == random
    {
      for i := 0 to buffered.Length
        invariant buffered[..i] == random[..i]
      {
        buffered[i] := random[i];
      }
    }

    // A store to the text, recorded.
    static method Store(text: array<byte>, p: nat, c: byte, ghost stores: multiset<nat>)
        returns (ghost stores': multiset<nat>)
      requires p < text.Length
      modifies text
      ensures text[..] == old(text[..])[p := c]
      ensures stores' == stores + multiset{p}
    {
      text[p] := c;
      stores' := stores + multiset{p};
    }

    // The two stores of a digit loop's body.
    static method StoreDigits(text: array<byte>, p: nat, d: byte, ghost stores: multiset<nat>)
        returns (ghost stores': multiset<nat>)
      requires p + 1 < text.Length && EachOnce(stores, p)
      modifies text
      ensures text[..p + 2] == old(text[..p]) + [HexDigit(d / 16), HexDigit(d % 16)]
      ensures EachOnce(stores', p + 2)
    {
      hide HexDigit, EachOnce;
      EachOnceSnoc(stores, p);
      stores' := Store(text, p, HexDigit(d / 16), stores);
      EachOnceSnoc(stores', p + 1);
      stores' := Store(text, p + 1, HexDigit(d % 16), stores');
      assert text[..p] == old(text[..p]);
    }

    // One of the five digit loops: bytes from..to of the window, shifted by the dashes before them.
    static method WriteHex(text: array<byte>, rand: Bytes, from: nat, to: nat, shift: nat,
                           ghost stores: multiset<nat>) returns (ghost stores': multiset<nat>)
      requires from <= to <= |rand| && 2 * to + shift <= text.Length
      requires EachOnce(stores, 2 * from + shift)
      modifies text
      ensures text[..2 * to + shift] == old(text[..2 * from + shift]) + HexEncode(rand[from..to])
      ensures EachOnce(stores', 2 * to + shift)
    {
      hide HexEncode, HexDigit, EachOnce;
      ghost var prefix := text[..2 * from + shift];
      HexOfNothing(prefix, rand, from);
      stores' := stores;
      for i := from to to
        invariant text[..2 * i + shift] == prefix + HexEncode(rand[from..i])
        invariant EachOnce(stores', 2 * i + shift)
      {
        HexOfOneMore(prefix, rand, from, i);
        stores' := StoreDigits(text, 2 * i + shift, rand[i], stores');
      }
    }

    // A digit loop and the dash behind it.
    static method WriteGroup(text: array<byte>, rand: Bytes, from: nat, to: nat, dash: nat,
                             ghost stores: multiset<nat>) returns (ghost stores': multiset<nat>)
      requires from < to <= |rand| && dash == 2 * to + Shift(from) < text.Length
      requires EachOnce(stores, 2 * from + Shift(from))
      modifies text
      ensures text[..dash + 1] == old(text[..2 * from + Shift(from)]) + HexEncode(rand[from..to]) + [DASH]
      ensures EachOnce(stores', dash + 1)
    {
      hide HexEncode, EachOnce, Shift;
      stores' := WriteHex(text, rand, from, to, Shift(from), stores);
      ghost var before := text[..dash];
      EachOnceSnoc(stores', dash);
      stores' := Store(text, dash, DASH, stores');
      assert text[..dash] == before;
    }

    // The text, and the stores that made it: each of the 36 positions is stored to once, and no other.
    static method FormatWindow(rand: Bytes) returns (text: Bytes, ghost stores: multiset<nat>)
      requires |rand| == DRAW
      ensures text == Format(rand)
      ensures EachOnce(stores, UUID_LENGTH)
    {
      hide HexEncode, EachOnce, Format, Shift;
      ShiftsOfGroups();
      NothingStored();
      var uuid := new byte[UUID_LENGTH];
      stores := multiset{};
      assert uuid[..0] == [];
      stores := WriteGroup(uuid, rand, 0, 4, 8, stores);
      ghost var s1 := uuid[..9];
      stores := WriteGroup(uuid, rand, 4, 6, 13, stores);
      ghost var s2 := uuid[..14];
      stores := WriteGroup(uuid, rand, 6, 8, 18, stores);
      ghost var s3 := uuid[..19];
      stores := WriteGroup(uuid, rand, 8, 10, 23, stores);
      ghost var s4 := uuid[..24];
      stores := WriteHex(uuid, rand, 10, 16, Shift(10), stores);
      text := uuid[..];
      assert text == uuid[..36];
      FormatByGroups(rand, s1, s2, s3, s4);
    }

    method StampWindow(rand: nat)
      requires rand + DRAW <= buffered.Length
      modifies buffered
      ensures buffered[..] == old(buffered[..rand]) + Stamp(old(buffered[rand..rand + DRAW]))
                            + old(buffered[rand + DRAW..])
    {
      hide Or;
      OrSplits(0x40, buffered[rand + 6] % 16);
      OrSplits(0x80, buffered[rand + 8] % 64);
      buffered[rand + 6] := Or(buffered[rand + 6] % 16, 0x40);
      buffered[rand + 8] := Or(buffered[rand + 8] % 64, 0x80);
    }

    method Uuid(refill: Bytes) returns (text: Bytes)
      requires Valid() && |refill| == BUFFER_SIZE
      modifies this`bufferedIdx, buffered
      ensures Valid()
      ensures (text, Model()) == NextUuid(old(Model()), refill)
      ensures |text| == 36 && bufferedIdx == (if old(bufferedIdx) + 16 > 2048 then 16 else old(bufferedIdx) + 16)
    {
      hide Format, Stamp;
      if bufferedIdx + 16 > buffered.Length {
        RandomBuffer(refill);
        bufferedIdx := 0;
      }
      ghost var s := Model();
      assert NextUuid(old(Model()), refill) == Draw(s);
      assert bufferedIdx + 16 <= buffered.Length;
      var rand := bufferedIdx;
      bufferedIdx := bufferedIdx + 16;
      StampWindow(rand);
      assert buffered[rand..rand + DRAW] == Stamp(s.buf[rand..rand + DRAW]);
      ghost var stores;
      text, stores := FormatWindow(buffered[rand..rand + DRAW]);
    }

    // Any number of draws in a row; used counts the refills they took.
    method Uuids(entropy: seq<Bytes>, n: nat) returns (texts: seq<Bytes>, used: nat)
      requires Valid() && RefillsValid(entropy) && DrawMany(Model(), entropy, n).Some?
      modifies this`bufferedIdx, buffered
      ensures Valid()
      ensures DrawMany(old(Model()), entropy, n) == Some(Draws(Model(), used, texts))
    {
      hide Draw;
      ghost var start := Model();
      texts, used := [], 0;
      for i := 0 to n
        invariant Valid() && DrawMany(start, entropy, i) == Some(Draws(Model(), used, texts))
      {
        FewerDraws(start, entropy, n, i + 1);
        var text: Bytes;
        if bufferedIdx + 16 > buffered.Length {
          text := Uuid(entropy[used]);
          used := used + 1;
        } else {
          text := Uuid(seq(BUFFER_SIZE, _ => 0));
        }
        texts := texts + [text];
      }
    }
  }
}
