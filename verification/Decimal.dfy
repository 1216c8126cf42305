/** The two decimal conversions the span id goes through: `std::to_string` on an int32, and
    `absl::SimpleAtoi` into an int32 (surrounding blanks, an optional sign, digits, and a range check). */
module Decimal {
  import opened Wrappers
  import opened Bytes

  function Digits(n: nat): (s: Bytes)
    ensures |s| > 0 && AllDigits(s)
  {
    if n < 10 then [ZERO + n] else Digits(n / 10) + [ZERO + n % 10]
  }

  function ToString(n: int): Bytes {
    if n < 0 then [DASH] + Digits(-n) else Digits(n)
  }

  predicate IsDigit(c: byte) {
    ZERO <= c < ZERO + 10
  }

  predicate AllDigits(s: Bytes) {
    forall k :: 0 <= k < |s| ==> IsDigit(s[k])
  }

  function DigitsValue(s: Bytes): (v: int)
    requires AllDigits(s)
    ensures v >= 0
  {
    if |s| == 0 then 0 else DigitsValue(s[..|s| - 1]) * 10 + (s[|s| - 1] - ZERO)
  }

  // ascii_isspace: blank, and the controls from tab to carriage return.
  predicate IsBlank(c: byte) {
    c == 0x20 || 0x09 <= c <= 0x0D
  }

  function TrimLeft(s: Bytes): Bytes {
    if |s| > 0 && IsBlank(s[0]) then TrimLeft(s[1..]) else s
  }

  function TrimRight(s: Bytes): Bytes {
    if |s| > 0 && IsBlank(s[|s| - 1]) then TrimRight(s[..|s| - 1]) else s
  }

  function SimpleAtoi(s: Bytes): (r: Option<int>)
    ensures r.Some? ==> -0x8000_0000 <= r.value < 0x8000_0000
  {
    var t := TrimRight(TrimLeft(s));
    var signed := |t| > 0 && (t[0] == DASH || t[0] == 0x2B);
    var d := if signed then t[1..] else t;
    if |d| == 0 || !AllDigits(d) then None
    else
      var v := if t[0] == DASH then -DigitsValue(d) else DigitsValue(d);
      if -TWO_31 <= v < TWO_31 then Some(v) else None
  }

  lemma {:induction false} ValueOfDigits(n: nat)
    ensures DigitsValue(Digits(n)) == n
  {
    if n >= 10 {
      ValueOfDigits(n / 10);
      assert Digits(n)[..|Digits(n)| - 1] == Digits(n / 10);
    } else {
      assert [ZERO + n][..0] == [];
    }
  }

  // The printed form: decimal digits, most significant first, after a minus sign if there is one.
  lemma {:induction false} PrintedForm(n: int)
    ensures 0 <= n < 10 ==> ToString(n) == [0x30 + n]
    ensures n >= 10 ==> ToString(n) == ToString(n / 10) + [0x30 + n % 10]
    ensures n < 0 ==> ToString(n) == [0x2D] + ToString(-n)
  {
  }

  // ---- what is accepted

  predicate AllBlank(s: Bytes) {
    forall k :: 0 <= k < |s| ==> s[k] == 0x20 || 0x09 <= s[k] <= 0x0D
  }

  // A number as it may be written: blanks, a sign or none, at least one digit, blanks.
  ghost predicate IsWritten(s: Bytes, l: Bytes, sign: Bytes, d: Bytes, r: Bytes) {
    && s == l + sign + d + r && AllBlank(l) && AllBlank(r)
    && (sign == [] || sign == [0x2D] || sign == [0x2B])
    && |d| > 0 && forall k :: 0 <= k < |d| ==> 0x30 <= d[k] <= 0x39
  }

  // The parser accepts exactly these, if the number they stand for is an int32.
  lemma {:induction false} AtoiExactly(s: Bytes, l: Bytes, sign: Bytes, d: Bytes, r: Bytes)
    requires IsWritten(s, l, sign, d, r)
    ensures var v := if sign == [0x2D] then -DigitsValue(d) else DigitsValue(d);
            SimpleAtoi(s) == if -0x8000_0000 <= v < 0x8000_0000 then Some(v) else None
  {
    var t := sign + d;
    assert s == l + (t + r);
    assert t[|t| - 1] == d[|d| - 1];
    TrimsLeft(l, t + r);
    TrimsRight(t, r);
    assert t[0] == if sign == [] then d[0] else sign[0];
    assert (if sign == [] then t else t[1..]) == d;
  }

  lemma {:induction false} AtoiAccepts(s: Bytes) returns (l: Bytes, sign: Bytes, d: Bytes, r: Bytes)
    requires SimpleAtoi(s).Some?
    ensures IsWritten(s, l, sign, d, r)
  {
    hide TrimLeft, TrimRight, DigitsValue, AllBlank;
    var u := TrimLeft(s);
    var t := TrimRight(u);
    l := LeftBlanks(s);
    r := RightBlanks(u);
    sign := if t[0] == DASH || t[0] == 0x2B then [t[0]] else [];
    d := t[|sign|..];
    assert t == sign + d;
    Regroup(l, sign, d, r);
  }

  lemma Regroup(l: Bytes, sign: Bytes, d: Bytes, r: Bytes)
    ensures l + ((sign + d) + r) == l + sign + d + r
  {
  }

  lemma {:induction false} TrimsLeft(l: Bytes, t: Bytes)
    requires AllBlank(l) && |t| > 0 && !IsBlank(t[0])
    ensures TrimLeft(l + t) == t
  {
    if |l| == 0 {
      assert l + t == t;
    } else {
      TrimsLeft(l[1..], t);
      assert (l + t)[1..] == l[1..] + t;
    }
  }

  lemma {:induction false} TrimsRight(t: Bytes, r: Bytes)
    requires AllBlank(r) && |t| > 0 && !IsBlank(t[|t| - 1])
    ensures TrimRight(t + r) == t
  {
    if |r| == 0 {
      assert t + r == t;
    } else {
      TrimsRight(t, r[..|r| - 1]);
      assert (t + r)[..|t + r| - 1] == t + r[..|r| - 1];
    }
  }

  lemma {:induction false} LeftBlanks(s: Bytes) returns (l: Bytes)
    ensures s == l + TrimLeft(s) && AllBlank(l)
  {
    l := [];
    if |s| > 0 && IsBlank(s[0]) {
      var rest := LeftBlanks(s[1..]);
      l := [s[0]] + rest;
    }
  }

  lemma {:induction false} RightBlanks(s: Bytes) returns (r: Bytes)
    ensures s == TrimRight(s) + r && AllBlank(r)
  {
    r := [];
    if |s| > 0 && IsBlank(s[|s| - 1]) {
      var rest := RightBlanks(s[..|s| - 1]);
      r := rest + [s[|s| - 1]];
    }
  }

  // The value of a string of digits, digit by digit.
  lemma DigitsValueSnoc(d: Bytes, c: byte)
    requires AllDigits(d) && 0x30 <= c <= 0x39
    ensures DigitsValue([]) == 0
    ensures DigitsValue(d + [c]) == 10 * DigitsValue(d) + (c - 0x30)
  {
    assert (d + [c])[..|d|] == d;
  }

  // Printing and parsing an int32 gives it back.
  lemma AtoiOfToString(n: int)
    requires -0x8000_0000 <= n < 0x8000_0000
    ensures SimpleAtoi(ToString(n)) == Some(n)
  {
    var s := ToString(n);
    ValueOfDigits(if n < 0 then -n else n);
    assert IsDigit(s[|s| - 1]) && !IsBlank(s[0]);
    assert n < 0 ==> s[1..] == Digits(-n);
  }

  // Without a minus sign in the input, the result is not negative.
  lemma UnsignedAtoi(s: Bytes)
    requires DASH !in s
    ensures SimpleAtoi(s).Some? ==> SimpleAtoi(s).value >= 0
  {
    TrimKeepsBytes(s);
  }

  lemma {:induction false} TrimKeepsBytes(s: Bytes)
    ensures forall c :: c in TrimRight(TrimLeft(s)) ==> c in s
  {
    TrimLeftKeepsBytes(s);
    TrimRightKeepsBytes(TrimLeft(s));
  }

  lemma TrimLeftKeepsBytes(s: Bytes)
    ensures forall c :: c in TrimLeft(s) ==> c in s
  {
  }

  lemma TrimRightKeepsBytes(s: Bytes)
    ensures forall c :: c in TrimRight(s) ==> c in s
  {
  }

  // Only a negative number prints with a separator.
  lemma DashInToString(n: int)
    ensures DASH in ToString(n) <==> n < 0
    ensures n < 0 ==> ToString(n) == [DASH] + Digits(-n) && DASH !in Digits(-n)
  {
    var s := Digits(if n < 0 then -n else n);
    assert forall k :: 0 <= k < |s| ==> IsDigit(s[k]);
  }
}
