/** The sw8 and sw8-x headers: the parsers of source/propagation_impl.cc, and the text that
    `TracingContextImpl::encodeSpan` prints, with the round trip between them. */
module Propagation {
  import opened Wrappers
  import opened Bytes
  import opened Base64
  import opened Decimal

  const EXPECTED_FIELD_COUNT: nat := 8
  const EXPECTED_EXTENSION_FIELD_COUNT: nat := 1

  datatype SpanContext = SpanContext(
    sample: bool,
    traceId: Bytes,
    traceSegmentId: Bytes,
    spanId: int,
    service: Bytes,
    serviceInstance: Bytes,
    endpoint: Bytes,
    targetAddress: Bytes)

  datatype TracingMode = Default | Skip

  // The exceptions, and the store past the field array, after which the source promises nothing.
  datatype HeaderError = FieldCount | SampleField | SpanIdField | ModeField | PastFields

  // ---------------------------------------------------------------- splitting

  predicate DashFree(p: Bytes) {
    DASH !in p
  }

  function Separators(h: Bytes): nat {
    if |h| == 0 then 0 else Separators(h[..|h| - 1]) + (if h[|h| - 1] == DASH then 1 else 0)
  }

  // The pieces of h between its separators.
  function Split(h: Bytes): (fs: seq<Bytes>)
    ensures |fs| == Separators(h) + 1
  {
    if |h| == 0 then [[]]
    else
      var fs := Split(h[..|h| - 1]);
      var c := h[|h| - 1];
      if c == DASH then fs + [[]] else fs[..|fs| - 1] + [fs[|fs| - 1] + [c]]
  }

  function Join(fs: seq<Bytes>): Bytes {
    if |fs| == 0 then []
    else if |fs| == 1 then fs[0]
    else Join(fs[..|fs| - 1]) + [DASH] + fs[|fs| - 1]
  }

  lemma JoinOneMore(fs: seq<Bytes>, p: Bytes)
    requires |fs| > 0
    ensures Join(fs + [p]) == Join(fs) + [DASH] + p
  {
    assert (fs + [p])[..|fs|] == fs;
  }

  lemma JoinLonger(fs: seq<Bytes>, p: Bytes)
    requires |fs| > 0
    ensures Join(fs[..|fs| - 1] + [fs[|fs| - 1] + p]) == Join(fs) + p
  {
    var init, last := fs[..|fs| - 1], fs[|fs| - 1];
    var gs := init + [last + p];
    assert gs[..|fs| - 1] == init;
    if |fs| > 1 {
      assert Join(init) + [DASH] + (last + p) == (Join(init) + [DASH] + last) + p;
    }
  }

  lemma {:induction false} JoinSplit(h: Bytes)
    ensures Join(Split(h)) == h
  {
    if |h| > 0 {
      var g, c := h[..|h| - 1], h[|h| - 1];
      JoinSplit(g);
      if c == DASH { JoinOneMore(Split(g), []); } else { JoinLonger(Split(g), [c]); }
      assert h == g + [c];
    }
  }

  lemma {:induction false} PiecesAreDashFree(h: Bytes)
    ensures forall k :: 0 <= k < |Split(h)| ==> DashFree(Split(h)[k]) && |Split(h)[k]| <= |h|
  {
    if |h| > 0 {
      PiecesAreDashFree(h[..|h| - 1]);
    }
  }

  // A header grows by one field when a separator and a dash-free piece are appended.
  lemma {:induction false} SplitAppend(h: Bytes, p: Bytes)
    requires DashFree(p)
    ensures Split(h + [DASH] + p) == Split(h) + [p]
  {
    var g := h + [DASH] + p;
    if |p| == 0 {
      assert g[..|g| - 1] == h;
    } else {
      var q := p[..|p| - 1];
      SplitAppend(h, q);
      assert g[..|g| - 1] == h + [DASH] + q;
      assert p == q + [p[|p| - 1]];
      assert p[|p| - 1] in p;
    }
  }

  lemma {:induction false} SplitDashFree(p: Bytes)
    requires DashFree(p)
    ensures Split(p) == [p]
  {
    if |p| > 0 {
      SplitDashFree(p[..|p| - 1]);
      assert p == p[..|p| - 1] + [p[|p| - 1]];
      assert p[|p| - 1] in p;
    }
  }

  lemma {:induction false} SplitJoin(fs: seq<Bytes>)
    requires |fs| > 0 && forall k :: 0 <= k < |fs| ==> DashFree(fs[k])
    ensures Split(Join(fs)) == fs
  {
    hide Split;
    if |fs| == 1 {
      SplitDashFree(fs[0]);
    } else {
      var init, last := fs[..|fs| - 1], fs[|fs| - 1];
      SplitJoin(init);
      SplitAppend(Join(init), last);
      assert init + [last] == fs;
    }
  }

  // The header whose (count)th separator is its last byte: the one input after whose loop the field
  // index is past the field array.
  predicate EndsPastFields(h: Bytes, count: nat) {
    Separators(h) == count && |h| > 0 && h[|h| - 1] == DASH
  }

  lemma {:induction false} SeparatorsOfPrefix(h: Bytes, i: nat)
    requires i <= |h|
    ensures Separators(h[..i]) <= Separators(h)
  {
    if i < |h| {
      SeparatorsOfPrefix(h[..|h| - 1], i);
      assert h[..|h| - 1][..i] == h[..i];
    } else {
      assert h[..i] == h;
    }
  }

  // The loop runs to the end of the header when no byte follows the (count)th separator.
  ghost predicate ReachesEnd(h: Bytes, count: nat) {
    forall i :: 0 <= i < |h| ==> Separators(h[..i]) < count
  }

  lemma {:induction false} PastFieldsExactly(h: Bytes, count: nat)
    requires count > 0
    ensures ReachesEnd(h, count) && Separators(h) >= count <==> EndsPastFields(h, count)
  {
    if |h| > 0 {
      var g := h[..|h| - 1];
      forall i | 0 <= i < |h|
        ensures Separators(h[..i]) <= Separators(g)
      {
        SeparatorsOfPrefix(g, i);
        assert g[..i] == h[..i];
      }
    }
  }

  // Those headers are the ones with the right number of fields and one separator more at the end.
  lemma {:induction false} PastFieldsShape(h: Bytes, count: nat)
    ensures EndsPastFields(h, count) <==>
              |h| > 0 && h == h[..|h| - 1] + [DASH] && |Split(h[..|h| - 1])| == count
  {
  }

  lemma {:induction false} StopsBeforeEnd(h: Bytes, i: nat, count: nat)
    requires i < |h| && Separators(h[..i]) >= count
    ensures !EndsPastFields(h, count) && |Split(h)| != count
  {
    var g := h[..|h| - 1];
    SeparatorsOfPrefix(g, i);
    assert g[..i] == h[..i];
  }

  // One byte more: it ends the last piece, or joins it.
  lemma SplitOneMore(h: Bytes, i: nat, fs: seq<Bytes>, value: Bytes)
    requires i < |h| && Split(h[..i]) == fs + [value]
    ensures Split(h[..i + 1]) == if h[i] == DASH then fs + [value] + [[]] else fs + [value + [h[i]]]
    ensures Separators(h[..i + 1]) == Separators(h[..i]) + (if h[i] == DASH then 1 else 0)
  {
    assert h[..i + 1][..i] == h[..i];
  }

  lemma SplitOfNothing()
    ensures Split([]) == [[]] && Separators([]) == 0
  {
  }

  // The field loop of both constructors.  It gives up at the first byte after the (count)th separator; when there is
  // no such byte, the store behind the loop is past the array.
  method SplitFields(header: Bytes, count: nat) returns (r: Result<seq<Bytes>, HeaderError>)
    requires count > 0
    ensures r == if EndsPastFields(header, count) then Failure(PastFields)
                 else if |Split(header)| == count then Success(Split(header))
                 else Failure(FieldCount)
  {
    hide Split, Separators;
    SplitOfNothing();
    var fields := new Bytes[count](_ => []);
    var currentFieldIdx := 0;
    var value: Bytes := [];
    for i := 0 to |header|
      invariant 0 <= currentFieldIdx <= count
      invariant Split(header[..i]) == fields[..currentFieldIdx] + [value]
      invariant currentFieldIdx == Separators(header[..i])
      invariant currentFieldIdx == count ==> i > 0 && header[i - 1] == DASH
    {
      if currentFieldIdx >= count {
        StopsBeforeEnd(header, i, count);
        return Failure(FieldCount);
      }
      SplitOneMore(header, i, fields[..currentFieldIdx], value);
      if header[i] == DASH {
        fields[currentFieldIdx] := value;
        value := [];
        currentFieldIdx := currentFieldIdx + 1;
        continue;
      }
      value := value + [header[i]];
    }
    assert header[..|header|] == header;
    if currentFieldIdx == count {
      return Failure(PastFields);
    }
    fields[currentFieldIdx] := value;
    if currentFieldIdx != count - 1 {
      return Failure(FieldCount);
    }
    assert fields[..] == Split(header);
    return Success(fields[..]);
  }

  // ---------------------------------------------------------------- the parsers

  function ParseSpec(header: Bytes): Result<SpanContext, HeaderError> {
    var f := Split(header);
    if EndsPastFields(header, EXPECTED_FIELD_COUNT) then Failure(PastFields)
    else if |f| != EXPECTED_FIELD_COUNT then Failure(FieldCount)
    else if f[0] != [ZERO] && f[0] != [ONE] then Failure(SampleField)
    else
      match SimpleAtoi(f[3])
      case None => Failure(SpanIdField)
      case Some(id) =>
        Success(SpanContext(true, DecodeSpec(f[1]), DecodeSpec(f[2]), id,
                            DecodeSpec(f[4]), DecodeSpec(f[5]), DecodeSpec(f[6]), DecodeSpec(f[7])))
  }

  method ParseSpanContext(header: Bytes) returns (r: Result<SpanContext, HeaderError>)
    requires |header| < 0x1_0000_0000_0000_0000
    ensures r == ParseSpec(header)
  {
    PiecesAreDashFree(header);
    var split := SplitFields(header, EXPECTED_FIELD_COUNT);
    if split.Failure? {
      return Failure(split.error);
    }
    var fields := split.value;
    if fields[0] != [ZERO] && fields[0] != [ONE] {
      return Failure(SampleField);
    }
    var traceId := DecodeWithoutPadding(fields[1]);
    var traceSegmentId := DecodeWithoutPadding(fields[2]);
    var spanId := SimpleAtoi(fields[3]);
    if spanId.None? {
      return Failure(SpanIdField);
    }
    var service := DecodeWithoutPadding(fields[4]);
    var serviceInstance := DecodeWithoutPadding(fields[5]);
    var endpoint := DecodeWithoutPadding(fields[6]);
    var targetAddress := DecodeWithoutPadding(fields[7]);
    return Success(SpanContext(true, traceId, traceSegmentId, spanId.value,
                               service, serviceInstance, endpoint, targetAddress));
  }

  method ParseSpanContextExtension(header: Bytes) returns (r: Result<TracingMode, HeaderError>)
    ensures r == if header == [0x30] then Success(Default)
                 else if header == [0x31] then Success(Skip)
                 else Failure(if DashFree(header) then ModeField
                              else if EndsPastFields(header, EXPECTED_EXTENSION_FIELD_COUNT) then PastFields
                              else FieldCount)
  {
    OneFieldIsDashFree(header);
    var split := SplitFields(header, EXPECTED_EXTENSION_FIELD_COUNT);
    if split.Failure? {
      return Failure(split.error);
    }
    var fields := split.value;
    if fields[0] != [ZERO] && fields[0] != [ONE] {
      return Failure(ModeField);
    }
    if fields[0] == [ONE] {
      return Success(Skip);
    }
    return Success(Default);
  }

  lemma OneFieldIsDashFree(h: Bytes)
    ensures |Split(h)| == 1 <==> DashFree(h)
    ensures DashFree(h) ==> Split(h) == [h]
  {
    PiecesAreDashFree(h);
    if |Split(h)| == 1 {
      JoinSplit(h);
    }
    if DashFree(h) {
      SplitDashFree(h);
    }
  }

  // With a separator in the header, its first piece is what precedes the first one.
  lemma {:induction false} FirstField(h: Bytes)
    requires |Split(h)| > 1
    ensures |h| > |Split(h)[0]| && h[..|Split(h)[0]|] == Split(h)[0] && h[|Split(h)[0]|] == DASH
  {
    var g := h[..|h| - 1];
    if |Split(g)| > 1 {
      FirstField(g);
    } else {
      JoinSplit(g);
    }
  }

  // The first field is one byte c exactly if the header starts with c and a separator.
  lemma {:induction false} SampleFieldOf(header: Bytes)
    requires Separators(header) > 0
    ensures forall c: byte :: c != DASH ==> (Split(header)[0] == [c] <==> [c, DASH] <= header)
  {
    hide Split;
    FirstField(header);
    PiecesAreDashFree(header);
    var p := Split(header)[0];
    assert forall k :: 0 <= k < |p| ==> p[k] == header[..|p|][k] && p[k] != DASH;
    assert forall c: byte :: [c, DASH] <= header <==> |header| > 1 && header[0] == c && header[1] == DASH;
    assert |p| == 0 ==> header[0] == DASH;
  }

  lemma {:induction false} SeparatorsCounted(h: Bytes)
    ensures Separators(h) == multiset(h)[0x2D]
  {
    if |h| > 0 {
      var g, c := h[..|h| - 1], h[|h| - 1];
      SeparatorsCounted(g);
      assert h == g + [c];
    }
  }

  // Acceptance: seven separators, a sample field of "0" or "1", and an int32 fourth field.
  lemma {:induction false} ParserAcceptance(header: Bytes)
    ensures ParseSpec(header).Success? <==>
              && multiset(header)[0x2D] == 7
              && ([0x30, 0x2D] <= header || [0x31, 0x2D] <= header)
              && |Split(header)| == 8 && SimpleAtoi(Split(header)[3]).Some?
  {
    hide SimpleAtoi, DecodeSpec, Split;
    SeparatorsCounted(header);
    if Separators(header) == 7 {
      SampleFieldOf(header);
    }
  }

  // Which error a refused header gives: the first check that fails, in the order of the source.
  lemma {:induction false} ParserErrors(header: Bytes)
    ensures var n := multiset(header)[0x2D];
            var past := n == 8 && |header| > 0 && header[|header| - 1] == 0x2D;
            var sampled := [0x30, 0x2D] <= header || [0x31, 0x2D] <= header;
            && (ParseSpec(header) == Failure(PastFields) <==> past)
            && (ParseSpec(header) == Failure(FieldCount) <==> n != 7 && !past)
            && (ParseSpec(header) == Failure(SampleField) <==> n == 7 && !sampled)
            && (ParseSpec(header) == Failure(SpanIdField) <==>
                  n == 7 && sampled && |Split(header)| == 8 && SimpleAtoi(Split(header)[3]).None?)
            && ParseSpec(header) != Failure(ModeField)
  {
    hide SimpleAtoi, DecodeSpec, Split;
    SeparatorsCounted(header);
    ParserAcceptance(header);
    if Separators(header) == 7 {
      SampleFieldOf(header);
    }
  }

  // text is a canonical encoding of value, with none, one or two '=' behind it; of no value, if value is empty.
  ghost predicate Carries(text: Bytes, value: Bytes) {
    forall w: Bytes :: w != [] ==>
      (value == w <==> text == EncodeSpec(w, false)
                       || text == EncodeSpec(w, false) + [0x3D]
                       || text == EncodeSpec(w, false) + [0x3D, 0x3D])
  }

  lemma DecodedIsCarried(text: Bytes)
    ensures Carries(text, DecodeSpec(text))
  {
    forall w: Bytes | w != []
      ensures DecodeSpec(text) == w <==> text == EncodeSpec(w, false)
                                         || text == EncodeSpec(w, false) + [0x3D]
                                         || text == EncodeSpec(w, false) + [0x3D, 0x3D]
    {
      CanonicalAcceptance(text, w);
    }
  }

  // What an accepted header yields, field by field.  The flag is set whichever of "0" and "1" the header has.
  lemma {:induction false} AcceptedFields(header: Bytes)
    requires ParseSpec(header).Success?
    ensures var c, f := ParseSpec(header).value, Split(header);
            && |f| == 8
            && c.sample
            && (f[0] == [0x30] || f[0] == [0x31])
            && Carries(f[1], c.traceId)
            && Carries(f[2], c.traceSegmentId)
            && SimpleAtoi(f[3]) == Some(c.spanId)
            && Carries(f[4], c.service)
            && Carries(f[5], c.serviceInstance)
            && Carries(f[6], c.endpoint)
            && Carries(f[7], c.targetAddress)
  {
    hide SimpleAtoi, DecodeSpec, Split, Carries;
    var f := Split(header);
    DecodedIsCarried(f[1]);
    DecodedIsCarried(f[2]);
    DecodedIsCarried(f[4]);
    DecodedIsCarried(f[5]);
    DecodedIsCarried(f[6]);
    DecodedIsCarried(f[7]);
  }

  // What the parser accepts is the join of its fields, and its span id is never negative.
  lemma {:induction false} AcceptedSpanId(header: Bytes)
    requires ParseSpec(header).Success?
    ensures Join(Split(header)) == header
    ensures 0 <= ParseSpec(header).value.spanId < 0x8000_0000
  {
    hide DecodeSpec;
    JoinSplit(header);
    PiecesAreDashFree(header);
    UnsignedAtoi(Split(header)[3]);
  }

  // ---------------------------------------------------------------- the printer

  // The eight fields of the Standard Header Item, always sampled.
  function HeaderFields(c: SpanContext): (fs: seq<Bytes>)
    ensures |fs| == EXPECTED_FIELD_COUNT
  {
    [[ONE], EncodeSpec(c.traceId, true), EncodeSpec(c.traceSegmentId, true), ToString(c.spanId),
     EncodeSpec(c.service, true), EncodeSpec(c.serviceInstance, true),
     EncodeSpec(c.endpoint, true), EncodeSpec(c.targetAddress, true)]
  }

  function HeaderSpec(c: SpanContext): Bytes {
    Join(HeaderFields(c))
  }

  // Printing and parsing: for every content of the fields, and every span id from 0 to 2^31 - 1.
  lemma {:induction false} HeaderRoundTrip(c: SpanContext)
    requires c.sample && 0 <= c.spanId < 0x8000_0000
    ensures ParseSpec(HeaderSpec(c)) == Success(c)
    ensures !EndsPastFields(HeaderSpec(c), EXPECTED_FIELD_COUNT)
  {
    var fs := HeaderFields(c);
    FieldsAreDashFree(c);
    SplitJoin(fs);
    AtoiOfToString(c.spanId);
    RoundTrip(c.traceId, true);
    RoundTrip(c.traceSegmentId, true);
    RoundTrip(c.service, true);
    RoundTrip(c.serviceInstance, true);
    RoundTrip(c.endpoint, true);
    RoundTrip(c.targetAddress, true);
  }

  lemma FieldsAreDashFree(c: SpanContext)
    ensures forall k :: 0 <= k < 8 && (k != 3 || c.spanId >= 0) ==> DashFree(HeaderFields(c)[k])
  {
    EncodedShape(c.traceId, true);
    EncodedShape(c.traceSegmentId, true);
    EncodedShape(c.service, true);
    EncodedShape(c.serviceInstance, true);
    EncodedShape(c.endpoint, true);
    EncodedShape(c.targetAddress, true);
    DashInToString(c.spanId);
  }

  lemma {:induction false} SeparatorsConcat(a: Bytes, b: Bytes)
    ensures Separators(a + b) == Separators(a) + Separators(b)
  {
    if |b| == 0 {
      assert a + b == a;
    } else {
      SeparatorsConcat(a, b[..|b| - 1]);
      assert (a + b)[..|a + b| - 1] == a + b[..|b| - 1];
    }
  }

  lemma {:induction false} SeparatorsInside(p: Bytes)
    requires DASH in p
    ensures Separators(p) > 0
  {
    if p[|p| - 1] != DASH {
      SeparatorsInside(p[..|p| - 1]);
    }
  }

  lemma SeparatorsOfDash()
    ensures Separators([DASH]) == 1
  {
    assert [DASH][..0] == [];
  }

  lemma {:induction false} SeparatorsOfJoin(fs: seq<Bytes>, k: nat)
    requires k < |fs|
    ensures Separators(Join(fs)) >= |fs| - 1 + Separators(fs[k])
  {
    hide Separators;
    SeparatorsOfDash();
    if |fs| > 1 {
      var init, last := fs[..|fs| - 1], fs[|fs| - 1];
      SeparatorsOfJoin(init, if k < |init| then k else 0);
      SeparatorsConcat(Join(init) + [DASH], last);
      SeparatorsConcat(Join(init), [DASH]);
    }
  }

  // What is printed starts with "1-", has seven separators, and the fields in their order.
  lemma {:induction false} PrintedHeader(c: SpanContext)
    requires 0 <= c.spanId
    ensures [0x31, 0x2D] <= HeaderSpec(c)
    ensures multiset(HeaderSpec(c))[0x2D] == 7
    ensures Split(HeaderSpec(c)) ==
              [[0x31], EncodeSpec(c.traceId, true), EncodeSpec(c.traceSegmentId, true), ToString(c.spanId),
               EncodeSpec(c.service, true), EncodeSpec(c.serviceInstance, true), EncodeSpec(c.endpoint, true),
               EncodeSpec(c.targetAddress, true)]
  {
    hide Split, EncodeSpec, ToString;
    FieldsAreDashFree(c);
    SplitJoin(HeaderFields(c));
    SampleFieldOf(HeaderSpec(c));
    SeparatorsCounted(HeaderSpec(c));
  }

  // Two headers that store past the array: a lone separator for one field, and any printed header with one
  // separator more.
  lemma {:induction false} PastFieldsWitnesses(c: SpanContext)
    requires c.sample && 0 <= c.spanId < 0x8000_0000
    ensures EndsPastFields([DASH], EXPECTED_EXTENSION_FIELD_COUNT)
    ensures EndsPastFields(HeaderSpec(c) + [DASH], EXPECTED_FIELD_COUNT)
  {
    hide Split, Separators, HeaderFields, SimpleAtoi, DecodeSpec;
    HeaderRoundTrip(c);
    SeparatorsOfDash();
    SeparatorsConcat(HeaderSpec(c), [DASH]);
  }

  // Of all int32 span ids, exactly the non-negative ones survive: a minus sign is one separator too many.
  lemma {:induction false} HeaderRoundTripExactly(c: SpanContext)
    requires c.sample && -0x8000_0000 <= c.spanId < 0x8000_0000
    ensures ParseSpec(HeaderSpec(c)) == Success(c) <==> c.spanId >= 0
  {
    if c.spanId >= 0 {
      HeaderRoundTrip(c);
    } else {
      var fs := HeaderFields(c);
      SeparatorsOfJoin(fs, 3);
      DashInToString(c.spanId);
      SeparatorsInside(ToString(c.spanId));
    }
  }
}
