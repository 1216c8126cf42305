/** A trace through a chain of processes: each parses the header of the one before, traces its own work, and
    sends a header on. */
module Hops {
  import opened Wrappers
  import opened Bytes
  import opened Segment
  import opened Propagation
  import opened ContextModel

  // What one process contributes: its names, the two ids it would draw, the extension header it saw, the
  // calls it makes on its context, and the address it sends its request to.
  datatype Hop = Hop(
    service: Bytes,
    serviceInstance: Bytes,
    traceId: Bytes,
    traceSegmentId: Bytes,
    extension: Option<TracingMode>,
    ops: seq<ContextOp>,
    targetAddress: Bytes)

  function ContextFrom(incoming: Option<SpanContext>, hop: Hop): Option<Context> {
    RunOps(NewContext(hop.service, hop.serviceInstance, incoming, hop.extension, hop.traceId, hop.traceSegmentId),
           hop.ops)
  }

  // The header process k sends, if it has an exit span last.
  function Sent(hops: seq<Hop>, k: nat): Option<Bytes>
    requires k < |hops|
    decreases k, 1
  {
    match ContextAt(hops, k)
    case None => None
    case Some(c) => if |c.spans| == 0 then None else HeaderOf(c, hops[k].targetAddress)
  }

  // The context of process k at the end of its calls, if every process before it sent a header that the
  // next one could parse.
  function ContextAt(hops: seq<Hop>, k: nat): Option<Context>
    requires k < |hops|
    decreases k, 0
  {
    if k == 0 then ContextFrom(None, hops[0])
    else
      match Sent(hops, k - 1)
      case None => None
      case Some(header) =>
        match ParseSpec(header)
        case Failure(_) => None
        case Success(c) => ContextFrom(Some(c), hops[k])
  }

  // No process up to the kth creates more spans than an int32 can number.
  predicate Countable(hops: seq<Hop>, k: nat)
    requires k < |hops|
  {
    && (ContextAt(hops, k).Some? ==> |ContextAt(hops, k).value.spans| <= 0x8000_0000)
    && (k > 0 ==> Countable(hops, k - 1))
  }

  // A header that is sent is understood: the next process sees what this one is.
  lemma {:induction false} SentIsParsed(hops: seq<Hop>, k: nat)
    requires k < |hops| && Countable(hops, k) && Sent(hops, k).Some?
    ensures ContextAt(hops, k).Some? && |ContextAt(hops, k).value.spans| > 0
    ensures !EndsPastFields(Sent(hops, k).value, EXPECTED_FIELD_COUNT)
    ensures ParseSpec(Sent(hops, k).value) == Success(Outgoing(ContextAt(hops, k).value, hops[k].targetAddress))
  {
    hide HeaderSpec, ParseSpec, EndsPastFields, RunOps;
    var c := ContextAt(hops, k).value;
    NumberedContext(hops, k);
    SmallInt32(|c.spans| - 1);
    HeaderRoundTrip(Outgoing(c, hops[k].targetAddress));
  }

  lemma {:induction false} NumberedContext(hops: seq<Hop>, k: nat)
    requires k < |hops| && ContextAt(hops, k).Some?
    ensures Numbered(ContextAt(hops, k).value) && Referenced(ContextAt(hops, k).value)
    ensures k == 0 ==> ContextAt(hops, k).value.parent == None
    ensures k > 0 ==>
              && Sent(hops, k - 1).Some? && ParseSpec(Sent(hops, k - 1).value).Success?
              && ContextAt(hops, k).value.parent == Some(ParseSpec(Sent(hops, k - 1).value).value)
              && ContextAt(hops, k).value.traceId == ParseSpec(Sent(hops, k - 1).value).value.traceId
    ensures var c := ContextAt(hops, k).value;
            c.service == hops[k].service && c.serviceInstance == hops[k].serviceInstance
            && c.traceSegmentId == hops[k].traceSegmentId
  {
    hide RunOps, ParseSpec, Numbered, Referenced, AllSkipped;
    var hop := hops[k];
    var incoming := if k == 0 then None else Some(ParseSpec(Sent(hops, k - 1).value).value);
    ContextOverRuns(NewContext(hop.service, hop.serviceInstance, incoming, hop.extension,
                               hop.traceId, hop.traceSegmentId),
                    hop.ops);
  }

  // A process sends a header exactly if its context has a last span, and that is an exit span.
  lemma {:induction false} SendsExactly(hops: seq<Hop>, k: nat)
    requires k < |hops|
    ensures Sent(hops, k).Some? <==>
              && ContextAt(hops, k).Some?
              && var spans := ContextAt(hops, k).value.spans;
                 |spans| > 0 && spans[|spans| - 1].record.spanType == Exit
  {
    hide ContextAt;
    if ContextAt(hops, k).Some? && |ContextAt(hops, k).value.spans| > 0 {
      HeaderSentExactly(ContextAt(hops, k).value, hops[k].targetAddress);
    }
  }

  // So every process of a chain runs if its calls are allowed and the ones before it end with an exit span.
  lemma {:induction false} NextRuns(hops: seq<Hop>, k: nat)
    requires k + 1 < |hops| && ContextAt(hops, k).Some? && Countable(hops, k)
    requires var spans := ContextAt(hops, k).value.spans; |spans| > 0 && spans[|spans| - 1].record.spanType == Exit
    ensures ContextAt(hops, k + 1) ==
              ContextFrom(Some(Outgoing(ContextAt(hops, k).value, hops[k].targetAddress)), hops[k + 1])
  {
    hide ParseSpec, ContextFrom, HeaderSpec;
    SendsExactly(hops, k);
    SentIsParsed(hops, k);
  }

  // One trace id along the whole chain.
  lemma {:induction false} OneTraceId(hops: seq<Hop>, k: nat)
    requires k < |hops| && Countable(hops, k) && ContextAt(hops, k).Some?
    ensures ContextAt(hops, 0).Some? && ContextAt(hops, k).value.traceId == ContextAt(hops, 0).value.traceId
  {
    hide ParseSpec, RunOps;
    if k > 0 {
      NumberedContext(hops, k);
      SentIsParsed(hops, k - 1);
      OneTraceId(hops, k - 1);
    }
  }

  // The first span of each process refers to the process before it: its trace, its segment, its last span,
  // which is the exit span, its names, the operation of its first span, and the address it called.
  lemma {:induction false} EntryRefersToCaller(hops: seq<Hop>, k: nat)
    requires 0 < k < |hops| && Countable(hops, k) && ContextAt(hops, k).Some?
    requires |ContextAt(hops, k).value.spans| > 0
    ensures ContextAt(hops, k - 1).Some? && |ContextAt(hops, k - 1).value.spans| > 0
    ensures var caller, refs := ContextAt(hops, k - 1).value, ContextAt(hops, k).value.spans[0].record.refs;
            var exit := caller.spans[|caller.spans| - 1].record;
            && |refs| > 0
            && exit.spanType == Exit
            && exit.spanId == |caller.spans| - 1
            && refs[0] == SegmentRef(CrossProcess, caller.traceId, hops[k - 1].traceSegmentId, exit.spanId,
                                     hops[k - 1].service, hops[k - 1].serviceInstance,
                                     caller.spans[0].record.operationName, hops[k - 1].targetAddress)
  {
    hide ParseSpec, RunOps, HeaderSpec;
    NumberedContext(hops, k);
    SentIsParsed(hops, k - 1);
    NumberedContext(hops, k - 1);
    SmallInt32(|ContextAt(hops, k - 1).value.spans| - 1);
  }
}
