/** The chain of processes of `Hops` on objects: each parses the header it gets, creates a context from its factory,
    makes its calls on it, and sends the header of the context on. */
module Chain {
  import opened Wrappers
  import opened Bytes
  import opened Segment
  import opened Propagation
  import opened ContextModel
  import opened Hops
  import RG = RandomGenerator
  import TC = TracingContext

  // What one process sees and does: the extension header, its calls, where it sends its request, and the random
  // bytes its generator gets if it runs out.
  datatype Visit = Visit(
    extension: Option<TracingMode>,
    ops: seq<ContextOp>,
    targetAddress: Bytes,
    refill1: Bytes,
    refill2: Bytes)

  predicate VisitValid(v: Visit) {
    |v.refill1| == |v.refill2| == RG.BUFFER_SIZE
  }

  // The hop this is, with the ids that the generator draws.
  function HopOf(service: Bytes, serviceInstance: Bytes, random: RG.Source, incoming: bool, v: Visit): Hop
    requires RG.SourceValid(random) && VisitValid(v)
  {
    var (first, random1) := RG.NextUuid(random, v.refill1);
    var (second, _) := RG.NextUuid(random1, v.refill2);
    Hop(service, serviceInstance, first, if incoming then first else second, v.extension, v.ops, v.targetAddress)
  }

  lemma NewHasNoSpans(service: Bytes, serviceInstance: Bytes, parent: Option<SpanContext>,
                      extension: Option<TracingMode>, traceId: Bytes, traceSegmentId: Bytes)
    ensures NewContext(service, serviceInstance, parent, extension, traceId, traceSegmentId).spans == []
  {
  }

  // One process, from the parsed header to the header it sends.
  method TraceHop(factory: TC.TracingContextFactory, incoming: Option<SpanContext>, v: Visit, ghost hop: Hop)
      returns (context: TC.TracingContext, sent: Option<Bytes>)
    requires factory.randomGenerator.Valid() && VisitValid(v)
    requires hop == HopOf(factory.serviceName, factory.instanceName, factory.randomGenerator.Model(),
                          incoming.Some?, v)
    requires ContextFrom(incoming, hop).Some?
    modifies factory.randomGenerator, factory.randomGenerator.buffered
    ensures context.Valid()
    ensures Some(context.View()) == ContextFrom(incoming, hop)
    ensures sent == if context.spans == [] then None else HeaderOf(context.View(), v.targetAddress)
    ensures sent.Some? <==>
              context.spans != [] && context.spans[|context.spans| - 1].spanStore.record.spanType == Exit
  {
    hide RG.NextUuid, RG.SourceValid, RunOps, HeaderOf, NewContext;
    context := factory.Create(incoming, v.extension, v.refill1, v.refill2);
    NewHasNoSpans(hop.service, hop.serviceInstance, incoming, hop.extension, hop.traceId, hop.traceSegmentId);
    assert context.spans == [] && context.records == [];
    hide HopOf;
    TC.CallAll(context, v.ops);
    hide *;
    sent := None;
    if |context.spans| > 0 {
      sent := context.CreateSW8HeaderValue(v.targetAddress);
    }
  }

  lemma {:induction false} EarlierHops(hops: seq<Hop>, k: nat, j: nat)
    requires j <= k < |hops| && ContextAt(hops, k).Some?
    ensures ContextAt(hops, j).Some?
    ensures j > 0 ==> Sent(hops, j - 1).Some? && ParseSpec(Sent(hops, j - 1).value).Success?
    ensures j > 0 ==> ContextAt(hops, j) == ContextFrom(Some(ParseSpec(Sent(hops, j - 1).value).value), hops[j])
  {
    hide ParseSpec, ContextFrom, HeaderOf;
    if j < k {
      EarlierHops(hops, k - 1, j);
    }
  }

  lemma {:induction false} EarlierCountable(hops: seq<Hop>, k: nat, j: nat)
    requires j <= k < |hops| && Countable(hops, k)
    ensures Countable(hops, j)
  {
    hide ContextAt;
    if j < k {
      EarlierCountable(hops, k - 1, j);
    }
  }

  // The first span of a context names everything about the context before it in the chain.
  ghost predicate RefersToCaller(callee: Context, caller: Context, targetAddress: Bytes) {
    |callee.spans| > 0 ==>
      && |caller.spans| > 0
      && |callee.spans[0].record.refs| > 0
      && callee.spans[0].record.refs[0] == RefOf(Outgoing(caller, targetAddress))
  }

  lemma {:induction false} ChainIsLinked(hops: seq<Hop>, k: nat)
    requires k < |hops| && ContextAt(hops, k).Some? && Countable(hops, k)
    ensures ContextAt(hops, 0).Some? && ContextAt(hops, k).value.traceId == ContextAt(hops, 0).value.traceId
    ensures k > 0 ==>
              && ContextAt(hops, k - 1).Some?
              && RefersToCaller(ContextAt(hops, k).value, ContextAt(hops, k - 1).value, hops[k - 1].targetAddress)
  {
    hide ParseSpec, RunOps, HeaderSpec;
    OneTraceId(hops, k);
    if k > 0 {
      NumberedContext(hops, k);
      SentIsParsed(hops, k - 1);
    }
  }

  // The context object is the kth of the chain of values; the generator is as given.
  ghost predicate IsAt(context: TC.TracingContext, hops: seq<Hop>, k: nat)
    reads context, context.spans, context.records
  {
    k < |hops| && context.Valid() && Some(context.View()) == ContextAt(hops, k)
  }

  ghost predicate Draws(factory: TC.TracingContextFactory, v: Visit, incoming: bool, hop: Hop)
    reads factory.randomGenerator, factory.randomGenerator.buffered
  {
    && factory.randomGenerator.Valid() && VisitValid(v)
    && hop == HopOf(factory.serviceName, factory.instanceName, factory.randomGenerator.Model(), incoming, v)
  }

  // Two contexts of one trace, the first span of one referring to the other.
  ghost predicate Linked(callee: TC.TracingContext, caller: TC.TracingContext, targetAddress: Bytes)
    reads callee, callee.spans, callee.records, caller, caller.spans, caller.records
  {
    && callee.Valid() && caller.Valid()
    && callee.traceId == caller.traceId
    && RefersToCaller(callee.View(), caller.View(), targetAddress)
  }

  lemma {:induction false} ObjectsAreLinked(callee: TC.TracingContext, caller: TC.TracingContext, hops: seq<Hop>,
                                            k: nat)
    requires 0 < k < |hops| && Countable(hops, k) && IsAt(callee, hops, k) && IsAt(caller, hops, k - 1)
    ensures Linked(callee, caller, hops[k - 1].targetAddress)
  {
    hide RefersToCaller, ContextAt;
    ChainIsLinked(hops, k);
    ChainIsLinked(hops, k - 1);
  }

  // The next process of the chain.
  method PlayHop(factory: TC.TracingContextFactory, v: Visit, header: Option<Bytes>, ghost hops: seq<Hop>,
                 ghost k: nat)
      returns (context: TC.TracingContext, sent: Option<Bytes>)
    requires k < |hops| && Draws(factory, v, k > 0, hops[k])
    requires ContextAt(hops, k).Some? && header == if k == 0 then None else Sent(hops, k - 1)
    requires header.Some? ==> |header.value| < 0x1_0000_0000_0000_0000
    modifies factory.randomGenerator, factory.randomGenerator.buffered
    ensures IsAt(context, hops, k) && sent == Sent(hops, k)
  {
    hide HopOf, ContextFrom, ParseSpec, HeaderOf;
    EarlierHops(hops, k, k);
    var incoming: Option<SpanContext> := None;
    if header.Some? {
      var parsed := ParseSpanContext(header.value);
      incoming := Some(parsed.value);
    }
    assert v.targetAddress == hops[k].targetAddress by { HopKeepsTarget(factory, v, k > 0, hops[k]); }
    context, sent := TraceHop(factory, incoming, v, hops[k]);
  }

  lemma HopKeepsTarget(factory: TC.TracingContextFactory, v: Visit, incoming: bool, hop: Hop)
    requires Draws(factory, v, incoming, hop)
    ensures hop.targetAddress == v.targetAddress
  {
  }

  // The generators and their buffers; each process has its own.
  ghost function Randoms(factories: seq<TC.TracingContextFactory>): set<object> {
    (set k | 0 <= k < |factories| :: factories[k].randomGenerator as object)
    + (set k | 0 <= k < |factories| :: factories[k].randomGenerator.buffered as object)
  }

  ghost predicate Apart(factories: seq<TC.TracingContextFactory>) {
    forall j, k :: 0 <= j < k < |factories| ==>
      && factories[j].randomGenerator != factories[k].randomGenerator
      && factories[j].randomGenerator.buffered != factories[k].randomGenerator.buffered
  }

  lemma RandomsOf(factories: seq<TC.TracingContextFactory>, k: nat)
    requires k < |factories| && Apart(factories)
    ensures factories[k].randomGenerator in Randoms(factories)
    ensures factories[k].randomGenerator.buffered in Randoms(factories)
    ensures forall j :: 0 <= j < |factories| && j != k ==>
              && factories[j].randomGenerator != factories[k].randomGenerator
              && factories[j].randomGenerator.buffered != factories[k].randomGenerator.buffered
  {
  }

  // A chain of any length: the objects end as the chain of values says.
  method PlayChain(factories: seq<TC.TracingContextFactory>, visits: seq<Visit>, ghost hops: seq<Hop>)
      returns (contexts: seq<TC.TracingContext>)
    requires |factories| == |visits| == |hops| > 0
    requires forall k :: 0 <= k < |hops| ==> Draws(factories[k], visits[k], k > 0, hops[k])
    requires Apart(factories)
    requires ContextAt(hops, |hops| - 1).Some?
    requires forall k :: 0 <= k < |hops| && Sent(hops, k).Some? ==> |Sent(hops, k).value| < 0x1_0000_0000_0000_0000
    modifies Randoms(factories)
    ensures |contexts| == |hops| && forall k :: 0 <= k < |hops| ==> IsAt(contexts[k], hops, k)
  {
    hide *;
    contexts := [];
    var header: Option<Bytes> := None;
    for k := 0 to |visits|
      invariant |contexts| == k && forall j :: 0 <= j < k ==> IsAt(contexts[j], hops, j)
      invariant header == if k == 0 then None else Sent(hops, k - 1)
      invariant forall j :: k <= j < |factories| ==> Draws(factories[j], visits[j], j > 0, hops[j])
    {
      EarlierHops(hops, |hops| - 1, k);
      RandomsOf(factories, k);
      var context;
      label before:
      context, header := PlayHop(factories[k], visits[k], header, hops, k);
      forall j | 0 <= j < k
        ensures IsAt(contexts[j], hops, j)
      {
        assert unchanged@before(contexts[j], contexts[j].spans, contexts[j].records);
      }
      contexts := contexts + [context];
    }
  }

  // And they have one trace id, and the first span of each refers to its caller.
  lemma {:induction false} ChainOfObjects(contexts: seq<TC.TracingContext>, hops: seq<Hop>, k: nat)
    requires 0 < k < |hops| == |contexts| && Countable(hops, |hops| - 1)
    requires forall j :: 0 <= j < |hops| ==> IsAt(contexts[j], hops, j)
    ensures Linked(contexts[k], contexts[k - 1], hops[k - 1].targetAddress)
  {
    hide IsAt, Linked, Countable;
    EarlierCountable(hops, |hops| - 1, k);
    ObjectsAreLinked(contexts[k], contexts[k - 1], hops, k);
  }
}
