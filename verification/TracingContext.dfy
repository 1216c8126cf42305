/** `TracingSpanImpl` and `TracingContextImpl` as objects: the handles a context gives out and the records of
    its segment are shared, and every method does to them what `ContextModel` says. */
module TracingContext {
  import opened Wrappers
  import opened Bytes
  import opened Base64
  import opened Decimal
  import opened Propagation
  import opened Segment
  import opened ContextModel
  import RandomGenerator

  // A span message inside a segment message; its address does not change.
  class SpanObject {
    var record: SpanRecord

    constructor ()
      ensures record == NewSpan(0).record.(componentId := 0)
    {
      record := NewSpan(0).record.(componentId := 0);
    }
  }

  // The messages of a repeated field, in order.
  function Contents(records: seq<SpanObject>): (v: seq<SpanRecord>)
    reads records
    ensures |v| == |records| && forall i :: 0 <= i < |records| ==> v[i] == records[i].record
  {
    if |records| == 0 then []
    else Contents(records[..|records| - 1]) + [records[|records| - 1].record]
  }

  class TracingSpan {
    var isFinished: bool
    const spanStore: SpanObject

    ghost function View(): Span
      reads this, spanStore
    {
      Span(spanStore.record, isFinished)
    }

    // The store has been added to the segment by the caller.
    constructor (spanId: int, spanStore: SpanObject)
      requires spanStore.record == NewSpan(0).record.(componentId := 0)
      modifies spanStore
      ensures this.spanStore == spanStore && View() == NewSpan(spanId)
      ensures spanStore.record == SpanRecord(spanId, 0, 0, 0, [], [], [], Entry, Unknown, 9000, false, [], [], false)
      ensures !isFinished
    {
      isFinished := false;
      this.spanStore := spanStore;
      new;
      spanStore.record := spanStore.record.(spanId := spanId);
      spanStore.record := spanStore.record.(componentId := 9000);
    }

    method StartSpan(name: Bytes, time: int)
      modifies spanStore
      ensures View() == ApplyOp(old(View()), ContextModel.StartSpan(name, time))
      ensures spanStore.record == old(spanStore.record).(operationName := name, startTime := time)
      ensures isFinished == old(isFinished)
    {
      spanStore.record := spanStore.record.(operationName := name);
      spanStore.record := spanStore.record.(startTime := time);
    }

    method EndSpan(time: int)
      requires !isFinished
      modifies this, spanStore
      ensures View() == ApplyOp(old(View()), ContextModel.EndSpan(time))
      ensures spanStore.record == old(spanStore.record).(endTime := time) && isFinished
    {
      spanStore.record := spanStore.record.(endTime := time);
      isFinished := true;
    }

    method SetPeer(peer: Bytes)
      requires !isFinished
      modifies spanStore
      ensures View() == ApplyOp(old(View()), ContextModel.SetPeer(peer))
      ensures spanStore.record == old(spanStore.record).(peer := peer) && isFinished == old(isFinished)
    {
      spanStore.record := spanStore.record.(peer := peer);
    }

    method SetSpanType(spanType: SpanType)
      modifies spanStore
      ensures View() == ApplyOp(old(View()), ContextModel.SetSpanType(spanType))
      ensures spanStore.record == old(spanStore.record).(spanType := spanType) && isFinished == old(isFinished)
    {
      spanStore.record := spanStore.record.(spanType := spanType);
    }

    method SetSpanLayer(spanLayer: SpanLayer)
      modifies spanStore
      ensures View() == ApplyOp(old(View()), ContextModel.SetSpanLayer(spanLayer))
      ensures spanStore.record == old(spanStore.record).(spanLayer := spanLayer) && isFinished == old(isFinished)
    {
      spanStore.record := spanStore.record.(spanLayer := spanLayer);
    }

    method SetErrorStatus()
      modifies spanStore
      ensures View() == ApplyOp(old(View()), ContextModel.SetErrorStatus)
      ensures spanStore.record == old(spanStore.record).(isError := true) && isFinished == old(isFinished)
    {
      spanStore.record := spanStore.record.(isError := true);
    }

    method SetSkipAnalysis()
      modifies spanStore
      ensures View() == ApplyOp(old(View()), ContextModel.SetSkipAnalysis)
      ensures spanStore.record == old(spanStore.record).(skipAnalysis := true) && isFinished == old(isFinished)
    {
      spanStore.record := spanStore.record.(skipAnalysis := true);
    }

    method AddTag(key: Bytes, value: Bytes)
      requires !isFinished
      modifies spanStore
      ensures View() == ApplyOp(old(View()), ContextModel.AddTag(key, value))
      ensures spanStore.record == old(spanStore.record).(tags := old(spanStore.record.tags) + [KeyValue(key, value)])
      ensures isFinished == old(isFinished)
    {
      var kv := KeyValue(key, value);
      spanStore.record := spanStore.record.(tags := spanStore.record.tags + [kv]);
    }

    method AddLog(key: Bytes, value: Bytes, time: int)
      requires !isFinished
      modifies spanStore
      ensures View() == ApplyOp(old(View()), ContextModel.AddLog(key, value, time))
      ensures spanStore.record
           == old(spanStore.record).(logs := old(spanStore.record.logs) + [Log(time, [KeyValue(key, value)])])
      ensures isFinished == old(isFinished)
    {
      var l := Log(time, [KeyValue(key, value)]);
      spanStore.record := spanStore.record.(logs := spanStore.record.logs + [l]);
    }

    method SetComponentId(componentId: int)
      requires !isFinished
      modifies spanStore
      ensures View() == ApplyOp(old(View()), ContextModel.SetComponentId(componentId))
      ensures spanStore.record == old(spanStore.record).(componentId := componentId) && isFinished == old(isFinished)
    {
      spanStore.record := spanStore.record.(componentId := componentId);
    }

    method SetOperationName(name: Bytes)
      requires !isFinished
      modifies spanStore
      ensures View() == ApplyOp(old(View()), ContextModel.SetOperationName(name))
      ensures spanStore.record == old(spanStore.record).(operationName := name) && isFinished == old(isFinished)
    {
      spanStore.record := spanStore.record.(operationName := name);
    }

    method SetParentSpanId(parentSpanId: int)
      requires !isFinished
      modifies spanStore
      ensures View() == ApplyOp(old(View()), ContextModel.SetParentSpanId(parentSpanId))
      ensures spanStore.record == old(spanStore.record).(parentSpanId := parentSpanId) && isFinished == old(isFinished)
    {
      spanStore.record := spanStore.record.(parentSpanId := parentSpanId);
    }

    method AddSegmentRef(spanContext: SpanContext)
      modifies spanStore
      ensures View() == ApplyOp(old(View()), ContextModel.AddSegmentRef(spanContext))
      ensures var c := spanContext;
              spanStore.record == old(spanStore.record).(refs := old(spanStore.record.refs) +
                [SegmentRef(CrossProcess, c.traceId, c.traceSegmentId, c.spanId, c.service, c.serviceInstance,
                            c.endpoint, c.targetAddress)])
      ensures isFinished == old(isFinished)
    {
      var entry := SegmentRef(CrossProcess, spanContext.traceId, spanContext.traceSegmentId, spanContext.spanId,
                              spanContext.service, spanContext.serviceInstance, spanContext.endpoint,
                              spanContext.targetAddress);
      spanStore.record := spanStore.record.(refs := spanStore.record.refs + [entry]);
    }
  }

  // ---------------------------------------------------------------- the header, piece by piece

  lemma JoinOne(p: Bytes)
    ensures Join([p]) == p
  {
  }

  lemma AppendField(f: seq<Bytes>, k: nat, a: Bytes) returns (b: Bytes)
    requires 0 < k < |f| && a == Join(f[..k]) + [DASH]
    ensures b == a + (f[k] + [DASH]) && b == Join(f[..k + 1]) + [DASH]
  {
    hide Join;
    JoinOneMore(f[..k], f[k]);
    assert f[..k] + [f[k]] == f[..k + 1];
    b := a + (f[k] + [DASH]);
    assert b == (Join(f[..k]) + [DASH] + f[k]) + [DASH];
  }

  // The eight fields with the separators between them, one after the other.
  lemma HeaderConcatenation(c: SpanContext)
    ensures HeaderSpec(c) ==
              [ONE, DASH] + (EncodeSpec(c.traceId, true) + [DASH]) + (EncodeSpec(c.traceSegmentId, true) + [DASH])
              + (ToString(c.spanId) + [DASH]) + (EncodeSpec(c.service, true) + [DASH])
              + (EncodeSpec(c.serviceInstance, true) + [DASH]) + (EncodeSpec(c.endpoint, true) + [DASH])
              + EncodeSpec(c.targetAddress, true)
  {
    hide EncodeSpec, ToString, Join;
    var f := HeaderFields(c);
    var a1 := [ONE, DASH];
    assert f[..1] == [[ONE]] && a1 == Join(f[..1]) + [DASH] by { JoinOne([ONE]); }
    var a2 := AppendField(f, 1, a1);
    var a3 := AppendField(f, 2, a2);
    var a4 := AppendField(f, 3, a3);
    var a5 := AppendField(f, 4, a4);
    var a6 := AppendField(f, 5, a5);
    var a7 := AppendField(f, 6, a6);
    JoinOneMore(f[..7], f[7]);
    assert f[..7] + [f[7]] == f;
  }

  // ---------------------------------------------------------------- contexts

  class TracingContext {
    const parentSpanContext: Option<SpanContext>
    const parentExtension: Option<TracingMode>
    var spans: seq<TracingSpan>
    var shouldSkipAnalysis: bool
    // segment_store_
    var traceId: Bytes
    var traceSegmentId: Bytes
    var service: Bytes
    var serviceInstance: Bytes
    var records: seq<SpanObject>

    // Handle i writes record i, and no other.
    ghost predicate Valid()
      reads this, spans
    {
      && |spans| == |records|
      && (forall i :: 0 <= i < |spans| ==> spans[i].spanStore == records[i])
      && (forall i, j :: 0 <= i < j < |records| ==> records[i] != records[j])
    }

    // The context with its handles and records.
    ghost function Repr(): set<object>
      reads this
    {
      {this} + (set s: object | s in spans) + (set r: object | r in records)
    }

    ghost function View(): (c: Context)
      requires Valid()
      reads this, spans, records
      ensures |c.spans| == |spans| && forall i :: 0 <= i < |spans| ==> c.spans[i] == spans[i].View()
    {
      Context(traceId, traceSegmentId, service, serviceInstance, parentSpanContext, parentExtension,
              shouldSkipAnalysis, Views(spans, records))
    }

    static ghost function Views(spans: seq<TracingSpan>, records: seq<SpanObject>): (v: seq<Span>)
      requires |spans| == |records| && forall i :: 0 <= i < |spans| ==> spans[i].spanStore == records[i]
      reads spans, records
      ensures |v| == |spans| && forall i :: 0 <= i < |spans| ==> v[i] == spans[i].View()
    {
      if |spans| == 0 then []
      else Views(spans[..|spans| - 1], records[..|spans| - 1]) + [spans[|spans| - 1].View()]
    }

    // The ids come from the generator: a new trace id only without a parent, and always a new segment id.
    constructor (service: Bytes, serviceInstance: Bytes, parent: Option<SpanContext>,
                 extension: Option<TracingMode>, random: RandomGenerator.RandomGeneratorImpl,
                 refill1: Bytes, refill2: Bytes)
      requires random.Valid() && |refill1| == |refill2| == RandomGenerator.BUFFER_SIZE
      modifies random, random.buffered
      ensures Valid() && random.Valid()
      ensures var first := RandomGenerator.NextUuid(old(random.Model()), refill1);
              var second := RandomGenerator.NextUuid(first.1, refill2);
              View() == NewContext(service, serviceInstance, parent, None, first.0,
                                   if parent.None? then second.0 else first.0).(parentExtension := extension)
              && random.Model() == if parent.None? then second.1 else first.1
    {
      parentSpanContext, parentExtension := parent, extension;
      spans, records, shouldSkipAnalysis := [], [], false;
      this.service, this.serviceInstance := service, serviceInstance;
      traceId, traceSegmentId := [], [];
      new;
      hide RandomGenerator.NextUuid, RandomGenerator.SourceValid;
      if parentSpanContext.Some? {
        traceId := parentSpanContext.value.traceId;
        traceSegmentId := random.Uuid(refill1);
      } else {
        traceId := random.Uuid(refill1);
        traceSegmentId := random.Uuid(refill2);
      }
    }

    method SetContextSkipAnalysis()
      requires Valid()
      modifies this`shouldSkipAnalysis
      ensures Valid() && View() == ApplyContextOp(old(View()), SetContextSkip)
      ensures shouldSkipAnalysis
    {
      shouldSkipAnalysis := true;
    }

    method CreateSpan() returns (currentSpan: TracingSpan)
      requires Valid()
      modifies this`spans, this`records
      ensures Valid() && fresh(currentSpan) && fresh(currentSpan.spanStore)
      ensures spans == old(spans) + [currentSpan] && records == old(records) + [currentSpan.spanStore]
      ensures currentSpan.View() == ContextModel.CreateSpan(old(View())) && !currentSpan.isFinished
      ensures currentSpan.spanStore.record ==
                SpanRecord(ToInt32(|old(spans)|), 0, 0, 0, [], [], [], Entry, Http, 9000, false, [], [],
                           shouldSkipAnalysis)
    {
      var store := new SpanObject();
      records := records + [store];
      currentSpan := new TracingSpan(ToInt32(|spans|), store);
      currentSpan.SetSpanLayer(Http);
      if shouldSkipAnalysis {
        currentSpan.SetSkipAnalysis();
      }
      spans := spans + [currentSpan];
    }

    method CreateExitSpan(parentSpan: TracingSpan) returns (currentSpan: TracingSpan)
      requires Valid()
      modifies this`spans, this`records
      ensures Valid() && fresh(currentSpan) && fresh(currentSpan.spanStore)
      ensures spans == old(spans) + [currentSpan] && records == old(records) + [currentSpan.spanStore]
      ensures var c := old(View());
              View() == c.(spans := c.spans + [ExitSpan(c, old(parentSpan.View()).record.spanId)])
      ensures currentSpan.spanStore.record ==
                SpanRecord(ToInt32(|old(spans)|), old(parentSpan.spanStore.record.spanId), 0, 0, [],
                           [], [], Exit, Http, 9000, false, [], [], shouldSkipAnalysis)
      ensures !currentSpan.isFinished
    {
      hide ApplyOp, ContextModel.CreateSpan, ExitSpan, ToInt32;
      ExitSpanShape(View(), parentSpan.spanStore.record.spanId);
      currentSpan := CreateSpan();
      currentSpan.SetParentSpanId(parentSpan.spanStore.record.spanId);
      currentSpan.SetSpanType(Exit);
      assert View().spans == old(View()).spans + [currentSpan.View()];
    }

    method CreateEntrySpan() returns (r: TracingSpan?)
      requires Valid()
      modifies this`spans, this`records
      ensures Valid() && (r == null <==> old(spans) != [])
      ensures r != null ==> fresh(r) && fresh(r.spanStore) && spans == [r] && records == [r.spanStore]
      ensures r == null ==> spans == old(spans) && records == old(records)
      ensures View() == ApplyContextOp(old(View()), ContextModel.CreateEntrySpan)
      ensures r != null ==>
                && r.spanStore.record ==
                     SpanRecord(0, -1, 0, 0,
                                if parentSpanContext.Some? then [RefOf(parentSpanContext.value)] else [],
                                [], [], Entry, Http, 9000, false, [], [], shouldSkipAnalysis)
                && !r.isFinished
    {
      if |spans| > 0 {
        return null;
      }
      hide EntrySpan, ToInt32, RefOf;
      EntrySpanShape(View());
      SmallInt32(0);
      var currentSpan := FirstSpan();
      assert View().spans == [currentSpan.View()];
      return currentSpan;
    }

    // What `createEntrySpan` does when there is no span yet.
    method FirstSpan() returns (currentSpan: TracingSpan)
      requires Valid() && spans == []
      modifies this`spans, this`records
      ensures Valid() && fresh(currentSpan) && fresh(currentSpan.spanStore)
      ensures spans == [currentSpan] && records == [currentSpan.spanStore]
      ensures currentSpan.spanStore.record ==
                SpanRecord(0, -1, 0, 0,
                           if parentSpanContext.Some? then [RefOf(parentSpanContext.value)] else [],
                           [], [], Entry, Http, 9000, false, [], [], shouldSkipAnalysis)
      ensures !currentSpan.isFinished
    {
      hide ApplyOp, ContextModel.CreateSpan, View, ToInt32;
      SmallInt32(0);
      currentSpan := CreateSpan();
      currentSpan.SetParentSpanId(-1);
      currentSpan.SetSpanType(Entry);
      if parentSpanContext.Some? {
        currentSpan.AddSegmentRef(parentSpanContext.value);
        assert currentSpan.spanStore.record.refs == [RefOf(parentSpanContext.value)];
      }
    }

    method ReadyToSend() returns (ready: bool)
      requires Valid()
      ensures ready == Ready(View())
      ensures ready <==> forall i :: 0 <= i < |spans| ==> spans[i].isFinished
    {
      for i := 0 to |spans|
        invariant forall j :: 0 <= j < i ==> View().spans[j].finished
      {
        if !spans[i].isFinished {
          assert !View().spans[i].finished;
          return false;
        }
      }
      return true;
    }

    // The segment is moved out, and the context keeps nothing of it.
    method CreateSegmentObject() returns (segment: SegmentObject)
      requires Valid()
      modifies this
      ensures Valid() && segment == SegmentOf(old(View()))
      ensures |segment.spans| == |old(records)|
      ensures forall i :: 0 <= i < |old(records)| ==> segment.spans[i] == old(records[i].record)
      ensures segment.traceId == old(traceId) && segment.traceSegmentId == old(traceSegmentId)
      ensures segment.service == old(service) && segment.serviceInstance == old(serviceInstance)
      ensures spans == [] && records == []
    {
      ghost var view := View();
      spans := [];
      segment := SegmentObject(traceId, traceSegmentId, Contents(records), service, serviceInstance);
      assert segment.spans == SegmentOf(view).spans;
      records, traceId, traceSegmentId, service, serviceInstance := [], [], [], [], [];
    }

    method CreateSW8HeaderValue(targetAddress: Bytes) returns (header: Option<Bytes>)
      requires Valid() && |spans| > 0
      ensures header == HeaderOf(View(), targetAddress)
      ensures header.Some? <==> spans[|spans| - 1].spanStore.record.spanType == Exit
      ensures header.Some? ==> [0x31, 0x2D] <= header.value
    {
      var targetSpan := spans[|spans| - 1];
      if targetSpan.spanStore.record.spanType != Exit {
        return None;
      }
      var value := EncodeSpan(targetSpan, targetAddress);
      return Some(value);
    }

    method EncodeSpan(parentSpan: TracingSpan, targetAddress: Bytes) returns (headerValue: Bytes)
      requires Valid() && |spans| > 0 && parentSpan == spans[|spans| - 1]
      ensures headerValue == HeaderSpec(Outgoing(View(), targetAddress))
      ensures [0x31, 0x2D] <= headerValue
    {
      var parentSpanId := ToString(parentSpan.spanStore.record.spanId);
      var endpoint := spans[0].spanStore.record.operationName;
      headerValue := [ONE, DASH];
      var field := Encode(traceId, true);
      headerValue := headerValue + (field + [DASH]);
      field := Encode(traceSegmentId, true);
      headerValue := headerValue + (field + [DASH]);
      headerValue := headerValue + (parentSpanId + [DASH]);
      field := Encode(service, true);
      headerValue := headerValue + (field + [DASH]);
      field := Encode(serviceInstance, true);
      headerValue := headerValue + (field + [DASH]);
      field := Encode(endpoint, true);
      headerValue := headerValue + (field + [DASH]);
      field := Encode(targetAddress, true);
      headerValue := headerValue + field;
      HeaderConcatenation(Outgoing(View(), targetAddress));
    }
  }

  // Any call on a span.
  method CallOnSpan(span: TracingSpan, op: SpanOp)
    requires Allowed(span.View(), op)
    modifies span, span.spanStore
    ensures span.View() == ApplyOp(old(span.View()), op)
  {
    hide ApplyOp;
    match op {
      case StartSpan(name, time) => span.StartSpan(name, time);
      case EndSpan(time) => span.EndSpan(time);
      case SetPeer(peer) => span.SetPeer(peer);
      case SetSpanType(t) => span.SetSpanType(t);
      case SetSpanLayer(l) => span.SetSpanLayer(l);
      case SetErrorStatus => span.SetErrorStatus();
      case SetSkipAnalysis => span.SetSkipAnalysis();
      case AddTag(key, value) => span.AddTag(key, value);
      case AddLog(key, value, time) => span.AddLog(key, value, time);
      case SetComponentId(id) => span.SetComponentId(id);
      case SetOperationName(name) => span.SetOperationName(name);
      case SetParentSpanId(id) => span.SetParentSpanId(id);
      case AddSegmentRef(c) => span.AddSegmentRef(c);
    }
  }

  // A call on a handle changes the record of that handle in the segment, and no other: whatever the call, the
  // context goes through the step of the model.
  method CallOnHandle(ctx: TracingContext, i: nat, op: SpanOp)
    requires ctx.Valid() && i < |ctx.spans| && Allowed(ctx.View().spans[i], op)
    modifies ctx.spans[i], ctx.spans[i].spanStore
    ensures ctx.Valid() && ctx.View() == ApplyContextOp(old(ctx.View()), OnSpan(i, op))
  {
    hide ApplyOp, Allowed;
    CallOnSpan(ctx.spans[i], op);
    assert ctx.View().spans == old(ctx.View()).spans[i := ctx.spans[i].View()];
  }

  // Any call of the API on a context or one of its handles.
  method CallOnContext(ctx: TracingContext, op: ContextOp)
    requires ctx.Valid() && OpAllowed(ctx.View(), op)
    modifies ctx.Repr()
    ensures ctx.Valid() && ctx.View() == ApplyContextOp(old(ctx.View()), op)
    ensures fresh(ctx.Repr() - old(ctx.Repr()))
  {
    hide ApplyOp, Allowed, EntrySpan, ExitSpan;
    match op {
      case CreateEntrySpan => var span := ctx.CreateEntrySpan();
      case CreateExitSpan(i) => var span := ctx.CreateExitSpan(ctx.spans[i]);
      case SetContextSkip => ctx.SetContextSkipAnalysis();
      case OnSpan(i, spanOp) => CallOnHandle(ctx, i, spanOp);
    }
  }

  // Any sequence of calls takes the object to what the model's sequence comes to.
  method CallAll(ctx: TracingContext, ops: seq<ContextOp>)
    requires ctx.Valid() && RunOps(ctx.View(), ops).Some?
    modifies ctx.Repr()
    ensures ctx.Valid() && Some(ctx.View()) == RunOps(old(ctx.View()), ops)
    ensures fresh(ctx.Repr() - old(ctx.Repr()))
  {
    hide ApplyContextOp, OpAllowed, RunOps;
    ghost var c := ctx.View();
    RunNoOps(c);
    for k := 0 to |ops|
      invariant ctx.Valid() && Some(ctx.View()) == RunOps(c, ops[..k])
      invariant fresh(ctx.Repr() - old(ctx.Repr()))
    {
      RunOpsPrefix(c, ops, k);
      CallOnContext(ctx, ops[k]);
    }
    assert ops[..|ops|] == ops;
  }

  class TracingContextFactory {
    const serviceName: Bytes
    const instanceName: Bytes
    const randomGenerator: RandomGenerator.RandomGeneratorImpl

    constructor (serviceName: Bytes, instanceName: Bytes)
      ensures this.serviceName == serviceName && this.instanceName == instanceName
      ensures fresh(randomGenerator) && randomGenerator.Valid() && fresh(randomGenerator.buffered)
    {
      this.serviceName, this.instanceName := serviceName, instanceName;
      randomGenerator := new RandomGenerator.RandomGeneratorImpl();
    }

    // The three overloads of `create`: without a parent, with one, and with one and its extension.
    method Create(parent: Option<SpanContext>, extension: Option<TracingMode>, refill1: Bytes, refill2: Bytes)
        returns (context: TracingContext)
      requires randomGenerator.Valid() && |refill1| == |refill2| == RandomGenerator.BUFFER_SIZE
      modifies randomGenerator, randomGenerator.buffered
      ensures fresh(context) && context.Valid() && randomGenerator.Valid()
      ensures var first := RandomGenerator.NextUuid(old(randomGenerator.Model()), refill1);
              var second := RandomGenerator.NextUuid(first.1, refill2);
              context.View() == NewContext(serviceName, instanceName, parent, extension, first.0,
                                           if parent.None? then second.0 else first.0)
              && context.traceId == (if parent.Some? then parent.value.traceId else first.0)
              && context.traceSegmentId == (if parent.Some? then first.0 else second.0)
      ensures context.service == serviceName && context.serviceInstance == instanceName
      ensures context.parentSpanContext == parent && context.spans == []
      ensures context.shouldSkipAnalysis <==> extension == Some(Skip)
    {
      context := new TracingContext(serviceName, instanceName, parent, extension, randomGenerator, refill1, refill2);
      if extension.Some? && extension.value == Skip {
        context.SetContextSkipAnalysis();
      }
    }
  }
}
