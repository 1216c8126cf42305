/** The records a segment is made of, as values: what a `SegmentObject` message holds when it is handed over. */
module Segment {
  import opened Bytes

  datatype SpanType = Entry | Exit | Local

  datatype SpanLayer = Unknown | Database | RPCFramework | Http | MQ | Cache | FAAS

  datatype KeyValue = KeyValue(key: Bytes, value: Bytes)

  datatype Log = Log(time: int, data: seq<KeyValue>)

  datatype RefType = CrossProcess | CrossThread

  datatype SegmentRef = SegmentRef(
    refType: RefType,
    traceId: Bytes,
    parentTraceSegmentId: Bytes,
    parentSpanId: int,
    parentService: Bytes,
    parentServiceInstance: Bytes,
    parentEndpoint: Bytes,
    networkAddressUsedAtPeer: Bytes)

  datatype SpanRecord = SpanRecord(
    spanId: int,
    parentSpanId: int,
    startTime: int,
    endTime: int,
    refs: seq<SegmentRef>,
    operationName: Bytes,
    peer: Bytes,
    spanType: SpanType,
    spanLayer: SpanLayer,
    componentId: int,
    isError: bool,
    tags: seq<KeyValue>,
    logs: seq<Log>,
    skipAnalysis: bool)

  datatype SegmentObject = SegmentObject(
    traceId: Bytes,
    traceSegmentId: Bytes,
    spans: seq<SpanRecord>,
    service: Bytes,
    serviceInstance: Bytes)
}
