/** Spans and tracing contexts as values: what each call of the API does, and what every sequence of calls
    keeps.  The classes of `TracingContext` are proved to do exactly this. */
module ContextModel {
  import opened Wrappers
  import opened Bytes
  import opened Segment
  import opened Propagation

  // ---------------------------------------------------------------- spans

  datatype Span = Span(record: SpanRecord, finished: bool)

  datatype SpanOp =
    | StartSpan(name: Bytes, startTime: int)
    | EndSpan(endTime: int)
    | SetPeer(peer: Bytes)
    | SetSpanType(spanType: SpanType)
    | SetSpanLayer(spanLayer: SpanLayer)
    | SetErrorStatus
    | SetSkipAnalysis
    | AddTag(key: Bytes, value: Bytes)
    | AddLog(key: Bytes, value: Bytes, time: int)
    | SetComponentId(componentId: int)
    | SetOperationName(name: Bytes)
    | SetParentSpanId(parentSpanId: int)
    | AddSegmentRef(parent: SpanContext)

  // The calls that assert the span is not finished.
  predicate Guarded(op: SpanOp) {
    op.EndSpan? || op.SetPeer? || op.AddTag? || op.AddLog? || op.SetComponentId? || op.SetOperationName?
    || op.SetParentSpanId?
  }

  predicate Allowed(s: Span, op: SpanOp) {
    Guarded(op) ==> !s.finished
  }

  function RefOf(c: SpanContext): SegmentRef {
    SegmentRef(CrossProcess, c.traceId, c.traceSegmentId, c.spanId, c.service, c.serviceInstance, c.endpoint,
               c.targetAddress)
  }

  function ApplyOp(s: Span, op: SpanOp): Span {
    var r := s.record;
    match op
    case StartSpan(name, time) => s.(record := r.(operationName := name, startTime := time))
    case EndSpan(time) => Span(r.(endTime := time), true)
    case SetPeer(peer) => s.(record := r.(peer := peer))
    case SetSpanType(t) => s.(record := r.(spanType := t))
    case SetSpanLayer(l) => s.(record := r.(spanLayer := l))
    case SetErrorStatus => s.(record := r.(isError := true))
    case SetSkipAnalysis => s.(record := r.(skipAnalysis := true))
    case AddTag(key, value) => s.(record := r.(tags := r.tags + [KeyValue(key, value)]))
    case AddLog(key, value, time) => s.(record := r.(logs := r.logs + [Log(time, [KeyValue(key, value)])]))
    case SetComponentId(id) => s.(record := r.(componentId := id))
    case SetOperationName(name) => s.(record := r.(operationName := name))
    case SetParentSpanId(id) => s.(record := r.(parentSpanId := id))
    case AddSegmentRef(c) => s.(record := r.(refs := r.refs + [RefOf(c)]))
  }

  // An empty message with the id and the default component.
  function NewSpan(id: int): Span {
    Span(SpanRecord(id, 0, 0, 0, [], [], [], Entry, Unknown, 9000, false, [], [], false), false)
  }

  // The number of spans so far as an int32.
  function ToInt32(n: int): int {
    (n + TWO_31) % (2 * TWO_31) - TWO_31
  }

  // ---------------------------------------------------------------- contexts

  datatype Context = Context(
    traceId: Bytes,
    traceSegmentId: Bytes,
    service: Bytes,
    serviceInstance: Bytes,
    parent: Option<SpanContext>,
    parentExtension: Option<TracingMode>,
    skipAnalysis: bool,
    spans: seq<Span>)

  datatype ContextOp =
    | CreateEntrySpan
    | CreateExitSpan(parentIndex: nat)
    | SetContextSkip
    | OnSpan(index: nat, op: SpanOp)

  // The factory marks the context when the extension header asks for it.
  function NewContext(service: Bytes, serviceInstance: Bytes, parent: Option<SpanContext>,
                      extension: Option<TracingMode>, traceId: Bytes, traceSegmentId: Bytes): Context {
    Context(if parent.Some? then parent.value.traceId else traceId, traceSegmentId, service, serviceInstance,
            parent, extension, extension == Some(Skip), [])
  }

  function CreateSpan(c: Context): Span {
    var s := ApplyOp(NewSpan(ToInt32(|c.spans|)), SetSpanLayer(Http));
    if c.skipAnalysis then ApplyOp(s, SetSkipAnalysis) else s
  }

  function EntrySpan(c: Context): Span {
    var s := ApplyOp(ApplyOp(CreateSpan(c), SetParentSpanId(-1)), SetSpanType(Entry));
    if c.parent.Some? then ApplyOp(s, AddSegmentRef(c.parent.value)) else s
  }

  function ExitSpan(c: Context, parentSpanId: int): Span {
    ApplyOp(ApplyOp(CreateSpan(c), SetParentSpanId(parentSpanId)), SetSpanType(Exit))
  }

  predicate OpAllowed(c: Context, op: ContextOp) {
    match op
    case CreateEntrySpan => true
    case CreateExitSpan(i) => i < |c.spans|
    case SetContextSkip => true
    case OnSpan(i, op) => i < |c.spans| && Allowed(c.spans[i], op)
  }

  function ApplyContextOp(c: Context, op: ContextOp): Context
    requires OpAllowed(c, op)
  {
    match op
    case CreateEntrySpan => if |c.spans| > 0 then c else c.(spans := [EntrySpan(c)])
    case CreateExitSpan(i) => c.(spans := c.spans + [ExitSpan(c, c.spans[i].record.spanId)])
    case SetContextSkip => c.(skipAnalysis := true)
    case OnSpan(i, op) => c.(spans := c.spans[i := ApplyOp(c.spans[i], op)])
  }

  // The context after a sequence of calls, None if one of them violates an assertion or names no span.
  function RunOps(c: Context, ops: seq<ContextOp>): Option<Context> {
    if |ops| == 0 then Some(c)
    else
      match RunOps(c, ops[..|ops| - 1])
      case None => None
      case Some(d) => if OpAllowed(d, ops[|ops| - 1]) then Some(ApplyContextOp(d, ops[|ops| - 1])) else None
  }

  lemma RunNoOps(c: Context)
    ensures RunOps(c, []) == Some(c)
  {
  }

  // What came first of allowed calls was allowed, and the next one is.
  lemma {:induction false} RunOpsPrefix(c: Context, ops: seq<ContextOp>, k: nat)
    requires RunOps(c, ops).Some? && k < |ops|
    ensures RunOps(c, ops[..k]).Some? && OpAllowed(RunOps(c, ops[..k]).value, ops[k])
    ensures RunOps(c, ops[..k + 1]) == Some(ApplyContextOp(RunOps(c, ops[..k]).value, ops[k]))
  {
    hide ApplyContextOp, OpAllowed;
    var init := ops[..|ops| - 1];
    if k < |ops| - 1 {
      RunOpsPrefix(c, init, k);
      assert init[..k] == ops[..k] && init[..k + 1] == ops[..k + 1];
    } else {
      assert ops[..k + 1] == ops && ops[..k] == init;
    }
  }

  // ---------------------------------------------------------------- the span tree

  // Span i has id i; span 0 is the root; every other parent comes before its child.
  predicate IsTree(c: Context) {
    |c.spans| <= 0x8000_0000 ==>
      forall i :: 0 <= i < |c.spans| ==>
        var r := c.spans[i].record;
        r.spanId == i && (if i == 0 then r.parentSpanId == -1 else 0 <= r.parentSpanId < i)
  }

  predicate SetsNoParent(ops: seq<ContextOp>) {
    forall k :: 0 <= k < |ops| ==> !(ops[k].OnSpan? && ops[k].op.SetParentSpanId?)
  }

  lemma SpanOpKeepsIds(s: Span, op: SpanOp)
    ensures ApplyOp(s, op).record.spanId == s.record.spanId
    ensures !op.SetParentSpanId? ==> ApplyOp(s, op).record.parentSpanId == s.record.parentSpanId
    ensures s.record.skipAnalysis ==> ApplyOp(s, op).record.skipAnalysis
    ensures s.record.refs <= ApplyOp(s, op).record.refs
  {
  }

  lemma SmallInt32(n: nat)
    requires n < 0x8000_0000
    ensures ToInt32(n) == n
  {
  }

  lemma {:induction false} TreeStep(c: Context, op: ContextOp)
    requires IsTree(c) && OpAllowed(c, op) && !(op.OnSpan? && op.op.SetParentSpanId?)
    ensures IsTree(ApplyContextOp(c, op))
  {
    if op.OnSpan? {
      hide ApplyOp;
      SpanOpKeepsIds(c.spans[op.index], op.op);
    } else if |c.spans| < TWO_31 {
      SmallInt32(|c.spans|);
      hide ToInt32, EntrySpan, ExitSpan;
      EntrySpanShape(c);
      if op.CreateExitSpan? {
        ExitSpanShape(c, c.spans[op.parentIndex].record.spanId);
      }
    }
  }

  // Whatever the calls, as long as none of them sets a parent by hand, the spans form a tree.
  lemma {:induction false} TreeOverRuns(c: Context, ops: seq<ContextOp>)
    requires IsTree(c) && SetsNoParent(ops) && RunOps(c, ops).Some?
    ensures IsTree(RunOps(c, ops).value)
  {
    hide ApplyContextOp, OpAllowed, IsTree;
    if |ops| > 0 {
      TreeOverRuns(c, ops[..|ops| - 1]);
      TreeStep(RunOps(c, ops[..|ops| - 1]).value, ops[|ops| - 1]);
    }
  }

  // The chain of parents of span i.
  function PathToRoot(c: Context, i: nat): seq<nat>
    requires IsTree(c) && |c.spans| <= 0x8000_0000 && i < |c.spans|
    decreases i
  {
    if i == 0 then [0] else [i] + PathToRoot(c, c.spans[i].record.parentSpanId)
  }

  // Every chain of parents descends, without repetition, from the span to the root.
  lemma {:induction false} PathReachesRoot(c: Context, i: nat)
    requires IsTree(c) && |c.spans| <= 0x8000_0000 && i < |c.spans|
    ensures var p := PathToRoot(c, i);
            && |p| > 0 && p[0] == i && p[|p| - 1] == 0
            && (forall k :: 0 <= k < |p| ==> p[k] <= i)
            && forall k :: 0 < k < |p| ==> p[k] < p[k - 1] && c.spans[p[k - 1]].record.parentSpanId == p[k]
    decreases i
  {
    if i > 0 {
      PathReachesRoot(c, c.spans[i].record.parentSpanId);
    }
  }

  // ---------------------------------------------------------------- skip mode, references, identity

  // The context skips analysis and has marked every span.
  predicate AllSkipped(c: Context) {
    c.skipAnalysis && forall i :: 0 <= i < |c.spans| ==> c.spans[i].record.skipAnalysis
  }

  // The first span, if there is one, carries the reference to the parent segment first.
  predicate Referenced(c: Context) {
    c.parent.Some? && |c.spans| > 0 ==>
      |c.spans[0].record.refs| > 0 && c.spans[0].record.refs[0] == RefOf(c.parent.value)
  }

  // Span i has the int32 of i as its id, whatever is set on it.
  predicate Numbered(c: Context) {
    forall i :: 0 <= i < |c.spans| ==> c.spans[i].record.spanId == ToInt32(i)
  }

  predicate SameIdentity(c: Context, d: Context) {
    c.traceId == d.traceId && c.traceSegmentId == d.traceSegmentId && c.service == d.service
    && c.serviceInstance == d.serviceInstance && c.parent == d.parent && c.parentExtension == d.parentExtension
  }

  lemma {:induction false} ContextStep(c: Context, op: ContextOp)
    requires OpAllowed(c, op)
    ensures SameIdentity(c, ApplyContextOp(c, op)) && |c.spans| <= |ApplyContextOp(c, op).spans|
    ensures AllSkipped(c) ==> AllSkipped(ApplyContextOp(c, op))
    ensures Referenced(c) ==> Referenced(ApplyContextOp(c, op))
    ensures Numbered(c) ==> Numbered(ApplyContextOp(c, op))
  {
    hide ToInt32, ApplyOp, EntrySpan, ExitSpan;
    if op.OnSpan? {
      SpanOpKeepsIds(c.spans[op.index], op.op);
    } else if op.CreateEntrySpan? {
      EntrySpanShape(c);
    } else if op.CreateExitSpan? {
      ExitSpanShape(c, c.spans[op.parentIndex].record.spanId);
    }
  }

  // The record of a new span, field by field: id and parent, times, references, name and peer, type, layer, component,
  // error flag, tags, logs, skip mark.
  lemma EntrySpanShape(c: Context)
    ensures EntrySpan(c) ==
              Span(SpanRecord(ToInt32(|c.spans|), -1, 0, 0, if c.parent.Some? then [RefOf(c.parent.value)] else [],
                              [], [], Entry, Http, 9000, false, [], [], c.skipAnalysis),
                   false)
  {
    hide ToInt32;
  }

  lemma ExitSpanShape(c: Context, parentSpanId: int)
    ensures ExitSpan(c, parentSpanId) ==
              Span(SpanRecord(ToInt32(|c.spans|), parentSpanId, 0, 0, [],
                              [], [], Exit, Http, 9000, false, [], [], c.skipAnalysis),
                   false)
  {
    hide ToInt32;
  }

  // The id of span n is n as far as an int32 goes, and wraps then.
  lemma {:induction false} Int32Wraps(n: nat)
    ensures -0x8000_0000 <= ToInt32(n) < 0x8000_0000
    ensures exists k: nat :: n == ToInt32(n) + k * 0x1_0000_0000
  {
    var k := (n + 0x8000_0000) / 0x1_0000_0000;
    assert n == ToInt32(n) + k * 0x1_0000_0000;
  }

  // What a new context is: the trace of its parent, or the drawn one; the drawn segment id; and marked for skipping
  // exactly if the extension header says so.
  lemma NewContextShape(service: Bytes, serviceInstance: Bytes, parent: Option<SpanContext>,
                        extension: Option<TracingMode>, traceId: Bytes, traceSegmentId: Bytes)
    ensures var c := NewContext(service, serviceInstance, parent, extension, traceId, traceSegmentId);
            && c.traceId == (match parent case Some(p) => p.traceId case None => traceId)
            && c.traceSegmentId == traceSegmentId && c.service == service && c.serviceInstance == serviceInstance
            && c.parent == parent && c.parentExtension == extension && c.spans == []
            && (c.skipAnalysis <==> extension == Some(Skip))
  {
  }

  // In skip mode every span is marked; the first span refers to the parent segment; spans are numbered in
  // the order of their creation; the identity stays.
  lemma {:induction false} ContextOverRuns(c: Context, ops: seq<ContextOp>)
    requires c.spans == [] && RunOps(c, ops).Some?
    ensures var d := RunOps(c, ops).value;
            SameIdentity(c, d) && Referenced(d) && Numbered(d) && (c.skipAnalysis ==> AllSkipped(d))
  {
    hide ApplyContextOp, OpAllowed;
    if |ops| > 0 {
      ContextOverRuns(c, ops[..|ops| - 1]);
      ContextStep(RunOps(c, ops[..|ops| - 1]).value, ops[|ops| - 1]);
    }
  }

  // ---------------------------------------------------------------- finishing

  // What `endSpan` freezes.
  datatype FrozenPart = FrozenPart(spanId: int, endTime: int, tags: seq<KeyValue>, logs: seq<Log>, peer: Bytes,
                                   componentId: int, parentSpanId: int)

  function Frozen(s: Span): FrozenPart {
    var r := s.record;
    FrozenPart(r.spanId, r.endTime, r.tags, r.logs, r.peer, r.componentId, r.parentSpanId)
  }

  lemma {:induction false} FinishedStep(c: Context, op: ContextOp, i: nat)
    requires OpAllowed(c, op) && i < |c.spans| && c.spans[i].finished
    ensures var d := ApplyContextOp(c, op);
            i < |d.spans| && d.spans[i].finished && Frozen(d.spans[i]) == Frozen(c.spans[i])
  {
  }

  // Over every sequence of calls a finished span stays finished, and what is frozen does not change.
  lemma {:induction false} FinishedOverRuns(c: Context, ops: seq<ContextOp>, i: nat)
    requires i < |c.spans| && c.spans[i].finished && RunOps(c, ops).Some?
    ensures var d := RunOps(c, ops).value;
            i < |d.spans| && d.spans[i].finished && Frozen(d.spans[i]) == Frozen(c.spans[i])
  {
    hide ApplyContextOp, OpAllowed, Frozen;
    if |ops| > 0 {
      FinishedOverRuns(c, ops[..|ops| - 1], i);
      FinishedStep(RunOps(c, ops[..|ops| - 1]).value, ops[|ops| - 1], i);
    }
  }

  predicate Ready(c: Context) {
    forall i :: 0 <= i < |c.spans| ==> c.spans[i].finished
  }

  // The message a context becomes: its records in creation order.
  function SegmentOf(c: Context): SegmentObject {
    SegmentObject(c.traceId, c.traceSegmentId, seq(|c.spans|, i requires 0 <= i < |c.spans| => c.spans[i].record),
                  c.service, c.serviceInstance)
  }

  // A segment that is reported after any calls (ops2) has every span finished, in creation order, and for a
  // span that had finished before them it has the data of then.
  lemma {:induction false} ReportedIsComplete(c: Context, ops: seq<ContextOp>, d: Context, ops2: seq<ContextOp>,
                                              e: Context, i: nat)
    requires c.spans == []
    requires RunOps(c, ops) == Some(d) && RunOps(d, ops2) == Some(e) && Ready(e) && |e.spans| <= 0x8000_0000
    requires i < |d.spans| && d.spans[i].finished
    ensures |d.spans| <= |e.spans| == |SegmentOf(e).spans|
    ensures e.spans[i].finished && SegmentOf(e).spans[i].spanId == i
    ensures Frozen(Span(SegmentOf(e).spans[i], true)) == Frozen(d.spans[i])
  {
    hide RunOps, ToInt32;
    ContextOverRuns(c, ops);
    NumberedOverRuns(d, ops2);
    FinishedOverRuns(d, ops2, i);
    SmallInt32(i);
  }

  lemma {:induction false} NumberedOverRuns(c: Context, ops: seq<ContextOp>)
    requires Numbered(c) && RunOps(c, ops).Some?
    ensures Numbered(RunOps(c, ops).value) && |c.spans| <= |RunOps(c, ops).value.spans|
  {
    hide ApplyContextOp, OpAllowed;
    if |ops| > 0 {
      NumberedOverRuns(c, ops[..|ops| - 1]);
      ContextStep(RunOps(c, ops[..|ops| - 1]).value, ops[|ops| - 1]);
    }
  }

  // ---------------------------------------------------------------- the outgoing header

  // What a header sent now says about this context.
  function Outgoing(c: Context, targetAddress: Bytes): SpanContext
    requires |c.spans| > 0
  {
    SpanContext(true, c.traceId, c.traceSegmentId, c.spans[|c.spans| - 1].record.spanId, c.service,
                c.serviceInstance, c.spans[0].record.operationName, targetAddress)
  }

  // Only an exit span is propagated.
  function HeaderOf(c: Context, targetAddress: Bytes): Option<Bytes>
    requires |c.spans| > 0
  {
    if c.spans[|c.spans| - 1].record.spanType != Exit then None
    else Some(HeaderSpec(Outgoing(c, targetAddress)))
  }

  // A header is sent exactly if the last span is an exit span, finished or not.
  lemma HeaderSentExactly(c: Context, targetAddress: Bytes)
    requires |c.spans| > 0
    ensures HeaderOf(c, targetAddress).Some? <==> c.spans[|c.spans| - 1].record.spanType == Exit
  {
  }

  // So it is after an exit span was created, and as long as nothing but its type being set, or another exit span,
  // comes after.
  lemma {:induction false} HeaderAfterExitSpan(c: Context, i: nat, ops: seq<ContextOp>, targetAddress: Bytes)
    requires i < |c.spans|
    requires RunOps(ApplyContextOp(c, CreateExitSpan(i)), ops).Some?
    requires forall k :: 0 <= k < |ops| ==> !(ops[k].OnSpan? && ops[k].op.SetSpanType?)
    ensures var d := RunOps(ApplyContextOp(c, CreateExitSpan(i)), ops).value;
            |d.spans| > |c.spans| && HeaderOf(d, targetAddress).Some?
  {
    hide ToInt32, HeaderSpec;
    ExitSpanShape(c, c.spans[i].record.spanId);
    if |ops| > 0 {
      HeaderAfterExitSpan(c, i, ops[..|ops| - 1], targetAddress);
      var d := RunOps(ApplyContextOp(c, CreateExitSpan(i)), ops[..|ops| - 1]).value;
      LastTypeStep(d, ops[|ops| - 1]);
    }
  }

  lemma LastTypeStep(c: Context, op: ContextOp)
    requires |c.spans| > 0 && OpAllowed(c, op) && !(op.OnSpan? && op.op.SetSpanType?)
    requires c.spans[|c.spans| - 1].record.spanType == Exit
    ensures var d := ApplyContextOp(c, op);
            |d.spans| >= |c.spans| && d.spans[|d.spans| - 1].record.spanType == Exit
  {
  }
}
