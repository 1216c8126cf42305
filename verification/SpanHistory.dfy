/** What a span's record holds after any calls on its context, read off the calls themselves: the values that were
    last set, and the tags, logs and references that were added, in order. */
module SpanHistory {
  import opened Wrappers
  import opened Bytes
  import opened Segment
  import opened Propagation
  import opened ContextModel

  // ---------------------------------------------------------------- reading calls

  // What the last call on span i set, among the calls that pick selects; and all that they added.
  function Last<T>(ops: seq<ContextOp>, i: nat, pick: SpanOp -> Option<T>): Option<T> {
    if |ops| == 0 then None
    else
      var a := ops[|ops| - 1];
      if a.OnSpan? && a.index == i && pick(a.op).Some? then pick(a.op) else Last(ops[..|ops| - 1], i, pick)
  }

  function All<T>(ops: seq<ContextOp>, i: nat, pick: SpanOp -> Option<T>): seq<T> {
    if |ops| == 0 then []
    else
      var init, a := ops[..|ops| - 1], ops[|ops| - 1];
      if a.OnSpan? && a.index == i && pick(a.op).Some? then All(init, i, pick) + [pick(a.op).value]
      else All(init, i, pick)
  }

  function Or<T>(o: Option<T>, default: T): T {
    if o.Some? then o.value else default
  }

  function NameIn(op: SpanOp): Option<Bytes> {
    if op.StartSpan? then Some(op.name) else if op.SetOperationName? then Some(op.name) else None
  }

  function StartIn(op: SpanOp): Option<int> {
    if op.StartSpan? then Some(op.startTime) else None
  }

  function EndIn(op: SpanOp): Option<int> {
    if op.EndSpan? then Some(op.endTime) else None
  }

  function PeerIn(op: SpanOp): Option<Bytes> {
    if op.SetPeer? then Some(op.peer) else None
  }

  function TypeIn(op: SpanOp): Option<SpanType> {
    if op.SetSpanType? then Some(op.spanType) else None
  }

  function LayerIn(op: SpanOp): Option<SpanLayer> {
    if op.SetSpanLayer? then Some(op.spanLayer) else None
  }

  function ComponentIn(op: SpanOp): Option<int> {
    if op.SetComponentId? then Some(op.componentId) else None
  }

  function ParentIn(op: SpanOp): Option<int> {
    if op.SetParentSpanId? then Some(op.parentSpanId) else None
  }

  function TagIn(op: SpanOp): Option<KeyValue> {
    if op.AddTag? then Some(KeyValue(op.key, op.value)) else None
  }

  function LogIn(op: SpanOp): Option<Log> {
    if op.AddLog? then Some(Log(op.time, [KeyValue(op.key, op.value)])) else None
  }

  function RefIn(op: SpanOp): Option<SegmentRef> {
    if !op.AddSegmentRef? then None
    else
      var p := op.parent;
      Some(SegmentRef(CrossProcess, p.traceId, p.traceSegmentId, p.spanId, p.service, p.serviceInstance, p.endpoint,
                      p.targetAddress))
  }

  function ErrorIn(op: SpanOp): Option<bool> {
    if op.SetErrorStatus? then Some(true) else None
  }

  function SkipIn(op: SpanOp): Option<bool> {
    if op.SetSkipAnalysis? then Some(true) else None
  }

  // The spans these calls create: an entry span only if there is none.
  function Created(ops: seq<ContextOp>): nat {
    if |ops| == 0 then 0
    else
      var a, n := ops[|ops| - 1], Created(ops[..|ops| - 1]);
      if a.CreateExitSpan? || (a.CreateEntrySpan? && n == 0) then n + 1 else n
  }

  // The span that the ith was created below, and whether the context was set to skip before.
  function Below(ops: seq<ContextOp>, i: nat): Option<nat> {
    if |ops| == 0 then None
    else
      var init, a := ops[..|ops| - 1], ops[|ops| - 1];
      if a.CreateExitSpan? && Created(init) == i then Some(a.parentIndex) else Below(init, i)
  }

  function SkipSetBefore(ops: seq<ContextOp>, i: nat): bool {
    if |ops| == 0 then false
    else
      var init, a := ops[..|ops| - 1], ops[|ops| - 1];
      (a.SetContextSkip? && Created(init) <= i) || SkipSetBefore(init, i)
  }

  // ---------------------------------------------------------------- the record

  // The record of span i and whether it is finished, as the calls say.
  function Told(c: Context, ops: seq<ContextOp>, i: nat): Span {
    Span(SpanRecord(
           ToInt32(i),
           Or(Last(ops, i, ParentIn), if Below(ops, i).Some? then ToInt32(Below(ops, i).value) else -1),
           Or(Last(ops, i, StartIn), 0),
           Or(Last(ops, i, EndIn), 0),
           (if i == 0 && c.parent.Some? then [RefOf(c.parent.value)] else []) + All(ops, i, RefIn),
           Or(Last(ops, i, NameIn), []),
           Or(Last(ops, i, PeerIn), []),
           Or(Last(ops, i, TypeIn), if i == 0 then Entry else Exit),
           Or(Last(ops, i, LayerIn), Http),
           Or(Last(ops, i, ComponentIn), 9000),
           Last(ops, i, ErrorIn).Some?,
           All(ops, i, TagIn),
           All(ops, i, LogIn),
           c.skipAnalysis || SkipSetBefore(ops, i) || Last(ops, i, SkipIn).Some?),
         Last(ops, i, EndIn).Some?)
  }

  // Before a span exists no call is made on it.
  lemma {:induction false} NoCallYet<T>(c: Context, ops: seq<ContextOp>, i: nat, pick: SpanOp -> Option<T>)
    requires RunOps(c, ops).Some? && i >= |RunOps(c, ops).value.spans|
    ensures Last(ops, i, pick) == None && All(ops, i, pick) == []
  {
    hide ApplyContextOp;
    if |ops| > 0 {
      SpansGrow(RunOps(c, ops[..|ops| - 1]).value, ops[|ops| - 1]);
      NoCallYet(c, ops[..|ops| - 1], i, pick);
    }
  }

  lemma SpansGrow(c: Context, op: ContextOp)
    requires OpAllowed(c, op)
    ensures |ApplyContextOp(c, op).spans| >= |c.spans|
  {
  }

  lemma {:induction false} NotBelowYet(ops: seq<ContextOp>, i: nat)
    requires i >= Created(ops)
    ensures Below(ops, i) == None
  {
    if |ops| > 0 {
      NotBelowYet(ops[..|ops| - 1], i);
    }
  }

  lemma {:induction false} SkipSoFar(c: Context, ops: seq<ContextOp>, i: nat)
    requires RunOps(c, ops).Some? && i >= Created(ops)
    ensures RunOps(c, ops).value.skipAnalysis <==> c.skipAnalysis || SkipSetBefore(ops, i)
  {
    hide ApplyContextOp;
    if |ops| > 0 {
      SkipSoFar(c, ops[..|ops| - 1], i);
      SkipStep(RunOps(c, ops[..|ops| - 1]).value, ops[|ops| - 1]);
    }
  }

  lemma SkipStep(c: Context, op: ContextOp)
    requires OpAllowed(c, op)
    ensures ApplyContextOp(c, op).skipAnalysis <==> c.skipAnalysis || op.SetContextSkip?
  {
  }

  lemma Untold(c: Context, ops: seq<ContextOp>, i: nat)
    requires RunOps(c, ops).Some? && i >= |RunOps(c, ops).value.spans| && i >= Created(ops)
    ensures Told(c, ops, i) ==
              Span(SpanRecord(ToInt32(i), -1, 0, 0, if i == 0 && c.parent.Some? then [RefOf(c.parent.value)] else [],
                              [], [], if i == 0 then Entry else Exit, Http, 9000, false, [], [],
                              RunOps(c, ops).value.skipAnalysis),
                   false)
    ensures Last(ops, i, ParentIn) == None
  {
    hide ToInt32, RunOps, Last, All, Below, Created;
    NotBelowYet(ops, i);
    SkipSoFar(c, ops, i);
    NoCallYet(c, ops, i, ParentIn);
    NoCallYet(c, ops, i, StartIn);
    NoCallYet(c, ops, i, EndIn);
    NoCallYet(c, ops, i, RefIn);
    NoCallYet(c, ops, i, NameIn);
    NoCallYet(c, ops, i, PeerIn);
    NoCallYet(c, ops, i, TypeIn);
    NoCallYet(c, ops, i, LayerIn);
    NoCallYet(c, ops, i, ComponentIn);
    NoCallYet(c, ops, i, ErrorIn);
    NoCallYet(c, ops, i, TagIn);
    NoCallYet(c, ops, i, LogIn);
    NoCallYet(c, ops, i, SkipIn);
  }

  // What one more call changes in what is told of span i: a call on it, its creation, anything else.
  lemma {:induction false} CallIsTold(c: Context, ops: seq<ContextOp>, i: nat)
    requires |ops| > 0 && ops[|ops| - 1].OnSpan? && ops[|ops| - 1].index == i
    ensures Told(c, ops, i) == ApplyOp(Told(c, ops[..|ops| - 1], i), ops[|ops| - 1].op)
  {
    hide ToInt32, Last, All, Below, SkipSetBefore;
    assert Below(ops, i) == Below(ops[..|ops| - 1], i) && SkipSetBefore(ops, i) == SkipSetBefore(ops[..|ops| - 1], i)
    by { NoCreation(ops, i); }
    LastOfOneMore(ops, i, ParentIn);
    LastOfOneMore(ops, i, StartIn);
    LastOfOneMore(ops, i, EndIn);
    LastOfOneMore(ops, i, NameIn);
    LastOfOneMore(ops, i, PeerIn);
    LastOfOneMore(ops, i, TypeIn);
    LastOfOneMore(ops, i, LayerIn);
    LastOfOneMore(ops, i, ComponentIn);
    LastOfOneMore(ops, i, ErrorIn);
    LastOfOneMore(ops, i, SkipIn);
    AllOfOneMore(ops, i, RefIn);
    AllOfOneMore(ops, i, TagIn);
    AllOfOneMore(ops, i, LogIn);
  }

  lemma NoCreation(ops: seq<ContextOp>, i: nat)
    requires |ops| > 0 && ops[|ops| - 1].OnSpan?
    ensures Below(ops, i) == Below(ops[..|ops| - 1], i) && SkipSetBefore(ops, i) == SkipSetBefore(ops[..|ops| - 1], i)
  {
  }

  lemma LastOfOneMore<T>(ops: seq<ContextOp>, i: nat, pick: SpanOp -> Option<T>)
    requires |ops| > 0 && ops[|ops| - 1].OnSpan? && ops[|ops| - 1].index == i
    ensures var p := pick(ops[|ops| - 1].op);
            Last(ops, i, pick) == if p.Some? then p else Last(ops[..|ops| - 1], i, pick)
  {
  }

  lemma AllOfOneMore<T>(ops: seq<ContextOp>, i: nat, pick: SpanOp -> Option<T>)
    requires |ops| > 0 && ops[|ops| - 1].OnSpan? && ops[|ops| - 1].index == i
    ensures var init, p := ops[..|ops| - 1], pick(ops[|ops| - 1].op);
            All(ops, i, pick) == if p.Some? then All(init, i, pick) + [p.value] else All(init, i, pick)
  {
  }

  lemma {:induction false} CreationIsTold(c: Context, ops: seq<ContextOp>, i: nat)
    requires |ops| > 0 && (ops[|ops| - 1].CreateEntrySpan? || ops[|ops| - 1].CreateExitSpan?)
    requires i == Created(ops[..|ops| - 1]) && Last(ops[..|ops| - 1], i, ParentIn) == None
    ensures var a, t := ops[|ops| - 1], Told(c, ops[..|ops| - 1], i);
            Told(c, ops, i) ==
              if a.CreateExitSpan? then t.(record := t.record.(parentSpanId := ToInt32(a.parentIndex))) else t
  {
    hide ToInt32;
  }

  lemma {:induction false} OthersAreTold(c: Context, ops: seq<ContextOp>, i: nat)
    requires |ops| > 0 && i < Created(ops[..|ops| - 1])
    requires ops[|ops| - 1].OnSpan? ==> ops[|ops| - 1].index != i
    ensures Told(c, ops, i) == Told(c, ops[..|ops| - 1], i)
  {
    hide ToInt32;
  }

  // Every record of every context, from its calls alone.
  lemma {:induction false} RecordsAreTold(c: Context, ops: seq<ContextOp>)
    requires c.spans == [] && RunOps(c, ops).Some?
    ensures var d := RunOps(c, ops).value;
            && |d.spans| == Created(ops)
            && forall i :: 0 <= i < |d.spans| ==> d.spans[i] == Told(c, ops, i)
  {
    hide ToInt32, Told, ApplyOp, EntrySpan, ExitSpan, Last;
    if |ops| > 0 {
      var init, a := ops[..|ops| - 1], ops[|ops| - 1];
      RecordsAreTold(c, init);
      var d, e := RunOps(c, init).value, RunOps(c, ops).value;
      forall i | 0 <= i < |e.spans|
        ensures e.spans[i] == Told(c, ops, i)
      {
        if i == |d.spans| {
          NewIsTold(c, ops);
        } else if a.OnSpan? && a.index == i {
          CallIsTold(c, ops, i);
        } else {
          OthersAreTold(c, ops, i);
        }
      }
    }
  }

  lemma {:induction false} NewIsTold(c: Context, ops: seq<ContextOp>)
    requires |ops| > 0 && c.spans == [] && RunOps(c, ops).Some?
    requires var d := RunOps(c, ops[..|ops| - 1]).value;
             |d.spans| == Created(ops[..|ops| - 1]) < |RunOps(c, ops).value.spans|
    ensures var i := Created(ops[..|ops| - 1]);
            RunOps(c, ops).value.spans[i] == Told(c, ops, i)
  {
    hide ToInt32, Told, ApplyOp, EntrySpan, ExitSpan, Last, Created;
    var init, a := ops[..|ops| - 1], ops[|ops| - 1];
    var d, i := RunOps(c, init).value, Created(init);
    ContextOverRuns(c, init);
    Untold(c, init, i);
    CreationIsTold(c, ops, i);
    EntrySpanShape(d);
    if a.CreateExitSpan? {
      ExitSpanShape(d, d.spans[a.parentIndex].record.spanId);
    }
  }

  // ---------------------------------------------------------------- readings

  // A finished span ended at the time its one `endSpan` was given, and is finished for no other reason.
  lemma {:induction false} EndTimeIsArgument(c: Context, ops: seq<ContextOp>, k: nat)
    requires c.spans == [] && RunOps(c, ops).Some?
    requires k < |ops| && ops[k].OnSpan? && ops[k].op.EndSpan?
    ensures var d := RunOps(c, ops).value;
            && ops[k].index < |d.spans|
            && d.spans[ops[k].index].finished
            && d.spans[ops[k].index].record.endTime == ops[k].op.endTime
  {
    hide RunOps, ApplyContextOp, OpAllowed;
    var i, before := ops[k].index, ops[..k];
    RunOpsPrefix(c, ops, k);
    EndStep(RunOps(c, before).value, i, ops[k].op.endTime);
    var rest := ops[k + 1..];
    assert ops == ops[..k + 1] + rest;
    RunOpsFrom(c, ops[..k + 1], rest);
    FinishedOverRuns(RunOps(c, ops[..k + 1]).value, rest, i);
  }

  lemma EndStep(c: Context, i: nat, time: int)
    requires OpAllowed(c, OnSpan(i, EndSpan(time)))
    ensures i < |ApplyContextOp(c, OnSpan(i, EndSpan(time))).spans|
    ensures ApplyContextOp(c, OnSpan(i, EndSpan(time))).spans[i].finished
    ensures ApplyContextOp(c, OnSpan(i, EndSpan(time))).spans[i].record.endTime == time
  {
  }

  // Calls in two parts.
  lemma {:induction false} RunOpsFrom(c: Context, ops: seq<ContextOp>, more: seq<ContextOp>)
    requires RunOps(c, ops + more).Some?
    ensures RunOps(c, ops).Some? && RunOps(RunOps(c, ops).value, more) == RunOps(c, ops + more)
  {
    hide ApplyContextOp, OpAllowed;
    if |more| == 0 {
      assert ops + more == ops;
    } else {
      var all := ops + more;
      assert all[..|all| - 1] == ops + more[..|more| - 1];
      RunOpsFrom(c, ops, more[..|more| - 1]);
    }
  }

  // Which spans of a new context are marked for skipping, if nobody sets the context to skip later: all of them if the
  // extension header says skip, and otherwise those that are marked by hand.
  lemma {:induction false} MarkedByExtension(c: Context, ops: seq<ContextOp>, service: Bytes, serviceInstance: Bytes,
                                             parent: Option<SpanContext>, extension: Option<TracingMode>,
                                             traceId: Bytes, traceSegmentId: Bytes, i: nat)
    requires c == NewContext(service, serviceInstance, parent, extension, traceId, traceSegmentId)
    requires RunOps(c, ops).Some? && SetContextSkip !in ops && i < |RunOps(c, ops).value.spans|
    ensures RunOps(c, ops).value.spans[i].record.skipAnalysis <==>
              extension == Some(Skip) || OnSpan(i, SetSkipAnalysis) in ops
  {
    hide RunOps, ToInt32, Last, SkipSetBefore;
    NewContextShape(service, serviceInstance, parent, extension, traceId, traceSegmentId);
    RecordsAreTold(c, ops);
    NoSkipSet(ops, i);
    SkipCalled(ops, i);
  }

  lemma {:induction false} NoSkipSet(ops: seq<ContextOp>, i: nat)
    requires SetContextSkip !in ops
    ensures !SkipSetBefore(ops, i)
  {
    if |ops| > 0 {
      NoSkipSet(ops[..|ops| - 1], i);
    }
  }

  lemma {:induction false} SkipCalled(ops: seq<ContextOp>, i: nat)
    ensures Last(ops, i, SkipIn).Some? <==> OnSpan(i, SetSkipAnalysis) in ops
  {
    if |ops| > 0 {
      var init, a := ops[..|ops| - 1], ops[|ops| - 1];
      SkipCalled(init, i);
      assert ops == init + [a];
    }
  }

  // The calls a finished span still takes: those without a check in the source.
  lemma {:induction false} FinishedTakes(s: Span, op: SpanOp)
    ensures !s.finished ==> Allowed(s, op)
    ensures s.finished ==>
              (Allowed(s, op) <==> op.StartSpan? || op.SetSpanType? || op.SetSpanLayer? || op.SetErrorStatus?
                                   || op.SetSkipAnalysis? || op.AddSegmentRef?)
  {
  }
}
