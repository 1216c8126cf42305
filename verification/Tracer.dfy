/** `TracerImpl::report`: the gate between a context and the reporter. */
module Tracer {
  import opened Bytes
  import opened ContextModel
  import opened ReporterProtocol
  import opened ReporterProgress
  import opened ReporterClient
  import TC = TracingContext

  predicate EndsWith(target: Bytes, suffix: Bytes) {
    |suffix| <= |target| && target[|target| - |suffix|..] == suffix
  }

  lemma EndsWithMeans(target: Bytes, suffix: Bytes)
    ensures EndsWith(target, suffix) <==> exists p: Bytes :: target == p + suffix
  {
    if EndsWith(target, suffix) {
      assert target == target[..|target| - |suffix|] + suffix;
    }
  }

  // One of the suffixes ends the name.
  ghost predicate EndsWithOneOf(target: Bytes, suffixes: seq<Bytes>) {
    exists k: nat, p: Bytes :: k < |suffixes| && target == p + suffixes[k]
  }

  lemma {:induction false} SomeEndsWith(target: Bytes, suffixes: seq<Bytes>)
    ensures EndsWithOneOf(target, suffixes) <==> exists k :: 0 <= k < |suffixes| && EndsWith(target, suffixes[k])
  {
    forall k | 0 <= k < |suffixes|
      ensures EndsWith(target, suffixes[k]) <==> exists p: Bytes :: target == p + suffixes[k]
    {
      EndsWithMeans(target, suffixes[k]);
    }
  }

  class SuffixMatcher {
    const targetSuffixes: seq<Bytes>

    constructor (targetSuffixes: seq<Bytes>)
      ensures this.targetSuffixes == targetSuffixes
    {
      this.targetSuffixes := targetSuffixes;
    }

    predicate Matches(target: Bytes) {
      exists k :: 0 <= k < |targetSuffixes| && EndsWith(target, targetSuffixes[k])
    }

    method Match(target: Bytes) returns (r: bool)
      ensures r == Matches(target)
      ensures r <==> exists k: nat, p: Bytes :: k < |targetSuffixes| && target == p + targetSuffixes[k]
    {
      SomeEndsWith(target, targetSuffixes);
      for i := 0 to |targetSuffixes|
        invariant forall k :: 0 <= k < i ==> !EndsWith(target, targetSuffixes[k])
      {
        if EndsWith(target, targetSuffixes[i]) {
          return true;
        }
      }
      return false;
    }
  }

  class Tracer {
    const asyncClient: TraceAsyncClient
    const ignoreMatcher: SuffixMatcher

    constructor (asyncClient: TraceAsyncClient, ignoredSuffixes: seq<Bytes>)
      ensures this.asyncClient == asyncClient && ignoreMatcher.targetSuffixes == ignoredSuffixes
    {
      this.asyncClient := asyncClient;
      ignoreMatcher := new SuffixMatcher(ignoredSuffixes);
    }

    // A context is reported when all its spans are finished and its first operation is not ignored.
    ghost predicate Reportable(c: Context) {
      Ready(c) && (|c.spans| > 0 ==> !ignoreMatcher.Matches(c.spans[0].record.operationName))
    }

    // In terms of the objects: every span is finished, and no ignored suffix ends the first operation's name.
    lemma {:induction false} ReportableMeans(ctx: TC.TracingContext)
      requires ctx.Valid()
      ensures Reportable(ctx.View()) <==>
                && (forall i :: 0 <= i < |ctx.spans| ==> ctx.spans[i].isFinished)
                && !(|ctx.spans| > 0
                     && exists k: nat, p: Bytes :: k < |ignoreMatcher.targetSuffixes|
                          && ctx.spans[0].spanStore.record.operationName == p + ignoreMatcher.targetSuffixes[k])
    {
      if |ctx.spans| > 0 {
        SomeEndsWith(ctx.spans[0].spanStore.record.operationName, ignoreMatcher.targetSuffixes);
      }
    }

    // A reported context becomes one message of the reporter and keeps no span; otherwise nothing changes.
    method Report(ctx: TC.TracingContext?) returns (reported: bool)
      requires ctx != null ==> ctx.Valid()
      requires asyncClient.Valid() && (asyncClient.eventLoopIdle ==> asyncClient.activeStream != null)
      modifies if ctx == null then {} else {ctx}
      modifies asyncClient, asyncClient.messageBuffer, asyncClient.cq
      ensures asyncClient.Valid() && (ctx != null ==> ctx.Valid())
      ensures reported == (ctx != null && Reportable(old(ctx.View())))
      ensures ctx != null ==>
                (reported <==>
                  && (forall i :: 0 <= i < |old(ctx.spans)| ==> old(ctx.spans[i].isFinished))
                  && !(|old(ctx.spans)| > 0
                       && exists k: nat, p: Bytes :: k < |ignoreMatcher.targetSuffixes|
                            && old(ctx.spans[0].spanStore.record.operationName)
                               == p + ignoreMatcher.targetSuffixes[k]))
      ensures reported ==>
                && asyncClient.Model() == AfterSend(old(asyncClient.Model()), SegmentOf(old(ctx.View())))
                && ctx.spans == []
      ensures !reported ==>
                && asyncClient.Model() == old(asyncClient.Model())
                && (ctx != null ==> ctx.View() == old(ctx.View()))
    {
      hide *;
      if ctx == null {
        return false;
      }
      ReportableMeans(ctx);
      var ready := ctx.ReadyToSend();
      if !ready {
        return false;
      }
      if |ctx.spans| > 0 {
        var ignored := ignoreMatcher.Match(ctx.spans[0].spanStore.record.operationName);
        if ignored {
          return false;
        }
      }
      var segment := ctx.CreateSegmentObject();
      asyncClient.SendMessage(segment);
      return true;
    }

    // The messages that reporting these contexts makes, in order.
    ghost function Reported(cs: seq<Context>): seq<Message> {
      if |cs| == 0 then []
      else
        var c := cs[|cs| - 1];
        if Reportable(c) then Reported(cs[..|cs| - 1]) + [SegmentOf(c)] else Reported(cs[..|cs| - 1])
    }

    // Each of them is the segment of its own context, complete: every span is there, in the order of creation, and
    // was finished.  They come in the order of the contexts, and no reportable context is left out.
    lemma {:induction false} ReportedAreComplete(cs: seq<Context>) returns (origin: seq<nat>)
      ensures |origin| == |Reported(cs)|
      ensures forall j :: 0 < j < |origin| ==> origin[j - 1] < origin[j]
      ensures forall j :: 0 <= j < |origin| ==>
                && origin[j] < |cs|
                && Reportable(cs[origin[j]])
                && IsSegmentOf(Reported(cs)[j], cs[origin[j]])
      ensures forall k :: 0 <= k < |cs| && Reportable(cs[k]) ==> k in origin
    {
      hide Reportable, IsSegmentOf, SegmentOf;
      origin := [];
      if |cs| > 0 {
        var init, c := cs[..|cs| - 1], cs[|cs| - 1];
        var before := ReportedAreComplete(init);
        origin := before;
        if Reportable(c) {
          SegmentIsComplete(c);
          origin := before + [|cs| - 1];
          assert |cs| - 1 == origin[|before|];
        }
        forall k | 0 <= k < |cs| && Reportable(cs[k])
          ensures k in origin
        {
          assert k < |init| ==> init[k] == cs[k];
        }
      }
    }

    ghost predicate IsSegmentOf(m: Message, c: Context) {
      && m.traceId == c.traceId && m.traceSegmentId == c.traceSegmentId
      && m.service == c.service && m.serviceInstance == c.serviceInstance
      && |m.spans| == |c.spans|
      && forall i :: 0 <= i < |c.spans| ==> m.spans[i] == c.spans[i].record && c.spans[i].finished
    }

    lemma SegmentIsComplete(c: Context)
      requires Reportable(c)
      ensures IsSegmentOf(SegmentOf(c), c)
    {
    }

    lemma OneMoreReported(cs: seq<Context>, k: nat)
      requires k < |cs|
      ensures Reported(cs[..k + 1]) ==
                if Reportable(cs[k]) then Reported(cs[..k]) + [SegmentOf(cs[k])] else Reported(cs[..k])
    {
      hide Reportable, SegmentOf;
      assert cs[..k + 1][..k] == cs[..k];
    }

    ghost predicate CanSend()
      reads asyncClient, asyncClient.activeStream
    {
      asyncClient.Valid() && (asyncClient.eventLoopIdle ==> asyncClient.activeStream != null)
    }

    method ReportView(ctx: TC.TracingContext, ghost c: Context)
      requires IsView(ctx, c) && CanSend()
      modifies ctx, asyncClient, asyncClient.messageBuffer, asyncClient.cq
      ensures CanSend()
      ensures asyncClient.Model() ==
                if Reportable(c) then AfterSend(old(asyncClient.Model()), SegmentOf(c)) else old(asyncClient.Model())
      ensures if Reportable(c) then ctx.spans == [] else IsView(ctx, c)
    {
      hide AfterSend, SegmentOf, Reportable;
      ghost var s := asyncClient.Model();
      SendKeepsStream(s, SegmentOf(c));
      var reported := Report(ctx);
      assert asyncClient.eventLoopIdle == asyncClient.Model().idle;
    }

    // Any number of reports in a row: the reporter takes the reported segments one after the other, so what they add
    // to the messages pushed are the first of these segments, as many as there is room for, and the others are
    // dropped.  A context that is not reported stays as it is.
    method ReportAll(contexts: seq<TC.TracingContext>, ghost cs: seq<Context>)
      requires |cs| == |contexts| && forall i :: 0 <= i < |contexts| ==> IsView(contexts[i], cs[i])
      requires forall i, j :: 0 <= i < j < |contexts| ==> contexts[i] != contexts[j]
      requires CanSend()
      modifies contexts, asyncClient, asyncClient.messageBuffer, asyncClient.cq
      ensures CanSend()
      ensures var s := old(asyncClient.Model());
              && (s.idle ==> s.active.Some?)
              && asyncClient.Model() == AfterSends(s, Reported(cs))
              && var k := Min(|Reported(cs)|, Room(s));
                 asyncClient.Model().pushed == s.pushed + Reported(cs)[..k]
                 && asyncClient.Model().dropped == s.dropped + |Reported(cs)| - k
      ensures forall i :: 0 <= i < |contexts| ==>
                if Reportable(cs[i]) then contexts[i].spans == [] else IsView(contexts[i], cs[i])
    {
      hide *;
      ghost var s := asyncClient.Model();
      CanSendMeans();
      NothingReported(s);
      for k := 0 to |contexts|
        invariant CanSend() && asyncClient.Model() == AfterSends(s, Reported(cs[..k]))
        invariant forall i :: k <= i < |contexts| ==> IsView(contexts[i], cs[i])
        invariant forall i :: 0 <= i < k ==>
                    if Reportable(cs[i]) then contexts[i].spans == [] else IsView(contexts[i], cs[i])
      {
        OneMoreReported(cs, k);
        OneMoreSent(s, Reported(cs[..k]), SegmentOf(cs[k]));
        label before:
        ReportView(contexts[k], cs[k]);
        forall i | 0 <= i < |contexts| && i != k
          ensures if i > k || !Reportable(cs[i]) then IsView(contexts[i], cs[i]) else contexts[i].spans == []
        {
          assert unchanged@before(contexts[i], contexts[i].spans, contexts[i].records);
        }
      }
      assert cs[..|contexts|] == cs;
      SendsClosedForm(s, Reported(cs));
    }

    lemma CanSendMeans()
      requires CanSend()
      ensures asyncClient.Model().idle ==> asyncClient.Model().active.Some?
    {
    }

    lemma NothingReported(s: State)
      requires s.idle ==> s.active.Some?
      ensures forall cs :: |cs| == 0 ==> AfterSends(s, Reported(cs)) == s
    {
    }
  }

  // The object's state as a value.
  ghost predicate IsView(ctx: TC.TracingContext, c: Context)
    reads ctx, ctx.spans, ctx.records
  {
    ctx.Valid() && ctx.View() == c
  }

  lemma SendKeepsStream(s: State, m: Message)
    requires s.idle ==> s.active.Some?
    ensures AfterSend(s, m).idle ==> AfterSend(s, m).active.Some?
  {
  }

  lemma OneMoreSent(s: State, ms: seq<Message>, m: Message)
    requires s.idle ==> s.active.Some?
    ensures AfterSends(s, ms + [m]) == AfterSend(AfterSends(s, ms), m)
  {
    assert (ms + [m])[..|ms|] == ms;
  }
}
