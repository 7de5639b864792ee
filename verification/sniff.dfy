/** Sniff results, the content-sniffing loop and the combination of metadata and content
    outcomes (`sniffer`). */
module Sniff {

  import opened Wrappers
  import opened Net
  import opened Replay

  /** A sniffed protocol. A plain result may offer the subset capability (`subsetOf`, the
      protocol names it reports itself a subset of); a composite result pairs the result
      that supplies the domain with the one that supplies the protocol. */
  datatype SniffResult =
    | Plain(protocol: string, domain: string, subsetOf: Option<set<string>>)
    | Composite(domainResult: SniffResult, protocolResult: SniffResult)

  function Protocol(r: SniffResult): string
  {
    match r
    case Plain(p, _, _) => p
    case Composite(_, pr) => Protocol(pr)
  }

  function Domain(r: SniffResult): string
  {
    match r
    case Plain(_, d, _) => d
    case Composite(dr, _) => Domain(dr)
  }

  /** The protocol of the result that supplied a composite's domain. */
  function ProtocolForDomainResult(r: SniffResult): string
    requires r.Composite?
  {
    Protocol(r.domainResult)
  }

  /** `IsProtoSubsetOf`, false for results without the capability. */
  predicate IsProtoSubsetOf(r: SniffResult, name: string)
  {
    r.Plain? && r.subsetOf.Some? && name in r.subsetOf.value
  }

  function CompositeResult(domainResult: SniffResult, protocolResult: SniffResult): SniffResult
  {
    Composite(domainResult, protocolResult)
  }

  datatype ContextError = Canceled | DeadlineExceeded

  datatype SniffError =
    | NoClue                      // the classifier needs more bytes
    | SniffingTimeout             // the attempt ceiling was reached
    | UnknownContent              // a full buffer without a verdict
    | ContextDone(cause: ContextError)
    | SnifferFailed(reason: string)

  /** A sniffer's answer: a result, or an error. */
  datatype Outcome = Found(result: SniffResult) | Failed(error: SniffError)

  /** The final combination of the metadata outcome with the content outcome. */
  function Combine(meta: Outcome, content: Outcome): (r: Outcome)
    ensures r.Found? <==> meta.Found? || content.Found?
    ensures meta.Failed? ==> r == content
    ensures meta.Found? && content.Failed? ==> r == meta
    ensures meta.Found? ==> Domain(r.result) == Domain(meta.result)
    ensures content.Found? ==> Protocol(r.result) == Protocol(content.result)
    ensures meta.Found? && content.Found? ==>
              r.result.Composite? && ProtocolForDomainResult(r.result) == Protocol(meta.result)
  {
    if content.Failed? && meta.Found? then meta
    else if content.Found? && meta.Found? then Found(CompositeResult(meta.result, content.result))
    else content
  }

  /** The loop's attempt ceiling. */
  const MaxAttempts: nat := 2

  /** The governing context: found done at every check from `cancelAt` on (checks are counted
      by the attempts made before them), with `cause` as its error. */
  datatype Context = Context(cancelAt: Option<nat>, cause: ContextError)

  predicate DoneAt(ctx: Context, check: nat)
  {
    ctx.cancelAt.Some? && ctx.cancelAt.value <= check
  }

  /** The classifier has a verdict (a result or a real error) for a non-empty payload. */
  predicate Conclusive(classify: seq<byte> -> Outcome, payload: seq<byte>)
  {
    |payload| > 0 && classify(payload) != Failed(NoClue)
  }

  predicate Full(payload: seq<byte>)
  {
    |payload| == BufSize
  }

  /** The payload seen at the `k`-th attempt. */
  function PeekAt(r: CachedReader, k: nat): seq<byte>
    requires 1 <= k
  {
    Cache(CacheRepeated(r, k - 1)).payload
  }

  /** How the content loop ended. */
  datatype Exit = Cancelled | Classified | Unrecognised | TimedOut

  /** The content loop's outcome, how many `Cache` calls it made, and how it ended. */
  datatype Verdict = Verdict(outcome: Outcome, calls: nat, exit: Exit)

  /** The content loop as a decision table over its (at most two) attempts. */
  function ContentSpec(r: CachedReader, classify: seq<byte> -> Outcome, ctx: Context): (v: Verdict)
    ensures v.calls <= MaxAttempts
    ensures DoneAt(ctx, 0) ==> v == Verdict(Failed(ContextDone(ctx.cause)), 0, Cancelled)
    ensures v.exit == Cancelled ==>
              v.outcome == Failed(ContextDone(ctx.cause)) && DoneAt(ctx, v.calls)
              && (v.calls == 0 || !DoneAt(ctx, v.calls - 1))
    ensures v.exit == TimedOut ==> v.outcome == Failed(SniffingTimeout) && v.calls == MaxAttempts
    ensures v.exit == Classified ==>
              v.calls >= 1 && Conclusive(classify, PeekAt(r, v.calls)) && v.outcome == classify(PeekAt(r, v.calls))
    ensures v.exit == Unrecognised ==>
              v.calls >= 1 && Full(PeekAt(r, v.calls)) && !Conclusive(classify, PeekAt(r, v.calls))
              && v.outcome == Failed(UnknownContent)
  {
    var first := PeekAt(r, 1);
    var second := PeekAt(r, 2);
    if DoneAt(ctx, 0) then Verdict(Failed(ContextDone(ctx.cause)), 0, Cancelled)
    else if Conclusive(classify, first) then Verdict(classify(first), 1, Classified)
    else if Full(first) then Verdict(Failed(UnknownContent), 1, Unrecognised)
    else if DoneAt(ctx, 1) then Verdict(Failed(ContextDone(ctx.cause)), 1, Cancelled)
    else if Conclusive(classify, second) then Verdict(classify(second), 2, Classified)
    else if Full(second) then Verdict(Failed(UnknownContent), 2, Unrecognised)
    else if DoneAt(ctx, 2) then Verdict(Failed(ContextDone(ctx.cause)), 2, Cancelled)
    else Verdict(Failed(SniffingTimeout), 2, TimedOut)
  }

  /** Every exit of the content loop is preceded by attempts that were neither conclusive nor
      full, each made with the context still live; a cancelled exit also follows only such
      attempts, so a conclusive verdict is never replaced by the context's error; and the loop
      times out exactly when both attempts were such and the context stayed live. */
  lemma ContentSpecEarlierAttemptsFailed(r: CachedReader, classify: seq<byte> -> Outcome, ctx: Context)
    ensures var v := ContentSpec(r, classify, ctx);
            && (v.exit == TimedOut <==>
                  && !DoneAt(ctx, MaxAttempts)
                  && (forall k :: 1 <= k <= MaxAttempts ==> !Conclusive(classify, PeekAt(r, k)) && !Full(PeekAt(r, k))))
            && (forall k :: 1 <= k < v.calls ==> !Conclusive(classify, PeekAt(r, k)) && !Full(PeekAt(r, k)))
            && (forall k :: 0 <= k < v.calls ==> !DoneAt(ctx, k))
            && (v.exit == Cancelled ==>
                  forall k :: 1 <= k <= v.calls ==> !Conclusive(classify, PeekAt(r, k)) && !Full(PeekAt(r, k)))
  {
  }

  /** One more `Cache` call after `n` of them is `n + 1` of them. */
  lemma {:induction false} CacheRepeatedStep(r: CachedReader, n: nat)
    ensures CacheRepeated(r, n + 1) == Cache(CacheRepeated(r, n)).reader
    decreases n
  {
    var r1 := Cache(r).reader;
    assert CacheRepeated(r, n + 1) == CacheRepeated(r1, n);
    if n > 0 {
      CacheRepeatedStep(r1, n - 1);
      assert CacheRepeated(r, n) == CacheRepeated(r1, n - 1);
    }
  }

  /** The content loop: check the context, count the attempt, peek, classify. */
  method SniffContent(reader: CachedReader, classify: seq<byte> -> Outcome, ctx: Context)
    returns (v: Verdict, after: CachedReader)
    ensures v == ContentSpec(reader, classify, ctx)
    ensures after == CacheRepeated(reader, v.calls)
  {
    var totalAttempt := 0;
    var r := reader;
    while true
      invariant totalAttempt <= MaxAttempts
      invariant r == CacheRepeated(reader, totalAttempt)
      invariant forall k :: 0 <= k < totalAttempt ==> !DoneAt(ctx, k)
      invariant forall k :: 1 <= k <= totalAttempt ==>
                  !Conclusive(classify, PeekAt(reader, k)) && !Full(PeekAt(reader, k))
      decreases MaxAttempts + 1 - totalAttempt
    {
      if DoneAt(ctx, totalAttempt) {
        return Verdict(Failed(ContextDone(ctx.cause)), totalAttempt, Cancelled), r;
      }
      totalAttempt := totalAttempt + 1;
      if totalAttempt > MaxAttempts {
        return Verdict(Failed(SniffingTimeout), totalAttempt - 1, TimedOut), r;
      }
      var peek := Cache(r);
      CacheRepeatedStep(reader, totalAttempt - 1);
      r := peek.reader;
      if |peek.payload| > 0 {
        var verdict := classify(peek.payload);
        if verdict != Failed(NoClue) {
          return Verdict(verdict, totalAttempt, Classified), r;
        }
      }
      if |peek.payload| == BufSize {
        return Verdict(Failed(UnknownContent), totalAttempt, Unrecognised), r;
      }
    }
  }

  /** `sniffer`: metadata first; unless only metadata is wanted, the content loop over the
      replay reader, then the combination. Returns the replay reader as the loop left it. */
  method Sniffer(reader: CachedReader, metadataOnly: bool, meta: Outcome,
                 classify: seq<byte> -> Outcome, ctx: Context)
    returns (out: Outcome, after: CachedReader)
    ensures metadataOnly ==> out == meta && after == reader
    ensures !metadataOnly ==> out == Combine(meta, ContentSpec(reader, classify, ctx).outcome)
    ensures !metadataOnly ==> after == CacheRepeated(reader, ContentSpec(reader, classify, ctx).calls)
  {
    if metadataOnly {
      return meta, reader;
    }
    var content;
    content, after := SniffContent(reader, classify, ctx);
    out := Combine(meta, content.outcome);
  }
}
