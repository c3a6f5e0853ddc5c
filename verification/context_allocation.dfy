/**
 Context windows for model calls: the allocator that picks the smallest sufficient window, the retry with a
 smaller output reserve, and the per-execution record of the context size sent to each model.
 */
module ContextAllocation {
  import opened Options

  const MIN_OUTPUT_TOKENS := 1024
  const MIN_SAFETY_TOKENS := 256
  const ASSUMED_CONTEXT_TOKENS := 8_192
  const ASSUMED_OUTPUT_TOKENS := 2_048
  const TARGETS: seq<nat> := [4_096, 8_192, 16_384, 32_768, 65_536, 131_072]

  /** Limits of a model on one placement; `configured` is the operator's context setting for the model. */
  datatype Limits = Limits(
    contextWindow: Option<nat>,
    runtimeContext: Option<nat>,
    configurable: bool,
    known: bool,
    maxInput: Option<nat>,
    maxOutput: Option<nat>,
    independent: bool,
    configured: Option<nat>)

  datatype Outcome = Fits | FitsAtLimit | CannotFit

  datatype Allocation = Allocation(outcome: Outcome, requested: Option<nat>, window: nat,
                                   input: nat, safety: nat, maxOutput: nat)

  function Max(x: int, y: int): int { if x >= y then x else y }

  function Min(x: int, y: int): int { if x <= y then x else y }

  predicate WindowKnown(l: Limits) {
    l.known && (l.contextWindow.Some? || (!l.configurable && l.runtimeContext.Some?))
  }

  /** The largest window the limits allow; a loaded, fixed context bounds it, a configurable one does not. */
  function Window(l: Limits): nat {
    if !WindowKnown(l) then ASSUMED_CONTEXT_TOKENS
    else if l.contextWindow.None? then l.runtimeContext.value
    else if !l.configurable && l.runtimeContext.Some? then Min(l.contextWindow.value, l.runtimeContext.value)
    else l.contextWindow.value
  }

  function OutputCap(l: Limits): Option<nat> {
    if !l.known then Some(ASSUMED_OUTPUT_TOKENS)
    else if l.maxOutput.Some? then l.maxOutput
    else if !WindowKnown(l) then Some(ASSUMED_OUTPUT_TOKENS)
    else None
  }

  /** The output tokens actually reserved and sent. */
  function OutputSent(l: Limits, output: nat): nat {
    var base := Max(1, output);
    if OutputCap(l).Some? && base > OutputCap(l).value then Max(1, OutputCap(l).value) else base
  }

  function OutputInWindow(l: Limits, output: nat): nat {
    if l.independent then 0 else OutputSent(l, output)
  }

  /** How the program rounds five per cent of a number of tokens up. */
  type Margin = nat -> nat

  /** Floating-point rounding is monotone and may give one token more than the exact quotient rounded up. */
  ghost predicate Rounds(m: Margin) {
    && (forall n: nat :: n <= 20 * m(n) < n + 40)
    && forall n: nat, k: nat :: n <= k ==> m(n) <= m(k)
  }

  /** Five per cent of what the request needs, rounded up, but never below the minimum. */
  function Safety(m: Margin, l: Limits, input: nat, tools: nat, output: nat): nat {
    Max(MIN_SAFETY_TOKENS, m(input + tools + OutputInWindow(l, output)))
  }

  function InputNeed(m: Margin, l: Limits, input: nat, tools: nat, output: nat): nat {
    input + tools + Safety(m, l, input, tools, output)
  }

  function Need(m: Margin, l: Limits, input: nat, tools: nat, output: nat): nat {
    InputNeed(m, l, input, tools, output) + OutputInWindow(l, output)
  }

  predicate InputAllowed(m: Margin, l: Limits, input: nat, tools: nat, output: nat) {
    l.maxInput.None? || InputNeed(m, l, input, tools, output) <= l.maxInput.value
  }

  predicate Feasible(m: Margin, l: Limits, input: nat, tools: nat, output: nat, window: nat) {
    Need(m, l, input, tools, output) <= window && InputAllowed(m, l, input, tools, output)
  }

  /** The first planning target within the window that suffices. */
  function FirstTarget(m: Margin, ts: seq<nat>, l: Limits, input: nat, tools: nat, output: nat): Option<nat> {
    if ts == [] then None
    else if ts[0] <= Window(l) && Feasible(m, l, input, tools, output, ts[0]) then Some(ts[0])
    else FirstTarget(m, ts[1..], l, input, tools, output)
  }

  function Allocate(m: Margin, l: Limits, input: nat, tools: nat, output: nat): Allocation {
    var chosen := FirstTarget(m, TARGETS, l, input, tools, output);
    var outcome := if chosen.Some? then Fits
                   else if Feasible(m, l, input, tools, output, Window(l)) then FitsAtLimit else CannotFit;
    var window := if chosen.Some? then chosen.value else Window(l);
    Allocation(outcome, if l.configurable then Some(window) else None, window,
               input, Safety(m, l, input, tools, output), OutputSent(l, output))
  }

  lemma {:induction false} FirstTargetIsSmallest(m: Margin, ts: seq<nat>, l: Limits, input: nat, tools: nat, output: nat)
    requires forall i, j :: 0 <= i < j < |ts| ==> ts[i] < ts[j]
    ensures var c := FirstTarget(m, ts, l, input, tools, output);
            && (c.Some? ==> c.value in ts && c.value <= Window(l) && Feasible(m, l, input, tools, output, c.value))
            && (forall t <- ts :: t <= Window(l) && Feasible(m, l, input, tools, output, t) ==> c.Some? && c.value <= t)
  {
    if ts != [] {
      FirstTargetIsSmallest(m, ts[1..], l, input, tools, output);
      assert ts == [ts[0]] + ts[1..];
      assert forall i :: 0 < i < |ts| ==> ts[i] == ts[1..][i - 1];
    }
  }

  /**
   A request is refused exactly when it does not fit the largest window or the input limit. Otherwise it
   gets the smallest planning target that suffices, or the largest window when no target does.
   */
  lemma AllocationIsSmallest(m: Margin, l: Limits, input: nat, tools: nat, output: nat)
    ensures var a := Allocate(m, l, input, tools, output);
            && (a.outcome.CannotFit? <==> !Feasible(m, l, input, tools, output, Window(l)))
            && (!a.outcome.CannotFit? ==> Feasible(m, l, input, tools, output, a.window))
            && a.window <= Window(l) && (!a.outcome.Fits? ==> a.window == Window(l))
            && (a.outcome.Fits? ==> a.window in [4_096, 8_192, 16_384, 32_768, 65_536, 131_072])
            && (forall t <- [4_096, 8_192, 16_384, 32_768, 65_536, 131_072] ::
                  t <= Window(l) && Feasible(m, l, input, tools, output, t) ==> a.outcome.Fits? && a.window <= t)
    ensures forall w: nat ::
              var a := Allocate(m, l, input, tools, output);
              Feasible(m, l, input, tools, output, w) <==>
              && input + tools + a.safety + (if l.independent then 0 else a.maxOutput) <= w
              && (l.maxInput.Some? ==> input + tools + a.safety <= l.maxInput.value)
  {
    FirstTargetIsSmallest(m, TARGETS, l, input, tools, output);
  }

  /** The window is the largest size within every limit that is known, or the assumed size if none is. */
  lemma WindowIsLargest(l: Limits, w: nat)
    ensures l.known && (l.contextWindow.Some? || (l.runtimeContext.Some? && !l.configurable)) ==>
              (w <= Window(l) <==>
               && (l.contextWindow.Some? ==> w <= l.contextWindow.value)
               && (l.runtimeContext.Some? && !l.configurable ==> w <= l.runtimeContext.value))
    ensures !(l.known && (l.contextWindow.Some? || (l.runtimeContext.Some? && !l.configurable))) ==> Window(l) == 8_192
    ensures w <= EffectiveWindow(l) <==> w <= Window(l) && (l.known && l.configured.Some? ==> w <= l.configured.value)
  {
  }

  /** The output limit that applies: the model's own, or 2,048 if nothing is known that could bound it. */
  function OutputLimit(l: Limits): Option<nat> {
    match (l.known, l.maxOutput, l.contextWindow, l.runtimeContext)
    case (false, _, _, _) => Some(2_048)
    case (true, Some(cap), _, _) => Some(cap)
    case (true, None, Some(_), _) => None
    case (true, None, None, Some(_)) => if l.configurable then Some(2_048) else None
    case (true, None, None, None) => Some(2_048)
  }

  /** What an allocation reserves: the output asked for within the limit, at least one token, and five per cent for safety. */
  lemma ReservesAreExact(m: Margin, l: Limits, input: nat, tools: nat, output: nat, n: nat)
    ensures var a := Allocate(m, l, input, tools, output);
            && a.input == input && 1 <= a.maxOutput
            && (n > 1 ==> (n <= a.maxOutput <==> n <= output && (OutputLimit(l).Some? ==> n <= OutputLimit(l).value)))
            && (var share := m(input + tools + if l.independent then 0 else a.maxOutput);
                a.safety == if share >= 256 then share else 256)
            && (a.requested == if l.configurable then Some(a.window) else None)
  {
  }

  /** What is let through respects every limit the model or its runtime has. */
  lemma LimitsAreRespected(m: Margin, l: Limits, input: nat, tools: nat, output: nat)
    requires Rounds(m) && !Allocate(m, l, input, tools, output).outcome.CannotFit?
    ensures var a := Allocate(m, l, input, tools, output);
            && (l.known && l.contextWindow.Some? ==> a.window <= l.contextWindow.value)
            && (l.known && !l.configurable && l.runtimeContext.Some? ==> a.window <= l.runtimeContext.value)
            && (!l.known ==> a.window <= ASSUMED_CONTEXT_TOKENS && a.maxOutput <= ASSUMED_OUTPUT_TOKENS)
            && (l.maxInput.Some? ==> input + tools + a.safety <= l.maxInput.value)
            && (l.known && l.maxOutput.Some? && l.maxOutput.value > 0 ==> a.maxOutput <= l.maxOutput.value)
            && a.maxOutput <= Max(1, output) && 20 * a.safety >= input + tools && a.safety >= MIN_SAFETY_TOKENS
  {
    AllocationIsSmallest(m, l, input, tools, output);
  }

  // ----- Retrying with a smaller output reserve -----

  /** What is left for output in the largest window once the first attempt's safety margin is taken. */
  function Room(m: Margin, l: Limits, input: nat, tools: nat, output: nat): int {
    Window(l) - input - tools - Safety(m, l, input, tools, output)
  }

  /** Only the output reserve may shrink, down to a floor; the input is never trimmed. */
  function AllocateFitted(m: Margin, l: Limits, input: nat, tools: nat, output: nat): Allocation {
    var first := Allocate(m, l, input, tools, output);
    if !first.outcome.CannotFit? || l.independent || output <= MIN_OUTPUT_TOKENS then first
    else
      var room := first.window - first.input - tools - first.safety;
      if room < MIN_OUTPUT_TOKENS then first
      else
        var fitted := Allocate(m, l, input, tools, Min(output, room));
        if fitted.outcome.CannotFit? then first else fitted
  }

  /** The retry is worth making: shared window, a reserve above the floor, and room for the floor. */
  predicate Retries(m: Margin, l: Limits, input: nat, tools: nat, output: nat) {
    !l.independent && output > MIN_OUTPUT_TOKENS && Room(m, l, input, tools, output) >= MIN_OUTPUT_TOKENS
  }

  lemma LessOutputNeedsLess(m: Margin, l: Limits, input: nat, tools: nat, output: nat, less: nat)
    requires Rounds(m) && less <= output
    ensures OutputSent(l, less) <= OutputSent(l, output) && OutputSent(l, less) <= Max(1, less)
    ensures Safety(m, l, input, tools, less) <= Safety(m, l, input, tools, output)
  {
  }

  /** When the retry is made, the reduced reserve fits the window; only the input limit can still refuse it. */
  lemma RetryFitsWindow(m: Margin, l: Limits, input: nat, tools: nat, output: nat)
    requires Rounds(m) && Retries(m, l, input, tools, output)
    ensures var reduced := Min(output, Room(m, l, input, tools, output));
            MIN_OUTPUT_TOKENS <= reduced <= output && Need(m, l, input, tools, reduced) <= Window(l)
  {
    LessOutputNeedsLess(m, l, input, tools, output, Min(output, Room(m, l, input, tools, output)));
  }

  lemma RefusedIffInfeasible(m: Margin, l: Limits, input: nat, tools: nat, output: nat)
    ensures var a := Allocate(m, l, input, tools, output);
            && (a.outcome.CannotFit? <==> !Feasible(m, l, input, tools, output, Window(l)))
            && (!a.outcome.CannotFit? ==> Feasible(m, l, input, tools, output, a.window))
            && a.window <= Window(l) && (a.outcome.CannotFit? ==> a.window == Window(l))
  {
    AllocationIsSmallest(m, l, input, tools, output);
  }

  /** Exactly which requests are let through, and that they keep their whole input within the window. */
  lemma FittedOutcome(m: Margin, l: Limits, input: nat, tools: nat, output: nat)
    requires Rounds(m)
    ensures var a := AllocateFitted(m, l, input, tools, output);
            && (!a.outcome.CannotFit? <==>
                (|| Feasible(m, l, input, tools, output, Window(l))
                 || (Retries(m, l, input, tools, output)
                     && InputAllowed(m, l, input, tools, Min(output, Room(m, l, input, tools, output))))))
            && a.input == input && a.window <= Window(l)
            && (!a.outcome.CannotFit? ==> input + tools + a.safety + (if l.independent then 0 else a.maxOutput) <= a.window)
  {
    RefusedIffInfeasible(m, l, input, tools, output);
    FittedReserve(m, l, input, tools, output);
    if !Feasible(m, l, input, tools, output, Window(l)) && Retries(m, l, input, tools, output) {
      RetryFitsWindow(m, l, input, tools, output);
      RefusedIffInfeasible(m, l, input, tools, Min(output, Room(m, l, input, tools, output)));
    }
  }

  /** The reserve is reduced only if it must be, and then to all the room that is left. */
  lemma FittedReserve(m: Margin, l: Limits, input: nat, tools: nat, output: nat)
    ensures var a, room := AllocateFitted(m, l, input, tools, output), Room(m, l, input, tools, output);
            a == if Feasible(m, l, input, tools, output, Window(l)) || a.outcome.CannotFit?
                 then Allocate(m, l, input, tools, output)
                 else Allocate(m, l, input, tools, if room >= output then output else if room >= 0 then room else 0)
  {
    RefusedIffInfeasible(m, l, input, tools, output);
  }

  /**
   The documented promise is that a request is refused only if even the floor does not fit. It fails: the
   room is computed with the safety margin of the large reserve, so a request whose floor fits is refused.
   */
  lemma FloorFitsYetRefused(m: Margin) returns (l: Limits)
    requires Rounds(m)
    ensures Feasible(m, l, 6_500, 0, MIN_OUTPUT_TOKENS, Window(l))
    ensures AllocateFitted(m, l, 6_500, 0, 32_000).outcome.CannotFit?
  {
    l := Limits(Some(8_192), None, false, true, None, None, false, None);
    FittedOutcome(m, l, 6_500, 0, 32_000);
  }

  /** The floor fits the window with its own safety margin, but not with that of the reserve asked for. */
  predicate WindowGap(m: Margin, l: Limits, input: nat, tools: nat, output: nat) {
    input + tools + 1_024 + Safety(m, l, input, tools, 1_024)
    <= Window(l)
    < input + tools + 1_024 + Safety(m, l, input, tools, output)
  }

  /** The input limit admits the floor's safety margin, but not that of the reserve cut to the room that is left. */
  predicate InputGap(m: Margin, l: Limits, input: nat, tools: nat, output: nat) {
    var room := Room(m, l, input, tools, output);
    && l.maxInput.Some? && room >= 1_024
    && input + tools + Safety(m, l, input, tools, 1_024)
       <= l.maxInput.value
       < input + tools + Safety(m, l, input, tools, Min(output, room))
  }

  /**
   Exactly which requests break the promise: those whose size falls into the gap between the safety margins
   of the floor and of a larger reserve, at the window or at the input limit.
   */
  lemma PromiseBrokenIff(m: Margin, l: Limits, input: nat, tools: nat, output: nat)
    requires Rounds(m)
    ensures (&& AllocateFitted(m, l, input, tools, output).outcome.CannotFit?
             && Feasible(m, l, input, tools, 1_024, Window(l)))
            <==> (|| InputGap(m, l, input, tools, output)
                  || (WindowGap(m, l, input, tools, output) && InputAllowed(m, l, input, tools, 1_024)))
  {
    FittedOutcome(m, l, input, tools, output);
    if l.independent || output <= MIN_OUTPUT_TOKENS {
      NoGapWithoutRetry(m, l, input, tools, output);
    } else {
      LessOutputNeedsLess(m, l, input, tools, output, MIN_OUTPUT_TOKENS);
      if Room(m, l, input, tools, output) >= MIN_OUTPUT_TOKENS {
        RetryFitsWindow(m, l, input, tools, output);
        LessOutputNeedsLess(m, l, input, tools, output, Min(output, Room(m, l, input, tools, output)));
      }
    }
  }

  /** A request that needs no more than the floor has no gap to fall into, and is let through if the floor fits. */
  lemma NoGapWithoutRetry(m: Margin, l: Limits, input: nat, tools: nat, output: nat)
    requires Rounds(m) && (l.independent || output <= MIN_OUTPUT_TOKENS)
    ensures !WindowGap(m, l, input, tools, output) && !InputGap(m, l, input, tools, output)
    ensures Feasible(m, l, input, tools, MIN_OUTPUT_TOKENS, Window(l)) ==> Feasible(m, l, input, tools, output, Window(l))
  {
    if output <= MIN_OUTPUT_TOKENS {
      LessOutputNeedsLess(m, l, input, tools, MIN_OUTPUT_TOKENS, output);
      var room := Room(m, l, input, tools, output);
      if room >= 0 { LessOutputNeedsLess(m, l, input, tools, MIN_OUTPUT_TOKENS, Min(output, room)); }
    }
  }

  /** A small request never breaks it: while both margins are the minimum there is no gap. */
  lemma SmallRequestsKeepPromise(m: Margin, l: Limits, input: nat, tools: nat, output: nat)
    requires Rounds(m) && input + tools + OutputInWindow(l, output) <= 20 * (MIN_SAFETY_TOKENS - 1)
    ensures !WindowGap(m, l, input, tools, output) && !InputGap(m, l, input, tools, output)
  {
  }

  // ----- The context size sent to a model never shrinks mid-execution -----

  /** The usable window W: the allocator's window, bounded by the operator's setting when limits are known. */
  function EffectiveWindow(l: Limits): nat {
    if l.known && l.configured.Some? then Min(Window(l), l.configured.value) else Window(l)
  }

  /** One request to one model: its limits at the time, its estimated input and its output reserve. */
  datatype Call = Call(limits: Limits, input: nat, output: nat)

  function AllocationOf(m: Margin, c: Call): Allocation {
    AllocateFitted(m, c.limits, c.input, 0, c.output)
  }

  function ContextFor(m: Margin, sent: Option<nat>, c: Call): Option<nat> {
    var a := AllocationOf(m, c);
    if a.requested.None? then None
    else Some(Min(Max(a.requested.value, if sent.Some? then sent.value else 0), EffectiveWindow(c.limits)))
  }

  /** A call that is sent with a context size; only such calls are remembered. */
  predicate Ratchets(m: Margin, c: Call) {
    AllocationOf(m, c).requested.Some? && !AllocationOf(m, c).outcome.CannotFit?
  }

  function SentNext(m: Margin, sent: Option<nat>, c: Call): Option<nat> {
    if Ratchets(m, c) then ContextFor(m, sent, c) else sent
  }

  function SentAfter(m: Margin, calls: seq<Call>): Option<nat> {
    if calls == [] then None else SentNext(m, SentAfter(m, calls[..|calls| - 1]), calls[|calls| - 1])
  }

  /** The largest size asked for by a call that could be sent, or nothing. */
  function LargestRequest(m: Margin, calls: seq<Call>): Option<nat> {
    if calls == [] then None
    else
      var before, c := LargestRequest(m, calls[..|calls| - 1]), calls[|calls| - 1];
      if !Ratchets(m, c) then before
      else Some(Max(AllocationOf(m, c).requested.value, if before.Some? then before.value else 0))
  }

  /** Under one window W the recorded size is the smaller of W and the largest request that could be sent. */
  lemma {:induction false} RatchetIsMaximum(m: Margin, calls: seq<Call>, w: nat)
    requires forall c <- calls :: EffectiveWindow(c.limits) == w
    ensures SentAfter(m, calls).Some? <==> LargestRequest(m, calls).Some?
    ensures SentAfter(m, calls).Some? ==> SentAfter(m, calls).value == Min(w, LargestRequest(m, calls).value)
  {
    if calls != [] {
      RatchetIsMaximum(m, calls[..|calls| - 1], w);
    }
  }

  /** A call lowers the recorded size exactly when it is sent under a window smaller than that size. */
  lemma ShrinksIff(m: Margin, sent: Option<nat>, c: Call)
    requires sent.Some?
    ensures SentNext(m, sent, c).Some?
    ensures SentNext(m, sent, c).value < sent.value <==> Ratchets(m, c) && EffectiveWindow(c.limits) < sent.value
  {
  }

  /**
   A call judged to fit is sent with a context that holds its input, output and safety margin exactly when
   that need is within W; an operator setting below the allocated window breaks it.
   */
  lemma SentContextHoldsIff(m: Margin, sent: Option<nat>, c: Call)
    requires Rounds(m) && Ratchets(m, c)
    ensures var a := AllocationOf(m, c);
            var need := c.input + a.safety + if c.limits.independent then 0 else a.maxOutput;
            need <= ContextFor(m, sent, c).value <==> need <= EffectiveWindow(c.limits)
  {
    FittedOutcome(m, c.limits, c.input, 0, c.output);
  }

  /** The operator allows 4,096 tokens of a 32,768 window: 10,000 tokens of input are sent with 4,096 of context. */
  lemma SentWithTooLittle(m: Margin)
    requires Rounds(m)
    ensures var c := Call(Limits(Some(32_768), Some(4_096), true, true, None, None, false, Some(4_096)), 10_000, 1_024);
            Ratchets(m, c) && ContextFor(m, None, c) == Some(4_096) && 4_096 < c.input
  {
    var l := Limits(Some(32_768), Some(4_096), true, true, None, None, false, Some(4_096));
    FittedOutcome(m, l, 10_000, 0, 1_024);
    AllocationIsSmallest(m, l, 10_000, 0, 1_024);
    assert 10_000 + 1_024 <= 20 * m(11_024) < 11_024 + 40;
  }

  /** The model is placed where its window is 8,192: the context of 16,384 sent before shrinks to 8,192. */
  lemma ShrinksOnSmallerWindow(m: Margin)
    requires Rounds(m)
    ensures var big := Limits(Some(16_384), None, true, true, None, None, false, None);
            var small := big.(contextWindow := Some(8_192));
            SentAfter(m, [Call(big, 10_000, 1_024)]) == Some(16_384)
            && SentAfter(m, [Call(big, 10_000, 1_024), Call(small, 100, 1_024)]) == Some(8_192)
  {
    var big := Limits(Some(16_384), None, true, true, None, None, false, None);
    var small := big.(contextWindow := Some(8_192));
    var first, second := Call(big, 10_000, 1_024), Call(small, 100, 1_024);
    FittedOutcome(m, big, 10_000, 0, 1_024);
    AllocationIsSmallest(m, big, 10_000, 0, 1_024);
    FittedOutcome(m, small, 100, 0, 1_024);
    AllocationIsSmallest(m, small, 100, 0, 1_024);
    assert 11_024 <= 20 * m(11_024) < 11_024 + 40 && 1_124 <= 20 * m(1_124) < 1_124 + 40;
    assert Ratchets(m, first) && Ratchets(m, second);
    assert [first, second][..1] == [first] && [first][..0] == [];
    assert SentAfter(m, [first]) == ContextFor(m, None, first);
  }

  datatype Prepared = Prepared(allocation: Allocation, maxTokens: nat, contextTokens: Option<nat>, refused: bool)

  class InvocationContextAllocator {
    var sent: map<string, nat>
    const defaultOutput: nat
    const margin: Margin

    constructor (defaultOutput: nat, margin: Margin)
      ensures sent == map[] && this.defaultOutput == defaultOutput && this.margin == margin
    {
      sent := map[];
      this.defaultOutput, this.margin := defaultOutput, margin;
    }

    function SentFor(modelId: string): Option<nat>
      reads this
    {
      if modelId in sent then Some(sent[modelId]) else None
    }

    /** Sizes one request. Nothing but this model's recorded size changes, and only if the request can be sent. */
    method Prepare(modelId: string, l: Limits, input: nat, maxTokens: Option<nat>) returns (p: Prepared)
      modifies this`sent
      ensures var c := Call(l, input, if maxTokens.Some? then maxTokens.value else defaultOutput);
              && p.allocation == AllocationOf(margin, c) && p.contextTokens == ContextFor(margin, old(SentFor(modelId)), c)
              && SentFor(modelId) == SentNext(margin, old(SentFor(modelId)), c)
      ensures forall other :: other != modelId ==> SentFor(other) == old(SentFor(other))
      ensures p.maxTokens == if maxTokens.Some? && maxTokens.value < p.allocation.maxOutput then maxTokens.value else p.allocation.maxOutput
      ensures p.refused <==> p.allocation.outcome.CannotFit?
      ensures SentFor(modelId) == if p.refused || p.contextTokens.None? then old(SentFor(modelId)) else p.contextTokens
      ensures match (p.allocation.requested, old(SentFor(modelId)))
              case (None, _) => p.contextTokens.None?
              case (Some(size), None) => p.contextTokens == Some(Min(size, EffectiveWindow(l)))
              case (Some(size), Some(before)) =>
                p.contextTokens == Some(Min(if size >= before then size else before, EffectiveWindow(l)))
    {
      var output := if maxTokens.Some? then maxTokens.value else defaultOutput;
      var a := AllocateFitted(margin, l, input, 0, output);
      var contextTokens: Option<nat> := None;
      if a.requested.Some? {
        var previous := if modelId in sent then sent[modelId] else 0;
        contextTokens := Some(Min(Max(a.requested.value, previous), EffectiveWindow(l)));
        if !a.outcome.CannotFit? {
          sent := sent[modelId := contextTokens.value];
        }
      }
      p := Prepared(a, Min(if maxTokens.Some? then maxTokens.value else a.maxOutput, a.maxOutput), contextTokens,
                    a.outcome.CannotFit?);
    }
  }
}
