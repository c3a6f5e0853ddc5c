/**
 The process-wide handler for unhandled promise rejections and the scopes that temporarily replace it.
 Opening a scope returns a restore function that remembers the handler it replaced.
 */
module CrashScopes {
  import opened Options

  /** Identity of a handler function: the fatal default, or one passed to a scope. */
  datatype Handler = Fatal | Scoped(id: nat)

  /** The module variables, and this module's listeners on the process in order of registration. */
  datatype State = State(installed: bool, current: Option<Handler>, listeners: seq<Handler>)

  /** What a restore function has captured. */
  datatype Scope = Scope(handler: Handler, previous: Option<Handler>)

  /** `process.off` removes the latest registration of a listener. */
  function Remove(ls: seq<Handler>, h: Handler): seq<Handler> {
    if ls == [] then []
    else if ls[|ls| - 1] == h then ls[..|ls| - 1]
    else Remove(ls[..|ls| - 1], h) + [ls[|ls| - 1]]
  }

  /** Exactly the latest registration goes; all others stay in order. */
  lemma {:induction false} RemovesLatest(before: seq<Handler>, h: Handler, after: seq<Handler>)
    requires h !in after
    ensures Remove(before + [h] + after, h) == before + after && Remove(after, h) == after
    decreases |after|
  {
    var all := before + [h] + after;
    if after == [] {
      assert all[..|all| - 1] == before;
    } else {
      var init, last := after[..|after| - 1], after[|after| - 1];
      assert after == init + [last] && all[..|all| - 1] == before + [h] + init;
      RemovesLatest(before, h, init);
    }
  }

  /** Installing twice is installing once, and the first time puts the fatal handler in place beside what is there. */
  lemma InstallOnce(s: State)
    ensures Install(Install(s)) == Install(s) && Install(s).installed
    ensures !s.installed ==> Install(s).current == Some(Fatal) && Install(s).listeners == s.listeners + [Fatal]
    ensures s.installed ==> Install(s) == s
  {
  }

  function Install(s: State): State {
    if s.installed then s else State(true, Some(Fatal), s.listeners + [Fatal])
  }

  function Open(s: State, h: Handler): State {
    var ls := if s.current.Some? then Remove(s.listeners, s.current.value) else s.listeners;
    s.(current := Some(h), listeners := ls + [h])
  }

  function Close(s: State, scope: Scope): State {
    if s.current != Some(scope.handler) then s
    else
      var ls := Remove(s.listeners, scope.handler);
      s.(current := scope.previous, listeners := if scope.previous.Some? then ls + [scope.previous.value] else ls)
  }

  class RejectionHandlers {
    var installed: bool
    var current: Option<Handler>
    var listeners: seq<Handler>

    function Value(): State
      reads this
    {
      State(installed, current, listeners)
    }

    constructor ()
      ensures Value() == State(false, None, [])
    {
      installed, current, listeners := false, None, [];
    }

    method InstallGlobal()
      modifies this
      ensures Value() == Install(old(Value()))
    {
      if installed { return; }
      installed := true;
      current := Some(Fatal);
      listeners := listeners + [Fatal];
    }

    method OpenScope(h: Handler) returns (scope: Scope)
      modifies this
      ensures Value() == Open(old(Value()), h) && scope == Scope(h, old(current))
    {
      var previous := current;
      if previous.Some? {
        listeners := Remove(listeners, previous.value);
      }
      current := Some(h);
      listeners := listeners + [h];
      scope := Scope(h, previous);
    }

    method Restore(scope: Scope)
      modifies this
      ensures Value() == Close(old(Value()), scope)
    {
      if current == Some(scope.handler) {
        listeners := Remove(listeners, scope.handler);
        current := scope.previous;
        if scope.previous.Some? {
          listeners := listeners + [scope.previous.value];
        }
      }
    }
  }

  // ----- One listener at a time -----

  /** The only listener of this module is the current handler. */
  predicate Single(s: State) {
    s.listeners == if s.current.Some? then [s.current.value] else []
  }

  datatype Op = Installing | Opening(h: Handler) | Closing(scope: nat)

  /** The state together with the restore functions handed out so far. */
  datatype World = World(state: State, scopes: seq<Scope>)

  function Next(w: World, op: Op): World {
    match op
    case Installing => w.(state := Install(w.state))
    case Opening(h) => World(Open(w.state, h), w.scopes + [Scope(h, w.state.current)])
    case Closing(k) => if k < |w.scopes| then w.(state := Close(w.state, w.scopes[k])) else w
  }

  function RunOps(w: World, ops: seq<Op>): World {
    if ops == [] then w else Next(RunOps(w, ops[..|ops| - 1]), ops[|ops| - 1])
  }

  /** A first installation while some scope's handler is current. */
  predicate LateInstall(s: State, op: Op) {
    op.Installing? && !s.installed && s.current.Some?
  }

  /** One operation keeps a single listener, except exactly a late installation, which leaves two. */
  lemma StepKeepsSingle(w: World, op: Op)
    requires Single(w.state)
    ensures Single(Next(w, op).state) <==> !LateInstall(w.state, op)
  {
    var s := w.state;
    assert s.current.Some? ==> Remove([s.current.value], s.current.value) == [];
  }

  /** A scope opened before the global handlers are installed leaves two listeners. */
  lemma LateInstallLeavesTwo()
    ensures RunOps(World(State(false, None, []), []), [Opening(Scoped(1)), Installing]).state ==
            State(true, Some(Fatal), [Scoped(1), Fatal])
  {
    var ops := [Opening(Scoped(1)), Installing];
    assert ops[..1] == [Opening(Scoped(1))] && ops[..1][..0] == [];
  }

  /** In every run without a late installation there is one listener, the current handler, at every moment. */
  lemma {:induction false} RunKeepsSingle(ops: seq<Op>, n: nat)
    requires n <= |ops|
    requires forall k :: 0 <= k < n ==> !LateInstall(RunOps(World(State(false, None, []), []), ops[..k]).state, ops[k])
    ensures Single(RunOps(World(State(false, None, []), []), ops[..n]).state)
  {
    if n > 0 {
      RunKeepsSingle(ops, n - 1);
      assert ops[..n][..n - 1] == ops[..n - 1];
      StepKeepsSingle(RunOps(World(State(false, None, []), []), ops[..n - 1]), ops[n - 1]);
    }
  }

  // ----- Restoring -----

  /** The handlers of the scopes opened so far, in order. */
  function Opened(ops: seq<Op>): seq<Handler> {
    if ops == [] then []
    else
      var op := ops[|ops| - 1];
      Opened(ops[..|ops| - 1]) + if op.Opening? then [op.h] else []
  }

  /**
   The scopes that are still open if each is closed by its own restore function and only while it is the
   innermost one: opening pushes, restoring the top pops, restoring any other does nothing.
   */
  function Stack(ops: seq<Op>): seq<nat> {
    if ops == [] then []
    else
      var below, op := Stack(ops[..|ops| - 1]), ops[|ops| - 1];
      match op
      case Installing => below
      case Opening(_) => below + [|Opened(ops[..|ops| - 1])|]
      case Closing(k) => if below != [] && below[|below| - 1] == k then below[..|below| - 1] else below
  }

  /** Handlers are not shared between scopes, nor with what was in place before. */
  predicate Distinct(base: State, hs: seq<Handler>) {
    && (forall i, j :: 0 <= i < j < |hs| ==> hs[i] != hs[j])
    && forall i :: 0 <= i < |hs| ==> base.current != Some(hs[i])
  }

  /** What is in place when the scopes on `stack` are open over `base`. */
  function Top(base: State, hs: seq<Handler>, stack: seq<nat>): Option<Handler> {
    if stack == [] then base.current
    else if stack[|stack| - 1] < |hs| then Some(hs[stack[|stack| - 1]])
    else None
  }

  function With(base: State, current: Option<Handler>): State {
    State(base.installed, current, if current.Some? then [current.value] else [])
  }

  /** The scope at depth `d` remembers what was in place below it. */
  predicate LinkedAt(base: State, hs: seq<Handler>, scopes: seq<Scope>, stack: seq<nat>, d: nat) {
    d < |stack| && stack[d] < |hs| == |scopes| && scopes[stack[d]].previous == Top(base, hs, stack[..d])
  }

  predicate Linked(base: State, hs: seq<Handler>, scopes: seq<Scope>, stack: seq<nat>) {
    && |scopes| == |hs|
    && (forall k :: 0 <= k < |hs| ==> scopes[k].handler == hs[k])
    && forall d: nat :: d < |stack| ==> LinkedAt(base, hs, scopes, stack, d)
  }

  /** The world after `ops` is exactly what the stack of open scopes says. */
  predicate Follows(base: State, ops: seq<Op>, w: World) {
    && w.state == With(base, Top(base, Opened(ops), Stack(ops)))
    && Linked(base, Opened(ops), w.scopes, Stack(ops))
  }

  lemma OpenFollows(base: State, hs: seq<Handler>, stack: seq<nat>, w: World, h: Handler)
    requires w.state == With(base, Top(base, hs, stack)) && Linked(base, hs, w.scopes, stack)
    ensures var w' := Next(w, Opening(h));
            && w'.state == With(base, Top(base, hs + [h], stack + [|hs|]))
            && Linked(base, hs + [h], w'.scopes, stack + [|hs|])
  {
    var w', all := Next(w, Opening(h)), stack + [|hs|];
    var current := w.state.current;
    assert current.Some? ==> Remove([current.value], current.value) == [];
    forall d: nat | d < |all| ensures LinkedAt(base, hs + [h], w'.scopes, all, d) {
      assert all[..d] == stack[..d];
      if d < |stack| {
        assert LinkedAt(base, hs, w.scopes, stack, d);
      } else {
        assert stack[..d] == stack;
      }
      TopStays(base, hs, h, w.scopes, stack, d);
    }
  }

  lemma TopStays(base: State, hs: seq<Handler>, h: Handler, scopes: seq<Scope>, stack: seq<nat>, d: nat)
    requires Linked(base, hs, scopes, stack) && d <= |stack|
    ensures Top(base, hs + [h], stack[..d]) == Top(base, hs, stack[..d])
  {
    assert d > 0 ==> LinkedAt(base, hs, scopes, stack, d - 1);
  }

  lemma CloseFollows(base: State, hs: seq<Handler>, stack: seq<nat>, w: World, k: nat)
    requires w.state == With(base, Top(base, hs, stack)) && Linked(base, hs, w.scopes, stack) && Distinct(base, hs)
    ensures var rest := if stack != [] && stack[|stack| - 1] == k then stack[..|stack| - 1] else stack;
            var w' := Next(w, Closing(k));
            w'.state == With(base, Top(base, hs, rest)) && Linked(base, hs, w'.scopes, rest)
  {
    var current := w.state.current;
    assert current.Some? ==> Remove([current.value], current.value) == [];
    if stack != [] && stack[|stack| - 1] == k {
      var n := |stack| - 1;
      assert LinkedAt(base, hs, w.scopes, stack, n);
      forall d: nat | d < n ensures LinkedAt(base, hs, w.scopes, stack[..n], d) {
        assert LinkedAt(base, hs, w.scopes, stack, d) && stack[..n][..d] == stack[..d];
      }
    } else if k < |hs| {
      assert stack != [] ==> LinkedAt(base, hs, w.scopes, stack, |stack| - 1);
      assert current != Some(hs[k]);
    }
  }

  lemma StepFollows(base: State, before: seq<Op>, op: Op, w: World)
    requires Follows(base, before, w) && Distinct(base, Opened(before)) && (op.Installing? ==> base.installed)
    ensures Follows(base, before + [op], Next(w, op))
  {
    var ops, hs := before + [op], Opened(before);
    assert ops[..|before|] == before;
    match op
    case Installing => assert Opened(ops) == hs;
    case Opening(h) => OpenFollows(base, hs, Stack(before), w, h);
    case Closing(k) =>
      assert Opened(ops) == hs;
      CloseFollows(base, hs, Stack(before), w, k);
  }

  /** Scopes opened and closed in any order keep to the stack. */
  lemma {:induction false} RunFollows(base: State, ops: seq<Op>)
    requires Single(base) && Distinct(base, Opened(ops)) && (Installing in ops ==> base.installed)
    ensures Follows(base, ops, RunOps(World(base, []), ops))
  {
    if ops != [] {
      var before, op := ops[..|ops| - 1], ops[|ops| - 1];
      assert ops == before + [op];
      assert forall i :: 0 <= i < |Opened(before)| ==> Opened(ops)[i] == Opened(before)[i];
      RunFollows(base, before);
      StepFollows(base, before, op, RunOps(World(base, []), before));
    }
  }

  /**
   Over any sequence of openings and restore calls, in any order and with repetitions, the earlier state is
   back exactly when every scope was closed innermost first; otherwise the innermost scope left on the stack
   has its handler in place, even if its restore function was called before.
   */
  lemma RestoredIffStackEmpty(base: State, ops: seq<Op>)
    requires Single(base) && Distinct(base, Opened(ops)) && (Installing in ops ==> base.installed)
    ensures var state := RunOps(World(base, []), ops).state;
            && (state == base <==> Stack(ops) == [])
            && Single(state) && state.current == Top(base, Opened(ops), Stack(ops))
  {
    RunFollows(base, ops);
    var stack, hs := Stack(ops), Opened(ops);
    if stack != [] {
      assert LinkedAt(base, hs, RunOps(World(base, []), ops).scopes, stack, |stack| - 1);
    }
  }

  /** `[d - 1, ..., 1, 0]`: last opened, first closed. */
  function Unwinding(d: nat): seq<nat> {
    if d == 0 then [] else [d - 1] + Unwinding(d - 1)
  }

  /** `pattern` can be read off `closes` at increasing positions. */
  ghost predicate Embeds(pattern: seq<nat>, closes: seq<nat>) {
    exists at: seq<nat> :: EmbedsAt(pattern, closes, at)
  }

  predicate EmbedsAt(pattern: seq<nat>, closes: seq<nat>, at: seq<nat>) {
    && |at| == |pattern|
    && (forall i :: 0 <= i < |at| ==> at[i] < |closes| && closes[at[i]] == pattern[i])
    && forall i, j :: 0 <= i < j < |at| ==> at[i] < at[j]
  }

  /** How deep the scopes remain open after the closes. */
  function DepthAfter(d: nat, closes: seq<nat>): nat {
    if closes == [] then d else if d == closes[0] + 1 then DepthAfter(d - 1, closes[1..]) else DepthAfter(d, closes[1..])
  }

  lemma {:induction false} DepthZeroIffUnwound(d: nat, closes: seq<nat>)
    ensures DepthAfter(d, closes) == 0 <==> Embeds(Unwinding(d), closes)
    decreases |closes|
  {
    if closes == [] {
      if d == 0 { assert EmbedsAt([], closes, []); }
      forall at: seq<nat> | d > 0 ensures !EmbedsAt(Unwinding(d), closes, at) {
        if |at| == |Unwinding(d)| { assert !(at[0] < |closes|); }
      }
    } else {
      var d' := if d == closes[0] + 1 then d - 1 else d;
      DepthZeroIffUnwound(d', closes[1..]);
      if Embeds(Unwinding(d'), closes[1..]) {
        var at: seq<nat> :| EmbedsAt(Unwinding(d'), closes[1..], at);
        EmbeddingExtends(d, closes, at);
      }
      if Embeds(Unwinding(d), closes) {
        var at: seq<nat> :| EmbedsAt(Unwinding(d), closes, at);
        EmbeddingShifts(d, closes, at);
      }
    }
  }

  lemma EmbeddingExtends(d: nat, closes: seq<nat>, at: seq<nat>)
    requires closes != [] && EmbedsAt(Unwinding(if d == closes[0] + 1 then d - 1 else d), closes[1..], at)
    ensures Embeds(Unwinding(d), closes)
  {
    var shifted: seq<nat> := seq(|at|, i requires 0 <= i < |at| => at[i] + 1);
    if d == closes[0] + 1 {
      var longer := [0] + shifted;
      assert forall i :: 0 < i < |longer| ==> longer[i] == at[i - 1] + 1 && Unwinding(d)[i] == Unwinding(d - 1)[i - 1];
      assert EmbedsAt(Unwinding(d), closes, longer);
    } else {
      assert EmbedsAt(Unwinding(d), closes, shifted);
    }
  }

  lemma EmbeddingShifts(d: nat, closes: seq<nat>, at: seq<nat>)
    requires closes != [] && EmbedsAt(Unwinding(d), closes, at)
    ensures Embeds(Unwinding(if d == closes[0] + 1 then d - 1 else d), closes[1..])
  {
    if d == closes[0] + 1 {
      var rest := at[1..];
      assert Unwinding(d)[1..] == Unwinding(d - 1);
      assert forall i :: 0 <= i < |rest| ==> rest[i] == at[i + 1] > at[0] >= 0;
      var shifted: seq<nat> := seq(|rest|, i requires 0 <= i < |rest| => rest[i] - 1);
      assert EmbedsAt(Unwinding(d - 1), closes[1..], shifted);
    } else {
      if d > 0 { assert Unwinding(d)[0] == d - 1 && at[0] > 0; }
      assert forall i :: 0 <= i < |at| ==> at[i] > 0;
      var shifted: seq<nat> := seq(|at|, i requires 0 <= i < |at| => at[i] - 1);
      assert EmbedsAt(Unwinding(d), closes[1..], shifted);
    }
  }

  /** Closing the outer of two scopes first, then the inner one, leaves the handler of the closed outer scope in place. */
  lemma ClosedScopeStaysInPlace()
    ensures var both := Next(Next(World(State(false, None, []), []), Opening(Scoped(1))), Opening(Scoped(2)));
            Next(Next(both, Closing(0)), Closing(1)).state == State(false, Some(Scoped(1)), [Scoped(1)])
  {
    var outer := Next(World(State(false, None, []), []), Opening(Scoped(1)));
    assert outer == World(State(false, Some(Scoped(1)), [Scoped(1)]), [Scope(Scoped(1), None)]);
    var both := Next(outer, Opening(Scoped(2)));
    assert both.state == State(false, Some(Scoped(2)), [Scoped(2)]);
    assert both.scopes == [Scope(Scoped(1), None), Scope(Scoped(2), Some(Scoped(1)))];
  }

  function OpenAll(hs: seq<Handler>): seq<Op> {
    seq(|hs|, k requires 0 <= k < |hs| => Opening(hs[k]))
  }

  function CloseAll(closes: seq<nat>): seq<Op> {
    seq(|closes|, k requires 0 <= k < |closes| => Closing(closes[k]))
  }

  /** `[0, 1, ..., d - 1]` */
  function UpTo(d: nat): seq<nat> {
    seq(d, k requires 0 <= k < d => k)
  }

  lemma {:induction false} StackOfOpens(hs: seq<Handler>)
    ensures Opened(OpenAll(hs)) == hs && Stack(OpenAll(hs)) == UpTo(|hs|)
  {
    if hs != [] {
      var init := hs[..|hs| - 1];
      StackOfOpens(init);
      assert OpenAll(hs)[..|hs| - 1] == OpenAll(init);
    }
  }

  /** The scopes that restore calls leave open are the outermost ones. */
  lemma {:induction false} StackOfCloses(hs: seq<Handler>, closes: seq<nat>)
    ensures Opened(OpenAll(hs) + CloseAll(closes)) == hs
    ensures DepthAfter(|hs|, closes) <= |hs| && Stack(OpenAll(hs) + CloseAll(closes)) == UpTo(DepthAfter(|hs|, closes))
  {
    var ops := OpenAll(hs) + CloseAll(closes);
    if closes == [] {
      StackOfOpens(hs);
      assert ops == OpenAll(hs);
    } else {
      var init, last := closes[..|closes| - 1], closes[|closes| - 1];
      StackOfCloses(hs, init);
      assert ops[..|ops| - 1] == OpenAll(hs) + CloseAll(init);
      DepthSnoc(|hs|, init, last);
      assert init + [last] == closes;
      var d := DepthAfter(|hs|, init);
      if d > 0 { assert UpTo(d)[..d - 1] == UpTo(d - 1); }
    }
  }

  lemma {:induction false} DepthSnoc(d: nat, closes: seq<nat>, k: nat)
    ensures DepthAfter(d, closes + [k]) ==
            if DepthAfter(d, closes) == k + 1 then DepthAfter(d, closes) - 1 else DepthAfter(d, closes)
    decreases |closes|
  {
    if closes != [] {
      assert (closes + [k])[1..] == closes[1..] + [k];
      DepthSnoc(if d == closes[0] + 1 then d - 1 else d, closes[1..], k);
    }
  }

  /**
   In particular, after opening scopes one in the other, restore calls in any order bring back the earlier
   state if and only if they contain the last-opened-first order.
   */
  lemma RestoredIffUnwound(base: State, hs: seq<Handler>, closes: seq<nat>)
    requires Single(base) && Distinct(base, hs)
    ensures RunOps(World(base, []), OpenAll(hs) + CloseAll(closes)).state == base <==> Embeds(Unwinding(|hs|), closes)
  {
    var ops := OpenAll(hs) + CloseAll(closes);
    StackOfCloses(hs, closes);
    assert Installing !in ops;
    RestoredIffStackEmpty(base, ops);
    DepthZeroIffUnwound(|hs|, closes);
  }
}
