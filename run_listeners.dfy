/**
 * SpringApplicationRunListeners: the run listeners, called in list order at each phase of a
 * run. A listener is modelled by what its callback throws, if anything, in each phase.
 */
module RunListeners {
  import opened Wrappers
  import opened Throwables
  import Text

  /** The run phases a listener hears about; `finished` carries the run's failure, if any. */
  datatype Phase =
    | Starting
    | EnvironmentPrepared
    | ContextPrepared
    | ContextLoaded
    | Finished(exception: Throwable)

  /** A SpringApplicationRunListener: the exception its callback throws in a phase. */
  type Listener = Phase -> Option<Thrown>

  /** What the listener's callback for the phase throws, if anything. */
  function ThrownIn(l: Listener, phase: Phase): Option<Thrown> {
    l(phase)
  }

  /** One callback: the listener's position in the list, and the phase. */
  datatype Call = Call(listener: nat, phase: Phase)

  /** What callFinishedListener logs for a swallowed listener error. */
  datatype LogEntry = ErrorWithStack(message: string, error: Throwable) | Warning(message: string)

  /** The position of the first listener that throws in `phase`, or |listeners| if none does. */
  function FirstFailing(listeners: seq<Listener>, phase: Phase): (k: nat)
    ensures k <= |listeners|
    ensures forall i :: 0 <= i < k ==> ThrownIn(listeners[i], phase).None?
    ensures k < |listeners| ==> ThrownIn(listeners[k], phase).Some?
    decreases |listeners|
  {
    if listeners == [] then 0
    else if ThrownIn(listeners[0], phase).Some? then 0
    else
      var k := FirstFailing(listeners[1..], phase);
      assert forall i :: 1 <= i < k + 1 ==> listeners[i] == listeners[1..][i - 1];
      k + 1
  }

  /** The callbacks made to the first `n` listeners, in list order. */
  function CallsUpTo(phase: Phase, n: nat): (r: seq<Call>)
    ensures |r| == n && forall i :: 0 <= i < n ==> r[i] == Call(i, phase)
  {
    seq(n, i requires 0 <= i < n => Call(i, phase))
  }

  /** The number of listeners a broadcast reaches: up to and including the first that throws. */
  function Reached(listeners: seq<Listener>, phase: Phase): (n: nat)
    ensures n <= |listeners|
    ensures n == |listeners| || (n > 0 && ThrownIn(listeners[n - 1], phase).Some?)
  {
    var k := FirstFailing(listeners, phase);
    if k < |listeners| then k + 1 else k
  }

  /** The log entry for an error a listener threw while the run had already failed. */
  function Swallowed(error: Thrown, debugEnabled: bool): LogEntry {
    if debugEnabled then ErrorWithStack("Error handling failed", error)
    else Warning("Error handling failed (" + (if error[0].message.Some? then error[0].message.value else "no error message") + ")")
  }

  /** The log of a failed run's `finished`: one entry per listener that threw, in list order. */
  function SwallowedAll(listeners: seq<Listener>, phase: Phase, debugEnabled: bool): (r: seq<LogEntry>)
    ensures |r| <= |listeners|
    decreases |listeners|
  {
    if listeners == [] then []
    else
      var rest := SwallowedAll(listeners[1..], phase, debugEnabled);
      match ThrownIn(listeners[0], phase)
      case None => rest
      case Some(e) => [Swallowed(e, debugEnabled)] + rest
  }

  class Listeners {
    /** The listeners, a copy of the given collection in its order. */
    const listeners: seq<Listener>
    const debugEnabled: bool
    /** Every callback made so far, in call order. */
    var calls: seq<Call>
    var log: seq<LogEntry>

    constructor(listeners: seq<Listener>, debugEnabled: bool)
      ensures this.listeners == listeners && this.debugEnabled == debugEnabled
      ensures calls == [] && log == []
    {
      this.listeners := listeners;
      this.debugEnabled := debugEnabled;
      calls := [];
      log := [];
    }

    /** Every listener in order, stopping at the first that throws; its exception propagates. */
    method Broadcast(phase: Phase) returns (r: Option<Thrown>)
      modifies this
      ensures calls == old(calls) + CallsUpTo(phase, Reached(listeners, phase)) && log == old(log)
      ensures var k := FirstFailing(listeners, phase);
        r == if k < |listeners| then ThrownIn(listeners[k], phase) else None
    {
      var i := 0;
      while i < |listeners|
        invariant 0 <= i <= |listeners|
        invariant forall j :: 0 <= j < i ==> ThrownIn(listeners[j], phase).None?
        invariant calls == old(calls) + CallsUpTo(phase, i) && log == old(log)
      {
        calls := calls + [Call(i, phase)];
        CallsUpToStep(phase, i);
        var thrown := ThrownIn(listeners[i], phase);
        if thrown.Some? {
          return thrown;
        }
        i := i + 1;
      }
      return None;
    }

    method Starting() returns (r: Option<Thrown>)
      modifies this
      ensures calls == old(calls) + CallsUpTo(Phase.Starting, Reached(listeners, Phase.Starting)) && log == old(log)
      ensures var k := FirstFailing(listeners, Phase.Starting);
        r == if k < |listeners| then ThrownIn(listeners[k], Phase.Starting) else None
    {
      r := Broadcast(Phase.Starting);
    }

    method EnvironmentPrepared() returns (r: Option<Thrown>)
      modifies this
      ensures calls == old(calls) + CallsUpTo(Phase.EnvironmentPrepared, Reached(listeners, Phase.EnvironmentPrepared)) && log == old(log)
      ensures var k := FirstFailing(listeners, Phase.EnvironmentPrepared);
        r == if k < |listeners| then ThrownIn(listeners[k], Phase.EnvironmentPrepared) else None
    {
      r := Broadcast(Phase.EnvironmentPrepared);
    }

    method ContextPrepared() returns (r: Option<Thrown>)
      modifies this
      ensures calls == old(calls) + CallsUpTo(Phase.ContextPrepared, Reached(listeners, Phase.ContextPrepared)) && log == old(log)
      ensures var k := FirstFailing(listeners, Phase.ContextPrepared);
        r == if k < |listeners| then ThrownIn(listeners[k], Phase.ContextPrepared) else None
    {
      r := Broadcast(Phase.ContextPrepared);
    }

    method ContextLoaded() returns (r: Option<Thrown>)
      modifies this
      ensures calls == old(calls) + CallsUpTo(Phase.ContextLoaded, Reached(listeners, Phase.ContextLoaded)) && log == old(log)
      ensures var k := FirstFailing(listeners, Phase.ContextLoaded);
        r == if k < |listeners| then ThrownIn(listeners[k], Phase.ContextLoaded) else None
    {
      r := Broadcast(Phase.ContextLoaded);
    }

    /**
     * finished: a successful run (null exception) behaves as the other phases, the first
     * listener error propagating as rethrowRuntimeException throws it. After a failed run
     * every listener is called and their errors are only logged.
     */
    method Finished(exception: Throwable) returns (r: Option<Thrown>)
      modifies this
      ensures exception == [] ==>
        calls == old(calls) + CallsUpTo(Phase.Finished([]), Reached(listeners, Phase.Finished([]))) && log == old(log)
        && var k := FirstFailing(listeners, Phase.Finished([]));
           r == if k < |listeners| then Some(Rethrown(ThrownIn(listeners[k], Phase.Finished([])).value)) else None
      ensures exception != [] ==>
        calls == old(calls) + CallsUpTo(Phase.Finished(exception), |listeners|)
        && log == old(log) + SwallowedAll(listeners, Phase.Finished(exception), debugEnabled)
        && r.None?
    {
      if exception == [] {
        var thrown := Broadcast(Phase.Finished([]));
        r := if thrown.Some? then Some(Rethrown(thrown.value)) else None;
      } else {
        FinishedAfterFailure(exception);
        r := None;
      }
    }

    /** The calls of callFinishedListener after a failed run: every error is logged and swallowed. */
    method FinishedAfterFailure(exception: Throwable)
      modifies this
      ensures calls == old(calls) + CallsUpTo(Phase.Finished(exception), |listeners|)
      ensures log == old(log) + SwallowedAll(listeners, Phase.Finished(exception), debugEnabled)
    {
      var phase := Phase.Finished(exception);
      var i := 0;
      while i < |listeners|
        invariant 0 <= i <= |listeners|
        invariant log + SwallowedAll(listeners[i..], phase, debugEnabled) == old(log) + SwallowedAll(listeners, phase, debugEnabled)
        invariant calls == old(calls) + CallsUpTo(phase, i)
      {
        calls := calls + [Call(i, phase)];
        CallsUpToStep(phase, i);
        var thrown := ThrownIn(listeners[i], phase);
        var entry := if thrown.Some? then [Swallowed(thrown.value, debugEnabled)] else [];
        SwallowedStep(listeners, i, phase, debugEnabled);
        Text.AppendAssociative(log, entry, SwallowedAll(listeners[i + 1..], phase, debugEnabled));
        log := log + entry;
        i := i + 1;
      }
      assert listeners[i..] == [];
    }
  }

  lemma CallsUpToStep(phase: Phase, n: nat)
    ensures CallsUpTo(phase, n + 1) == CallsUpTo(phase, n) + [Call(n, phase)]
  {
  }

  lemma SwallowedStep(listeners: seq<Listener>, i: nat, phase: Phase, debugEnabled: bool)
    requires i < |listeners|
    ensures SwallowedAll(listeners[i..], phase, debugEnabled) ==
      (if ThrownIn(listeners[i], phase).Some? then [Swallowed(ThrownIn(listeners[i], phase).value, debugEnabled)] else [])
      + SwallowedAll(listeners[i + 1..], phase, debugEnabled)
  {
    assert listeners[i..][0] == listeners[i];
    assert listeners[i..][1..] == listeners[i + 1..];
  }

  /** A failed run's `finished` logs nothing exactly when no listener throws. */
  lemma FinishedQuietIff(listeners: seq<Listener>, exception: Throwable, debugEnabled: bool)
    ensures SwallowedAll(listeners, Finished(exception), debugEnabled) == [] <==>
      forall i :: 0 <= i < |listeners| ==> listeners[i](Finished(exception)).None?
  {
  }
}
