/**
 * AbstractFailureAnalyzer and its PortInUseFailureAnalyzer: a failure is analysed through
 * the first element of its cause chain that has the analyzer's cause type.
 */
module FailureAnalysis {
  import opened Wrappers
  import opened Throwables
  import opened Text

  /** A FailureAnalysis: description, suggested action, and the cause it is about. */
  datatype Analysis = Analysis(description: string, action: string, cause: Throwable)

  /** The position of the first element of `failure`'s chain that is a `typeName`, or |failure|. */
  function FirstInstance(failure: Throwable, typeName: string): (k: nat)
    ensures k <= |failure|
    ensures forall j :: 0 <= j < k ==> !IsInstance(failure[j..], typeName)
    ensures k < |failure| ==> IsInstance(failure[k..], typeName)
    decreases |failure|
  {
    if failure == [] || IsInstance(failure, typeName) then 0
    else
      var k := FirstInstance(failure[1..], typeName);
      assert forall j :: 1 <= j <= k ==> failure[1..][j - 1..] == failure[j..];
      k + 1
  }

  /**
   * findCause: walk the chain from the failure itself and return the first element that is
   * an instance of the type; null (`[]`) when there is none.
   */
  method FindCause(failure: Throwable, typeName: string) returns (cause: Throwable)
    ensures cause == failure[FirstInstance(failure, typeName)..]
    ensures cause == [] <==> forall j :: 0 <= j < |failure| ==> !IsInstance(failure[j..], typeName)
    ensures cause != [] ==> IsInstance(cause, typeName)
  {
    var current := failure;
    ghost var skipped: nat := 0;
    while current != []
      invariant skipped <= |failure| && current == failure[skipped..]
      invariant forall j :: 0 <= j < skipped ==> !IsInstance(failure[j..], typeName)
      decreases |current|
    {
      if IsInstance(current, typeName) {
        return current;
      }
      assert current[1..] == failure[skipped + 1..];
      current := current[1..];
      skipped := skipped + 1;
    }
    return [];
  }

  /** The subclass hook: an analysis of the root failure given the found cause, or null. */
  type Hook = (Throwable, Throwable) -> Option<Analysis>

  /**
   * analyze(failure): when a cause of the analyzer's type is found, the hook's analysis of the
   * root failure and that cause; otherwise null, without consulting the hook.
   */
  method Analyze(failure: Throwable, causeType: string, hook: Hook) returns (r: Option<Analysis>)
    ensures FirstInstance(failure, causeType) == |failure| ==> r.None?
    ensures FirstInstance(failure, causeType) < |failure| ==> r == hook(failure, failure[FirstInstance(failure, causeType)..])
  {
    var cause := FindCause(failure, causeType);
    if cause != [] {
      return hook(failure, cause);
    }
    return None;
  }

  /** The port a PortInUseException reports. */
  function PortOf(cause: Throwable): int {
    if |cause| > 0 && cause[0].detail.PortDetail? then cause[0].detail.port else 0
  }

  function PortDescription(port: int): string {
    "Embedded servlet container failed to start. Port " + IntToString(port) + " was already in use."
  }

  function PortAction(port: int): string {
    "Identify and stop the process that's listening on port " + IntToString(port)
      + " or configure this application to listen on another port."
  }

  /** PortInUseFailureAnalyzer's hook: the port named twice, and the found exception as cause. */
  function PortInUseAnalysis(rootFailure: Throwable, cause: Throwable): (r: Option<Analysis>)
    ensures r.Some? && r.value.cause == cause
    ensures r.value.description == PortDescription(PortOf(cause))
    ensures r.value.action == PortAction(PortOf(cause))
  {
    Some(Analysis(PortDescription(PortOf(cause)), PortAction(PortOf(cause)), cause))
  }

  /** Descriptions of different ports differ. */
  lemma PortDescriptionInjective(p: int, q: int)
    requires PortDescription(p) == PortDescription(q)
    ensures p == q
  {
    var prefix := "Embedded servlet container failed to start. Port ";
    var suffix := " was already in use.";
    var a := IntToString(p);
    var b := IntToString(q);
    assert PortDescription(p) == prefix + a + suffix;
    assert PortDescription(q) == prefix + b + suffix;
    assert |a| == |b|;
    assert a == PortDescription(p)[|prefix|..|prefix| + |a|];
    assert b == PortDescription(q)[|prefix|..|prefix| + |b|];
    var lo := if p < q then p else q;
    var hi := if p < q then q else p;
    ParseIntToString(p, lo, hi);
    ParseIntToString(q, lo, hi);
  }

  /** The PortInUseFailureAnalyzer: an analysis exactly when the chain holds a PortInUseException. */
  method AnalyzePortInUse(failure: Throwable) returns (r: Option<Analysis>)
    ensures r.Some? <==> exists j :: 0 <= j < |failure| && IsInstance(failure[j..], PORT_IN_USE_EXCEPTION)
    ensures r.Some? ==> var k := FirstInstance(failure, PORT_IN_USE_EXCEPTION);
      r.value.cause == failure[k..] && r.value.description == PortDescription(PortOf(failure[k..]))
  {
    r := Analyze(failure, PORT_IN_USE_EXCEPTION, PortInUseAnalysis);
  }
}
