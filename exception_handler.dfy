/**
 * SpringBootExceptionHandler: the uncaught-exception handler that keeps quiet about failures
 * already logged during startup, forwards the others to the thread's previous handler, and
 * requests the process exit with the registered exit code.
 */
module ExceptionHandlers {
  import opened Wrappers
  import opened Throwables
  import opened Text

  /** The only member of LOG_CONFIGURATION_MESSAGES. */
  const LOG_CONFIGURATION_MESSAGE := "Logback configuration error detected"

  predicate IsInvocationTarget(ex: Throwable) {
    IsInstance(ex, INVOCATION_TARGET_EXCEPTION)
  }

  /**
   * The position of the first element of the chain that is not an InvocationTargetException
   * (|ex| when the unwrapping reaches null).
   */
  function Unwrapped(ex: Throwable): (k: nat)
    ensures k <= |ex|
    ensures forall j :: 0 <= j < k ==> IsInvocationTarget(ex[j..])
    ensures k < |ex| ==> !IsInvocationTarget(ex[k..])
    decreases |ex|
  {
    if IsInvocationTarget(ex) then
      var k := Unwrapped(ex[1..]);
      assert forall j :: 1 <= j <= k ==> ex[1..][j - 1..] == ex[j..];
      k + 1
    else 0
  }

  /**
   * isLogConfigurationMessage, unwrapping InvocationTargetExceptions. Reaching a null cause
   * makes `getMessage()` raise a NullPointerException: the result is then None.
   */
  function IsLogConfigurationMessage(ex: Throwable): Option<bool>
    decreases |ex|
  {
    if IsInvocationTarget(ex) then IsLogConfigurationMessage(ex[1..])
    else if ex == [] then None
    else Some(ex[0].message.Some? && Contains(ex[0].message.value, LOG_CONFIGURATION_MESSAGE))
  }

  /** isRegistered: the exception, or a cause reached by unwrapping, is in the logged list. */
  predicate IsRegistered(logged: seq<Throwable>, ex: Throwable)
    decreases |ex|
  {
    ex in logged || (IsInvocationTarget(ex) && IsRegistered(logged, ex[1..]))
  }

  /** isPassedToParent, with the short-circuit `||`: None when the message test raises. */
  function PassedToParent(logged: seq<Throwable>, ex: Throwable): Option<bool> {
    match IsLogConfigurationMessage(ex)
    case None => None
    case Some(b) => Some(b || !IsRegistered(logged, ex))
  }

  /** The message test reads the first element that is not an InvocationTargetException. */
  lemma {:induction false} IsLogConfigurationMessageSpec(ex: Throwable)
    ensures var k := Unwrapped(ex);
      IsLogConfigurationMessage(ex) ==
        if k == |ex| then None
        else Some(ex[k].message.Some? && Contains(ex[k].message.value, LOG_CONFIGURATION_MESSAGE))
    decreases |ex|
  {
    if IsInvocationTarget(ex) {
      IsLogConfigurationMessageSpec(ex[1..]);
      var k := Unwrapped(ex[1..]);
      if k < |ex[1..]| {
        assert ex[1..][k] == ex[k + 1];
      }
    }
  }

  /**
   * An exception is registered exactly when the list holds it or one of the causes that
   * unwrapping reaches, up to and including the first other element (or null).
   */
  lemma {:induction false} IsRegisteredSpec(logged: seq<Throwable>, ex: Throwable)
    ensures IsRegistered(logged, ex) <==> exists j :: 0 <= j <= Unwrapped(ex) && ex[j..] in logged
    decreases |ex|
  {
    if IsInvocationTarget(ex) {
      IsRegisteredSpec(logged, ex[1..]);
      var k := Unwrapped(ex[1..]);
      assert forall j :: 1 <= j <= k + 1 ==> ex[1..][j - 1..] == ex[j..];
      if IsRegistered(logged, ex) && ex !in logged {
        var j :| 0 <= j <= k && ex[1..][j..] in logged;
        assert ex[j + 1..] in logged;
      }
      if exists j :: 0 <= j <= k + 1 && ex[j..] in logged {
        var j :| 0 <= j <= k + 1 && ex[j..] in logged;
        if j > 0 {
          assert ex[1..][j - 1..] in logged;
        } else {
          assert ex[0..] == ex;
        }
      }
    } else {
      assert ex[0..] == ex;
    }
  }

  /**
   * An exception that is, or wraps, a logged one is passed on only for the log-configuration
   * message; one that is not logged is always passed on once the message test succeeds.
   */
  lemma PassedToParentSpec(logged: seq<Throwable>, ex: Throwable, j: nat)
    requires j <= Unwrapped(ex) && ex[j..] in logged
    ensures PassedToParent(logged, ex) == IsLogConfigurationMessage(ex)
  {
    IsRegisteredSpec(logged, ex);
  }

  lemma PassedUnlessLogged(logged: seq<Throwable>, ex: Throwable)
    requires forall j :: 0 <= j <= Unwrapped(ex) ==> ex[j..] !in logged
    ensures IsLogConfigurationMessage(ex).Some? ==> PassedToParent(logged, ex) == Some(true)
  {
    IsRegisteredSpec(logged, ex);
  }

  /** What one uncaughtException call did. */
  datatype Handled = Handled(
    /** The exception was handed to the parent handler. */
    forwarded: bool,
    /** System.exit was requested with this code. */
    exit: Option<int>,
    /** The exception that escaped the call, when the process did not exit. */
    thrown: Option<Throwable>)

  /** The thread's previous handler, as what its uncaughtException throws (if anything). */
  type ParentHandler = Throwable -> Option<Throwable>

  class Handler {
    const parent: Option<ParentHandler>
    var loggedExceptions: seq<Throwable>
    var exitCode: int

    constructor(parent: Option<ParentHandler>)
      ensures this.parent == parent && loggedExceptions == [] && exitCode == 0
    {
      this.parent := parent;
      loggedExceptions := [];
      exitCode := 0;
    }

    /** registerLoggedException. */
    method RegisterLoggedException(ex: Throwable)
      modifies this
      ensures loggedExceptions == old(loggedExceptions) + [ex] && exitCode == old(exitCode)
    {
      loggedExceptions := loggedExceptions + [ex];
    }

    /** registerExitCode: the last code registered wins. */
    method RegisterExitCode(code: int)
      modifies this
      ensures exitCode == code && loggedExceptions == old(loggedExceptions)
    {
      exitCode := code;
    }

    /**
     * uncaughtException: forward to the parent when there is one and the exception is to be
     * passed on; then, whatever happened, forget the logged exceptions and exit with a
     * non-zero registered code.
     */
    method UncaughtException(ex: Throwable) returns (h: Handled)
      modifies this
      ensures loggedExceptions == [] && exitCode == old(exitCode)
      ensures h.forwarded <==> PassedToParent(old(loggedExceptions), ex) == Some(true) && parent.Some?
      ensures h.exit == (if exitCode != 0 then Some(exitCode) else None)
      ensures h.exit.None? ==>
                h.thrown == (if PassedToParent(old(loggedExceptions), ex).None? then Some(NewNullPointer())
                             else if h.forwarded then parent.value(ex)
                             else None)
      ensures h.exit.Some? ==> h.thrown.None?
    {
      var pending: Option<Throwable> := None;
      var forwarded := false;
      var passed := PassedToParent(loggedExceptions, ex);
      if passed.None? {
        pending := Some(NewNullPointer());
      } else if passed.value && parent.Some? {
        forwarded := true;
        pending := parent.value(ex);
      }
      loggedExceptions := [];
      if exitCode != 0 {
        return Handled(forwarded, Some(exitCode), None);
      }
      return Handled(forwarded, None, pending);
    }
  }
}
