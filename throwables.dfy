/**
 * Java exceptions as values. A throwable is its cause chain: element 0 is the exception
 * itself, element i + 1 is the cause of element i, and the empty chain stands for `null`.
 * Each element carries an identity tag (Java compares exceptions by identity), the set of
 * type names it is an instance of, its message, and the data of the two exception types the
 * core inspects: the port of a PortInUseException and the outcome of `getExitCode()` on an
 * exception that implements ExitCodeGenerator.
 */
module Throwables {
  import opened Wrappers

  const THROWABLE := "java.lang.Throwable"
  const EXCEPTION := "java.lang.Exception"
  const RUNTIME_EXCEPTION := "java.lang.RuntimeException"
  const ERROR := "java.lang.Error"
  const ILLEGAL_STATE_EXCEPTION := "java.lang.IllegalStateException"
  const ILLEGAL_ARGUMENT_EXCEPTION := "java.lang.IllegalArgumentException"
  const NUMBER_FORMAT_EXCEPTION := "java.lang.NumberFormatException"
  const NULL_POINTER_EXCEPTION := "java.lang.NullPointerException"
  const INVOCATION_TARGET_EXCEPTION := "java.lang.reflect.InvocationTargetException"
  const UNDECLARED_THROWABLE_EXCEPTION := "java.lang.reflect.UndeclaredThrowableException"
  const EXIT_CODE_GENERATOR := "org.springframework.boot.ExitCodeGenerator"
  const PORT_IN_USE_EXCEPTION := "org.springframework.boot.context.embedded.PortInUseException"

  /** The outcome of calling `getExitCode()`: a value, or an exception. */
  datatype Evaluation = Returns(value: int) | Throws

  /** Type-specific state of one exception object. */
  datatype Detail = NoDetail | PortDetail(port: int) | ExitCodeDetail(code: Evaluation)

  /** One exception object of a cause chain. */
  datatype Frame = Frame(id: nat, types: set<string>, message: Option<string>, detail: Detail)

  /** A cause chain; `[]` is `null`. */
  type Throwable = seq<Frame>

  /** What a `throw` statement throws: never null. */
  type Thrown = t: Throwable | |t| > 0 witness [Frame(0, {THROWABLE}, None, NoDetail)]

  /** `t instanceof typeName` (false for null). */
  predicate IsInstance(t: Throwable, typeName: string) {
    |t| > 0 && typeName in t[0].types
  }

  /** Unchecked throwables: RuntimeException and Error and their subtypes. */
  predicate IsUnchecked(t: Throwable) {
    IsInstance(t, RUNTIME_EXCEPTION) || IsInstance(t, ERROR)
  }

  /** The type names of a runtime exception of type `typeName`. */
  function RuntimeTypes(typeName: string): set<string> {
    {typeName, RUNTIME_EXCEPTION, EXCEPTION, THROWABLE}
  }

  /** Exceptions created by the core itself carry identity tag 0. */
  function NewRuntime(typeName: string, message: Option<string>, cause: Throwable): (t: Throwable)
    ensures |t| == |cause| + 1 && t[1..] == cause
    ensures IsInstance(t, typeName) && IsUnchecked(t) && t[0].message == message
  {
    [Frame(0, RuntimeTypes(typeName), message, NoDetail)] + cause
  }

  function NewIllegalState(message: string, cause: Throwable): Throwable {
    NewRuntime(ILLEGAL_STATE_EXCEPTION, Some(message), cause)
  }

  function NewIllegalArgument(message: string): Throwable {
    NewRuntime(ILLEGAL_ARGUMENT_EXCEPTION, Some(message), [])
  }

  function NewNullPointer(): Throwable {
    NewRuntime(NULL_POINTER_EXCEPTION, None, [])
  }

  /**
   * ReflectionUtils.rethrowRuntimeException: what is thrown for a non-null `ex`. Unchecked
   * throwables are rethrown as they are; anything else is wrapped in an
   * UndeclaredThrowableException whose cause is `ex`.
   */
  function Rethrown(ex: Throwable): (r: Throwable)
    requires |ex| > 0
    ensures IsUnchecked(r)
    ensures IsUnchecked(ex) <==> r == ex
    ensures !IsUnchecked(ex) ==> r[1..] == ex && IsInstance(r, UNDECLARED_THROWABLE_EXCEPTION)
  {
    if IsUnchecked(ex) then ex
    else
      var r := NewRuntime(UNDECLARED_THROWABLE_EXCEPTION, None, ex);
      assert r != ex by { assert IsUnchecked(r); }
      r
  }
}
