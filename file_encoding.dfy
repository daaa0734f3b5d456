/**
 * FileEncodingApplicationListener: when `spring.mandatoryFileEncoding` is set, startup stops
 * with an IllegalStateException unless the JVM's `file.encoding` system property names the
 * same encoding, compared without regard to case. An unset `file.encoding` is accepted.
 */
module FileEncoding {
  import opened Wrappers
  import opened Throwables
  import opened Text

  /** Ordered.LOWEST_PRECEDENCE. */
  const LOWEST_PRECEDENCE := INT_MAX

  /** getOrder: the largest Java int, so the listener runs after every other ordered listener. */
  function GetOrder(): (r: int)
    ensures r == INT_MAX
  {
    LOWEST_PRECEDENCE
  }

  const MISMATCH_PREFIX := "The Java Virtual Machine has not been configured to use the desired default character encoding ("

  function MismatchMessage(desired: string): string {
    MISMATCH_PREFIX + desired + ")."
  }

  /**
   * onApplicationEvent: `desired` is what the environment holds for
   * `spring.mandatoryFileEncoding` (None when not set) and `encoding` the `file.encoding`
   * system property (None when not set). The result is the exception raised, if any.
   */
  function CheckEncoding(desired: Option<string>, encoding: Option<string>): Option<Throwable> {
    if desired.None? then None
    else if encoding.Some? && !EqualsIgnoreCase(desired.value, encoding.value) then
      Some(NewIllegalState(MismatchMessage(desired.value), []))
    else None
  }

  /**
   * The check fails exactly when both values are set and differ beyond case, and the failure
   * is an IllegalStateException whose message names the desired encoding.
   */
  lemma CheckEncodingSpec(desired: Option<string>, encoding: Option<string>)
    ensures CheckEncoding(desired, encoding).Some? <==>
      desired.Some? && encoding.Some? && !EqualsIgnoreCase(desired.value, encoding.value)
    ensures CheckEncoding(desired, encoding).Some? ==>
      IsInstance(CheckEncoding(desired, encoding).value, ILLEGAL_STATE_EXCEPTION)
      && CheckEncoding(desired, encoding).value[0].message.Some?
      && Contains(CheckEncoding(desired, encoding).value[0].message.value, desired.value)
  {
    if CheckEncoding(desired, encoding).Some? {
      ContainsInfix(MISMATCH_PREFIX, desired.value, ").");
    }
  }

  /** Encodings that differ only in letter case pass, whatever they are. */
  lemma CaseOnlyDifferencePasses(desired: string, encoding: string)
    requires |desired| == |encoding|
    requires forall i :: 0 <= i < |desired| ==> UpperAscii(desired[i]) == UpperAscii(encoding[i])
    ensures CheckEncoding(Some(desired), Some(encoding)) == None
  {
  }

  /** For instance "utf-8" passes when the JVM runs with "UTF-8", and "ISO-8859-1" does not. */
  lemma CheckEncodingExamples()
    ensures CheckEncoding(Some("utf-8"), Some("UTF-8")) == None
    ensures CheckEncoding(Some("ISO-8859-1"), Some("UTF-8")).Some?
  {
    assert !EqualsIgnoreCase("ISO-8859-1", "UTF-8") by {
      assert |"ISO-8859-1"| != |"UTF-8"|;
    }
  }
}
