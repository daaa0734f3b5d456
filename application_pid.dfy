/**
 * ApplicationPid: the process id, taken from the runtime's name ("pid@host") when the
 * application starts, as a value compared by its pid.
 */
module ApplicationPids {
  import opened Wrappers
  import opened Throwables
  import opened Text

  /** String.split with a one-character separator: trailing empty pieces are dropped, "" stays [""]. */
  function JavaSplit(s: string, d: char): seq<string> {
    if s == "" then [""] else DropTrailingEmpty(SplitOn(s, d))
  }

  function DropTrailingEmpty(parts: seq<string>): (r: seq<string>)
    ensures r <= parts
    ensures r != [] ==> r[|r| - 1] != ""
    decreases |parts|
  {
    if parts != [] && parts[|parts| - 1] == "" then DropTrailingEmpty(parts[..|parts| - 1]) else parts
  }

  /**
   * getPid: the runtime name up to its first '@'; None when the name cannot be read, and
   * also when split yields no piece to take (a name made only of '@').
   */
  function PidOf(runtimeName: Option<string>): Option<string> {
    match runtimeName
    case None => None
    case Some(name) =>
      var parts := JavaSplit(name, '@');
      if parts == [] then None else Some(parts[0])
  }

  /** The usual "pid@host" name gives the pid. */
  lemma PidOfPidAtHost(pid: string, host: string)
    requires pid != "" && '@' !in pid
    ensures PidOf(Some(pid + "@" + host)) == Some(pid)
  {
    var s := pid + "@" + host;
    assert s[|pid|] == '@';
    assert s[..|pid|] == pid;
    var i := IndexOf(s, '@');
    assert i == |pid|;
    var parts := SplitOn(s, '@');
    assert parts[0] == pid;
    DropKeepsNonEmptyHead(parts);
  }

  /** A name without '@' is the pid itself. */
  lemma PidOfPlainName(name: string)
    requires '@' !in name
    ensures PidOf(Some(name)) == Some(name)
  {
  }

  /** A pid never contains the separator. */
  lemma PidHasNoAt(runtimeName: Option<string>)
    ensures PidOf(runtimeName).Some? ==> '@' !in PidOf(runtimeName).value
  {
    if runtimeName.Some? && runtimeName.value != "" {
      var parts := SplitOn(runtimeName.value, '@');
      var kept := DropTrailingEmpty(parts);
      if kept != [] {
        assert kept[0] == parts[0];
      }
    }
  }

  lemma DropKeepsNonEmptyHead(parts: seq<string>)
    requires |parts| > 0 && parts[0] != ""
    ensures |DropTrailingEmpty(parts)| > 0 && DropTrailingEmpty(parts)[0] == parts[0]
    decreases |parts|
  {
    if parts[|parts| - 1] == "" {
      DropKeepsNonEmptyHead(parts[..|parts| - 1]);
    }
  }

  predicate AllAt(s: string) {
    forall i :: 0 <= i < |s| ==> s[i] == '@'
  }

  predicate AllEmpty(parts: seq<string>) {
    forall i :: 0 <= i < |parts| ==> parts[i] == ""
  }

  lemma {:induction false} DropAllEmpty(parts: seq<string>)
    ensures DropTrailingEmpty(parts) == [] <==> AllEmpty(parts)
    decreases |parts|
  {
    if parts != [] && parts[|parts| - 1] == "" {
      var init := parts[..|parts| - 1];
      DropAllEmpty(init);
      if AllEmpty(init) {
        assert AllEmpty(parts);
      }
      if AllEmpty(parts) {
        assert forall i :: 0 <= i < |init| ==> init[i] == parts[i];
      }
    }
  }

  lemma {:induction false} JoinEmpties(parts: seq<string>, d: char)
    requires AllEmpty(parts)
    ensures forall i :: 0 <= i < |JoinWith(parts, d)| ==> JoinWith(parts, d)[i] == d
    decreases |parts|
  {
    if |parts| > 1 {
      JoinEmpties(parts[1..], d);
      assert JoinWith(parts, d) == [d] + JoinWith(parts[1..], d);
    }
  }

  lemma {:induction false} SplitAllAt(s: string)
    requires AllAt(s)
    ensures AllEmpty(SplitOn(s, '@'))
    decreases |s|
  {
    if s != [] {
      assert s[0] == '@';
      assert IndexOf(s, '@') == 0;
      SplitAllAt(s[1..]);
      assert SplitOn(s, '@') == [""] + SplitOn(s[1..], '@');
    }
  }

  /** getPid finds nothing in a readable name exactly when the name is one or more '@'. */
  lemma PidOfAbsent(name: string)
    ensures PidOf(Some(name)) == None <==> name != "" && AllAt(name)
  {
    if name != "" {
      var parts := SplitOn(name, '@');
      DropAllEmpty(parts);
      if AllAt(name) {
        SplitAllAt(name);
      }
      if AllEmpty(parts) {
        JoinSplit(name, '@');
        JoinEmpties(parts, '@');
      }
    }
  }

  /** String.hashCode for a non-null pid, 0 for null (ObjectUtils.nullSafeHashCode). */
  function NullSafeHash(s: Option<string>): int {
    if s.None? then 0 else StringHash(s.value)
  }

  class ApplicationPid {
    const pid: Option<string>

    /** `new ApplicationPid()`: the pid read from the runtime's name. */
    constructor FromRuntime(runtimeName: Option<string>)
      ensures pid == PidOf(runtimeName)
    {
      pid := PidOf(runtimeName);
    }

    /** `new ApplicationPid(String)`. */
    constructor (pid: Option<string>)
      ensures this.pid == pid
    {
      this.pid := pid;
    }

    /** equals: the same object, or another ApplicationPid with an equal (or equally null) pid. */
    predicate Equals(obj: object?) {
      obj == this || (obj != null && obj is ApplicationPid && pid == (obj as ApplicationPid).pid)
    }

    /** hashCode. */
    function HashCode(): int {
      NullSafeHash(pid)
    }

    /** toString: the pid, or "???" when there is none. */
    function ToString(): string {
      if pid.Some? then pid.value else "???"
    }

    /** write's check before the file is touched: the text to write, or "No PID available". */
    function Write(): (r: Result<string, Throwable>)
      ensures r.Failure? <==> pid.None?
      ensures r.Success? ==> r.value == ToString()
      ensures r.Failure? ==> IsInstance(r.error, ILLEGAL_STATE_EXCEPTION) && r.error[0].message == Some("No PID available")
    {
      if pid.None? then Failure(NewIllegalState("No PID available", [])) else Success(pid.value)
    }
  }

  /**
   * equals is an equivalence on ApplicationPid objects that is false for null and for other
   * kinds of objects, and equal objects have equal hash codes.
   */
  lemma EqualsContract(a: ApplicationPid, b: ApplicationPid, c: ApplicationPid, other: object?)
    requires !(other is ApplicationPid)
    ensures a.Equals(a)
    ensures a.Equals(b) <==> b.Equals(a)
    ensures a.Equals(b) && b.Equals(c) ==> a.Equals(c)
    ensures a.Equals(b) <==> a.pid == b.pid
    ensures a.Equals(b) ==> a.HashCode() == b.HashCode()
    ensures !a.Equals(null) && !a.Equals(other)
  {
  }

  /** toString gives the pid back, and "???" only for a missing pid or a pid that is "???". */
  lemma ToStringSpec(a: ApplicationPid)
    ensures a.pid.Some? ==> a.ToString() == a.pid.value
    ensures a.ToString() == "???" <==> a.pid.None? || a.pid == Some("???")
  {
  }
}
