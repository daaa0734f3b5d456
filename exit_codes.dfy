/**
 * ExitCodeGenerators: an ordered list of exit-code contributors folded into one exit code.
 * A positive value replaces a smaller current code, a negative value replaces a larger
 * (less negative) current code, and a contributor that throws turns a zero code into 1.
 */
module ExitCodes {
  import opened Wrappers
  import opened Throwables

  /** ExitCodeExceptionMapper.getExitCode, as a function of the exception. */
  type Mapper = Throwable -> Evaluation

  /** An ExitCodeGenerator: a fixed outcome, or a mapper applied to an exception. */
  datatype Generator =
    | Code(value: int)
    | Throwing
    | Mapped(exception: Throwable, mapper: Mapper)

  /** The outcome of `generator.getExitCode()`; a mapped generator asks its mapper. */
  function Evaluate(g: Generator): Evaluation {
    match g
    case Code(v) => Returns(v)
    case Throwing => Throws
    case Mapped(e, m) => m(e)
  }

  /** One iteration of the loop in getExitCode, from the current code. */
  function Step(code: int, e: Evaluation): (r: int)
    ensures code != 0 ==> r != 0
    ensures e == Throws ==> r == (if code != 0 then code else 1)
  {
    match e
    case Returns(v) => if (v > 0 && v > code) || (v < 0 && v < code) then v else code
    case Throws => if code != 0 then code else 1
  }

  /** The exit code of a list of generators, evaluated in list order starting from 0. */
  function ExitCode(gs: seq<Generator>): int
    decreases |gs|
  {
    if gs == [] then 0 else Step(ExitCode(gs[..|gs| - 1]), Evaluate(gs[|gs| - 1]))
  }

  /** The same fold written head-first from a given starting code. */
  function ContinueFrom(code: int, gs: seq<Generator>): int
    decreases |gs|
  {
    if gs == [] then code else ContinueFrom(Step(code, Evaluate(gs[0])), gs[1..])
  }

  /** Generators added later continue from the code of the earlier ones. */
  lemma {:induction false} ExitCodeAppend(a: seq<Generator>, b: seq<Generator>)
    ensures ExitCode(a + b) == ContinueFrom(ExitCode(a), b)
    decreases |b|
  {
    if b != [] {
      var a' := a + [b[0]];
      assert a' + b[1..] == a + b;
      assert a'[..|a'| - 1] == a;
      ExitCodeAppend(a', b[1..]);
    } else {
      assert a + b == a;
    }
  }

  /** Both readings of the fold agree. */
  lemma ExitCodeIsLeftFold(gs: seq<Generator>)
    ensures ExitCode(gs) == ContinueFrom(0, gs)
  {
    ExitCodeAppend([], gs);
    assert [] + gs == gs;
  }

  predicate ReturnsZero(g: Generator) {
    Evaluate(g) == Returns(0)
  }

  /** The code is 0 exactly when every generator returns 0 without throwing. */
  lemma {:induction false} ExitCodeZeroIff(gs: seq<Generator>)
    ensures ExitCode(gs) == 0 <==> forall i :: 0 <= i < |gs| ==> ReturnsZero(gs[i])
    decreases |gs|
  {
    if gs != [] {
      var init := gs[..|gs| - 1];
      ExitCodeZeroIff(init);
      assert forall i :: 0 <= i < |init| ==> init[i] == gs[i];
      var c := ExitCode(init);
      if c == 0 && Evaluate(gs[|gs| - 1]).Returns? {
        var v := Evaluate(gs[|gs| - 1]).value;
        assert Step(0, Returns(v)) == v;
      }
    }
  }

  /** Once non-zero, the code never returns to zero, whatever is added. */
  lemma NonZeroSticks(a: seq<Generator>, b: seq<Generator>)
    requires ExitCode(a) != 0
    ensures ExitCode(a + b) != 0
  {
    ExitCodeZeroIff(a);
    ExitCodeZeroIff(a + b);
    var i :| 0 <= i < |a| && !ReturnsZero(a[i]);
    assert (a + b)[i] == a[i];
  }

  /** Generator `g` returns a value that is at least 0. */
  predicate ReturnsNonNegative(g: Generator) {
    Evaluate(g).Returns? && Evaluate(g).value >= 0
  }

  predicate ReturnsNonPositive(g: Generator) {
    Evaluate(g).Returns? && Evaluate(g).value <= 0
  }

  /** `code` is 0 or the value returned by one of the generators. */
  predicate IsZeroOrSomeValue(code: int, gs: seq<Generator>) {
    code == 0 || exists i :: 0 <= i < |gs| && Evaluate(gs[i]) == Returns(code)
  }

  /** When no generator throws and none is negative, the code is the largest value (0 if none). */
  lemma {:induction false} ExitCodeIsMaximum(gs: seq<Generator>)
    requires forall i :: 0 <= i < |gs| ==> ReturnsNonNegative(gs[i])
    ensures forall i :: 0 <= i < |gs| && Evaluate(gs[i]).Returns? ==> Evaluate(gs[i]).value <= ExitCode(gs)
    ensures IsZeroOrSomeValue(ExitCode(gs), gs)
    decreases |gs|
  {
    if gs != [] {
      var init := gs[..|gs| - 1];
      assert forall i :: 0 <= i < |init| ==> init[i] == gs[i];
      ExitCodeIsMaximum(init);
      var c := ExitCode(init);
      var v := Evaluate(gs[|gs| - 1]).value;
      if c != 0 {
        var k :| 0 <= k < |init| && Evaluate(init[k]) == Returns(c);
        assert Evaluate(gs[k]) == Returns(c);
      }
      if v > c {
        assert Evaluate(gs[|gs| - 1]) == Returns(ExitCode(gs));
      }
    }
  }

  /** When no generator throws and none is positive, the code is the smallest value (0 if none). */
  lemma {:induction false} ExitCodeIsMinimum(gs: seq<Generator>)
    requires forall i :: 0 <= i < |gs| ==> ReturnsNonPositive(gs[i])
    ensures forall i :: 0 <= i < |gs| && Evaluate(gs[i]).Returns? ==> ExitCode(gs) <= Evaluate(gs[i]).value
    ensures IsZeroOrSomeValue(ExitCode(gs), gs)
    decreases |gs|
  {
    if gs != [] {
      var init := gs[..|gs| - 1];
      assert forall i :: 0 <= i < |init| ==> init[i] == gs[i];
      ExitCodeIsMinimum(init);
      var c := ExitCode(init);
      var v := Evaluate(gs[|gs| - 1]).value;
      if c != 0 {
        var k :| 0 <= k < |init| && Evaluate(init[k]) == Returns(c);
        assert Evaluate(gs[k]) == Returns(c);
      }
      if v < c {
        assert Evaluate(gs[|gs| - 1]) == Returns(ExitCode(gs));
      }
    }
  }

  /** The fold depends on order: 2 then -3 gives -3, but -3 then 2 gives 2. */
  lemma ExitCodeOrderSensitive()
    ensures ExitCode([Code(2), Code(-3)]) == -3
    ensures ExitCode([Code(-3), Code(2)]) == 2
  {
    assert [Code(2), Code(-3)][..1] == [Code(2)];
    assert [Code(-3), Code(2)][..1] == [Code(-3)];
    assert [Code(2)][..0] == [];
    assert [Code(-3)][..0] == [];
  }

  /** A throwing generator yields 1 on a zero code and keeps any other code. */
  lemma ThrowingContributor(gs: seq<Generator>)
    ensures ExitCode(gs + [Throwing]) == (if ExitCode(gs) != 0 then ExitCode(gs) else 1)
  {
    assert (gs + [Throwing])[..|gs|] == gs;
  }

  /** The elements before the first `null` of a Java list. */
  function PrefixBeforeNull<T>(xs: seq<Option<T>>): (r: seq<T>)
    ensures |r| <= |xs|
    ensures forall i :: 0 <= i < |r| ==> xs[i] == Some(r[i])
    ensures |r| < |xs| ==> xs[|r|] == None
    decreases |xs|
  {
    if xs == [] || xs[0] == None then [] else [xs[0].value] + PrefixBeforeNull(xs[1..])
  }

  /**
   * One element further into the list: a null ends the prefix there, anything else extends
   * it by one.
   */
  lemma PrefixBeforeNullStep<T>(xs: seq<Option<T>>, i: nat)
    requires i < |xs| && |PrefixBeforeNull(xs)| >= i && PrefixBeforeNull(xs[i..]) == PrefixBeforeNull(xs)[i..]
    ensures xs[i] == None ==> PrefixBeforeNull(xs)[..i] == PrefixBeforeNull(xs)
    ensures xs[i] != None ==>
      PrefixBeforeNull(xs[i + 1..]) == PrefixBeforeNull(xs)[i + 1..] && |PrefixBeforeNull(xs)| >= i + 1
      && PrefixBeforeNull(xs)[..i + 1] == PrefixBeforeNull(xs)[..i] + [xs[i].value]
  {
    var p := PrefixBeforeNull(xs);
    var t := xs[i..];
    assert t[0] == xs[i];
    if xs[i] == None {
      assert PrefixBeforeNull(t) == [];
      assert |p| == i;
      assert p[..i] == p;
    } else {
      assert t[1..] == xs[i + 1..];
      assert PrefixBeforeNull(t) == [xs[i].value] + PrefixBeforeNull(xs[i + 1..]);
      assert p[i..][1..] == p[i + 1..];
      assert p[i] == p[i..][0];
      assert p[..i + 1] == p[..i] + [p[i]];
    }
  }

  /** `Assert.notNull` failure: an IllegalArgumentException with the given message. */
  function NullArgument(message: string): Throwable {
    NewIllegalArgument(message)
  }

  /** The ExitCodeGenerators collection. */
  class Generators {
    var generators: seq<Generator>

    constructor()
      ensures generators == []
    {
      generators := [];
    }

    /** add(ExitCodeGenerator): appends a non-null generator. */
    method Add(g: Option<Generator>) returns (r: Result<(), Throwable>)
      modifies this
      ensures g == None ==> r == Failure(NullArgument("Generator must not be null")) && generators == old(generators)
      ensures g != None ==> r == Success(()) && generators == old(generators) + [g.value]
    {
      if g == None {
        return Failure(NullArgument("Generator must not be null"));
      }
      generators := generators + [g.value];
      return Success(());
    }

    /**
     * addAll(Iterable): adds in iteration order; a null element fails after the elements
     * before it were added.
     */
    method AddAll(gs: Option<seq<Option<Generator>>>) returns (r: Result<(), Throwable>)
      modifies this
      ensures gs == None ==> r == Failure(NullArgument("Generators must not be null")) && generators == old(generators)
      ensures gs != None ==> generators == old(generators) + PrefixBeforeNull(gs.value)
      ensures gs != None ==> (r.Success? <==> None !in gs.value)
      ensures r.Failure? && gs != None ==> r.error == NullArgument("Generator must not be null")
    {
      if gs == None {
        return Failure(NullArgument("Generators must not be null"));
      }
      var list := gs.value;
      var i := 0;
      while i < |list|
        invariant 0 <= i <= |list|
        invariant forall k :: 0 <= k < i ==> list[k] != None
        invariant PrefixBeforeNull(list[i..]) == PrefixBeforeNull(list)[i..]
        invariant |PrefixBeforeNull(list)| >= i
        invariant generators == old(generators) + PrefixBeforeNull(list)[..i]
      {
        PrefixBeforeNullStep(list, i);
        var step := Add(list[i]);
        if step.Failure? {
          return step;
        }
        i := i + 1;
      }
      assert PrefixBeforeNull(list)[..i] == PrefixBeforeNull(list);
      return Success(());
    }

    /** add(Throwable, ExitCodeExceptionMapper): appends a mapped generator. */
    method AddMapped(exception: Throwable, mapper: Option<Mapper>) returns (r: Result<(), Throwable>)
      modifies this
      ensures exception == [] ==> r == Failure(NullArgument("Exception must not be null")) && generators == old(generators)
      ensures exception != [] && mapper == None ==> r == Failure(NullArgument("Mapper must not be null")) && generators == old(generators)
      ensures exception != [] && mapper != None ==> r == Success(()) && generators == old(generators) + [Mapped(exception, mapper.value)]
    {
      if exception == [] {
        return Failure(NullArgument("Exception must not be null"));
      }
      if mapper == None {
        return Failure(NullArgument("Mapper must not be null"));
      }
      r := Add(Some(Mapped(exception, mapper.value)));
    }

    /** addAll(Throwable, Iterable<ExitCodeExceptionMapper>): one mapped generator per mapper. */
    method AddAllMapped(exception: Throwable, mappers: Option<seq<Option<Mapper>>>) returns (r: Result<(), Throwable>)
      modifies this
      ensures exception == [] ==> r == Failure(NullArgument("Exception must not be null")) && generators == old(generators)
      ensures exception != [] && mappers == None ==> r == Failure(NullArgument("Mappers must not be null")) && generators == old(generators)
      ensures exception != [] && mappers != None ==>
        generators == old(generators) + MappedAll(exception, PrefixBeforeNull(mappers.value))
        && (r.Success? <==> |PrefixBeforeNull(mappers.value)| == |mappers.value|)
    {
      if exception == [] {
        return Failure(NullArgument("Exception must not be null"));
      }
      if mappers == None {
        return Failure(NullArgument("Mappers must not be null"));
      }
      var list := mappers.value;
      ghost var start := generators;
      ghost var prefix := PrefixBeforeNull(list);
      var i := 0;
      while i < |list|
        invariant 0 <= i <= |list|
        invariant forall k :: 0 <= k < i ==> list[k].Some?
        invariant |prefix| >= i && PrefixBeforeNull(list[i..]) == prefix[i..]
        invariant generators == start + MappedAll(exception, prefix[..i])
      {
        PrefixBeforeNullStep(list, i);
        var step := AddMapped(exception, list[i]);
        if step.Failure? {
          assert list[i].None? && prefix[..i] == prefix;
          return step;
        }
        MappedAllAppend(exception, prefix[..i], list[i].value);
        i := i + 1;
      }
      assert prefix[..i] == prefix;
      return Success(());
    }

    /** getExitCode(): the fold over the generators in insertion order. */
    method GetExitCode() returns (code: int)
      ensures code == ExitCode(generators)
    {
      code := 0;
      var i := 0;
      while i < |generators|
        invariant 0 <= i <= |generators|
        invariant code == ExitCode(generators[..i])
      {
        var e := Evaluate(generators[i]);
        assert generators[..i + 1][..i] == generators[..i];
        match e {
          case Returns(value) =>
            if (value > 0 && value > code) || (value < 0 && value < code) {
              code := value;
            }
          case Throws =>
            code := if code != 0 then code else 1;
        }
        i := i + 1;
      }
      assert generators[..i] == generators;
    }
  }

  /** One mapped generator per mapper, all for the same exception, in mapper order. */
  function MappedAll(exception: Throwable, mappers: seq<Mapper>): (r: seq<Generator>)
    ensures |r| == |mappers|
    ensures forall i :: 0 <= i < |r| ==> r[i] == Mapped(exception, mappers[i])
  {
    seq(|mappers|, i requires 0 <= i < |mappers| => Mapped(exception, mappers[i]))
  }

  lemma MappedAllAppend(exception: Throwable, ms: seq<Mapper>, m: Mapper)
    ensures MappedAll(exception, ms + [m]) == MappedAll(exception, ms) + [Mapped(exception, m)]
  {
  }
}
