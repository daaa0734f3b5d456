/**
 * SpringApplication: how run() configures the environment's property sources and profiles,
 * the order of the run phases, the failure path (handleRunFailure, reportFailure and the
 * exit code of a failure), and the static exit() helper.
 */
module Applications {
  import opened Wrappers
  import opened Throwables
  import opened Text
  import opened ExitCodes
  import PS = PropertySources
  import Env = Environments
  import RL = RunListeners
  import EH = ExceptionHandlers
  import FA = FailureAnalysis

  /**
   * isMainThread: a thread named "main" or "restartedMain" in the thread group "main". No
   * thread of another group is the main thread, whatever its name.
   */
  predicate IsMainThread(name: string, group: string): (r: bool)
    ensures group != "main" ==> !r
    ensures group == "main" ==> (r <==> name in ["main", "restartedMain"])
  {
    (name == "main" || name == "restartedMain") && group == "main"
  }

  /** The application context as the failure path and exit() see it. */
  datatype Context = Context(
    /** isActive(): refreshed and not yet closed or cancelled. */
    active: bool,
    /** The ExitCodeExceptionMapper beans, in bean order. */
    mappers: seq<Mapper>,
    /** The ExitCodeGenerator beans, in bean order. */
    generators: seq<Generator>,
    /** What close() throws, if anything. */
    closeError: Option<Thrown>)

  /** The outcome of FailureAnalyzers.analyzeAndReport. */
  datatype Report = Reported | NotReported | ReportThrows

  /** The FailureAnalyzers of a run, as their report of a failure. */
  type Analyzers = Throwable -> Report

  /** What the failure path and exit() publish, log or do to the context, in order. */
  datatype Event =
    | ExitCodePublished(code: int)
    | StartupFailureLogged(failure: Throwable)
    | ContextClosed
    | CloseFailureLogged(error: Throwable)

  /**
   * The run's arguments: the source arguments, the identity hash code of the array, and the
   * options SimpleCommandLinePropertySource parses from them.
   */
  datatype Arguments = Arguments(source: seq<string>, hash: int, options: map<string, string>)

  /** A Java collection of non-null elements, as a list that may hold nulls. */
  function AllPresent<T>(xs: seq<T>): (r: seq<Option<T>>)
    ensures |r| == |xs| && forall i :: 0 <= i < |xs| ==> r[i] == Some(xs[i])
  {
    seq(|xs|, i requires 0 <= i < |xs| => Some(xs[i]))
  }

  lemma {:induction false} PrefixOfAllPresent<T>(xs: seq<T>)
    ensures None !in AllPresent(xs) && PrefixBeforeNull(AllPresent(xs)) == xs
    decreases |xs|
  {
    if xs != [] {
      PrefixOfAllPresent(xs[1..]);
      assert AllPresent(xs)[1..] == AllPresent(xs[1..]);
    }
  }

  /** The exception a Result failed with, if any. */
  function ResultError<T>(r: Result<T, Thrown>): Option<Thrown> {
    if r.Failure? then Some(r.error) else None
  }

  /** An error the environment raised, as thrown: every such error is an exception object. */
  function AsThrown(e: Option<Throwable>): (r: Option<Thrown>)
    ensures r.Some? <==> e.Some? && |e.value| > 0
    ensures r.Some? ==> r.value == e.value
  {
    if e.Some? && |e.value| > 0 then Some(e.value) else None
  }

  // ---------------------------------------------------------------------------------------
  // The exit code of a failure

  /** getExitCode() of one exception object that implements ExitCodeGenerator. */
  function GeneratorCode(f: Frame): Evaluation {
    if f.detail.ExitCodeDetail? then f.detail.code else Returns(0)
  }

  /**
   * getExitCodeFromExitCodeGeneratorException: 0 for null; the exception's own code when it
   * is an ExitCodeGenerator; otherwise the code of its cause.
   */
  function GeneratorExceptionCode(ex: Throwable): Evaluation
    decreases |ex|
  {
    if ex == [] then Returns(0)
    else if IsInstance(ex, EXIT_CODE_GENERATOR) then GeneratorCode(ex[0])
    else GeneratorExceptionCode(ex[1..])
  }

  /** The code comes from the first ExitCodeGenerator of the cause chain, or is 0 without one. */
  lemma {:induction false} GeneratorExceptionCodeSpec(ex: Throwable)
    ensures var k := FA.FirstInstance(ex, EXIT_CODE_GENERATOR);
      GeneratorExceptionCode(ex) == if k == |ex| then Returns(0) else GeneratorCode(ex[k])
    decreases |ex|
  {
    if ex != [] && !IsInstance(ex, EXIT_CODE_GENERATOR) {
      GeneratorExceptionCodeSpec(ex[1..]);
      var k := FA.FirstInstance(ex[1..], EXIT_CODE_GENERATOR);
      if k < |ex[1..]| {
        assert ex[1..][k] == ex[k + 1];
      }
    }
  }

  /** What is taken to be thrown when an exception's getExitCode() throws. */
  const GENERATOR_FAILURE: Thrown := NewRuntime(RUNTIME_EXCEPTION, None, [])

  /** An evaluation of getExitCode() as a code or a thrown exception. */
  function Outcome(e: Evaluation): Result<int, Thrown> {
    match e
    case Returns(v) => Success(v)
    case Throws => Failure(GENERATOR_FAILURE)
  }

  /**
   * getExitCodeFromException: the code the context's ExitCodeExceptionMapper beans give for
   * the exception (only while the context is active), and when that is 0, the code of the
   * first ExitCodeGenerator of the cause chain.
   */
  function FailureExitCode(context: Option<Context>, exception: Throwable): Result<int, Thrown> {
    var active := context.Some? && context.value.active;
    if active && exception == [] then Failure(NullArgument("Exception must not be null"))
    else
      var mapped := if active then ExitCode(MappedAll(exception, context.value.mappers)) else 0;
      if mapped != 0 then Success(mapped) else Outcome(GeneratorExceptionCode(exception))
  }

  /**
   * Without an active context, or when every mapper maps the exception to 0, the code is the
   * cause chain's; otherwise it is the mappers' combined code, which is then not 0.
   */
  lemma FailureExitCodeSpec(context: Option<Context>, exception: Thrown)
    ensures var k := FA.FirstInstance(exception, EXIT_CODE_GENERATOR);
      var chain := if k == |exception| then Success(0) else Outcome(GeneratorCode(exception[k]));
      var active := context.Some? && context.value.active;
      (!active ==> FailureExitCode(context, exception) == chain)
      && (active && (forall i :: 0 <= i < |context.value.mappers| ==> context.value.mappers[i](exception) == Returns(0))
          ==> FailureExitCode(context, exception) == chain)
      && (active && (exists i :: 0 <= i < |context.value.mappers| && context.value.mappers[i](exception) != Returns(0))
          ==> FailureExitCode(context, exception) == Success(ExitCode(MappedAll(exception, context.value.mappers)))
              && ExitCode(MappedAll(exception, context.value.mappers)) != 0)
  {
    GeneratorExceptionCodeSpec(exception);
    if context.Some? && context.value.active {
      var gs := MappedAll(exception, context.value.mappers);
      ExitCodeZeroIff(gs);
      assert forall i :: 0 <= i < |gs| ==> (ReturnsZero(gs[i]) <==> context.value.mappers[i](exception) == Returns(0));
    }
  }

  /** getExitCodeFromMappedException, through an ExitCodeGenerators collection. */
  method MappedExitCode(context: Option<Context>, exception: Throwable) returns (r: Result<int, Thrown>)
    ensures context.None? || !context.value.active ==> r == Success(0)
    ensures context.Some? && context.value.active && exception == [] ==>
      r == Failure(NullArgument("Exception must not be null"))
    ensures context.Some? && context.value.active && exception != [] ==>
      r == Success(ExitCode(MappedAll(exception, context.value.mappers)))
  {
    if context.None? || !context.value.active {
      return Success(0);
    }
    var generators := new Generators();
    PrefixOfAllPresent(context.value.mappers);
    var added := generators.AddAllMapped(exception, Some(AllPresent(context.value.mappers)));
    if added.Failure? {
      return Failure(NullArgument("Exception must not be null"));
    }
    assert generators.generators == MappedAll(exception, context.value.mappers);
    var code := generators.GetExitCode();
    return Success(code);
  }

  /** getExitCodeFromException. */
  method ExitCodeFromException(context: Option<Context>, exception: Throwable) returns (r: Result<int, Thrown>)
    ensures r == FailureExitCode(context, exception)
  {
    r := MappedExitCode(context, exception);
    if r.Success? && r.value == 0 {
      var current := exception;
      // The recursion of getExitCodeFromExitCodeGeneratorException, as a walk down the chain.
      while current != [] && !IsInstance(current, EXIT_CODE_GENERATOR)
        invariant GeneratorExceptionCode(current) == GeneratorExceptionCode(exception)
        decreases |current|
      {
        current := current[1..];
      }
      r := if current == [] then Success(0) else Outcome(GeneratorCode(current[0]));
    }
  }

  /**
   * exit(context, generators): the explicit generators, then the context's generator beans,
   * folded into one code; a non-zero code is published; the context is always closed. An
   * exception on the way (a null generator, or close() failing) turns a zero code into 1.
   */
  method Exit(context: Option<Context>, exitCodeGenerators: seq<Option<Generator>>) returns (r: Result<int, Thrown>, events: seq<Event>)
    ensures context.None? ==> r == Failure(NullArgument("Context must not be null")) && events == []
    ensures context.Some? ==>
      var added := None !in exitCodeGenerators;
      var code := if added then ExitCode(PrefixBeforeNull(exitCodeGenerators) + context.value.generators) else 0;
      var closeError := context.value.closeError;
      events == (if code != 0 then [ExitCodePublished(code)] else []) + [ContextClosed]
      && (closeError.Some? && !IsInstance(closeError.value, EXCEPTION) ==> r == Failure(closeError.value))
      && (closeError.None? || IsInstance(closeError.value, EXCEPTION) ==>
            r == Success(if (!added || closeError.Some?) && code == 0 then 1 else code))
  {
    if context.None? {
      return Failure(NullArgument("Context must not be null")), [];
    }
    var exitCode := 0;
    var failed := false;
    events := [];
    var generators := new Generators();
    var added := generators.AddAll(Some(exitCodeGenerators));
    if added.Success? {
      assert generators.generators == PrefixBeforeNull(exitCodeGenerators);
      PrefixOfAllPresent(context.value.generators);
      var beans := generators.AddAll(Some(AllPresent(context.value.generators)));
      assert generators.generators == PrefixBeforeNull(exitCodeGenerators) + context.value.generators;
      exitCode := generators.GetExitCode();
      if exitCode != 0 {
        events := events + [ExitCodePublished(exitCode)];
      }
    } else {
      assert None in exitCodeGenerators;
      failed := true;
    }
    events := events + [ContextClosed];
    var closeError := context.value.closeError;
    if closeError.Some? {
      if !IsInstance(closeError.value, EXCEPTION) {
        return Failure(closeError.value), events;
      }
      failed := true;
    }
    if failed && exitCode == 0 {
      exitCode := 1;
    }
    return Success(exitCode), events;
  }

  // ---------------------------------------------------------------------------------------
  // Configuring the environment

  /** configurePropertySources, first half: non-empty default properties go last. */
  function WithDefaultProperties(ss: seq<PS.PropertySource>, defaults: Option<map<string, string>>): seq<PS.PropertySource> {
    if defaults.Some? && |defaults.value| > 0 then PS.AddLast(ss, PS.MapSource(PS.DEFAULT_PROPERTIES, defaults.value))
    else ss
  }

  /** The name of the command-line source merged into an existing one. */
  function CommandLineName(args: Arguments): string {
    PS.COMMAND_LINE + "-" + IntToString(args.hash)
  }

  /**
   * configurePropertySources, second half: with command-line properties enabled and at least
   * one argument, an existing "commandLineArgs" source is replaced in place by a composite of
   * the new arguments and the old source; otherwise the arguments' source goes first.
   */
  function WithCommandLine(ss: seq<PS.PropertySource>, enabled: bool, args: Arguments): seq<PS.PropertySource> {
    if !enabled || |args.source| == 0 then ss
    else
      match PS.IndexOfName(ss, PS.COMMAND_LINE)
      case Some(i) =>
        ss[i := PS.Composite(PS.COMMAND_LINE, [PS.MapSource(CommandLineName(args), args.options), ss[i]])]
      case None => PS.AddFirst(ss, PS.MapSource(PS.COMMAND_LINE, args.options))
  }

  /** Position `i` of `d` held the command-line source, and `r` holds the merged one there. */
  predicate MergedAt(d: seq<PS.PropertySource>, r: seq<PS.PropertySource>, args: Arguments, i: nat)
    requires i < |d| && i < |r|
  {
    PS.Name(d[i]) == PS.COMMAND_LINE
    && r[i] == PS.Composite(PS.COMMAND_LINE, [PS.MapSource(CommandLineName(args), args.options), d[i]])
  }

  lemma NamedAfterAddLast(ss: seq<PS.PropertySource>, p: PS.PropertySource, name: string)
    requires PS.Name(p) != name
    ensures PS.Named(PS.AddLast(ss, p), name) <==> PS.Named(ss, name)
  {
    PS.RelativeSurvivesRemoval(ss, PS.Name(p), name);
    var rest := PS.RemoveNamed(ss, PS.Name(p));
    assert PS.Names(rest + [p]) == PS.Names(rest) + [PS.Name(p)];
  }

  /**
   * The configured list keeps names unique; non-empty default properties end it; enabled
   * command-line arguments either open it or are merged in front of the existing
   * command-line source at its position; otherwise the command line changes nothing.
   */
  lemma {:induction false} ConfiguredSourcesSpec(ss: seq<PS.PropertySource>, defaults: Option<map<string, string>>, enabled: bool, args: Arguments)
    requires PS.UniqueNames(ss)
    ensures var d := WithDefaultProperties(ss, defaults);
      var r := WithCommandLine(d, enabled, args);
      PS.UniqueNames(r)
      && (defaults.Some? && |defaults.value| > 0 ==> |r| > 0 && r[|r| - 1] == PS.MapSource(PS.DEFAULT_PROPERTIES, defaults.value))
      && (!enabled || |args.source| == 0 ==> r == d)
      && (enabled && |args.source| > 0 && !PS.Named(ss, PS.COMMAND_LINE) ==>
            |r| > 0 && r[0] == PS.MapSource(PS.COMMAND_LINE, args.options))
      && (enabled && |args.source| > 0 && PS.Named(ss, PS.COMMAND_LINE) ==>
            |r| == |d| && exists i :: 0 <= i < |d| && MergedAt(d, r, args, i))
  {
    var d := WithDefaultProperties(ss, defaults);
    if defaults.Some? && |defaults.value| > 0 {
      var p := PS.MapSource(PS.DEFAULT_PROPERTIES, defaults.value);
      PS.AddLastSpec(ss, p);
      NamedAfterAddLast(ss, p, PS.COMMAND_LINE);
    }
    assert PS.UniqueNames(d);
    assert PS.Named(d, PS.COMMAND_LINE) <==> PS.Named(ss, PS.COMMAND_LINE);
    if enabled && |args.source| > 0 {
      match PS.IndexOfName(d, PS.COMMAND_LINE)
      case Some(i) =>
        var c := PS.Composite(PS.COMMAND_LINE, [PS.MapSource(CommandLineName(args), args.options), d[i]]);
        assert PS.Names(d[i := c]) == PS.Names(d);
        assert MergedAt(d, d[i := c], args, i);
        if defaults.Some? && |defaults.value| > 0 {
          assert i != |d| - 1;
        }
      case None =>
        var p := PS.MapSource(PS.COMMAND_LINE, args.options);
        PS.AddFirstSpec(d, p);
        assert PS.RemoveNamed(d, PS.COMMAND_LINE) == d;
    }
  }

  /** The active profiles after getActiveProfiles' lazy read of `spring.profiles.active`. */
  function ActiveAfterRead(sources: seq<PS.PropertySource>, active: seq<string>): (seq<string>, Option<Throwable>) {
    var value := PS.LookupFirst(sources, Env.ACTIVE_PROFILES_PROPERTY);
    if active != [] || !HasText(value) then (active, None)
    else Env.SetProfiles(Env.ProfilesFromProperty(value.value))
  }

  /**
   * configureProfiles: the active profiles are initialised, then set to the additional
   * profiles followed by the active ones, without repeats. Result: the active profiles and
   * the error raised, if any.
   */
  function ConfiguredProfiles(additional: seq<string>, sources: seq<PS.PropertySource>, active: seq<string>): (seq<string>, Option<Throwable>) {
    var read := ActiveAfterRead(sources, active);
    if read.1.Some? then read else Env.SetProfiles(Dedup(additional + read.0))
  }

  /**
   * Configuring succeeds exactly when reading succeeds and every profile is valid; then the
   * additional profiles come first, the list has no repeats, and it holds exactly the
   * additional and previously active profiles.
   */
  lemma ConfiguredProfilesSpec(additional: seq<string>, sources: seq<PS.PropertySource>, active: seq<string>)
    ensures var read := ActiveAfterRead(sources, active);
      var r := ConfiguredProfiles(additional, sources, active);
      (r.1.None? <==> read.1.None? && forall i :: 0 <= i < |additional + read.0| ==> Env.ValidProfile((additional + read.0)[i]))
      && (r.1.None? ==> NoDup(r.0) && Dedup(additional) <= r.0 && forall p :: p in r.0 <==> p in additional || p in read.0)
  {
    var read := ActiveAfterRead(sources, active);
    if read.1.None? {
      var all := additional + read.0;
      var r := Env.SetProfiles(Dedup(all));
      assert ConfiguredProfiles(additional, sources, active) == r;
      ValidDedup(all);
      if r.1.None? {
        DedupIdempotent(all);
        assert r.0 == Dedup(all);
        DedupPrefix(additional, read.0);
        DedupMembers(all);
      }
    }
  }

  /** A list holds only valid profiles exactly when its ordered set does. */
  lemma ValidDedup(profiles: seq<string>)
    ensures (forall i :: 0 <= i < |Dedup(profiles)| ==> Env.ValidProfile(Dedup(profiles)[i]))
      <==> (forall i :: 0 <= i < |profiles| ==> Env.ValidProfile(profiles[i]))
  {
    var d := Dedup(profiles);
    DedupMembers(profiles);
    if forall i :: 0 <= i < |d| ==> Env.ValidProfile(d[i]) {
      forall i | 0 <= i < |profiles|
        ensures Env.ValidProfile(profiles[i])
      {
        assert profiles[i] in d;
      }
    }
    if forall i :: 0 <= i < |profiles| ==> Env.ValidProfile(profiles[i]) {
      forall i | 0 <= i < |d|
        ensures Env.ValidProfile(d[i])
      {
        assert d[i] in profiles;
      }
    }
  }

  // ---------------------------------------------------------------------------------------
  // The run phases

  /** The exception the first throwing listener raises in a phase, when one throws. */
  function BroadcastError(listeners: seq<RL.Listener>, phase: RL.Phase): (r: Option<Thrown>)
    ensures r.None? <==> RL.FirstFailing(listeners, phase) == |listeners|
    ensures r.None? ==> RL.Reached(listeners, phase) == |listeners|
  {
    var k := RL.FirstFailing(listeners, phase);
    if k < |listeners| then RL.ThrownIn(listeners[k], phase) else None
  }

  /** What listeners.finished(context, null) throws: the first listener error, rethrown. */
  function FinishedError(listeners: seq<RL.Listener>): Option<Thrown> {
    match BroadcastError(listeners, RL.Phase.Finished([]))
    case None => None
    case Some(e) => Some(Rethrown(e))
  }

  /** The collaborators of a run that are outside the model: what each step throws, if anything. */
  datatype Collaborators = Collaborators(
    /** createApplicationContext: the new context, or what creating it throws. */
    context: Result<Context, Thrown>,
    /** new FailureAnalyzers(context). */
    analyzers: Result<Analyzers, Thrown>,
    /** prepareContext before contextPrepared: post-processing and the initializers. */
    initializers: Option<Thrown>,
    /** prepareContext between contextPrepared and contextLoaded: the singletons and load(). */
    load: Option<Thrown>,
    /** refreshContext. */
    refresh: Option<Thrown>,
    /** afterRefresh and the application and command-line runners. */
    runners: Option<Thrown>)

  // The steps of run()'s try block, in order.
  const PROFILES := 0
  const ENVIRONMENT_PREPARED := 1
  const CREATE_CONTEXT := 2
  const CREATE_ANALYZERS := 3
  const INITIALIZERS := 4
  const CONTEXT_PREPARED := 5
  const LOAD := 6
  const CONTEXT_LOADED := 7
  const REFRESH := 8
  const RUNNERS := 9
  const FINISHED := 10

  /** What each step of prepareContext throws, if anything, in the order they run. */
  function PrepareSteps(listeners: seq<RL.Listener>, c: Collaborators): (steps: seq<Option<Thrown>>)
    ensures |steps| == 4
  {
    [ c.initializers, BroadcastError(listeners, RL.Phase.ContextPrepared), c.load,
      BroadcastError(listeners, RL.Phase.ContextLoaded) ]
  }

  /** What createApplicationContext and creating the analyzers throw. */
  function CreateSteps(c: Collaborators): (steps: seq<Option<Thrown>>)
    ensures |steps| == INITIALIZERS - CREATE_CONTEXT
  {
    [ ResultError(c.context), ResultError(c.analyzers) ]
  }

  /** What refreshContext, afterRefresh with the runners, and `finished` throw. */
  function RefreshSteps(listeners: seq<RL.Listener>, c: Collaborators): (steps: seq<Option<Thrown>>)
    ensures |steps| == FINISHED + 1 - REFRESH
  {
    [ c.refresh, c.runners, FinishedError(listeners) ]
  }

  /** What each step of run()'s try block after prepareEnvironment throws, in order. */
  function ContextSteps(listeners: seq<RL.Listener>, c: Collaborators): (steps: seq<Option<Thrown>>)
    ensures |steps| == FINISHED + 1 - CREATE_CONTEXT
  {
    CreateSteps(c) + PrepareSteps(listeners, c) + RefreshSteps(listeners, c)
  }

  /** The first failure after prepareEnvironment, from the first failures of its three parts. */
  lemma ContextStepsFailure(listeners: seq<RL.Listener>, c: Collaborators)
    ensures var a, b, d := FirstFailure(CreateSteps(c)), FirstFailure(PrepareSteps(listeners, c)), FirstFailure(RefreshSteps(listeners, c));
      FirstFailure(ContextSteps(listeners, c)) ==
        if a < INITIALIZERS - CREATE_CONTEXT then a
        else if b < REFRESH - INITIALIZERS then INITIALIZERS - CREATE_CONTEXT + b
        else REFRESH - CREATE_CONTEXT + d
  {
    FirstFailureAppend(CreateSteps(c), PrepareSteps(listeners, c));
    FirstFailureAppend(CreateSteps(c) + PrepareSteps(listeners, c), RefreshSteps(listeners, c));
  }

  /** Where the first failure after prepareEnvironment lies, case by case, and what it is. */
  lemma ContextStepsCases(listeners: seq<RL.Listener>, c: Collaborators)
    ensures var steps := ContextSteps(listeners, c);
      var j := FirstFailure(steps);
      var b := FirstFailure(PrepareSteps(listeners, c));
      var d := FirstFailure(RefreshSteps(listeners, c));
      (c.context.Failure? ==> j == 0 && steps[0] == Some(c.context.error))
      && (c.context.Success? && c.analyzers.Failure? ==> j == 1 && steps[1] == Some(c.analyzers.error))
      && (c.context.Success? && c.analyzers.Success? && b < 4 ==>
            j == 2 + b && steps[j] == PrepareSteps(listeners, c)[b])
      && (c.context.Success? && c.analyzers.Success? && b == 4 ==>
            j == 6 + d && (d < 3 ==> steps[j] == RefreshSteps(listeners, c)[d]))
  {
    ContextStepsFailure(listeners, c);
    var create := CreateSteps(c);
    if c.context.Failure? {
      FirstFailureAt(create, 0);
    } else if c.analyzers.Failure? {
      FirstFailureAt(create, 1);
    } else {
      FirstFailureAt(create, 2);
    }
  }

  /** What each step of prepareEnvironment throws: configuring the profiles, then the listeners. */
  function EnvironmentSteps(profileError: Option<Thrown>, listeners: seq<RL.Listener>): (steps: seq<Option<Thrown>>)
    ensures |steps| == CREATE_CONTEXT
  {
    [ profileError, BroadcastError(listeners, RL.Phase.EnvironmentPrepared) ]
  }

  /** What each step of run()'s try block throws, if anything, in the order they run. */
  function TrySteps(profileError: Option<Thrown>, listeners: seq<RL.Listener>, c: Collaborators): (steps: seq<Option<Thrown>>)
    ensures |steps| == FINISHED + 1
  {
    EnvironmentSteps(profileError, listeners) + ContextSteps(listeners, c)
  }

  /** The first failure of the try block, from those of prepareEnvironment and of the rest. */
  lemma TryStepsFailure(profileError: Option<Thrown>, listeners: seq<RL.Listener>, c: Collaborators)
    ensures var a := FirstFailure(EnvironmentSteps(profileError, listeners));
      FirstFailure(TrySteps(profileError, listeners, c)) ==
        if a < CREATE_CONTEXT then a else CREATE_CONTEXT + FirstFailure(ContextSteps(listeners, c))
    ensures var a, j := FirstFailure(EnvironmentSteps(profileError, listeners)), FirstFailure(ContextSteps(listeners, c));
      (a < CREATE_CONTEXT ==> TrySteps(profileError, listeners, c)[a] == EnvironmentSteps(profileError, listeners)[a])
      && (a == CREATE_CONTEXT && j < FINISHED + 1 - CREATE_CONTEXT ==>
            TrySteps(profileError, listeners, c)[CREATE_CONTEXT + j] == ContextSteps(listeners, c)[j])
  {
    FirstFailureAppend(EnvironmentSteps(profileError, listeners), ContextSteps(listeners, c));
  }

  /** The position of the first step that throws, or |steps| when none does. */
  function FirstFailure<T>(steps: seq<Option<T>>): (i: nat)
    ensures i <= |steps|
    ensures forall j :: 0 <= j < i ==> steps[j].None?
    ensures i < |steps| ==> steps[i].Some?
    decreases |steps|
  {
    if steps == [] || steps[0].Some? then 0
    else
      var i := FirstFailure(steps[1..]);
      assert forall j :: 1 <= j < i + 1 ==> steps[j] == steps[1..][j - 1];
      i + 1
  }

  /** The first failure is the only position with nothing thrown before it and a throw at it. */
  lemma FirstFailureAt<T>(steps: seq<Option<T>>, i: nat)
    requires i <= |steps| && forall j :: 0 <= j < i ==> steps[j].None?
    requires i < |steps| ==> steps[i].Some?
    ensures FirstFailure(steps) == i
  {
  }

  /** The listener calls of prepareContext when its step `j` is the first to throw. */
  function PrepareCalls(listeners: seq<RL.Listener>, j: nat): seq<RL.Call> {
    (if j >= 1 then RL.CallsUpTo(RL.Phase.ContextPrepared, RL.Reached(listeners, RL.Phase.ContextPrepared)) else [])
    + (if j >= 3 then RL.CallsUpTo(RL.Phase.ContextLoaded, RL.Reached(listeners, RL.Phase.ContextLoaded)) else [])
  }

  /** The listener calls after prepareEnvironment when step `j` of ContextSteps is the first to throw. */
  function ContextCalls(listeners: seq<RL.Listener>, j: nat): seq<RL.Call> {
    (if j >= INITIALIZERS - CREATE_CONTEXT then PrepareCalls(listeners, j - (INITIALIZERS - CREATE_CONTEXT)) else [])
    + (if j >= FINISHED - CREATE_CONTEXT then RL.CallsUpTo(RL.Phase.Finished([]), RL.Reached(listeners, RL.Phase.Finished([]))) else [])
  }

  /** The listener calls of the try block when step `i` is the first to throw. */
  function TryCalls(listeners: seq<RL.Listener>, i: nat): seq<RL.Call> {
    (if i >= ENVIRONMENT_PREPARED then RL.CallsUpTo(RL.Phase.EnvironmentPrepared, RL.Reached(listeners, RL.Phase.EnvironmentPrepared)) else [])
    + (if i >= CREATE_CONTEXT then ContextCalls(listeners, i - CREATE_CONTEXT) else [])
  }

  /** The calls of the try block past prepareEnvironment: those of prepareEnvironment, then the rest. */
  lemma TryCallsAfterEnvironment(before: seq<RL.Call>, listeners: seq<RL.Listener>, j: nat)
    ensures before + TryCalls(listeners, CREATE_CONTEXT + j) == before + TryCalls(listeners, CREATE_CONTEXT) + ContextCalls(listeners, j)
  {
    assert ContextCalls(listeners, 0) == [];
  }

  /** The first failure of a concatenation. */
  lemma FirstFailureAppend<T>(a: seq<Option<T>>, b: seq<Option<T>>)
    ensures FirstFailure(a) < |a| ==> FirstFailure(a + b) == FirstFailure(a)
    ensures FirstFailure(a) == |a| ==> FirstFailure(a + b) == |a| + FirstFailure(b)
  {
    var i := FirstFailure(a);
    if i < |a| {
      assert (a + b)[i] == a[i];
      FirstFailureAt(a + b, i);
    } else {
      var j := FirstFailure(b);
      assert forall k :: |a| <= k < |a| + j ==> (a + b)[k] == b[k - |a|];
      if j < |b| {
        assert (a + b)[|a| + j] == b[j];
      }
      FirstFailureAt(a + b, |a| + j);
    }
  }

  /**
   * The context handleRunFailure sees when step `i` failed: none before it was created, and
   * active only once refreshing succeeded (a failed refresh cancels the context).
   */
  function ContextAt(c: Collaborators, i: nat): Option<Context> {
    if i > CREATE_CONTEXT && c.context.Success? then Some(c.context.value.(active := i > REFRESH)) else None
  }

  /** The analyzers handleRunFailure sees when step `i` failed. */
  function AnalyzersAt(c: Collaborators, i: nat): Option<Analyzers> {
    if i > CREATE_ANALYZERS && c.analyzers.Success? then Some(c.analyzers.value) else None
  }

  /** analyzeAndReport reported the failure. */
  predicate Analyzed(analyzers: Option<Analyzers>, failure: Throwable) {
    analyzers.Some? && analyzers.value(failure) == Reported
  }

  /** The ExitCodeEvent handleExitCode publishes, if any. */
  function ExitCodeEvents(context: Option<Context>, code: Result<int, Thrown>): seq<Event> {
    if code.Success? && code.value != 0 && context.Some? then [ExitCodePublished(code.value)] else []
  }

  /** The exit code registered with the handler after handleExitCode. */
  function RegisteredExitCode(previous: int, code: Result<int, Thrown>, hasHandler: bool): int {
    if hasHandler && code.Success? && code.value != 0 then code.value else previous
  }

  /** The exception pending after handleRunFailure's finally block: close() overrides. */
  function Pending(context: Option<Context>, code: Result<int, Thrown>): Option<Thrown> {
    if context.Some? && context.value.closeError.Some? then context.value.closeError else ResultError(code)
  }

  /** What handleRunFailure throws: a pending non-Exception, otherwise the rethrown failure. */
  function FailureThrown(context: Option<Context>, code: Result<int, Thrown>, failure: Thrown): (t: Thrown)
    ensures Pending(context, code).None? ==> IsUnchecked(t) && (IsUnchecked(failure) ==> t == failure)
  {
    var pending := Pending(context, code);
    if pending.Some? && !IsInstance(pending.value, EXCEPTION) then pending.value else Rethrown(failure)
  }

  /**
   * When listener `k` throws from the `finished` callback of an otherwise successful run
   * (the try block's first failure is then FINISHED), the failure path calls `finished`
   * again: the listener hears `finished` twice, first without and then with the failure.
   */
  lemma FinishedHeardTwice(listeners: seq<RL.Listener>, k: nat)
    requires k == RL.FirstFailing(listeners, RL.Phase.Finished([])) && k < |listeners|
    ensures var e := Rethrown(RL.ThrownIn(listeners[k], RL.Phase.Finished([])).value);
      var trace := TryCalls(listeners, FINISHED) + RL.CallsUpTo(RL.Phase.Finished(e), |listeners|);
      RL.Call(k, RL.Phase.Finished([])) in trace && RL.Call(k, RL.Phase.Finished(e)) in trace
  {
    var e := Rethrown(RL.ThrownIn(listeners[k], RL.Phase.Finished([])).value);
    var finished := RL.CallsUpTo(RL.Phase.Finished([]), RL.Reached(listeners, RL.Phase.Finished([])));
    var front := RL.CallsUpTo(RL.Phase.EnvironmentPrepared, RL.Reached(listeners, RL.Phase.EnvironmentPrepared))
      + PrepareCalls(listeners, FINISHED - INITIALIZERS);
    assert ContextCalls(listeners, FINISHED - CREATE_CONTEXT) == PrepareCalls(listeners, FINISHED - INITIALIZERS) + finished;
    assert TryCalls(listeners, FINISHED) == front + finished;
    assert finished[k] == RL.Call(k, RL.Phase.Finished([]));
    var again := RL.CallsUpTo(RL.Phase.Finished(e), |listeners|);
    assert again[k] == RL.Call(k, RL.Phase.Finished(e));
    assert (front + finished + again)[|front| + k] == finished[k];
  }

  class Application {
    /** The default properties, when set. */
    const defaultProperties: Option<map<string, string>>
    const addCommandLineProperties: bool
    /** The additional profiles, in the order of the set that holds them. */
    const additionalProfiles: seq<string>
    /** The current thread's name and its thread group's name. */
    const threadName: string
    const threadGroup: string
    /** Whether the log's error level is enabled. */
    const errorEnabled: bool
    /** SpringBootExceptionHandler.forCurrentThread(). */
    const handler: EH.Handler
    /** What was published, logged or closed so far, in order. */
    var events: seq<Event>

    constructor(defaultProperties: Option<map<string, string>>, addCommandLineProperties: bool, additionalProfiles: seq<string>,
                threadName: string, threadGroup: string, errorEnabled: bool, handler: EH.Handler)
      ensures this.defaultProperties == defaultProperties && this.addCommandLineProperties == addCommandLineProperties
      ensures this.additionalProfiles == additionalProfiles && this.threadName == threadName && this.threadGroup == threadGroup
      ensures this.errorEnabled == errorEnabled && this.handler == handler && events == []
    {
      this.defaultProperties := defaultProperties;
      this.addCommandLineProperties := addCommandLineProperties;
      this.additionalProfiles := additionalProfiles;
      this.threadName := threadName;
      this.threadGroup := threadGroup;
      this.errorEnabled := errorEnabled;
      this.handler := handler;
      events := [];
    }

    /** getSpringBootExceptionHandler returns a handler only on the main thread. */
    predicate HasHandler() {
      IsMainThread(threadName, threadGroup)
    }

    /** The property sources after configurePropertySources. */
    function EnvironmentSources(ss: seq<PS.PropertySource>, args: Arguments): seq<PS.PropertySource> {
      WithCommandLine(WithDefaultProperties(ss, defaultProperties), addCommandLineProperties, args)
    }

    /** The active profiles, and the error, after configureEnvironment. */
    function ProfileOutcome(ss: seq<PS.PropertySource>, active: seq<string>, args: Arguments): (seq<string>, Option<Throwable>) {
      ConfiguredProfiles(additionalProfiles, EnvironmentSources(ss, args), active)
    }

    /** What run()'s try block throws at each step. */
    function Steps(ss: seq<PS.PropertySource>, active: seq<string>, args: Arguments, listeners: seq<RL.Listener>, c: Collaborators): seq<Option<Thrown>> {
      TrySteps(AsThrown(ProfileOutcome(ss, active, args).1), listeners, c)
    }

    /** What reportFailure logs. */
    function ReportEvents(analyzers: Option<Analyzers>, failure: Throwable): seq<Event> {
      if !Analyzed(analyzers, failure) && errorEnabled then [StartupFailureLogged(failure)] else []
    }

    /** What reportFailure registers with the handler as logged. */
    function ReportRegistered(analyzers: Option<Analyzers>, failure: Throwable): seq<Throwable> {
      if HasHandler() && (Analyzed(analyzers, failure) || errorEnabled) then [failure] else []
    }

    /** Everything handleRunFailure publishes, logs or closes, in order. */
    function FailureEvents(context: Option<Context>, analyzers: Option<Analyzers>, failure: Throwable, code: Result<int, Thrown>): seq<Event> {
      var pending := Pending(context, code);
      ExitCodeEvents(context, code) + ReportEvents(analyzers, failure)
      + (if context.Some? then [ContextClosed] else [])
      + (if pending.Some? && IsInstance(pending.value, EXCEPTION) then [CloseFailureLogged(pending.value)] else [])
    }

    /** The events of handleRunFailure, grouped as its inner try block and its finally block produce them. */
    lemma FailureEventsInOrder(context: Option<Context>, analyzers: Option<Analyzers>, failure: Throwable, code: Result<int, Thrown>, before: seq<Event>)
      ensures var pending := Pending(context, code);
        before + FailureEvents(context, analyzers, failure, code)
        == (before + ExitCodeEvents(context, code))
          + (ReportEvents(analyzers, failure) + (if context.Some? then [ContextClosed] else []))
          + (if pending.Some? && IsInstance(pending.value, EXCEPTION) then [CloseFailureLogged(pending.value)] else [])
    {
    }

    /** configurePropertySources. */
    method ConfigurePropertySources(env: Env.Environment, args: Arguments)
      modifies env
      ensures env.sources == EnvironmentSources(old(env.sources), args)
      ensures env.active == old(env.active) && env.defaults == old(env.defaults)
    {
      if defaultProperties.Some? && |defaultProperties.value| > 0 {
        env.AddLast(PS.MapSource(PS.DEFAULT_PROPERTIES, defaultProperties.value));
      }
      if addCommandLineProperties && |args.source| > 0 {
        var name := PS.COMMAND_LINE;
        if PS.Named(env.sources, name) {
          var source := PS.Get(env.sources, name).value;
          var composite := PS.Composite(name, [PS.MapSource(CommandLineName(args), args.options), source]);
          var ignored := env.Replace(name, composite);
        } else {
          env.AddFirst(PS.MapSource(name, args.options));
        }
      }
    }

    /** configureProfiles. */
    method ConfigureProfiles(env: Env.Environment) returns (r: Option<Thrown>)
      modifies env
      ensures var outcome := ConfiguredProfiles(additionalProfiles, old(env.sources), old(env.active));
        env.active == outcome.0 && r == AsThrown(outcome.1)
      ensures env.sources == old(env.sources) && env.defaults == old(env.defaults)
    {
      var initialized := env.GetActiveProfiles();
      if initialized.Failure? {
        return AsThrown(Some(initialized.error));
      }
      // Once initialised, the active profiles are read again without error.
      var active := env.GetActiveProfiles();
      if active.Failure? {
        assert false;
      }
      var error := env.SetActiveProfiles(Dedup(additionalProfiles + active.value));
      r := AsThrown(error);
    }

    /** registerLoggedException: recorded by the handler, which exists on the main thread only. */
    method RegisterLoggedException(exception: Throwable)
      modifies handler
      ensures handler.loggedExceptions == old(handler.loggedExceptions) + (if HasHandler() then [exception] else [])
      ensures handler.exitCode == old(handler.exitCode)
    {
      if HasHandler() {
        handler.RegisterLoggedException(exception);
      }
    }

    /** handleExitCode: a non-zero code is published to the context and registered. */
    method HandleExitCode(context: Option<Context>, exception: Throwable) returns (error: Option<Thrown>)
      modifies this, handler
      ensures var code := FailureExitCode(context, exception);
        error == ResultError(code) && events == old(events) + ExitCodeEvents(context, code)
        && handler.exitCode == RegisteredExitCode(old(handler.exitCode), code, HasHandler())
      ensures handler.loggedExceptions == old(handler.loggedExceptions)
    {
      var code := ExitCodeFromException(context, exception);
      if code.Failure? {
        return Some(code.error);
      }
      if code.value != 0 {
        if context.Some? {
          events := events + [ExitCodePublished(code.value)];
        }
        if HasHandler() {
          handler.RegisterExitCode(code.value);
        }
      }
      return None;
    }

    /**
     * reportFailure: a failure the analyzers reported is registered as logged; otherwise,
     * including when analysing throws, it is logged as an error and registered, when the
     * error level is enabled.
     */
    method ReportFailure(analyzers: Option<Analyzers>, failure: Throwable)
      modifies this, handler
      ensures events == old(events) + ReportEvents(analyzers, failure)
      ensures handler.loggedExceptions == old(handler.loggedExceptions) + ReportRegistered(analyzers, failure)
      ensures handler.exitCode == old(handler.exitCode)
    {
      if analyzers.Some? && analyzers.value(failure) == Reported {
        RegisterLoggedException(failure);
        return;
      }
      if errorEnabled {
        events := events + [StartupFailureLogged(failure)];
        RegisterLoggedException(failure);
      }
    }

    /**
     * handleRunFailure: the exit code is handled and the listeners hear `finished` with the
     * failure (skipped when the exit code cannot be computed); whatever happened, the failure
     * is reported and the context closed. An Exception raised on the way is logged; the
     * failure is then rethrown.
     */
    method HandleRunFailure(context: Option<Context>, listeners: RL.Listeners, analyzers: Option<Analyzers>, exception: Thrown)
      returns (thrown: Thrown)
      modifies this, handler, listeners
      ensures thrown == FailureThrown(context, FailureExitCode(context, exception), exception)
      ensures events == old(events) + FailureEvents(context, analyzers, exception, FailureExitCode(context, exception))
      ensures handler.exitCode == RegisteredExitCode(old(handler.exitCode), FailureExitCode(context, exception), HasHandler())
      ensures handler.loggedExceptions == old(handler.loggedExceptions) + ReportRegistered(analyzers, exception)
      ensures FailureExitCode(context, exception).Success? ==>
        listeners.calls == old(listeners.calls) + RL.CallsUpTo(RL.Phase.Finished(exception), |listeners.listeners|)
        && listeners.log == old(listeners.log) + RL.SwallowedAll(listeners.listeners, RL.Phase.Finished(exception), listeners.debugEnabled)
      ensures FailureExitCode(context, exception).Failure? ==>
        listeners.calls == old(listeners.calls) && listeners.log == old(listeners.log)
    {
      ghost var code := FailureExitCode(context, exception);
      ghost var e0 := events;
      var pending := NotifyFailure(context, listeners, exception);
      ghost var e1 := events;
      pending := ReportAndClose(context, analyzers, exception, pending);
      assert pending == Pending(context, code);
      ghost var closing := ReportEvents(analyzers, exception) + (if context.Some? then [ContextClosed] else []);
      assert events == e1 + closing;
      ghost var logged := if pending.Some? && IsInstance(pending.value, EXCEPTION) then [CloseFailureLogged(pending.value)] else [];
      if pending.Some? && IsInstance(pending.value, EXCEPTION) {
        events := events + [CloseFailureLogged(pending.value)];
      }
      assert events == (e0 + ExitCodeEvents(context, code)) + closing + logged;
      FailureEventsInOrder(context, analyzers, exception, code, e0);
      thrown := if pending.Some? && !IsInstance(pending.value, EXCEPTION) then pending.value else Rethrown(exception);
    }

    /** The inner try block of handleRunFailure: handleExitCode, then `finished` with the failure. */
    method NotifyFailure(context: Option<Context>, listeners: RL.Listeners, exception: Thrown) returns (pending: Option<Thrown>)
      modifies this, handler, listeners
      ensures pending == ResultError(FailureExitCode(context, exception))
      ensures events == old(events) + ExitCodeEvents(context, FailureExitCode(context, exception))
      ensures handler.exitCode == RegisteredExitCode(old(handler.exitCode), FailureExitCode(context, exception), HasHandler())
      ensures handler.loggedExceptions == old(handler.loggedExceptions)
      ensures pending.None? ==>
        listeners.calls == old(listeners.calls) + RL.CallsUpTo(RL.Phase.Finished(exception), |listeners.listeners|)
        && listeners.log == old(listeners.log) + RL.SwallowedAll(listeners.listeners, RL.Phase.Finished(exception), listeners.debugEnabled)
      ensures pending.Some? ==> listeners.calls == old(listeners.calls) && listeners.log == old(listeners.log)
    {
      pending := HandleExitCode(context, exception);
      if pending.None? {
        var ignored := listeners.Finished(exception);
      }
    }

    /**
     * The finally block of handleRunFailure: report the failure, then close the context; an
     * exception close() throws replaces the pending one.
     */
    method ReportAndClose(context: Option<Context>, analyzers: Option<Analyzers>, exception: Thrown, pending: Option<Thrown>)
      returns (after: Option<Thrown>)
      modifies this, handler
      ensures after == (if context.Some? && context.value.closeError.Some? then context.value.closeError else pending)
      ensures events == old(events) + ReportEvents(analyzers, exception) + (if context.Some? then [ContextClosed] else [])
      ensures handler.loggedExceptions == old(handler.loggedExceptions) + ReportRegistered(analyzers, exception)
      ensures handler.exitCode == old(handler.exitCode)
    {
      ReportFailure(analyzers, exception);
      after := pending;
      if context.Some? {
        events := events + [ContextClosed];
        if context.value.closeError.Some? {
          after := context.value.closeError;
        }
      }
    }

    /** configureEnvironment: the property sources, then the profiles. */
    method ConfigureEnvironment(env: Env.Environment, args: Arguments) returns (error: Option<Thrown>)
      modifies env
      ensures env.sources == EnvironmentSources(old(env.sources), args)
      ensures env.active == ProfileOutcome(old(env.sources), old(env.active), args).0 && env.defaults == old(env.defaults)
      ensures error == AsThrown(ProfileOutcome(old(env.sources), old(env.active), args).1)
    {
      ConfigurePropertySources(env, args);
      error := ConfigureProfiles(env);
    }

    /** prepareEnvironment: configure the environment, then the environmentPrepared broadcast. */
    method PrepareEnvironment(listeners: RL.Listeners, env: Env.Environment, args: Arguments) returns (error: Option<Thrown>)
      modifies listeners, env
      ensures env.sources == EnvironmentSources(old(env.sources), args)
      ensures env.active == ProfileOutcome(old(env.sources), old(env.active), args).0 && env.defaults == old(env.defaults)
      ensures var steps := EnvironmentSteps(AsThrown(ProfileOutcome(old(env.sources), old(env.active), args).1), listeners.listeners);
        var i := FirstFailure(steps);
        error == (if i < |steps| then steps[i] else None)
        && listeners.calls == old(listeners.calls) + TryCalls(listeners.listeners, i)
      ensures listeners.log == old(listeners.log)
    {
      ghost var steps := EnvironmentSteps(AsThrown(ProfileOutcome(env.sources, env.active, args).1), listeners.listeners);
      error := ConfigureEnvironment(env, args);
      if error.Some? {
        FirstFailureAt(steps, PROFILES);
        return;
      }
      error := listeners.EnvironmentPrepared();
      FirstFailureAt(steps, if error.Some? then ENVIRONMENT_PREPARED else CREATE_CONTEXT);
    }

    /** prepareContext: the initializers, contextPrepared, loading the sources, contextLoaded. */
    method PrepareContext(listeners: RL.Listeners, c: Collaborators) returns (error: Option<Thrown>)
      modifies listeners
      ensures var steps := PrepareSteps(listeners.listeners, c);
        var j := FirstFailure(steps);
        error == (if j < |steps| then steps[j] else None)
        && listeners.calls == old(listeners.calls) + PrepareCalls(listeners.listeners, j)
      ensures listeners.log == old(listeners.log)
    {
      ghost var steps := PrepareSteps(listeners.listeners, c);
      error := c.initializers;
      if error.Some? {
        FirstFailureAt(steps, 0);
        return;
      }
      error := listeners.ContextPrepared();
      if error.Some? {
        FirstFailureAt(steps, 1);
        return;
      }
      error := c.load;
      if error.Some? {
        FirstFailureAt(steps, 2);
        return;
      }
      error := listeners.ContextLoaded();
      FirstFailureAt(steps, if error.Some? then 3 else 4);
    }

    /**
     * The try block of run: prepareEnvironment, createApplicationContext, the analyzers,
     * prepareContext, refreshContext, afterRefresh and `finished`; the first step that throws
     * ends it. Result: the context and analyzers created so far, and the failure.
     */
    method RunSteps(args: Arguments, env: Env.Environment, listeners: RL.Listeners, c: Collaborators)
      returns (context: Option<Context>, analyzers: Option<Analyzers>, failure: Option<Thrown>)
      modifies env, listeners
      ensures env.sources == EnvironmentSources(old(env.sources), args)
      ensures env.active == ProfileOutcome(old(env.sources), old(env.active), args).0 && env.defaults == old(env.defaults)
      ensures var steps := Steps(old(env.sources), old(env.active), args, listeners.listeners, c);
        var i := FirstFailure(steps);
        failure == (if i < |steps| then steps[i] else None)
        && context == ContextAt(c, i) && analyzers == AnalyzersAt(c, i)
        && listeners.calls == old(listeners.calls) + TryCalls(listeners.listeners, i)
      ensures failure.None? ==> context.Some?
      ensures listeners.log == old(listeners.log)
    {
      ghost var pe := AsThrown(ProfileOutcome(env.sources, env.active, args).1);
      ghost var ls := listeners.listeners;
      ghost var steps := Steps(env.sources, env.active, args, ls, c);
      ghost var calls0 := listeners.calls;
      TryStepsFailure(pe, ls, c);
      context, analyzers := None, None;
      failure := PrepareEnvironment(listeners, env, args);
      if failure.Some? {
        return;
      }
      context, analyzers, failure := ContinueRun(listeners, c, pe, calls0);
    }

    /** The try block once prepareEnvironment has succeeded: the remaining steps decide. */
    method ContinueRun(listeners: RL.Listeners, c: Collaborators, ghost pe: Option<Thrown>, ghost before: seq<RL.Call>)
      returns (context: Option<Context>, analyzers: Option<Analyzers>, failure: Option<Thrown>)
      requires FirstFailure(EnvironmentSteps(pe, listeners.listeners)) == CREATE_CONTEXT
      requires listeners.calls == before + TryCalls(listeners.listeners, CREATE_CONTEXT)
      modifies listeners
      ensures var steps := TrySteps(pe, listeners.listeners, c);
        var i := FirstFailure(steps);
        failure == (if i < |steps| then steps[i] else None)
        && context == ContextAt(c, i) && analyzers == AnalyzersAt(c, i)
        && listeners.calls == before + TryCalls(listeners.listeners, i)
      ensures failure.None? ==> context.Some?
      ensures listeners.log == old(listeners.log)
    {
      TryStepsFailure(pe, listeners.listeners, c);
      TryCallsAfterEnvironment(before, listeners.listeners, FirstFailure(ContextSteps(listeners.listeners, c)));
      context, analyzers, failure := CreateAndRefresh(listeners, c);
    }

    /** The rest of run's try block, from createApplicationContext to `finished`. */
    method CreateAndRefresh(listeners: RL.Listeners, c: Collaborators)
      returns (context: Option<Context>, analyzers: Option<Analyzers>, failure: Option<Thrown>)
      modifies listeners
      ensures var steps := ContextSteps(listeners.listeners, c);
        var j := FirstFailure(steps);
        failure == (if j < |steps| then steps[j] else None)
        && context == ContextAt(c, j + CREATE_CONTEXT) && analyzers == AnalyzersAt(c, j + CREATE_CONTEXT)
        && listeners.calls == old(listeners.calls) + ContextCalls(listeners.listeners, j)
      ensures listeners.log == old(listeners.log)
    {
      ContextStepsCases(listeners.listeners, c);
      if c.context.Failure? {
        return None, None, Some(c.context.error);
      }
      context := Some(c.context.value.(active := false));
      if c.analyzers.Failure? {
        return context, None, Some(c.analyzers.error);
      }
      analyzers := Some(c.analyzers.value);
      failure := PrepareContext(listeners, c);
      if failure.Some? {
        return;
      }
      var active;
      active, failure := RefreshAndFinish(listeners, c);
      context := Some(c.context.value.(active := active));
    }

    /** refreshContext, afterRefresh with the runners, then `finished` for a successful run. */
    method RefreshAndFinish(listeners: RL.Listeners, c: Collaborators) returns (active: bool, failure: Option<Thrown>)
      modifies listeners
      ensures var steps := RefreshSteps(listeners.listeners, c);
        var j := FirstFailure(steps);
        failure == (if j < |steps| then steps[j] else None)
        && active == (j > 0)
        && listeners.calls == old(listeners.calls)
             + (if j >= FINISHED - REFRESH then RL.CallsUpTo(RL.Phase.Finished([]), RL.Reached(listeners.listeners, RL.Phase.Finished([]))) else [])
      ensures listeners.log == old(listeners.log)
    {
      ghost var steps := RefreshSteps(listeners.listeners, c);
      if c.refresh.Some? {
        FirstFailureAt(steps, 0);
        return false, c.refresh;
      }
      if c.runners.Some? {
        FirstFailureAt(steps, 1);
        return true, c.runners;
      }
      failure := listeners.Finished([]);
      FirstFailureAt(steps, if failure.Some? then 2 else 3);
      return true, failure;
    }

    /**
     * run: `starting` is broadcast outside the try block, so a listener failing there
     * propagates as it is. A failure of the try block goes through handleRunFailure, whose
     * exception is what run throws.
     */
    method Run(args: Arguments, env: Env.Environment, listeners: RL.Listeners, c: Collaborators) returns (r: Result<Context, Thrown>)
      modifies this, env, listeners, handler
      ensures var k := RL.FirstFailing(listeners.listeners, RL.Phase.Starting);
        k < |listeners.listeners| ==>
          r == Failure(RL.ThrownIn(listeners.listeners[k], RL.Phase.Starting).value)
          && listeners.calls == old(listeners.calls) + RL.CallsUpTo(RL.Phase.Starting, k + 1)
          && env.sources == old(env.sources) && env.active == old(env.active) && env.defaults == old(env.defaults)
          && events == old(events)
          && handler.loggedExceptions == old(handler.loggedExceptions) && handler.exitCode == old(handler.exitCode)
      ensures RL.FirstFailing(listeners.listeners, RL.Phase.Starting) == |listeners.listeners| ==>
        env.sources == EnvironmentSources(old(env.sources), args)
        && env.active == ProfileOutcome(old(env.sources), old(env.active), args).0
      ensures RL.FirstFailing(listeners.listeners, RL.Phase.Starting) == |listeners.listeners| ==>
        var steps := Steps(old(env.sources), old(env.active), args, listeners.listeners, c);
        var i := FirstFailure(steps);
        (r.Success? <==> i == |steps|)
        && (i == |steps| ==>
              c.context.Success? && r == Success(c.context.value.(active := true))
              && listeners.calls == old(listeners.calls) + RL.CallsUpTo(RL.Phase.Starting, |listeners.listeners|) + TryCalls(listeners.listeners, i)
              && events == old(events)
              && handler.loggedExceptions == old(handler.loggedExceptions) && handler.exitCode == old(handler.exitCode))
      ensures RL.FirstFailing(listeners.listeners, RL.Phase.Starting) == |listeners.listeners| ==>
        var steps := Steps(old(env.sources), old(env.active), args, listeners.listeners, c);
        var i := FirstFailure(steps);
        i < |steps| ==>
          var failure := steps[i].value;
          var context := ContextAt(c, i);
          var code := FailureExitCode(context, failure);
          r == Failure(FailureThrown(context, code, failure))
          && listeners.calls == old(listeners.calls) + RL.CallsUpTo(RL.Phase.Starting, |listeners.listeners|) + TryCalls(listeners.listeners, i)
                                + (if code.Success? then RL.CallsUpTo(RL.Phase.Finished(failure), |listeners.listeners|) else [])
          && events == old(events) + FailureEvents(context, AnalyzersAt(c, i), failure, code)
          && handler.loggedExceptions == old(handler.loggedExceptions) + ReportRegistered(AnalyzersAt(c, i), failure)
          && handler.exitCode == RegisteredExitCode(old(handler.exitCode), code, HasHandler())
    {
      var started := listeners.Starting();
      if started.Some? {
        return Failure(started.value);
      }
      var context, analyzers, failure := RunSteps(args, env, listeners, c);
      if failure.None? {
        return Success(context.value);
      }
      var thrown := HandleRunFailure(context, listeners, analyzers, failure.value);
      return Failure(thrown);
    }
  }
}
