# Spring Boot bootstrap core, modelled in Dafny

This project models the start-up core of Spring Boot 1.x and proves properties of that model.
The core runs `SpringApplication.run`: it prepares the environment, loads the
`application.properties`/`.yml` configuration files per profile, creates and refreshes the
context, and handles a failed start by computing an exit code, notifying the run listeners,
reporting the failure and closing the context. The model also covers the small components
the core relies on: the exit code generators, the uncaught-exception handler, the failure
analyzers, the run-listener broadcaster, the random value property source, the file encoding
check, the application PID and the two bean registrars of `@EnableConfigurationProperties`.

Modules, one per source component:

- `ExitCodes` (`exit_codes.dfy`): `ExitCodeGenerators`. The collection is a class whose `Add…`
  methods append generators. The exit code is the fold `ExitCode`, and the lemmas prove what it
  computes: zero iff all return zero, maximum or minimum, order sensitivity, a throwing
  generator.
- `ExceptionHandlers` (`exception_handler.dfy`): `SpringBootExceptionHandler`, as a class
  holding the logged exceptions and the exit code.
- `FailureAnalysis` (`failure_analysis.dfy`): `AbstractFailureAnalyzer.findCause`/`analyze`
  and `PortInUseFailureAnalyzer`.
- `RunListeners` (`run_listeners.dfy`): `SpringApplicationRunListeners`. Listener callbacks are
  functions from the event to the exception they throw, if any. The class records every call
  made and every log entry, in order.
- `RandomValues` (`random_values.dfy`): `RandomValuePropertySource`, over a `Random` class
  whose raw outputs are a fixed stream.
- `FileEncoding` (`file_encoding.dfy`): `FileEncodingApplicationListener`.
- `ApplicationPids` (`application_pid.dfy`): `ApplicationPid`.
- `BeanRegistrars` (`bean_registrars.dfy`): `EnableConfigurationPropertiesImportSelector`, its
  bean registrar, and `ConfigurationPropertiesBindingPostProcessorRegistrar`, over a `Registry`
  class.
- `ConfigFile` (`config_file.dfy`): the pure parts of `ConfigFileApplicationListener`. These are
  the profile queue operations, search locations and names, the candidate file names of a pass,
  the loaded groups, `addConfigurationProperties` and `finishAndRelocate`/`reorderSources`.
- `ConfigLoader` (`config_loader.dfy`): the listener's `Loader`, as a class with the profile
  queue, the processed profiles, the activation flag and the loaded groups.
- `Applications` (`spring_application.dfy`): `SpringApplication.run` and its failure handling,
  `exit`, and environment configuration. The try block of `run` is a sequence of steps, each of
  which may throw. The collaborators (context creation, analyzers, initializers, source
  loading, refresh, runners) are given as the outcome of each step.
- Shared modules:
  - `Wrappers`: `Option` and `Result`.
  - `Throwables`: an exception is its cause chain, a sequence of frames, where the empty
    sequence is `null`.
  - `Text`: the string and collection helpers that Java and Spring's `StringUtils` provide.
  - `PropertySources`: the `PropertySource` kinds and the `MutablePropertySources`
    operations, as functions on sequences.
  - `Environments`: `ConfigurableEnvironment`, as a class holding the sources, the active
    profiles and the default profiles.

`MutablePropertySources` and `AbstractEnvironment` belong to Spring Framework, not Spring Boot;
their source is not part of this model. They are written from their documented behaviour. Their
rows below cite the core lines that call them. `addBefore` and `addAfter` first reject a source
named after its own anchor, then remove any source of the added name, and only then look for the
anchor; so a missing anchor fails after that removal (`PropertySources.AfterFailedRelativeAdd`).

## Model

| member | source | states |
|---|---|---|
| ExitCodes.Step | spring-boot/src/main/java/org/springframework/boot/ExitCodeGenerators.java:77-89 | one generator's turn: a non-zero code is never reset to 0, and a throwing generator leaves a non-zero code as it is and turns 0 into 1 |
| ExitCodes.ExitCodeAppend | spring-boot/src/main/java/org/springframework/boot/ExitCodeGenerators.java:75-91 | the exit code of two lists joined is the second list folded from the first list's code: the loop is a left fold |
| ExitCodes.ExitCodeIsLeftFold | spring-boot/src/main/java/org/springframework/boot/ExitCodeGenerators.java:75-91 | getExitCode starts the fold at 0 |
| ExitCodes.ExitCodeZeroIff | spring-boot/src/main/java/org/springframework/boot/ExitCodeGenerators.java:75-91 | the exit code is 0 exactly when every generator returns 0 (none throws, none returns another value) |
| ExitCodes.NonZeroSticks | spring-boot/src/main/java/org/springframework/boot/ExitCodeGenerators.java:75-91 | once the code is non-zero, appending more generators cannot bring it back to 0 |
| ExitCodes.ExitCodeIsMaximum | spring-boot/src/main/java/org/springframework/boot/ExitCodeGenerators.java:75-91 | when every generator returns a value of at least 0 and none throws, the code is at least every value returned and is 0 or one of them: the maximum |
| ExitCodes.ExitCodeIsMinimum | spring-boot/src/main/java/org/springframework/boot/ExitCodeGenerators.java:75-91 | when every generator returns a value of at most 0 and none throws, the code is at most every value returned and is 0 or one of them: the minimum |
| ExitCodes.ExitCodeOrderSensitive | spring-boot/src/main/java/org/springframework/boot/ExitCodeGenerators.java:81-83 | a later negative value replaces an earlier positive one and the reverse, so [2, -3] gives -3 and [-3, 2] gives 2 |
| ExitCodes.ThrowingContributor | spring-boot/src/main/java/org/springframework/boot/ExitCodeGenerators.java:85-87 | a throwing generator at the end leaves a non-zero code as it is and turns 0 into 1 |
| ExitCodes.PrefixBeforeNull | spring-boot/src/main/java/org/springframework/boot/ExitCodeGenerators.java:54-59 | the generators added before the first null element: each is present, and the element after them is null |
| ExitCodes.PrefixBeforeNullStep | spring-boot/src/main/java/org/springframework/boot/ExitCodeGenerators.java:56-58 | one iteration of the add loop: a null element stops at the prefix, a present one extends it by itself |
| ExitCodes.Generators.constructor | spring-boot/src/main/java/org/springframework/boot/ExitCodeGenerators.java:26 | a new collection holds no generators |
| ExitCodes.Generators.Add | spring-boot/src/main/java/org/springframework/boot/ExitCodeGenerators.java:61-64 | a null generator fails with "Generator must not be null" and changes nothing; otherwise the generator is appended |
| ExitCodes.Generators.AddAll | spring-boot/src/main/java/org/springframework/boot/ExitCodeGenerators.java:49-59 | a null list fails with "Generators must not be null"; otherwise the elements before the first null are appended and the call fails exactly when a null element is met |
| ExitCodes.Generators.AddMapped | spring-boot/src/main/java/org/springframework/boot/ExitCodeGenerators.java:43-47 | null exception, then null mapper, fail with their messages and change nothing; otherwise one mapped generator for the pair is appended |
| ExitCodes.Generators.AddAllMapped | spring-boot/src/main/java/org/springframework/boot/ExitCodeGenerators.java:28-41 | null exception or null mapper list fail and change nothing; otherwise a mapped generator is appended for each mapper before the first null one, and the call succeeds exactly when there is no null mapper |
| ExitCodes.Generators.GetExitCode | spring-boot/src/main/java/org/springframework/boot/ExitCodeGenerators.java:75-91 | the loop returns the fold ExitCode over the held generators |
| ExitCodes.MappedAll | spring-boot/src/main/java/org/springframework/boot/ExitCodeGenerators.java:96-118 | one MappedExitCodeGenerator per mapper, each bound to the same exception, in mapper order |
| ExitCodes.MappedAllAppend | spring-boot/src/main/java/org/springframework/boot/ExitCodeGenerators.java:38-40 | adding one more mapper appends one more mapped generator |
| ExceptionHandlers.Unwrapped | spring-boot/src/main/java/org/springframework/boot/SpringBootExceptionHandler.java:88-90 | the number of leading InvocationTargetException wrappers: every link before it is one, the link at it is not |
| ExceptionHandlers.IsLogConfigurationMessageSpec | spring-boot/src/main/java/org/springframework/boot/SpringBootExceptionHandler.java:86-99 | after unwrapping InvocationTargetExceptions, the check answers whether that exception's message contains the logback configuration message; a wrapper with no cause makes the call throw a NullPointerException (no answer) |
| ExceptionHandlers.IsRegisteredSpec | spring-boot/src/main/java/org/springframework/boot/SpringBootExceptionHandler.java:101-109 | an exception counts as registered exactly when it or one of the InvocationTargetException-unwrapped causes up to the first non-wrapper is among the logged exceptions |
| ExceptionHandlers.PassedToParentSpec | spring-boot/src/main/java/org/springframework/boot/SpringBootExceptionHandler.java:76-78 | a registered exception is passed to the parent exactly when it is a log configuration message |
| ExceptionHandlers.PassedUnlessLogged | spring-boot/src/main/java/org/springframework/boot/SpringBootExceptionHandler.java:76-78 | an exception that was never registered is always passed to the parent |
| ExceptionHandlers.Handler.constructor | spring-boot/src/main/java/org/springframework/boot/SpringBootExceptionHandler.java:37-47 | the handler starts with no logged exceptions and exit code 0 |
| ExceptionHandlers.Handler.RegisterLoggedException | spring-boot/src/main/java/org/springframework/boot/SpringBootExceptionHandler.java:53-55 | appends the exception to the logged list; the exit code is unchanged |
| ExceptionHandlers.Handler.RegisterExitCode | spring-boot/src/main/java/org/springframework/boot/SpringBootExceptionHandler.java:57-59 | records the exit code; the logged list is unchanged |
| ExceptionHandlers.Handler.UncaughtException | spring-boot/src/main/java/org/springframework/boot/SpringBootExceptionHandler.java:62-74 | the parent handler hears the exception exactly when isPassedToParent holds and a parent exists; a non-zero registered exit code asks for System.exit with it; the logged list is cleared in every case |
| FailureAnalysis.FirstInstance | spring-boot/src/main/java/org/springframework/boot/diagnostics/AbstractFailureAnalyzer.java:53-63 | the position of the first link of the cause chain that is an instance of the type: no earlier link is one, and the link found is one |
| FailureAnalysis.FindCause | spring-boot/src/main/java/org/springframework/boot/diagnostics/AbstractFailureAnalyzer.java:53-63 | the loop returns the chain from the first instance of the type on; null exactly when no link is an instance |
| FailureAnalysis.Analyze | spring-boot/src/main/java/org/springframework/boot/diagnostics/AbstractFailureAnalyzer.java:19-27 | no analysis when no cause of the expected type exists; otherwise the subclass hook is given the root failure and the first such cause |
| FailureAnalysis.PortInUseAnalysis | spring-boot/src/main/java/org/springframework/boot/diagnostics/analyzer/PortInUseFailureAnalyzer.java:18-26 | the analysis always exists, keeps the cause, and its description and action name the port the exception reports |
| FailureAnalysis.PortDescriptionInjective | spring-boot/src/main/java/org/springframework/boot/diagnostics/analyzer/PortInUseFailureAnalyzer.java:20-21 | two ports give the same description only when they are the same port |
| FailureAnalysis.AnalyzePortInUse | spring-boot/src/main/java/org/springframework/boot/diagnostics/analyzer/PortInUseFailureAnalyzer.java:15-26 | an analysis exists exactly when some link of the chain is a PortInUseException; it names the port of the first such link |
| RunListeners.FirstFailing | spring-boot/src/main/java/org/springframework/boot/SpringApplicationRunListeners.java:35-39 | the index of the first listener whose callback throws: all before it return normally, the one at it throws |
| RunListeners.CallsUpTo | spring-boot/src/main/java/org/springframework/boot/SpringApplicationRunListeners.java:36-38 | the trace of a loop that reached listener n: listeners 0 to n-1 called in order with the event |
| RunListeners.Reached | spring-boot/src/main/java/org/springframework/boot/SpringApplicationRunListeners.java:35-39 | how many listeners a broadcast calls: all of them, or up to and including the first that throws |
| RunListeners.SwallowedAll | spring-boot/src/main/java/org/springframework/boot/SpringApplicationRunListeners.java:65-85 | a failed run's finished logs at most one entry per listener |
| RunListeners.Listeners.constructor | spring-boot/src/main/java/org/springframework/boot/SpringApplicationRunListeners.java:29-33 | the listeners are kept in the given order; nothing called or logged yet |
| RunListeners.Listeners.Broadcast | spring-boot/src/main/java/org/springframework/boot/SpringApplicationRunListeners.java:35-57 | a broadcast calls listeners in order up to the first that throws and lets that exception escape; without one, all are called and nothing escapes |
| RunListeners.Listeners.Starting | spring-boot/src/main/java/org/springframework/boot/SpringApplicationRunListeners.java:35-39 | starting broadcasts in listener order and stops at the first exception, which escapes |
| RunListeners.Listeners.EnvironmentPrepared | spring-boot/src/main/java/org/springframework/boot/SpringApplicationRunListeners.java:41-45 | environmentPrepared broadcasts in listener order and stops at the first exception, which escapes |
| RunListeners.Listeners.ContextPrepared | spring-boot/src/main/java/org/springframework/boot/SpringApplicationRunListeners.java:47-51 | contextPrepared broadcasts in listener order and stops at the first exception, which escapes |
| RunListeners.Listeners.ContextLoaded | spring-boot/src/main/java/org/springframework/boot/SpringApplicationRunListeners.java:53-57 | contextLoaded broadcasts in listener order and stops at the first exception, which escapes |
| RunListeners.Listeners.Finished | spring-boot/src/main/java/org/springframework/boot/SpringApplicationRunListeners.java:59-85 | with no failure the first throwing finished callback stops the loop and is rethrown as an unchecked exception; with a failure every listener is called, each exception becomes a log line and nothing escapes |
| RunListeners.Listeners.FinishedAfterFailure | spring-boot/src/main/java/org/springframework/boot/SpringApplicationRunListeners.java:65-85 | with a failure to report, every listener is called and each exception becomes an error (debug) or warning log entry |
| RunListeners.SwallowedStep | spring-boot/src/main/java/org/springframework/boot/SpringApplicationRunListeners.java:75-83 | one loop step: a throwing listener adds exactly one log entry, a quiet one none |
| RunListeners.FinishedQuietIff | spring-boot/src/main/java/org/springframework/boot/SpringApplicationRunListeners.java:65-85 | finished with a failure logs nothing exactly when no listener's callback throws |
| FileEncoding.GetOrder | spring-boot/src/main/java/org/springframework/boot/context/FileEncodingApplicationListener.java:43-45 | the listener runs with the lowest precedence, Integer.MAX_VALUE |
| FileEncoding.CheckEncodingSpec | spring-boot/src/main/java/org/springframework/boot/context/FileEncodingApplicationListener.java:52-75 | the check fails exactly when spring.mandatoryFileEncoding is set, file.encoding is set and the two differ ignoring case; the failure is an IllegalStateException whose message names the desired encoding |
| FileEncoding.CaseOnlyDifferencePasses | spring-boot/src/main/java/org/springframework/boot/context/FileEncodingApplicationListener.java:56 | an encoding that differs from the desired one only in letter case is accepted |
| FileEncoding.CheckEncodingExamples | spring-boot/src/main/java/org/springframework/boot/context/FileEncodingApplicationListener.java:56-74 | "utf-8" against "UTF-8" passes; "ISO-8859-1" against "UTF-8" fails |
| ApplicationPids.DropTrailingEmpty | spring-boot/src/main/java/org/springframework/boot/ApplicationPid.java:37 | String.split drops trailing empty strings: the result is a prefix of the pieces and does not end in an empty one |
| ApplicationPids.PidOfPidAtHost | spring-boot/src/main/java/org/springframework/boot/ApplicationPid.java:33-42 | a runtime name of the form pid@host yields pid |
| ApplicationPids.PidOfPlainName | spring-boot/src/main/java/org/springframework/boot/ApplicationPid.java:33-42 | a runtime name without '@' is itself the pid |
| ApplicationPids.PidHasNoAt | spring-boot/src/main/java/org/springframework/boot/ApplicationPid.java:37 | a pid read from the runtime name never contains '@' |
| ApplicationPids.DropKeepsNonEmptyHead | spring-boot/src/main/java/org/springframework/boot/ApplicationPid.java:37 | when the first piece is non-empty, splitting keeps it as element 0 |
| ApplicationPids.DropAllEmpty | spring-boot/src/main/java/org/springframework/boot/ApplicationPid.java:37 | splitting yields an empty array exactly when every piece is empty |
| ApplicationPids.SplitAllAt | spring-boot/src/main/java/org/springframework/boot/ApplicationPid.java:37 | a name made only of '@' splits into empty pieces only |
| ApplicationPids.PidOfAbsent | spring-boot/src/main/java/org/springframework/boot/ApplicationPid.java:33-42 | the pid is null exactly when the runtime name is non-empty and made only of '@', where element 0 does not exist and the exception is caught |
| ApplicationPids.ApplicationPid.FromRuntime | spring-boot/src/main/java/org/springframework/boot/ApplicationPid.java:25-27 | the no-argument constructor takes its pid from the runtime name |
| ApplicationPids.ApplicationPid.constructor | spring-boot/src/main/java/org/springframework/boot/ApplicationPid.java:29-31 | the protected constructor keeps the given pid |
| ApplicationPids.ApplicationPid.Write | spring-boot/src/main/java/org/springframework/boot/ApplicationPid.java:71-81 | writing fails with IllegalStateException "No PID available" exactly when the pid is null; otherwise the text written is the pid |
| ApplicationPids.EqualsContract | spring-boot/src/main/java/org/springframework/boot/ApplicationPid.java:45-58 | equals is reflexive, symmetric and transitive, holds exactly when the pids are null-safe equal, is false for null and for other classes, and equal objects have equal hash codes |
| ApplicationPids.ToStringSpec | spring-boot/src/main/java/org/springframework/boot/ApplicationPid.java:61-63 | toString is the pid when there is one and "???" otherwise |
| BeanRegistrars.SelectImportsSpec | spring-boot/src/main/java/org/springframework/boot/context/properties/EnableConfigurationPropertiesImportSelector.java:39-54 | the binding post-processor registrar is always imported, last; the bean registrar is imported, first, exactly when the annotation lists at least one value |
| BeanRegistrars.ClassesOfMembers | spring-boot/src/main/java/org/springframework/boot/context/properties/EnableConfigurationPropertiesImportSelector.java:102-106 | a type is collected from one attribute array exactly when it is a Class value there (void.class and other values are skipped) |
| BeanRegistrars.ClassesMembers | spring-boot/src/main/java/org/springframework/boot/context/properties/EnableConfigurationPropertiesImportSelector.java:99-109 | a type is collected exactly when it appears as a Class value in some attribute array |
| BeanRegistrars.BeanNameSpec | spring-boot/src/main/java/org/springframework/boot/context/properties/EnableConfigurationPropertiesImportSelector.java:74-77 | the bean name always ends with the type name; it is prefix-typeName when the prefix has text, and the plain type name otherwise, including when the type has no @ConfigurationProperties |
| BeanRegistrars.RegisterAllKeeps | spring-boot/src/main/java/org/springframework/boot/context/properties/EnableConfigurationPropertiesImportSelector.java:72-82 | registration never changes or removes a definition already in the registry |
| BeanRegistrars.RegisterAllAdds | spring-boot/src/main/java/org/springframework/boot/context/properties/EnableConfigurationPropertiesImportSelector.java:72-82 | every new definition is a generic definition of one of the listed types, under that type's bean name |
| BeanRegistrars.RegisterAllOutcome | spring-boot/src/main/java/org/springframework/boot/context/properties/EnableConfigurationPropertiesImportSelector.java:72-82 | without an error every listed type has a definition under its bean name; an error is the missing-annotation failure of a listed type without @ConfigurationProperties, whose definition was registered before the assertion failed |
| BeanRegistrars.RegisterAllAnnotated | spring-boot/src/main/java/org/springframework/boot/context/properties/EnableConfigurationPropertiesImportSelector.java:125-129 | when every listed type carries @ConfigurationProperties, registration raises no error |
| BeanRegistrars.Registry.constructor | spring-boot/src/main/java/org/springframework/boot/context/properties/EnableConfigurationPropertiesImportSelector.java:64-65 | the registry starts with the given definitions |
| BeanRegistrars.Registry.RegisterBeanDefinition | spring-boot/src/main/java/org/springframework/boot/context/properties/EnableConfigurationPropertiesImportSelector.java:122 | registering puts the definition under the name, replacing any earlier one |
| BeanRegistrars.CollectClasses | spring-boot/src/main/java/org/springframework/boot/context/properties/EnableConfigurationPropertiesImportSelector.java:99-109 | the nested loop returns the Class values of all attribute arrays, in order |
| BeanRegistrars.RegisterBeanDefinitions | spring-boot/src/main/java/org/springframework/boot/context/properties/EnableConfigurationPropertiesImportSelector.java:64-83 | a missing value attribute throws NullPointerException and changes nothing; otherwise the registry ends as RegisterAll of the collected types, with its error |
| BeanRegistrars.WithBinderSpec | spring-boot/src/main/java/org/springframework/boot/context/properties/ConfigurationPropertiesBindingPostProcessorRegistrar.java:33-48 | afterwards the binder bean is defined; when it was missing it is added with its reference to the metadata store bean, which is added too; when present nothing changes; no other name is touched |
| BeanRegistrars.WithBinderIdempotent | spring-boot/src/main/java/org/springframework/boot/context/properties/ConfigurationPropertiesBindingPostProcessorRegistrar.java:36 | registering the binding post-processor twice has the effect of doing it once |
| BeanRegistrars.RegisterBindingPostProcessor | spring-boot/src/main/java/org/springframework/boot/context/properties/ConfigurationPropertiesBindingPostProcessorRegistrar.java:33-48 | the registry ends as WithBinder of its old definitions |
| RandomValues.GetRange | spring-boot/src/main/java/org/springframework/boot/context/config/RandomValuePropertySource.java:97-105 | a range is found only when the type starts with the prefix, and it is what lies between the character after the prefix and the last character |
| RandomValues.GetRangeOfBracketed | spring-boot/src/main/java/org/springframework/boot/context/config/RandomValuePropertySource.java:97-105 | for prefix, an opening character, a body and a closing character, the range is the body |
| RandomValues.GetRangeIsBracketed | spring-boot/src/main/java/org/springframework/boot/context/config/RandomValuePropertySource.java:97-105 | any range found is such a body: the type is the prefix, one character, the range and one more character |
| RandomValues.ClassifyKeywords | spring-boot/src/main/java/org/springframework/boot/context/config/RandomValuePropertySource.java:62-95 | random.int, random.long and random.uuid select nextInt, nextLong and a UUID |
| RandomValues.ClassifyPrefix | spring-boot/src/main/java/org/springframework/boot/context/config/RandomValuePropertySource.java:62-65 | the source answers a name exactly when it starts with "random." |
| RandomValues.ClassifyIntRange | spring-boot/src/main/java/org/springframework/boot/context/config/RandomValuePropertySource.java:81-84 | random.int followed by a bracketed body draws from the int range given by the body |
| RandomValues.ClassifyLongRange | spring-boot/src/main/java/org/springframework/boot/context/config/RandomValuePropertySource.java:85-88 | random.long followed by a bracketed body draws from the long range given by the body |
| RandomValues.JavaRem | spring-boot/src/main/java/org/springframework/boot/context/config/RandomValuePropertySource.java:119-123 | Java's % on longs: the magnitude of the remainder is below that of the divisor and is the remainder of the magnitudes |
| RandomValues.NoCommaInNumber | spring-boot/src/main/java/org/springframework/boot/context/config/RandomValuePropertySource.java:108-109 | a number written out has no comma, so it is a single token |
| RandomValues.TwoTokens | spring-boot/src/main/java/org/springframework/boot/context/config/RandomValuePropertySource.java:108 | "a,b" splits into the two numbers |
| RandomValues.OneToken | spring-boot/src/main/java/org/springframework/boot/context/config/RandomValuePropertySource.java:108 | a lone number splits into one token |
| RandomValues.IntRangeBetween | spring-boot/src/main/java/org/springframework/boot/context/config/RandomValuePropertySource.java:107-114 | for int bounds a < b whose distance fits in an int, random.int[a,b] succeeds with a value in [a, b) |
| RandomValues.IntRangeBelow | spring-boot/src/main/java/org/springframework/boot/context/config/RandomValuePropertySource.java:107-112 | for 0 < n, random.int[n] succeeds with a value in [0, n) |
| RandomValues.IntRangeEmpty | spring-boot/src/main/java/org/springframework/boot/context/config/RandomValuePropertySource.java:113 | for b <= a, random.int[a,b] fails because nextInt rejects a bound that is not positive |
| RandomValues.LongRangeBetween | spring-boot/src/main/java/org/springframework/boot/context/config/RandomValuePropertySource.java:116-124 | for long bounds a < b whose distance fits in a long, random.long[a,b] succeeds with a value in [a, b) |
| RandomValues.LongRangeBelow | spring-boot/src/main/java/org/springframework/boot/context/config/RandomValuePropertySource.java:116-120 | for 0 < n, random.long[n] succeeds with a value in [0, n); for n = 0 it fails with an ArithmeticException |
| RandomValues.EmptyRange | spring-boot/src/main/java/org/springframework/boot/context/config/RandomValuePropertySource.java:107-124 | an empty range has no first token: both int and long ranges fail with ArrayIndexOutOfBoundsException |
| RandomValues.WrapByte | spring-boot/src/main/java/org/springframework/boot/context/config/RandomValuePropertySource.java:127-128 | a raw random output becomes a byte in [-128, 127] |
| RandomValues.BytesFrom | spring-boot/src/main/java/org/springframework/boot/context/config/RandomValuePropertySource.java:126-130 | the n bytes drawn from the generator starting at a position, each wrapped to a byte |
| RandomValues.GenerateBounds | spring-boot/src/main/java/org/springframework/boot/context/config/RandomValuePropertySource.java:73-95 | random.int and random.long always give an int and a long in range; a range draw that succeeds draws exactly once; uuid and bytes always give a string |
| RandomValues.Random.constructor | spring-boot/src/main/java/org/springframework/boot/context/config/RandomValuePropertySource.java:57-59 | the generator starts at its first output |
| RandomValues.Random.NextInt | spring-boot/src/main/java/org/springframework/boot/context/config/RandomValuePropertySource.java:75 | nextInt draws one output, wrapped to 32 bits |
| RandomValues.Random.NextIntBelow | spring-boot/src/main/java/org/springframework/boot/context/config/RandomValuePropertySource.java:111-113 | nextInt(bound) rejects a bound that is not positive without drawing; otherwise draws one output and returns a value in [0, bound) |
| RandomValues.Random.NextLong | spring-boot/src/main/java/org/springframework/boot/context/config/RandomValuePropertySource.java:78 | nextLong draws one output, wrapped to 64 bits |
| RandomValues.Random.NextBytes | spring-boot/src/main/java/org/springframework/boot/context/config/RandomValuePropertySource.java:127-128 | nextBytes fills the whole array, one draw per byte |
| RandomValues.RandomValueSource.constructor | spring-boot/src/main/java/org/springframework/boot/context/config/RandomValuePropertySource.java:57-59 | the source keeps its name, generator and digest |
| RandomValues.RandomValueSource.GetProperty | spring-boot/src/main/java/org/springframework/boot/context/config/RandomValuePropertySource.java:62-71 | a name without the prefix gives null and draws nothing; otherwise the value generated for the suffix, or its exception |
| RandomValues.RandomValueSource.GetRandomValue | spring-boot/src/main/java/org/springframework/boot/context/config/RandomValuePropertySource.java:73-95 | the suffix is dispatched in the order int, long, int range, long range, uuid, bytes, and the generator advances by the draws made |
| RandomValues.RandomValueSource.GetNextIntInRange | spring-boot/src/main/java/org/springframework/boot/context/config/RandomValuePropertySource.java:107-114 | the result is the int-range value for the range and the next output; the generator advances only when a draw happens |
| RandomValues.RandomValueSource.GetNextLongInRange | spring-boot/src/main/java/org/springframework/boot/context/config/RandomValuePropertySource.java:116-124 | the result is the long-range value for the range and the next output; the generator advances by the draws made |
| RandomValues.RandomValueSource.GetRandomBytes | spring-boot/src/main/java/org/springframework/boot/context/config/RandomValuePropertySource.java:126-130 | 32 bytes are drawn and the result is their MD5 digest in hex |
| RandomValues.AddToEnvironment | spring-boot/src/main/java/org/springframework/boot/context/config/RandomValuePropertySource.java:135-140 | the random source is added right after systemEnvironment; when the addition fails the call reports it and the sources are those addAfter leaves on failure, with any earlier random source removed |
| RandomValues.AddToEnvironmentPlacement | spring-boot/src/main/java/org/springframework/boot/context/config/RandomValuePropertySource.java:136-138 | on unique names, the addition succeeds exactly when systemEnvironment is present, keeps names unique, and puts the random source directly after it |
| RandomValues.AddToEnvironmentWithoutSystemEnvironment | spring-boot/src/main/java/org/springframework/boot/context/config/RandomValuePropertySource.java:135-140 | without systemEnvironment the call fails with no such source, no random source is left, every other source is kept, and the list is one shorter exactly when it had a random source |
| Environments.SetProfiles | spring-boot/src/main/java/org/springframework/boot/SpringApplication.java:653 | setActiveProfiles fails with IllegalArgumentException exactly when some name has no text or begins with '!'; on success the active profiles are the names without repeats, in first-seen order |
| Environments.ProfilesFromPropertyNonEmpty | spring-boot/src/main/java/org/springframework/boot/context/config/ConfigFileApplicationListener.java:756 | a spring.profiles.active value with text yields at least one profile name |
| Environments.Environment.constructor | spring-boot/src/main/java/org/springframework/boot/SpringApplication.java:567-588 | a new environment holds the given sources, no active profiles and the reserved default profile |
| Environments.Environment.SetActiveProfiles | spring-boot/src/main/java/org/springframework/boot/SpringApplication.java:653 | the active profiles become SetProfiles of the names, or the call fails; sources and defaults are untouched |
| Environments.Environment.GetActiveProfiles | spring-boot/src/main/java/org/springframework/boot/SpringApplication.java:648 | reading the active profiles initialises them from spring.profiles.active when none are set and the property has text; otherwise nothing changes; afterwards the list is non-empty or the property has no text |
| Environments.Environment.GetDefaultProfiles | spring-boot/src/main/java/org/springframework/boot/context/config/ConfigFileApplicationListener.java:454 | reading the default profiles initialises them from spring.profiles.default while they are still the reserved default and the property has text |
| Environments.Environment.AddFirst | spring-boot/src/main/java/org/springframework/boot/SpringApplication.java:630 | addFirst puts the source at the front of the list |
| Environments.Environment.AddLast | spring-boot/src/main/java/org/springframework/boot/SpringApplication.java:612-613 | addLast puts the source at the end of the list |
| Environments.Environment.AddBefore | spring-boot/src/main/java/org/springframework/boot/context/config/ConfigFileApplicationListener.java:825 | addBefore inserts before the named source; a source named after its anchor fails and changes nothing, and a missing anchor fails after a source of the same name has been removed |
| Environments.Environment.AddAfter | spring-boot/src/main/java/org/springframework/boot/context/config/ConfigFileApplicationListener.java:942-947 | addAfter inserts after the named source; a source named after its anchor fails and changes nothing, and a missing anchor fails after a source of the same name has been removed |
| Environments.Environment.Replace | spring-boot/src/main/java/org/springframework/boot/SpringApplication.java:626 | replace swaps the named source or fails and changes nothing |
| Environments.Environment.Remove | spring-boot/src/main/java/org/springframework/boot/context/config/ConfigFileApplicationListener.java:387 | remove takes out the named source and returns it, or returns null |
| PropertySources.LookupFirstIsFirstMatch | spring-boot/src/main/java/org/springframework/boot/context/config/ConfigFileApplicationListener.java:923-931 | a lookup over an ordered list of sources answers exactly when some source does, and it answers with the first source that has the key |
| PropertySources.LookupFirstAppend | spring-boot/src/main/java/org/springframework/boot/context/config/ConfigFileApplicationListener.java:923-931 | sources earlier in the list shadow later ones |
| PropertySources.IndexOfName | spring-boot/src/main/java/org/springframework/boot/context/config/ConfigFileApplicationListener.java:942-947 | the position of the first source with the name, if any |
| PropertySources.Get | spring-boot/src/main/java/org/springframework/boot/context/config/ConfigFileApplicationListener.java:935-936 | get returns a source with the name exactly when one is present |
| PropertySources.RemoveNamed | spring-boot/src/main/java/org/springframework/boot/context/config/ConfigFileApplicationListener.java:950 | removing a present name drops one source, removing an absent one changes nothing |
| PropertySources.RemoveNamedSpec | spring-boot/src/main/java/org/springframework/boot/context/config/ConfigFileApplicationListener.java:950 | after removal the name is absent and names stay unique |
| PropertySources.AddFirstSpec | spring-boot/src/main/java/org/springframework/boot/SpringApplication.java:630 | addFirst keeps names unique, puts the source first and keeps every source with another name |
| PropertySources.AddLastSpec | spring-boot/src/main/java/org/springframework/boot/SpringApplication.java:612-613 | addLast keeps names unique, puts the source last and keeps every source with another name |
| PropertySources.RemoveNamedKeepsOthers | spring-boot/src/main/java/org/springframework/boot/context/config/ConfigFileApplicationListener.java:950 | removal keeps every source with another name |
| PropertySources.AddBeforeSpec | spring-boot/src/main/java/org/springframework/boot/context/config/ConfigFileApplicationListener.java:825 | addBefore succeeds exactly when the relative source is present and is not the source itself, keeps names unique and places the source directly before it |
| PropertySources.AddAfterSpec | spring-boot/src/main/java/org/springframework/boot/context/config/ConfigFileApplicationListener.java:942-947 | addAfter succeeds exactly when the relative source is present and is not the source itself, keeps names unique and places the source directly after it |
| PropertySources.FailedRelativeAddSpec | spring-boot/src/main/java/org/springframework/boot/context/config/ConfigFileApplicationListener.java:942-947 | addBefore and addAfter fail on the same inputs: a source named after its anchor fails as an illegal relative addition and leaves the list; otherwise a failure means the anchor is missing, and the list left behind keeps names unique, holds no source of the added name, and keeps every other source |
| PropertySources.ReplaceSpec | spring-boot/src/main/java/org/springframework/boot/SpringApplication.java:626 | replace succeeds exactly when the name is present, keeps the length and holds the new source |
| PropertySources.RemoveSpec | spring-boot/src/main/java/org/springframework/boot/context/config/ConfigFileApplicationListener.java:387 | remove returns a source exactly when the name is present, returns the one with that name, and leaves the name absent and names unique |
| PropertySources.RelativeSurvivesRemoval | spring-boot/src/main/java/org/springframework/boot/context/config/ConfigFileApplicationListener.java:942-950 | removing one name does not change whether another is present |
| ConfigFile.Somes | spring-boot/src/main/java/org/springframework/boot/context/config/ConfigFileApplicationListener.java:728-729 | the profiles as queue entries, one present entry per profile, in order |
| ConfigFile.PushAllReverses | spring-boot/src/main/java/org/springframework/boot/context/config/ConfigFileApplicationListener.java:452 | adding a list to the LIFO queue one by one leaves the list reversed in front of the old queue |
| ConfigFile.ReverseSomesStep | spring-boot/src/main/java/org/springframework/boot/context/config/ConfigFileApplicationListener.java:728-729 | pushing the first profile last: reversal peels the head off to the end |
| ConfigFile.PushAllNoNull | spring-boot/src/main/java/org/springframework/boot/context/config/ConfigFileApplicationListener.java:728-729 | pushing profiles never adds the null sentinel |
| ConfigFile.RemoveDefaults | spring-boot/src/main/java/org/springframework/boot/context/config/ConfigFileApplicationListener.java:715-722 | removing default profiles from the queue never lengthens it |
| ConfigFile.RemoveDefaultsSpec | spring-boot/src/main/java/org/springframework/boot/context/config/ConfigFileApplicationListener.java:715-722 | on a queue without the null entry the iteration completes and keeps exactly the non-default profiles |
| ConfigFile.RemoveDefaultsAtSentinel | spring-boot/src/main/java/org/springframework/boot/context/config/ConfigFileApplicationListener.java:718 | a queue that still holds the null sentinel makes the iteration throw NullPointerException |
| ConfigFile.RemoveDefaultsKeepsActive | spring-boot/src/main/java/org/springframework/boot/context/config/ConfigFileApplicationListener.java:715-722 | a queue of present non-default profiles loses nothing and nothing is reported removed |
| ConfigFile.DefaultProfiles | spring-boot/src/main/java/org/springframework/boot/context/config/ConfigFileApplicationListener.java:456 | each default name becomes a profile marked as default |
| ConfigFile.SeedDefaultsSpec | spring-boot/src/main/java/org/springframework/boot/context/config/ConfigFileApplicationListener.java:453-461 | seeding an empty queue with the default names leaves them, without repeats, in reverse order |
| ConfigFile.SeededContains | spring-boot/src/main/java/org/springframework/boot/context/config/ConfigFileApplicationListener.java:457 | the seeded queue contains a default profile exactly when its name was seeded |
| ConfigFile.SeededPush | spring-boot/src/main/java/org/springframework/boot/context/config/ConfigFileApplicationListener.java:458 | pushing one more default name puts it in front of the seeded ones |
| ConfigFile.NotIn | spring-boot/src/main/java/org/springframework/boot/context/config/ConfigFileApplicationListener.java:525-533 | the names collected as unprocessed profiles are never default profiles |
| ConfigFile.UnprocessedActiveSpec | spring-boot/src/main/java/org/springframework/boot/context/config/ConfigFileApplicationListener.java:525-538 | a profile is returned exactly when its name is active, it is not a default profile, and no initially active profile has its name |
| ConfigFile.NotInSpec | spring-boot/src/main/java/org/springframework/boot/context/config/ConfigFileApplicationListener.java:528-533 | the loop keeps exactly the active names that no initially active profile has |
| ConfigFile.AsResolvedSetSpec | spring-boot/src/main/java/org/springframework/boot/context/config/ConfigFileApplicationListener.java:793-801 | the resolved set has no repeats, holds exactly the trimmed comma-separated pieces of the value (or of the fallback when the value is null), and starts with the last piece |
| ConfigFile.AsProfileSet | spring-boot/src/main/java/org/springframework/boot/context/config/ConfigFileApplicationListener.java:1001-1009 | the profile set has no repeats and holds only non-default profiles |
| ConfigFile.AsProfileSetNames | spring-boot/src/main/java/org/springframework/boot/context/config/ConfigFileApplicationListener.java:1001-1009 | a name is listed exactly when its profile is in the set, and no two profiles in it share a name |
| ConfigFile.InitialProfilesSpec | spring-boot/src/main/java/org/springframework/boot/context/config/ConfigFileApplicationListener.java:495-511 | the initial set has no repeats and only non-default profiles; when either property is present it holds a profile for exactly the names bound from spring.profiles.active or spring.profiles.include |
| ConfigFile.InitialQueue | spring-boot/src/main/java/org/springframework/boot/context/config/ConfigFileApplicationListener.java:697-722 | activating the initial non-default profiles on the empty queue keeps every one of them: removing default profiles takes nothing away |
| ConfigFile.ReplaceChar | spring-boot/src/main/java/org/springframework/boot/context/config/ConfigFileApplicationListener.java:771 | replacing one character by another everywhere, as cleanPath does for backslashes |
| ConfigFile.Repeat | spring-boot/src/main/java/org/springframework/boot/context/config/ConfigFileApplicationListener.java:771 | a run of n copies of a path element, as cleanPath keeps for leading ".." |
| ConfigFile.LowerAscii | spring-boot/src/main/java/org/springframework/boot/context/config/ConfigFileApplicationListener.java:772 | lower-casing a protocol keeps its length |
| ConfigFile.ConfiguredLocations | spring-boot/src/main/java/org/springframework/boot/context/config/ConfigFileApplicationListener.java:768-777 | every configured location is cleaned and turned into a URL |
| ConfigFile.SearchLocationsSpec | spring-boot/src/main/java/org/springframework/boot/context/config/ConfigFileApplicationListener.java:764-783 | the locations have no repeats, start with the spring.config.location entries in their resolved order, and hold exactly those plus the listener's or the default search locations |
| ConfigFile.ConfiguredLocationIsUrl | spring-boot/src/main/java/org/springframework/boot/context/config/ConfigFileApplicationListener.java:770-775 | a configured path without '$' ends up as a URL, prefixed with file: and cleaned when it was not one |
| ConfigFile.DefaultLocationSplit | spring-boot/src/main/java/org/springframework/boot/context/config/ConfigFileApplicationListener.java:780-781 | the default search locations split into classpath:/, classpath:/config/, file:./ and file:./config/ |
| ConfigFile.DefaultLocationPieces | spring-boot/src/main/java/org/springframework/boot/context/config/ConfigFileApplicationListener.java:793-797 | trimming leaves the four default locations as they are |
| ConfigFile.DefaultLocationsDistinct | spring-boot/src/main/java/org/springframework/boot/context/config/ConfigFileApplicationListener.java:798-800 | the four default locations are distinct, so the set keeps all of them |
| ConfigFile.DefaultSearchLocations | spring-boot/src/main/java/org/springframework/boot/context/config/ConfigFileApplicationListener.java:764-783 | with nothing configured the search order is file:./config/, file:./, classpath:/config/, classpath:/ |
| ConfigFile.SearchNamesSpec | spring-boot/src/main/java/org/springframework/boot/context/config/ConfigFileApplicationListener.java:785-791 | spring.config.name, when present, decides the names alone, so the configured names play no part; the names have no repeats, are exactly the trimmed pieces of that property, of the configured names or of "application", and start with the last piece |
| ConfigFile.ProcessedCandidates | spring-boot/src/main/java/org/springframework/boot/context/config/ConfigFileApplicationListener.java:559-564 | one candidate per processed profile, each loaded with the current profile |
| ConfigFile.ProcessedCandidatesCount | spring-boot/src/main/java/org/springframework/boot/context/config/ConfigFileApplicationListener.java:559-564 | the loop yields one candidate for each non-null processed profile |
| ConfigFile.ExtensionCandidatesSpec | spring-boot/src/main/java/org/springframework/boot/context/config/ConfigFileApplicationListener.java:553-573 | for one extension: without a profile one file name-ext; with a profile, name-profile.ext without a profile first, then one file per processed profile, then name-profile.ext with the profile, then name.ext with the profile |
| ConfigFile.LocationCandidatesUnder | spring-boot/src/main/java/org/springframework/boot/context/config/ConfigFileApplicationListener.java:470-483 | every candidate file of a search location lies under that location |
| ConfigFile.NamesCandidatesUnder | spring-boot/src/main/java/org/springframework/boot/context/config/ConfigFileApplicationListener.java:479-482 | every candidate file for a list of names lies under the location |
| ConfigFile.AllExtensionsUnder | spring-boot/src/main/java/org/springframework/boot/context/config/ConfigFileApplicationListener.java:553-573 | every candidate over all extensions starts with location and name |
| ConfigFile.ExtensionUnder | spring-boot/src/main/java/org/springframework/boot/context/config/ConfigFileApplicationListener.java:553-573 | every candidate for one extension starts with location and name |
| ConfigFile.ProcessedUnder | spring-boot/src/main/java/org/springframework/boot/context/config/ConfigFileApplicationListener.java:559-564 | every candidate for a processed profile starts with location and name |
| ConfigFile.LoadFile | spring-boot/src/main/java/org/springframework/boot/context/config/ConfigFileApplicationListener.java:596-611 | a loaded source is named applicationConfig: [location] (with the profile for profile documents); .properties and .xml files yield nothing for a profile |
| ConfigFile.AddToGroupSpec | spring-boot/src/main/java/org/springframework/boot/context/config/ConfigFileApplicationListener.java:606-608 | adding a loaded source to its group keeps groups well formed and makes the group present: an existing group keeps the group count, a new group goes first |
| ConfigFile.AddToExistingGroup | spring-boot/src/main/java/org/springframework/boot/context/config/ConfigFileApplicationListener.java:606-608 | adding to a present group keeps groups well formed and their number unchanged |
| ConfigFile.AddToNewGroup | spring-boot/src/main/java/org/springframework/boot/context/config/ConfigFileApplicationListener.java:606-608 | a new group holding just the source is added in front |
| ConfigFile.AddToGroupKeeps | spring-boot/src/main/java/org/springframework/boot/context/config/ConfigFileApplicationListener.java:606-608 | adding a source to a group never takes a member out of any group |
| ConfigFile.AddToGroupHolds | spring-boot/src/main/java/org/springframework/boot/context/config/ConfigFileApplicationListener.java:606-608 | the source just added is then a member of its group by name |
| ConfigFile.LoadedGroupsWellFormed | spring-boot/src/main/java/org/springframework/boot/context/config/ConfigFileApplicationListener.java:553-573 | the groups stay well formed whatever the candidates load |
| ConfigFile.LoadedGroupsHold | spring-boot/src/main/java/org/springframework/boot/context/config/ConfigFileApplicationListener.java:596-616 | every candidate whose resource exists and whose file yields a source leaves a member of that name in the pass's group, whatever the later candidates load |
| ConfigFile.LoadedGroupsAbsent | spring-boot/src/main/java/org/springframework/boot/context/config/ConfigFileApplicationListener.java:602-620 | candidates whose resources do not exist leave the groups as they are |
| ConfigFile.LoadedGroupsStep | spring-boot/src/main/java/org/springframework/boot/context/config/ConfigFileApplicationListener.java:553-573 | loading one candidate more loads it into the groups the earlier candidates left |
| ConfigFile.PassesStep | spring-boot/src/main/java/org/springframework/boot/context/config/ConfigFileApplicationListener.java:468-486 | one more pass appends its candidates to the files tried by the earlier passes and loads them into the groups those passes left |
| ConfigFile.ConfigurationGetProperty | spring-boot/src/main/java/org/springframework/boot/context/config/ConfigFileApplicationListener.java:923-931 | the loaded layers answer a key exactly when some layer does, with the first layer that has it |
| ConfigFile.AddConfigurationPropertiesSpec | spring-boot/src/main/java/org/springframework/boot/context/config/ConfigFileApplicationListener.java:806-831 | adding the layers always succeeds, keeps names unique, and places them directly before defaultProperties when present, else last |
| ConfigFile.FinishAndRelocateAbsent | spring-boot/src/main/java/org/springframework/boot/context/config/ConfigFileApplicationListener.java:933-937 | without the layers source, finishAndRelocate changes nothing |
| ConfigFile.RelocationsOfGroups | spring-boot/src/main/java/org/springframework/boot/context/config/ConfigFileApplicationListener.java:938-944 | for groups, each nested source is added after the previous one, so they keep their order |
| ConfigFile.IndexOfUniqueName | spring-boot/src/main/java/org/springframework/boot/context/config/ConfigFileApplicationListener.java:942 | with unique names, a source is found at its own position |
| ConfigFile.Advancing | spring-boot/src/main/java/org/springframework/boot/context/config/ConfigFileApplicationListener.java:941-944 | the relocation steps of nested sources, each one moving the anchor to itself |
| ConfigFile.AddAfterFresh | spring-boot/src/main/java/org/springframework/boot/context/config/ConfigFileApplicationListener.java:942 | adding a fresh source after an anchor puts it directly behind the anchor and keeps names unique |
| ConfigFile.ApplyAdvancing | spring-boot/src/main/java/org/springframework/boot/context/config/ConfigFileApplicationListener.java:940-944 | adding nested sources one after the other places them, in order, directly after the anchor |
| ConfigFile.ApplyStep | spring-boot/src/main/java/org/springframework/boot/context/config/ConfigFileApplicationListener.java:938-948 | one loop step: the source is added after the current anchor, and the anchor moves to it only for a group member |
| ConfigFile.FinishAndRelocateGroups | spring-boot/src/main/java/org/springframework/boot/context/config/ConfigFileApplicationListener.java:933-952 | when the layers hold only groups, finishAndRelocate replaces the layers source by all nested sources in their order, the rest of the list unchanged |
| ConfigFile.FinishUnfold | spring-boot/src/main/java/org/springframework/boot/context/config/ConfigFileApplicationListener.java:933-952 | finishAndRelocate is the relocation loop followed by removal of the layers source |
| ConfigFile.GetLayers | spring-boot/src/main/java/org/springframework/boot/context/config/ConfigFileApplicationListener.java:935-936 | with unique names the layers source is found by its name |
| ConfigFile.ApplyGroups | spring-boot/src/main/java/org/springframework/boot/context/config/ConfigFileApplicationListener.java:938-949 | relocating groups puts all nested sources directly after the layers source, in order |
| ConfigFile.RemoveLayers | spring-boot/src/main/java/org/springframework/boot/context/config/ConfigFileApplicationListener.java:950 | removing the layers source after relocation leaves the nested sources where the layers were |
| ConfigFile.FreshForLayers | spring-boot/src/main/java/org/springframework/boot/context/config/ConfigFileApplicationListener.java:942 | names fresh before and after the layers stay fresh around them |
| ConfigFile.PlacedUnique | spring-boot/src/main/java/org/springframework/boot/context/config/ConfigFileApplicationListener.java:938-949 | after relocation all names are still unique |
| ConfigFile.RemoveUnique | spring-boot/src/main/java/org/springframework/boot/context/config/ConfigFileApplicationListener.java:950 | with unique names, removing a source by name deletes exactly its position |
| ConfigFile.FinishAndRelocatePlainReversed | spring-boot/src/main/java/org/springframework/boot/context/config/ConfigFileApplicationListener.java:946-948 | plain (non-group) members are all added right after the fixed anchor, so two of them come out in reverse order |
| ConfigFile.ApplyPlainPair | spring-boot/src/main/java/org/springframework/boot/context/config/ConfigFileApplicationListener.java:946-948 | the two steps of that example, one after the other |
| ConfigFile.ReorderSourcesSpec | spring-boot/src/main/java/org/springframework/boot/context/config/ConfigFileApplicationListener.java:381-391 | after relocation, defaultProperties is present exactly when it was, and is then the last source; without it nothing further changes |
| ConfigLoader.Loader.constructor | spring-boot/src/main/java/org/springframework/boot/context/config/ConfigFileApplicationListener.java:430-444 | a new loader has an empty queue, nothing processed, profiles not activated and no loaded groups |
| ConfigLoader.Loader.EnvironmentHasActiveProfile | spring-boot/src/main/java/org/springframework/boot/context/config/ConfigFileApplicationListener.java:743-750 | the answer is whether the name is among the active profiles; reading them may initialise them but keeps every name already there |
| ConfigLoader.Loader.PrependProfile | spring-boot/src/main/java/org/springframework/boot/context/config/ConfigFileApplicationListener.java:752-762 | on success the profile's name is the first active profile and every earlier active profile is kept, without repeats |
| ConfigLoader.Loader.AddProfiles | spring-boot/src/main/java/org/springframework/boot/context/config/ConfigFileApplicationListener.java:727-738 | each profile is pushed on the queue, and one missing from the active profiles is prepended there; on an error only the profiles before it were pushed |
| ConfigLoader.Loader.MaybeActivateProfiles | spring-boot/src/main/java/org/springframework/boot/context/config/ConfigFileApplicationListener.java:697-713 | once activated, or for an empty set, nothing changes; otherwise the profiles are added, the flag is set and unprocessed default profiles leave the queue |
| ConfigLoader.Loader.RemoveUnprocessedDefaultProfiles | spring-boot/src/main/java/org/springframework/boot/context/config/ConfigFileApplicationListener.java:715-722 | the queue loses its default profiles; a null entry in it makes the iteration throw NullPointerException |
| ConfigLoader.Loader.HandleProfileProperties | spring-boot/src/main/java/org/springframework/boot/context/config/ConfigFileApplicationListener.java:653-658 | binding a loaded file's spring.profiles keeps the queue free of nulls, the active list without repeats, and activation once set |
| ConfigLoader.Loader.LoadIntoGroup | spring-boot/src/main/java/org/springframework/boot/context/config/ConfigFileApplicationListener.java:580-637 | a missing resource is skipped; a loaded source goes into its group; any failure is wrapped as "Failed to load property source from location" with the cause |
| ConfigLoader.Loader.LoadCandidate | spring-boot/src/main/java/org/springframework/boot/context/config/ConfigFileApplicationListener.java:549-572 | one candidate is appended to the tried files, the groups become those with that candidate loaded, and a failure is loadIntoGroup's error for its location |
| ConfigLoader.Loader.LoadCandidates | spring-boot/src/main/java/org/springframework/boot/context/config/ConfigFileApplicationListener.java:553-573 | the candidates are tried in order until the first failure: the tried files grow by a prefix of the candidates, all of them on success; a failure names the last file tried; the groups are those with exactly the tried candidates loaded in order |
| ConfigLoader.Loader.LoadPass | spring-boot/src/main/java/org/springframework/boot/context/config/ConfigFileApplicationListener.java:470-484 | one pass tries a prefix of its candidates for the profile, the locations, the names and the profiles processed before it, all of them when it succeeds; a failure names the last file tried; the groups are those with the tried candidates loaded |
| ConfigLoader.Loader.InitializeActiveProfiles | spring-boot/src/main/java/org/springframework/boot/context/config/ConfigFileApplicationListener.java:495-511 | the set returned is InitialProfiles of the sources; the loader ends activated exactly when it was already or the set is not empty; activating pushes the set on the queue, drops the unprocessed default profiles and makes every name active; otherwise queue and active profiles are unchanged |
| ConfigLoader.Loader.GetUnprocessedActiveProfiles | spring-boot/src/main/java/org/springframework/boot/context/config/ConfigFileApplicationListener.java:525-538 | the result lists the active profiles that were not initially active, in reverse |
| ConfigLoader.Loader.SeedDefaultProfiles | spring-boot/src/main/java/org/springframework/boot/context/config/ConfigFileApplicationListener.java:453-461 | on success the queue is seeded with the default profiles |
| ConfigLoader.Loader.Load | spring-boot/src/main/java/org/springframework/boot/context/config/ConfigFileApplicationListener.java:439-490 | unless a pass fails, every profile after the first processed one is present, the files tried are those of one pass per processed profile with the locations and names read at the start, and the groups are those passes' loads; on completion the queue is empty, the null profile went first and the environment's sources gain the loaded layers; otherwise the sources are unchanged |
| ConfigLoader.Loader.InitializeQueue | spring-boot/src/main/java/org/springframework/boot/context/config/ConfigFileApplicationListener.java:443-466 | the state is fresh; on success the queue is the null profile on top of the initial profiles and the unprocessed active ones pushed in turn, or of the default profiles when those are none, and the loader is activated exactly when the initial set is not empty |
| ConfigLoader.Loader.ProcessQueue | spring-boot/src/main/java/org/springframework/boot/context/config/ConfigFileApplicationListener.java:468-486 | the poll loop ends with an empty queue and the null profile processed first, or stops after fuel passes; the tried files and groups are those of one pass per processed profile; after a failing pass, the earlier passes are complete and the failing one tried a prefix of its candidates |
| ConfigLoader.Loader.PollAndLoad | spring-boot/src/main/java/org/springframework/boot/context/config/ConfigFileApplicationListener.java:469-485 | one turn polls the head and runs its pass: on success the profile joins the processed ones and the tried files and groups extend by its pass; on failure the processed list is unchanged and the pass's tried prefix is what was loaded |
| ConfigLoader.Loader.AddLoadedProperties | spring-boot/src/main/java/org/springframework/boot/context/config/ConfigFileApplicationListener.java:806-833 | the groups, as one layer, go directly before defaultProperties when present and last otherwise, which always succeeds |
| ConfigLoader.PrependedSpec | spring-boot/src/main/java/org/springframework/boot/context/config/ConfigFileApplicationListener.java:759-760 | the prepended name comes first and every earlier active name is kept |
| ConfigLoader.PushAllStep | spring-boot/src/main/java/org/springframework/boot/context/config/ConfigFileApplicationListener.java:728-729 | one more pushed profile lands in front of the queue |
| ConfigLoader.PushAllPrefixNoNull | spring-boot/src/main/java/org/springframework/boot/context/config/ConfigFileApplicationListener.java:728-729 | no prefix of the pushes adds a null entry |
| ConfigLoader.SeedDefaultsNoNull | spring-boot/src/main/java/org/springframework/boot/context/config/ConfigFileApplicationListener.java:453-461 | seeding defaults never adds a null entry |
| ConfigLoader.FinishAndRelocateSources | spring-boot/src/main/java/org/springframework/boot/context/config/ConfigFileApplicationListener.java:933-952 | the environment's sources become FinishAndRelocate of the old ones, or the call fails with its error |
| ConfigLoader.ReorderEnvironmentSources | spring-boot/src/main/java/org/springframework/boot/context/config/ConfigFileApplicationListener.java:381-391 | the environment's sources become ReorderSources of the old ones, or the call fails |
| Applications.IsMainThread | spring-boot/src/main/java/org/springframework/boot/SpringApplication.java:1120-1125 | a thread outside the group "main" is never the main thread; in that group exactly the threads named "main" and "restartedMain" are |
| Applications.AllPresent | spring-boot/src/main/java/org/springframework/boot/SpringApplication.java:1485-1488 | the context's generator beans as a list without null elements |
| Applications.PrefixOfAllPresent | spring-boot/src/main/java/org/springframework/boot/SpringApplication.java:1488 | adding a list of beans with no nulls adds all of them |
| Applications.AsThrown | spring-boot/src/main/java/org/springframework/boot/SpringApplication.java:410-412 | an error, when there is one and it is not null, as what run's catch block receives |
| Applications.GeneratorExceptionCodeSpec | spring-boot/src/main/java/org/springframework/boot/SpringApplication.java:1094-1104 | the code is 0 when no link of the cause chain is an ExitCodeGenerator, and otherwise the code of the first such link |
| Applications.FailureExitCodeSpec | spring-boot/src/main/java/org/springframework/boot/SpringApplication.java:1063-1089 | without an active context, or when every mapper returns 0, the code comes from the exception's cause chain; when some mapper returns a non-zero value, the mapped code is used and is non-zero |
| Applications.MappedExitCode | spring-boot/src/main/java/org/springframework/boot/SpringApplication.java:1077-1089 | 0 without an active context; otherwise the ExitCodeGenerators fold over one mapped generator per mapper bean |
| Applications.ExitCodeFromException | spring-boot/src/main/java/org/springframework/boot/SpringApplication.java:1063-1072 | the mapped code, falling back to the cause chain's generator code when it is 0 |
| Applications.Exit | spring-boot/src/main/java/org/springframework/boot/SpringApplication.java:1477-1519 | a null context fails; otherwise the given generators then the beans are folded, a non-zero code is published, the context is closed, and an Exception while doing so turns code 0 into 1 while an Error escapes |
| Applications.NamedAfterAddLast | spring-boot/src/main/java/org/springframework/boot/SpringApplication.java:612-613 | adding defaultProperties last does not change whether another name is present |
| Applications.ConfiguredSourcesSpec | spring-boot/src/main/java/org/springframework/boot/SpringApplication.java:606-633 | names stay unique; non-empty default properties end up last; without arguments or when disabled nothing else changes; otherwise the command line source is added first, or merged in front of an existing one at its place |
| Applications.ConfiguredProfilesSpec | spring-boot/src/main/java/org/springframework/boot/SpringApplication.java:646-654 | the profiles are set without error exactly when reading the active ones succeeds and all names are valid; then they hold no repeats, start with the additional profiles, and are exactly the additional plus the active ones |
| Applications.ValidDedup | spring-boot/src/main/java/org/springframework/boot/SpringApplication.java:651-653 | removing repeats does not change whether all names are valid |
| Applications.BroadcastError | spring-boot/src/main/java/org/springframework/boot/SpringApplication.java:379-401 | a broadcast raises nothing exactly when no listener throws, and then all listeners are called |
| Applications.PrepareSteps | spring-boot/src/main/java/org/springframework/boot/SpringApplication.java:440-476 | prepareContext has four steps that can throw: the initializers, contextPrepared, loading the sources and contextLoaded |
| Applications.CreateSteps | spring-boot/src/main/java/org/springframework/boot/SpringApplication.java:390-392 | creating the context and the failure analyzers are the two steps before prepareContext |
| Applications.RefreshSteps | spring-boot/src/main/java/org/springframework/boot/SpringApplication.java:397-401 | refresh, afterRefresh with the runners, and finished are the last three steps |
| Applications.ContextSteps | spring-boot/src/main/java/org/springframework/boot/SpringApplication.java:390-401 | the steps from creating the context to finished |
| Applications.ContextStepsFailure | spring-boot/src/main/java/org/springframework/boot/SpringApplication.java:390-401 | the first failing step among them is found in creation, then in prepareContext, then in refresh, in that order |
| Applications.ContextStepsCases | spring-boot/src/main/java/org/springframework/boot/SpringApplication.java:390-401 | a failed creation stops at step 0, failed analyzers at step 1, and otherwise the first failure of prepareContext or, after it, of refresh is the one raised |
| Applications.EnvironmentSteps | spring-boot/src/main/java/org/springframework/boot/SpringApplication.java:385-386 | prepareEnvironment has two steps that can throw: setting the profiles and environmentPrepared |
| Applications.TrySteps | spring-boot/src/main/java/org/springframework/boot/SpringApplication.java:380-401 | the eleven steps of run's try block, in order |
| Applications.TryStepsFailure | spring-boot/src/main/java/org/springframework/boot/SpringApplication.java:380-401 | the try block fails at the first failing step of prepareEnvironment, or, after it, at the first failing step from context creation on |
| Applications.FirstFailure | spring-boot/src/main/java/org/springframework/boot/SpringApplication.java:380-409 | the first step that throws: all before it completed, the one at it threw |
| Applications.FirstFailureAt | spring-boot/src/main/java/org/springframework/boot/SpringApplication.java:380-409 | a step that is the first to throw is the one FirstFailure finds |
| Applications.TryCallsAfterEnvironment | spring-boot/src/main/java/org/springframework/boot/SpringApplication.java:385-401 | the listener calls of the whole try block are those of prepareEnvironment followed by those from context creation on |
| Applications.FirstFailureAppend | spring-boot/src/main/java/org/springframework/boot/SpringApplication.java:380-409 | a failure in the earlier steps hides the later ones; otherwise the later ones' first failure counts after them |
| Applications.FailureThrown | spring-boot/src/main/java/org/springframework/boot/SpringApplication.java:999 | when handling the failure raised nothing else, what run throws is unchecked, and an unchecked failure is rethrown as it is |
| Applications.FinishedHeardTwice | spring-boot/src/main/java/org/springframework/boot/SpringApplication.java:401-412 | when a finished callback throws on success, the same listener is called with finished again by handleRunFailure, so it hears finished twice |
| Applications.Application.constructor | spring-boot/src/main/java/org/springframework/boot/SpringApplication.java:367-377 | the application keeps its settings; nothing published or logged yet |
| Applications.Application.FailureEventsInOrder | spring-boot/src/main/java/org/springframework/boot/SpringApplication.java:976-1000 | handleRunFailure's events are those of its inner try block followed by those of its finally block |
| Applications.Application.ConfigurePropertySources | spring-boot/src/main/java/org/springframework/boot/SpringApplication.java:606-633 | the sources become EnvironmentSources of the old ones: default properties last and the command line first or merged |
| Applications.Application.ConfigureProfiles | spring-boot/src/main/java/org/springframework/boot/SpringApplication.java:646-654 | the active profiles become the additional profiles followed by those already active, without repeats, or the call fails with the environment's error |
| Applications.Application.RegisterLoggedException | spring-boot/src/main/java/org/springframework/boot/SpringApplication.java:1031-1038 | the exception is registered with the handler only on the main thread |
| Applications.Application.HandleExitCode | spring-boot/src/main/java/org/springframework/boot/SpringApplication.java:1043-1058 | a non-zero code is published when there is a context and registered with the handler on the main thread; an exception thrown by the failure's own getExitCode escapes and nothing is published |
| Applications.Application.ReportFailure | spring-boot/src/main/java/org/springframework/boot/SpringApplication.java:1005-1022 | a failure the analyzers report is registered; otherwise it is logged and registered when the error level is enabled |
| Applications.Application.HandleRunFailure | spring-boot/src/main/java/org/springframework/boot/SpringApplication.java:976-1000 | exit code handling, finished (only when the code was found), the report and the context close happen in order, and the failure is rethrown as unchecked; an Exception escaping the inner block is logged and swallowed |
| Applications.Application.NotifyFailure | spring-boot/src/main/java/org/springframework/boot/SpringApplication.java:980-985 | the inner try block: the exit code is handled, then finished is called with the failure unless that raised |
| Applications.Application.ReportAndClose | spring-boot/src/main/java/org/springframework/boot/SpringApplication.java:986-993 | the finally block: the failure is reported and the context closed, and a close error replaces the pending one |
| Applications.Application.ConfigureEnvironment | spring-boot/src/main/java/org/springframework/boot/SpringApplication.java:590-596 | the sources are configured first, then the profiles |
| Applications.Application.PrepareEnvironment | spring-boot/src/main/java/org/springframework/boot/SpringApplication.java:423-438 | the environment is configured, then environmentPrepared is broadcast unless the profiles failed; the first error is returned and the listener trace matches |
| Applications.Application.PrepareContext | spring-boot/src/main/java/org/springframework/boot/SpringApplication.java:440-476 | prepareContext raises the first error of its steps, and contextPrepared and contextLoaded are broadcast only when reached |
| Applications.Application.RunSteps | spring-boot/src/main/java/org/springframework/boot/SpringApplication.java:380-401 | the try block raises its first failing step; the context and analyzers exist exactly as far as the steps got, and the listener trace is that of the steps reached |
| Applications.Application.ContinueRun | spring-boot/src/main/java/org/springframework/boot/SpringApplication.java:390-401 | after a clean prepareEnvironment the rest of the try block gives the same first failure, context, analyzers and trace as the whole block |
| Applications.Application.CreateAndRefresh | spring-boot/src/main/java/org/springframework/boot/SpringApplication.java:390-401 | from context creation to finished, the first failing step is raised, and the context and analyzers are those created before it |
| Applications.Application.RefreshAndFinish | spring-boot/src/main/java/org/springframework/boot/SpringApplication.java:397-401 | refresh, afterRefresh and finished run in order until one throws; the context is active once refresh succeeded; finished is broadcast only when reached |
| Applications.Application.Run | spring-boot/src/main/java/org/springframework/boot/SpringApplication.java:367-416 | a starting failure escapes before anything else; otherwise the environment is configured, and run returns the active context exactly when no step fails; else it throws the rethrown failure after handleRunFailure's exit code, finished, report and close |
| Throwables.Rethrown | spring-boot/src/main/java/org/springframework/boot/SpringApplication.java:999 | rethrowRuntimeException rethrows an unchecked exception as it is and wraps a checked one in an UndeclaredThrowableException whose cause it is |
| Text.CommaDelimitedList | spring-boot/src/main/java/org/springframework/boot/context/config/ConfigFileApplicationListener.java:795 | commaDelimitedListToStringArray: null or empty gives no tokens; otherwise the tokens joined by commas give back the text, and no token holds a comma |
| Text.JoinSplit | spring-boot/src/main/java/org/springframework/boot/context/config/ConfigFileApplicationListener.java:795 | splitting at a delimiter and joining with it gives back the text |
| Text.SplitJoin | spring-boot/src/main/java/org/springframework/boot/context/config/RandomValuePropertySource.java:108 | joining comma-free pieces and splitting again gives back the pieces |
| Text.Trim | spring-boot/src/main/java/org/springframework/boot/context/config/ConfigFileApplicationListener.java:794 | String.trim: no longer than the input, and starts and ends with a character above the space when not empty |
| Text.TrimSpec | spring-boot/src/main/java/org/springframework/boot/context/config/ConfigFileApplicationListener.java:794 | the trimmed text is the middle of the input between a leading and a trailing run of characters at or below the space, the leading run being the one the input starts with |
| Text.TrimIdempotent | spring-boot/src/main/java/org/springframework/boot/context/config/ConfigFileApplicationListener.java:794 | trimming twice is trimming once |
| Text.TrimAll | spring-boot/src/main/java/org/springframework/boot/context/config/ConfigFileApplicationListener.java:794 | trimArrayElements trims each element, keeping the count and order |
| Text.TrimAllWhitespace | spring-boot/src/main/java/org/springframework/boot/SpringApplication.java:648 | removing all whitespace leaves none, leaves text without whitespace unchanged, and of one character keeps it exactly when it is not whitespace |
| Text.TrimAllWhitespaceAppend | spring-boot/src/main/java/org/springframework/boot/SpringApplication.java:648 | removing whitespace from two joined texts joins their results: the non-whitespace characters are kept in order |
| Text.Dedup | spring-boot/src/main/java/org/springframework/boot/context/config/ConfigFileApplicationListener.java:800 | a LinkedHashSet built from a list: no repeats, the same elements, first occurrence order |
| Text.DedupMembers | spring-boot/src/main/java/org/springframework/boot/context/config/ConfigFileApplicationListener.java:800 | the set holds exactly the list's elements |
| Text.ReverseDedupHead | spring-boot/src/main/java/org/springframework/boot/context/config/ConfigFileApplicationListener.java:798-800 | the set of the reversed list starts with the list's last element |
| Text.ParseInteger | spring-boot/src/main/java/org/springframework/boot/context/config/RandomValuePropertySource.java:109 | Integer.parseInt and Long.parseLong accept only values within the type's range |
| Text.ParseIntToString | spring-boot/src/main/java/org/springframework/boot/context/config/RandomValuePropertySource.java:109 | parsing a number written out in decimal gives back the number |
| Text.WrapInt | spring-boot/src/main/java/org/springframework/boot/context/config/RandomValuePropertySource.java:113 | int arithmetic wraps into the 32-bit range and leaves in-range values alone |
| Text.WrapLong | spring-boot/src/main/java/org/springframework/boot/context/config/RandomValuePropertySource.java:122-123 | long arithmetic wraps into the 64-bit range and leaves in-range values alone |
| Text.StringHash | spring-boot/src/main/java/org/springframework/boot/ApplicationPid.java:57 | String.hashCode is a 32-bit int |

## Left out

- Logging output, the banner, the stop watch, the startup info logger, the headless
  property, the shutdown hook and `EnvironmentConverter` are not modelled. They decide no
  outcome the model tracks; the failure report and the listeners' error log are kept as events.
- `getRunListeners`, `getSpringFactoriesInstances`, `createApplicationContext`,
  `postProcessApplicationContext`, `applyInitializers`, `load`, `refresh`, `afterRefresh` and
  `callRunners` are not modelled; only whether each of them throws is kept. They instantiate
  classes by reflection or call into the container, so each one's outcome is an input to `run`.
- `asUnmodifiableOrderedSet` is not modelled: its ordering by `@Order` annotations is
  reflection. Listeners and beans are taken in the order they are given.
- Relaxed binding (`RelaxedPropertyResolver`, `RelaxedDataBinder`) and placeholder resolution
  are not modelled. Properties are looked up by their exact key, and values are used
  unresolved.
- `PropertySourcesLoader` is not part of the source files; the model assumes the following for
  it:
  - one group per identifier, and a new group is placed first;
  - the extensions are tried in the order properties, xml, yml, yaml;
  - properties and xml files give no profile-specific document;
  - reading a file is an oracle, a parser given as a parameter, as is whether a resource exists.
- `RandomValues.Random`: `java.util.Random` is a fixed stream of raw outputs. `nextInt(bound)`
  takes the next output modulo the bound instead of Java's rejection sampling. `nextBytes` takes
  one output per byte. `UUID.randomUUID()` and `DigestUtils.md5DigestAsHex` are parameters.
- `RandomValues.RandomValueSource.GetProperty`: the random source answers no key during a
  lookup in `PropertySources.Lookup`. Its values are produced only through `GetProperty`.
- `ConfigLoader.Loader.Load`: nothing in the code stops a configuration file from queueing its
  own profile again, so the poll loop is bounded by a fuel parameter. An `OutOfFuel` outcome
  stands for a load that does not end.
- `ConfigLoader.Loader.HandleProfileProperties`: only the invariants the loader relies on are
  stated. These are no null entries in the queue, no repeated active names, and activation
  kept once set. The queue's exact content after a file's `spring.profiles.include` is given by
  `AddProfiles`.
- A profile can be processed more than once: `addProfiles`
  (ConfigFileApplicationListener.java:727-738) pushes a profile whether or not it was already
  processed. The model does the same.
- A listener hears `finished` twice when its `finished` throws on the success path: run's try
  block calls it (SpringApplication.java:401), and the failure handler calls it again
  (SpringApplication.java:984). `Applications.FinishedHeardTwice` states the double call.
- `Text.EqualsIgnoreCase` compares ASCII letters only. Unicode case folding of
  `String.equalsIgnoreCase` is not modelled.
- `Text.ParseInteger` accepts ASCII digits only. `Integer.parseInt` and `Long.parseLong` also
  accept the other Unicode decimal digits (Arabic-Indic, Devanagari and so on), which the model
  rejects.
- `Text.StringHash` hashes the characters of a Dafny string, which are Unicode scalar values.
  `String.hashCode` hashes UTF-16 code units, so the two differ on text outside the Basic
  Multilingual Plane, where Java sees a surrogate pair.
- `ExitCodes.Step` treats every throwing generator alike. `ExitCodeGenerators.getExitCode`
  (ExitCodeGenerators.java:85) and the static `SpringApplication.exit`
  (SpringApplication.java:1501) catch only `Exception`, so an `Error` thrown by a generator
  escapes instead of turning a 0 code into 1. Generators that throw an `Error` are not modelled.
- `BeanRegistrars.Registry.RegisterBeanDefinition`: the registry always allows overriding.
  `BeanDefinitionOverrideException` is not modelled; the core only registers names it has
  checked to be absent.
- `RunListeners.SwallowedAll`: its own contract states only the length bound. The exact
  entries are stated through `RunListeners.SwallowedStep` and `RunListeners.FinishedQuietIff`.
- `FileEncoding.CheckEncodingSpec`: the three error log lines written before the exception
  are not modelled. `System.getProperty("file.encoding")` is a parameter.
- `ApplicationPids.ApplicationPid.Write`: the file system is not modelled, so neither
  `createParentFolder` nor the `IOException` of writing is covered. The result is the text that
  would be written.
- `ApplicationPids.PidOf`: the runtime MXBean name is a parameter.
- `Applications.Application.HandleExitCode`: the `ExitCodeEvent` is recorded as an event, not
  delivered to application listeners.
- Threads are not modelled. The current thread's name and group are parameters deciding
  whether the exception handler exists. The handler is one object and not a thread-local.
- `ExitCodes.Generators`: `iterator()` is not modelled; the generators field is the list it
  would iterate.
