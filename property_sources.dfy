/**
 * Property sources and the ordered, name-keyed list that holds them (Spring's
 * MutablePropertySources). A list operation that adds a source first removes any source of
 * the same name; relative additions need the relative source to exist and to have another
 * name; a lookup asks the sources in list order and takes the first value found.
 */
module PropertySources {
  import opened Wrappers
  import opened Throwables
  import Text

  const DEFAULT_PROPERTIES := "defaultProperties"
  const APPLICATION_CONFIGURATION := "applicationConfigurationProperties"
  const SYSTEM_ENVIRONMENT := "systemEnvironment"
  const COMMAND_LINE := "commandLineArgs"
  const RANDOM := "random"

  /** The kinds of property source the core creates or inspects. */
  datatype PropertySource =
      /** MapPropertySource, PropertiesPropertySource, SimpleCommandLinePropertySource. */
    | MapSource(name: string, values: map<string, string>)
      /** CompositePropertySource: members asked in order. */
    | Composite(name: string, members: seq<PropertySource>)
      /** EnumerableCompositePropertySource: one group of loaded configuration files. */
    | Group(name: string, members: seq<PropertySource>)
      /** ConfigFileApplicationListener.ConfigurationPropertySources, the loaded layers. */
    | Configuration(members: seq<PropertySource>)
      /** RandomValuePropertySource; answers no key in lookups (see RandomValues). */
    | RandomSource(name: string)

  function Name(s: PropertySource): string {
    match s
    case MapSource(n, _) => n
    case Composite(n, _) => n
    case Group(n, _) => n
    case Configuration(_) => APPLICATION_CONFIGURATION
    case RandomSource(n) => n
  }

  /** PropertySource.getProperty. */
  function Lookup(s: PropertySource, key: string): Option<string>
    decreases s, 1
  {
    match s
    case MapSource(_, values) => if key in values then Some(values[key]) else None
    case Composite(_, members) => LookupFirst(members, key)
    case Group(_, members) => LookupFirst(members, key)
    case Configuration(members) => LookupFirst(members, key)
    case RandomSource(_) => None
  }

  /** The first value any of the sources has for `key`, asked in order. */
  function LookupFirst(ss: seq<PropertySource>, key: string): Option<string>
    decreases ss, 0
  {
    if ss == [] then None
    else
      match Lookup(ss[0], key)
      case Some(v) => Some(v)
      case None => LookupFirst(ss[1..], key)
  }

  /** The index of the source that answers a lookup. */
  predicate AnswersAt(ss: seq<PropertySource>, key: string, i: int) {
    0 <= i < |ss| && Lookup(ss[i], key).Some? && forall j :: 0 <= j < i ==> Lookup(ss[j], key) == None
  }

  /**
   * A lookup over a list finds a value exactly when some source has one, and then it is the
   * value of the first source that has one.
   */
  lemma {:induction false} LookupFirstIsFirstMatch(ss: seq<PropertySource>, key: string)
    ensures LookupFirst(ss, key).Some? <==> exists i :: 0 <= i < |ss| && Lookup(ss[i], key).Some?
    ensures LookupFirst(ss, key).Some? ==>
      exists i :: AnswersAt(ss, key, i) && LookupFirst(ss, key) == Lookup(ss[i], key)
    decreases |ss|
  {
    if ss != [] {
      if Lookup(ss[0], key).Some? {
        assert AnswersAt(ss, key, 0);
      } else {
        LookupFirstIsFirstMatch(ss[1..], key);
        if exists i :: 0 <= i < |ss| && Lookup(ss[i], key).Some? {
          var i :| 0 <= i < |ss| && Lookup(ss[i], key).Some?;
          assert i > 0 && Lookup(ss[1..][i - 1], key).Some?;
        }
        if LookupFirst(ss[1..], key).Some? {
          var i :| AnswersAt(ss[1..], key, i) && LookupFirst(ss[1..], key) == Lookup(ss[1..][i], key);
          assert AnswersAt(ss, key, i + 1);
        }
      }
    }
  }

  /** Sources placed before the answering source can change which value a lookup finds. */
  lemma LookupFirstAppend(a: seq<PropertySource>, b: seq<PropertySource>, key: string)
    ensures LookupFirst(a + b, key) == if LookupFirst(a, key).Some? then LookupFirst(a, key) else LookupFirst(b, key)
    decreases |a|
  {
    if a != [] {
      assert (a + b)[0] == a[0];
      assert (a + b)[1..] == a[1..] + b;
      LookupFirstAppend(a[1..], b, key);
    } else {
      assert a + b == b;
    }
  }

  // ---------------------------------------------------------------------------------------
  // The list of sources

  function Names(ss: seq<PropertySource>): (r: seq<string>)
    ensures |r| == |ss| && forall i :: 0 <= i < |ss| ==> r[i] == Name(ss[i])
  {
    seq(|ss|, i requires 0 <= i < |ss| => Name(ss[i]))
  }

  /** No two sources share a name: the state every list operation keeps. */
  predicate UniqueNames(ss: seq<PropertySource>) {
    Text.NoDup(Names(ss))
  }

  /** MutablePropertySources.contains. */
  predicate Named(ss: seq<PropertySource>, name: string) {
    name in Names(ss)
  }

  /** The index of the first source with the name (List.indexOf on PropertySource.named). */
  function IndexOfName(ss: seq<PropertySource>, name: string): (r: Option<nat>)
    ensures r.None? <==> !Named(ss, name)
    ensures r.Some? ==> r.value < |ss| && Name(ss[r.value]) == name
    ensures r.Some? ==> forall j :: 0 <= j < r.value ==> Name(ss[j]) != name
  {
    if name in Names(ss) then Some(Text.IndexOf(Names(ss), name)) else None
  }

  /** MutablePropertySources.get. */
  function Get(ss: seq<PropertySource>, name: string): (r: Option<PropertySource>)
    ensures r.Some? <==> Named(ss, name)
    ensures r.Some? ==> Name(r.value) == name && r.value in ss
  {
    match IndexOfName(ss, name)
    case None => None
    case Some(i) => Some(ss[i])
  }

  lemma NamesDelete(ss: seq<PropertySource>, i: nat)
    requires i < |ss|
    ensures Names(Text.DeleteAt(ss, i)) == Text.DeleteAt(Names(ss), i)
  {
  }

  lemma NamesInsert(ss: seq<PropertySource>, i: nat, p: PropertySource)
    requires i <= |ss|
    ensures Names(Text.InsertAt(ss, i, p)) == Text.InsertAt(Names(ss), i, Name(p))
  {
  }

  /** The list without its first source of that name (removeIfPresent). */
  function RemoveNamed(ss: seq<PropertySource>, name: string): (r: seq<PropertySource>)
    ensures !Named(ss, name) ==> r == ss
    ensures Named(ss, name) ==> |r| == |ss| - 1
  {
    match IndexOfName(ss, name)
    case None => ss
    case Some(i) => Text.DeleteAt(ss, i)
  }

  /** Removing keeps uniqueness and leaves no source of that name behind. */
  lemma RemoveNamedSpec(ss: seq<PropertySource>, name: string)
    requires UniqueNames(ss)
    ensures UniqueNames(RemoveNamed(ss, name))
    ensures !Named(RemoveNamed(ss, name), name)
  {
    match IndexOfName(ss, name)
    case None =>
    case Some(i) =>
      NamesDelete(ss, i);
      Text.NoDupDelete(Names(ss), i);
  }

  function IllegalRelativeAddition(name: string): Throwable {
    NewIllegalArgument("PropertySource named '" + name + "' cannot be added relative to itself")
  }

  function NoSuchSource(name: string): Throwable {
    NewIllegalArgument("PropertySource named '" + name + "' does not exist")
  }

  /** MutablePropertySources.addFirst. */
  function AddFirst(ss: seq<PropertySource>, p: PropertySource): seq<PropertySource> {
    [p] + RemoveNamed(ss, Name(p))
  }

  /** MutablePropertySources.addLast. */
  function AddLast(ss: seq<PropertySource>, p: PropertySource): seq<PropertySource> {
    RemoveNamed(ss, Name(p)) + [p]
  }

  /** MutablePropertySources.addBefore. */
  function AddBefore(ss: seq<PropertySource>, relative: string, p: PropertySource): Result<seq<PropertySource>, Throwable> {
    if Name(p) == relative then Failure(IllegalRelativeAddition(relative))
    else
      var rest := RemoveNamed(ss, Name(p));
      match IndexOfName(rest, relative)
      case None => Failure(NoSuchSource(relative))
      case Some(i) => Success(Text.InsertAt(rest, i, p))
  }

  /** MutablePropertySources.addAfter. */
  function AddAfter(ss: seq<PropertySource>, relative: string, p: PropertySource): Result<seq<PropertySource>, Throwable> {
    if Name(p) == relative then Failure(IllegalRelativeAddition(relative))
    else
      var rest := RemoveNamed(ss, Name(p));
      match IndexOfName(rest, relative)
      case None => Failure(NoSuchSource(relative))
      case Some(i) => Success(Text.InsertAt(rest, i + 1, p))
  }

  /**
   * The list a failed addBefore or addAfter leaves behind. Adding a source relative to itself
   * is refused before anything changes; a missing relative source is only noticed after
   * removeIfPresent has taken out the source of the new source's name.
   */
  function AfterFailedRelativeAdd(ss: seq<PropertySource>, relative: string, p: PropertySource): seq<PropertySource> {
    if Name(p) == relative then ss else RemoveNamed(ss, Name(p))
  }

  /**
   * A relative addition fails with the relative-to-itself error and an untouched list, or, for
   * a missing relative source, with the does-not-exist error and a list that has lost the new
   * source's name and kept every other source.
   */
  lemma FailedRelativeAddSpec(ss: seq<PropertySource>, relative: string, p: PropertySource)
    requires UniqueNames(ss)
    ensures AddBefore(ss, relative, p).Failure? <==> AddAfter(ss, relative, p).Failure?
    ensures Name(p) == relative ==>
      AddAfter(ss, relative, p) == Failure(IllegalRelativeAddition(relative)) && AfterFailedRelativeAdd(ss, relative, p) == ss
    ensures Name(p) != relative && AddAfter(ss, relative, p).Failure? ==>
      var r := AfterFailedRelativeAdd(ss, relative, p);
      AddAfter(ss, relative, p).error == NoSuchSource(relative) && !Named(ss, relative)
      && UniqueNames(r) && !Named(r, Name(p))
      && forall k :: 0 <= k < |ss| && Name(ss[k]) != Name(p) ==> ss[k] in r
  {
    AddBeforeSpec(ss, relative, p);
    AddAfterSpec(ss, relative, p);
    if Name(p) != relative {
      RemoveNamedSpec(ss, Name(p));
      RemoveNamedKeepsOthers(ss, Name(p));
    }
  }

  /** MutablePropertySources.replace. */
  function Replace(ss: seq<PropertySource>, name: string, p: PropertySource): Result<seq<PropertySource>, Throwable> {
    match IndexOfName(ss, name)
    case None => Failure(NoSuchSource(name))
    case Some(i) => Success(ss[i := p])
  }

  /** The list after MutablePropertySources.remove, which returns the removed source. */
  function Remove(ss: seq<PropertySource>, name: string): (seq<PropertySource>, Option<PropertySource>) {
    (RemoveNamed(ss, name), Get(ss, name))
  }

  /** Adding a source in front: it is first and the names stay unique. */
  lemma AddFirstSpec(ss: seq<PropertySource>, p: PropertySource)
    requires UniqueNames(ss)
    ensures UniqueNames(AddFirst(ss, p)) && AddFirst(ss, p)[0] == p
    ensures forall k :: 0 <= k < |ss| && Name(ss[k]) != Name(p) ==> ss[k] in AddFirst(ss, p)
  {
    RemoveNamedSpec(ss, Name(p));
    var rest := RemoveNamed(ss, Name(p));
    NamesInsert(rest, 0, p);
    Text.NoDupInsert(Names(rest), 0, Name(p));
    assert AddFirst(ss, p) == Text.InsertAt(rest, 0, p);
    RemoveNamedKeepsOthers(ss, Name(p));
    Text.InsertAtKeeps(rest, 0, p);
  }

  /** Adding a source at the end: it is last and the names stay unique. */
  lemma AddLastSpec(ss: seq<PropertySource>, p: PropertySource)
    requires UniqueNames(ss)
    ensures UniqueNames(AddLast(ss, p)) && AddLast(ss, p)[|AddLast(ss, p)| - 1] == p
    ensures forall k :: 0 <= k < |ss| && Name(ss[k]) != Name(p) ==> ss[k] in AddLast(ss, p)
  {
    RemoveNamedSpec(ss, Name(p));
    var rest := RemoveNamed(ss, Name(p));
    NamesInsert(rest, |rest|, p);
    Text.NoDupInsert(Names(rest), |rest|, Name(p));
    assert AddLast(ss, p) == Text.InsertAt(rest, |rest|, p);
    RemoveNamedKeepsOthers(ss, Name(p));
    Text.InsertAtKeeps(rest, |rest|, p);
  }

  /** Removing by name keeps every source of another name. */
  lemma RemoveNamedKeepsOthers(ss: seq<PropertySource>, name: string)
    ensures forall k :: 0 <= k < |ss| && Name(ss[k]) != name ==> ss[k] in RemoveNamed(ss, name)
  {
    match IndexOfName(ss, name)
    case None =>
    case Some(i) =>
      var r := RemoveNamed(ss, name);
      forall k | 0 <= k < |ss| && Name(ss[k]) != name
        ensures ss[k] in r
      {
        if k < i {
          assert r[k] == ss[k];
        } else {
          assert r[k - 1] == ss[k];
        }
      }
  }

  /** Inserting a source whose name is new keeps the names unique. */
  lemma InsertUnique(rest: seq<PropertySource>, i: nat, p: PropertySource)
    requires i <= |rest| && UniqueNames(rest) && !Named(rest, Name(p))
    ensures UniqueNames(Text.InsertAt(rest, i, p))
  {
    NamesInsert(rest, i, p);
    Text.NoDupInsert(Names(rest), i, Name(p));
  }

  /**
   * A relative addition succeeds exactly when the relative source exists and has another
   * name; the new source then sits immediately before it.
   */
  lemma AddBeforeSpec(ss: seq<PropertySource>, relative: string, p: PropertySource)
    requires UniqueNames(ss)
    ensures AddBefore(ss, relative, p).Success? <==> Name(p) != relative && Named(ss, relative)
    ensures AddBefore(ss, relative, p).Success? ==>
      var r := AddBefore(ss, relative, p).value;
      UniqueNames(r) && exists i :: 0 <= i < |r| - 1 && r[i] == p && Name(r[i + 1]) == relative
  {
    if Name(p) != relative {
      RemoveNamedSpec(ss, Name(p));
      var rest := RemoveNamed(ss, Name(p));
      RelativeSurvivesRemoval(ss, Name(p), relative);
      match IndexOfName(rest, relative)
      case None =>
      case Some(i) =>
        InsertUnique(rest, i, p);
        assert Text.InsertAt(rest, i, p)[i + 1] == rest[i];
    }
  }

  /** The mirror image of AddBeforeSpec: the new source sits immediately after the relative one. */
  lemma AddAfterSpec(ss: seq<PropertySource>, relative: string, p: PropertySource)
    requires UniqueNames(ss)
    ensures AddAfter(ss, relative, p).Success? <==> Name(p) != relative && Named(ss, relative)
    ensures AddAfter(ss, relative, p).Success? ==>
      var r := AddAfter(ss, relative, p).value;
      UniqueNames(r) && exists i :: 0 < i < |r| && r[i] == p && Name(r[i - 1]) == relative
  {
    if Name(p) != relative {
      RemoveNamedSpec(ss, Name(p));
      var rest := RemoveNamed(ss, Name(p));
      RelativeSurvivesRemoval(ss, Name(p), relative);
      match IndexOfName(rest, relative)
      case None =>
      case Some(i) =>
        InsertUnique(rest, i + 1, p);
        assert Text.InsertAt(rest, i + 1, p)[i] == rest[i];
    }
  }

  /** Replacing needs the name to exist. */
  lemma ReplaceSpec(ss: seq<PropertySource>, name: string, p: PropertySource)
    ensures Replace(ss, name, p).Success? <==> Named(ss, name)
    ensures Replace(ss, name, p).Success? ==> |Replace(ss, name, p).value| == |ss| && p in Replace(ss, name, p).value
  {
    match IndexOfName(ss, name)
    case None =>
    case Some(i) => assert ss[i := p][i] == p;
  }

  /** Removing returns the source of that name, if any, and leaves none behind. */
  lemma RemoveSpec(ss: seq<PropertySource>, name: string)
    requires UniqueNames(ss)
    ensures Remove(ss, name).1.Some? <==> Named(ss, name)
    ensures Remove(ss, name).1.Some? ==> Name(Remove(ss, name).1.value) == name
    ensures !Named(Remove(ss, name).0, name) && UniqueNames(Remove(ss, name).0)
  {
    RemoveNamedSpec(ss, name);
  }

  lemma RelativeSurvivesRemoval(ss: seq<PropertySource>, removed: string, relative: string)
    requires removed != relative
    ensures Named(RemoveNamed(ss, removed), relative) <==> Named(ss, relative)
  {
    match IndexOfName(ss, removed)
    case None =>
    case Some(i) =>
      NamesDelete(ss, i);
      var ns := Names(ss);
      var r := Text.DeleteAt(ns, i);
      if relative in ns {
        var k := Text.IndexOf(ns, relative);
        assert k != i;
        if k < i { assert r[k] == relative; } else { assert r[k - 1] == relative; }
      }
      if relative in r {
        var k := Text.IndexOf(r, relative);
        if k < i { assert ns[k] == relative; } else { assert ns[k + 1] == relative; }
      }
  }
}
