/**
 * The pure side of ConfigFileApplicationListener: profiles, the resolution of comma-separated
 * settings into ordered sets, the search locations and names, the candidate files tried for
 * one profile, the dispatch of one existing file to a property source loader, and the
 * grouping of loaded sources by profile.
 */
module ConfigFile {
  import opened Wrappers
  import opened Throwables
  import opened Text
  import PS = PropertySources

  /** "classpath:/,classpath:/config/,file:./,file:./config/" */
  const DEFAULT_SEARCH_LOCATIONS := JoinWith(DEFAULT_LOCATION_PIECES, ',')
  const DEFAULT_NAMES := "application"
  const INCLUDE_PROFILES_PROPERTY := "spring.profiles.include"
  const ACTIVE_PROFILES_PROPERTY := "spring.profiles.active"
  const CONFIG_NAME_PROPERTY := "spring.config.name"
  const CONFIG_LOCATION_PROPERTY := "spring.config.location"
  const FILE_URL_PREFIX := "file:"
  const CLASSPATH_URL_PREFIX := "classpath:"

  /** A profile; two profiles are equal when their names are (see SameProfile). */
  datatype Profile = Profile(name: string, isDefault: bool)

  /** Profile.equals: by name only. */
  predicate SameProfile(a: Profile, b: Profile) {
    a.name == b.name
  }

  /** `queue.contains(p)` for a queue that may hold the `null` sentinel. */
  predicate QueueContains(queue: seq<Option<Profile>>, p: Profile) {
    exists i :: 0 <= i < |queue| && queue[i].Some? && SameProfile(queue[i].value, p)
  }

  // ---------------------------------------------------------------------------------------
  // The LIFO queue of profiles (Collections.asLifoQueue over a LinkedList): index 0 is the head

  /** The queue with each profile pushed in turn onto the head, as `addAll` does. */
  function PushAll(queue: seq<Option<Profile>>, profiles: seq<Profile>): seq<Option<Profile>>
    decreases |profiles|
  {
    if profiles == [] then queue else PushAll([Some(profiles[0])] + queue, profiles[1..])
  }

  function Somes(profiles: seq<Profile>): (r: seq<Option<Profile>>)
    ensures |r| == |profiles| && forall i :: 0 <= i < |profiles| ==> r[i] == Some(profiles[i])
  {
    seq(|profiles|, i requires 0 <= i < |profiles| => Some(profiles[i]))
  }

  /** Pushing a list onto a LIFO queue puts it in front in reverse order: the last is polled first. */
  lemma {:induction false} PushAllReverses(queue: seq<Option<Profile>>, profiles: seq<Profile>)
    ensures PushAll(queue, profiles) == Reverse(Somes(profiles)) + queue
    decreases |profiles|
  {
    if profiles != [] {
      PushAllReverses([Some(profiles[0])] + queue, profiles[1..]);
      ReverseSomesStep(profiles);
      assert Reverse(Somes(profiles[1..])) + ([Some(profiles[0])] + queue)
        == (Reverse(Somes(profiles[1..])) + [Some(profiles[0])]) + queue;
    }
  }

  lemma ReverseSomesStep(profiles: seq<Profile>)
    requires profiles != []
    ensures Reverse(Somes(profiles)) == Reverse(Somes(profiles[1..])) + [Some(profiles[0])]
  {
    var s := Somes(profiles);
    assert s[1..] == Somes(profiles[1..]);
  }

  /** A queue without the null sentinel keeps none after pushes. */
  lemma PushAllNoNull(queue: seq<Option<Profile>>, profiles: seq<Profile>)
    requires None !in queue
    ensures None !in PushAll(queue, profiles)
  {
    PushAllReverses(queue, profiles);
  }

  /**
   * removeUnprocessedDefaultProfiles: an iteration from the head that drops every default
   * profile; it stops with a NullPointerException at the null sentinel, leaving the rest.
   * Result: the new queue, and whether the iteration met the sentinel.
   */
  function RemoveDefaults(queue: seq<Option<Profile>>): (r: (seq<Option<Profile>>, bool))
    ensures |r.0| <= |queue|
    decreases |queue|
  {
    if queue == [] then ([], false)
    else match queue[0]
      case None => (queue, true)
      case Some(p) =>
        var rest := RemoveDefaults(queue[1..]);
        (if p.isDefault then rest.0 else [queue[0]] + rest.0, rest.1)
  }

  /** Without the sentinel, the defaults go and everything else stays. */
  lemma {:induction false} RemoveDefaultsSpec(queue: seq<Option<Profile>>)
    requires None !in queue
    ensures !RemoveDefaults(queue).1
    ensures forall x :: x in RemoveDefaults(queue).0 <==> x in queue && !x.value.isDefault
    ensures None !in RemoveDefaults(queue).0
    decreases |queue|
  {
    if queue != [] {
      assert queue[0] != None;
      assert None !in queue[1..];
      RemoveDefaultsSpec(queue[1..]);
      assert queue == [queue[0]] + queue[1..];
    }
  }

  /** A queue that still holds the sentinel is cut short there. */
  lemma {:induction false} RemoveDefaultsAtSentinel(queue: seq<Option<Profile>>)
    requires None in queue
    ensures RemoveDefaults(queue).1
    decreases |queue|
  {
    if queue[0] != None {
      assert None in queue[1..] by {
        var k :| 0 <= k < |queue| && queue[k] == None;
        assert queue[1..][k - 1] == None;
      }
      RemoveDefaultsAtSentinel(queue[1..]);
    }
  }

  /**
   * The default-profile seeding of load(): each default name, as a default profile, is pushed
   * unless the queue already holds a profile of that name.
   */
  function SeedDefaults(queue: seq<Option<Profile>>, names: seq<string>): seq<Option<Profile>>
    decreases |names|
  {
    if names == [] then queue
    else
      var q := SeedDefaults(queue, names[..|names| - 1]);
      var p := Profile(names[|names| - 1], true);
      if QueueContains(q, p) then q else [Some(p)] + q
  }

  function DefaultProfiles(names: seq<string>): (r: seq<Option<Profile>>)
    ensures |r| == |names| && forall i :: 0 <= i < |names| ==> r[i] == Some(Profile(names[i], true))
  {
    seq(|names|, i requires 0 <= i < |names| => Some(Profile(names[i], true)))
  }

  /**
   * Seeding an empty queue pushes each distinct default name once, as a default profile, in
   * reverse order of first occurrence.
   */
  lemma {:induction false} SeedDefaultsSpec(names: seq<string>)
    ensures SeedDefaults([], names) == Reverse(DefaultProfiles(Dedup(names)))
    decreases |names|
  {
    if names != [] {
      var init := names[..|names| - 1];
      var n := names[|names| - 1];
      SeedDefaultsSpec(init);
      var d := Dedup(init);
      SeededContains(d, n);
      if n !in d {
        SeededPush(d, n);
      }
    }
  }

  lemma SeededContains(d: seq<string>, n: string)
    ensures QueueContains(Reverse(DefaultProfiles(d)), Profile(n, true)) <==> n in d
  {
    var q := Reverse(DefaultProfiles(d));
    if n in d {
      var j :| 0 <= j < |d| && d[j] == n;
      assert q[|d| - 1 - j] == Some(Profile(n, true));
    }
    if QueueContains(q, Profile(n, true)) {
      var j :| 0 <= j < |q| && q[j].Some? && SameProfile(q[j].value, Profile(n, true));
      assert d[|d| - 1 - j] == n;
    }
  }

  lemma SeededPush(d: seq<string>, n: string)
    ensures [Some(Profile(n, true))] + Reverse(DefaultProfiles(d)) == Reverse(DefaultProfiles(d + [n]))
  {
    var q := Reverse(DefaultProfiles(d));
    var e := Reverse(DefaultProfiles(d + [n]));
    forall i | 0 <= i < |e|
      ensures ([Some(Profile(n, true))] + q)[i] == e[i]
    {
      if i > 0 {
        assert (d + [n])[|d| - i] == d[|d| - i];
      }
    }
  }

  /**
   * getUnprocessedActiveProfiles: the environment's active profiles that the initial set
   * does not name, reversed.
   */
  function UnprocessedActive(active: seq<string>, initial: seq<Profile>): seq<Profile> {
    Reverse(NotIn(active, initial))
  }

  function NotIn(active: seq<string>, initial: seq<Profile>): (r: seq<Profile>)
    ensures forall i :: 0 <= i < |r| ==> !r[i].isDefault
    decreases |active|
  {
    if active == [] then []
    else
      var rest := NotIn(active[1..], initial);
      if exists j :: 0 <= j < |initial| && initial[j].name == active[0] then rest
      else [Profile(active[0], false)] + rest
  }

  /** A name is queued as unprocessed exactly when it is active and not in the initial set. */
  lemma {:induction false} UnprocessedActiveSpec(active: seq<string>, initial: seq<Profile>)
    ensures forall p :: p in UnprocessedActive(active, initial) <==>
      p.name in active && !p.isDefault && forall j :: 0 <= j < |initial| ==> initial[j].name != p.name
    decreases |active|
  {
    NotInSpec(active, initial);
    ReverseMembers(NotIn(active, initial));
  }

  lemma {:induction false} NotInSpec(active: seq<string>, initial: seq<Profile>)
    ensures forall p :: p in NotIn(active, initial) <==>
      p.name in active && !p.isDefault && forall j :: 0 <= j < |initial| ==> initial[j].name != p.name
    decreases |active|
  {
    if active != [] {
      NotInSpec(active[1..], initial);
      assert active == [active[0]] + active[1..];
    }
  }

  // ---------------------------------------------------------------------------------------
  // Ordered sets of settings

  /**
   * asResolvedSet: the value (or, when it is null, the fallback) split on commas, each
   * piece trimmed, the list reversed, and later duplicates dropped.
   */
  function AsResolvedSet(value: Option<string>, fallback: Option<string>): seq<string> {
    Dedup(Reverse(TrimAll(CommaDelimitedList(if value.Some? then value else fallback))))
  }

  /** The trimmed pieces of a comma-separated value. */
  function Pieces(value: Option<string>): seq<string> {
    TrimAll(CommaDelimitedList(value))
  }

  /**
   * The resolved set holds each trimmed piece exactly once, the last piece first; with a
   * null value it is the resolved fallback.
   */
  lemma AsResolvedSetSpec(value: Option<string>, fallback: Option<string>)
    ensures var r := AsResolvedSet(value, fallback);
      var pieces := Pieces(if value.Some? then value else fallback);
      NoDup(r)
      && (forall x :: x in r <==> x in pieces)
      && (|pieces| > 0 ==> |r| > 0 && r[0] == pieces[|pieces| - 1])
      && (value.None? ==> r == AsResolvedSet(fallback, None))
  {
    var pieces := Pieces(if value.Some? then value else fallback);
    ReverseDedupMembers(pieces);
    if |pieces| > 0 {
      ReverseDedupHead(pieces);
    }
  }

  /** SpringProfiles.asProfileSet: the names as non-default profiles, reversed, deduplicated. */
  function AsProfileSet(names: seq<string>): (r: seq<Profile>)
    ensures NoDup(r)
    ensures forall i :: 0 <= i < |r| ==> !r[i].isDefault
  {
    var profiles := seq(|names|, i requires 0 <= i < |names| => Profile(names[i], false));
    var rev := Reverse(profiles);
    var r := Dedup(rev);
    assert forall i :: 0 <= i < |r| ==> r[i] in rev;
    r
  }

  /** The profile set holds a profile for exactly the listed names, each name once. */
  lemma AsProfileSetNames(names: seq<string>)
    ensures forall n :: n in names <==> Profile(n, false) in AsProfileSet(names)
    ensures forall i, j :: 0 <= i < j < |AsProfileSet(names)| ==> AsProfileSet(names)[i].name != AsProfileSet(names)[j].name
  {
    var profiles := seq(|names|, i requires 0 <= i < |names| => Profile(names[i], false));
    var r := AsProfileSet(names);
    ReverseDedupMembers(profiles);
    forall n
      ensures n in names <==> Profile(n, false) in profiles
    {
      if n in names {
        var i :| 0 <= i < |names| && names[i] == n;
        assert profiles[i] == Profile(n, false);
      }
    }
    forall i, j | 0 <= i < j < |r|
      ensures r[i].name != r[j].name
    {
      assert r[i] in profiles && r[j] in profiles;
      assert r[i] != r[j];
    }
  }

  /**
   * The profile names bound from `spring.profiles.active` or `spring.profiles.include`: the
   * value found for that key, split on commas, pieces trimmed.
   */
  function BoundNames(value: Option<string>): seq<string> {
    Pieces(value)
  }

  /** SpringProfiles as bound from some sources. */
  datatype SpringProfiles = SpringProfiles(active: seq<string>, includes: seq<string>)

  function BindSpringProfiles(sources: seq<PS.PropertySource>): SpringProfiles {
    SpringProfiles(BoundNames(PS.LookupFirst(sources, ACTIVE_PROFILES_PROPERTY)),
                   BoundNames(PS.LookupFirst(sources, INCLUDE_PROFILES_PROPERTY)))
  }

  /**
   * initializeActiveProfiles' set: none unless the sources have `spring.profiles.active` or
   * `spring.profiles.include`; otherwise the bound active profiles followed by the included
   * ones, each profile once.
   */
  function InitialProfiles(sources: seq<PS.PropertySource>): seq<Profile> {
    if PS.LookupFirst(sources, ACTIVE_PROFILES_PROPERTY).None? && PS.LookupFirst(sources, INCLUDE_PROFILES_PROPERTY).None? then []
    else
      var bound := BindSpringProfiles(sources);
      Dedup(AsProfileSet(bound.active) + AsProfileSet(bound.includes))
  }

  /**
   * The initial set holds a non-default profile for exactly the names bound from either
   * property, without repeats.
   */
  lemma InitialProfilesSpec(sources: seq<PS.PropertySource>)
    ensures NoDup(InitialProfiles(sources))
    ensures forall p :: p in InitialProfiles(sources) ==> !p.isDefault
    ensures PS.LookupFirst(sources, ACTIVE_PROFILES_PROPERTY).Some? || PS.LookupFirst(sources, INCLUDE_PROFILES_PROPERTY).Some? ==>
      var bound := BindSpringProfiles(sources);
      forall n :: Profile(n, false) in InitialProfiles(sources) <==> n in bound.active || n in bound.includes
  {
    var bound := BindSpringProfiles(sources);
    ProfileSetsJoined(bound.active, bound.includes);
  }

  /** The ordered set of two profile sets: non-default profiles for the names of either. */
  lemma ProfileSetsJoined(a: seq<string>, b: seq<string>)
    ensures forall p :: p in Dedup(AsProfileSet(a) + AsProfileSet(b)) ==> !p.isDefault
    ensures forall n :: Profile(n, false) in Dedup(AsProfileSet(a) + AsProfileSet(b)) <==> n in a || n in b
  {
    var pa := AsProfileSet(a);
    var pb := AsProfileSet(b);
    DedupMembers(pa + pb);
    AsProfileSetNames(a);
    AsProfileSetNames(b);
    forall p: Profile | p in pa + pb
      ensures !p.isDefault
    {
      if p in pa {
        var i :| 0 <= i < |pa| && pa[i] == p;
      } else {
        var i :| 0 <= i < |pb| && pb[i] == p;
      }
    }
  }

  /** A queue of non-default profiles loses nothing to removeUnprocessedDefaultProfiles. */
  lemma {:induction false} RemoveDefaultsKeepsActive(queue: seq<Option<Profile>>)
    requires forall i :: 0 <= i < |queue| ==> queue[i].Some? && !queue[i].value.isDefault
    ensures RemoveDefaults(queue) == (queue, false)
    decreases |queue|
  {
    if queue != [] {
      RemoveDefaultsKeepsActive(queue[1..]);
      assert queue == [queue[0]] + queue[1..];
    }
  }

  /** The queue initializeActiveProfiles leaves on an empty queue: its profiles, last first. */
  lemma InitialQueue(profiles: seq<Profile>)
    requires forall i :: 0 <= i < |profiles| ==> !profiles[i].isDefault
    ensures RemoveDefaults(PushAll([], profiles)).0 == PushAll([], profiles)
  {
    PushAllReverses([], profiles);
    assert PushAll([], profiles) == Reverse(Somes(profiles));
    RemoveDefaultsKeepsActive(PushAll([], profiles));
  }

  /**
   * The queue load() starts polling: the null sentinel on top of the initial profiles and the
   * unprocessed active ones pushed after them, or of the default profiles when those are none.
   */
  function SeededQueue(initial: seq<Profile>, active: seq<string>, defaults: seq<string>): seq<Option<Profile>> {
    var pushed := PushAll(PushAll([], initial), UnprocessedActive(active, initial));
    [None] + (if pushed == [] then SeedDefaults([], defaults) else pushed)
  }

  // ---------------------------------------------------------------------------------------
  // Locations

  function ReplaceChar(s: string, from: char, to: char): (r: string)
    ensures |r| == |s|
    ensures forall i :: 0 <= i < |s| ==> r[i] == if s[i] == from then to else s[i]
  {
    seq(|s|, i requires 0 <= i < |s| => if s[i] == from then to else s[i])
  }

  /**
   * The path elements kept and the number of unmatched ".." elements, processing the
   * elements from last to first: "." is dropped, ".." cancels the next element processed.
   */
  function Normalize(elements: seq<string>): (seq<string>, nat)
    decreases |elements|
  {
    if elements == [] then ([], 0)
    else
      var (kept, tops) := Normalize(elements[1..]);
      var e := elements[0];
      if e == "." then (kept, tops)
      else if e == ".." then (kept, tops + 1)
      else if tops > 0 then (kept, tops - 1)
      else ([e] + kept, tops)
  }

  function Repeat(s: string, n: nat): (r: seq<string>)
    ensures |r| == n && forall i :: 0 <= i < n ==> r[i] == s
  {
    if n == 0 then [] else [s] + Repeat(s, n - 1)
  }

  /**
   * StringUtils.cleanPath: backslashes become slashes, a scheme prefix such as "file:" and
   * a leading slash are kept aside, and "." and ".." segments are resolved.
   */
  function CleanPath(path: string): string {
    var p := ReplaceChar(path, '\\', '/');
    var prefix: string := if ':' in p && '/' !in p[..IndexOf(p, ':') + 1] then p[..IndexOf(p, ':') + 1] else "";
    var rest := p[|prefix|..];
    var prefix' := if StartsWith(rest, "/") then prefix + "/" else prefix;
    var rest' := if StartsWith(rest, "/") then rest[1..] else rest;
    var elements := if rest' == "" then [] else SplitOn(rest', '/');
    var (kept, tops) := Normalize(elements);
    prefix' + JoinWith(Repeat("..", tops) + kept, '/')
  }

  /** Lower-case ASCII letters. */
  function LowerAscii(s: string): (r: string)
    ensures |r| == |s|
  {
    seq(|s|, i requires 0 <= i < |s| => if 'A' <= s[i] <= 'Z' then (s[i] as int + 32) as char else s[i])
  }

  /** The URL protocols a standard JDK has handlers for. */
  const KNOWN_PROTOCOLS: set<string> := {"http", "https", "ftp", "file", "jar", "mailto", "netdoc"}

  /** ResourceUtils.isUrl: a classpath pseudo-URL, or a URL with a protocol the JDK knows. */
  predicate IsUrl(path: string) {
    StartsWith(path, CLASSPATH_URL_PREFIX)
    || (':' in path && LowerAscii(path[..IndexOf(path, ':')]) in KNOWN_PROTOCOLS)
  }

  /** One entry of `spring.config.location` as a search location. */
  function ConfiguredLocation(path: string): string {
    if '$' in path then path
    else
      var cleaned := CleanPath(path);
      if IsUrl(cleaned) then cleaned else FILE_URL_PREFIX + cleaned
  }

  function ConfiguredLocations(paths: seq<string>): (r: seq<string>)
    ensures |r| == |paths| && forall i :: 0 <= i < |paths| ==> r[i] == ConfiguredLocation(paths[i])
  {
    seq(|paths|, i requires 0 <= i < |paths| => ConfiguredLocation(paths[i]))
  }

  /**
   * getSearchLocations: the entries of `spring.config.location` (when the environment has
   * it) first, then the configured search locations or the defaults, as an ordered set.
   */
  function SearchLocations(configLocation: Option<string>, searchLocations: Option<string>): seq<string> {
    var user := if configLocation.Some? then ConfiguredLocations(AsResolvedSet(configLocation, None)) else [];
    Dedup(user + AsResolvedSet(searchLocations, Some(DEFAULT_SEARCH_LOCATIONS)))
  }

  /** Configured locations come first, and no location is lost or repeated. */
  lemma SearchLocationsSpec(configLocation: Option<string>, searchLocations: Option<string>)
    ensures var r := SearchLocations(configLocation, searchLocations);
      var user := if configLocation.Some? then ConfiguredLocations(AsResolvedSet(configLocation, None)) else [];
      NoDup(r)
      && Dedup(user) <= r
      && (forall x :: x in r <==> x in user || x in AsResolvedSet(searchLocations, Some(DEFAULT_SEARCH_LOCATIONS)))
  {
    var user := if configLocation.Some? then ConfiguredLocations(AsResolvedSet(configLocation, None)) else [];
    var rest := AsResolvedSet(searchLocations, Some(DEFAULT_SEARCH_LOCATIONS));
    DedupPrefix(user, rest);
    var r := Dedup(user + rest);
    forall x
      ensures x in r <==> x in user || x in rest
    {
      if x in user + rest {
        var i :| 0 <= i < |user + rest| && (user + rest)[i] == x;
      }
      if x in r {
        var i :| 0 <= i < |r| && r[i] == x;
        assert x in user + rest;
      }
    }
  }

  /** A configured entry without '$' ends up as a URL. */
  lemma ConfiguredLocationIsUrl(path: string)
    requires '$' !in path
    ensures var r := ConfiguredLocation(path); IsUrl(r) || (StartsWith(r, FILE_URL_PREFIX) && r == FILE_URL_PREFIX + CleanPath(path))
  {
  }

  const DEFAULT_LOCATION_PIECES: seq<string> := ["classpath:/", "classpath:/config/", "file:./", "file:./config/"]

  lemma DefaultLocationSplit()
    ensures CommaDelimitedList(Some(DEFAULT_SEARCH_LOCATIONS)) == DEFAULT_LOCATION_PIECES
  {
    var parts := DEFAULT_LOCATION_PIECES;
    assert ',' !in parts[0] && ',' !in parts[1] && ',' !in parts[2] && ',' !in parts[3];
    assert JoinWith(parts, ',') != "" by {
      assert JoinWith(parts, ',')[0] == 'c';
    }
    SplitJoin(parts, ',');
  }

  lemma DefaultLocationPieces()
    ensures Pieces(Some(DEFAULT_SEARCH_LOCATIONS)) == DEFAULT_LOCATION_PIECES
  {
    DefaultLocationSplit();
    var parts := DEFAULT_LOCATION_PIECES;
    TrimUnpadded(parts[0]);
    TrimUnpadded(parts[1]);
    TrimUnpadded(parts[2]);
    TrimUnpadded(parts[3]);
  }

  lemma DefaultLocationsDistinct()
    ensures NoDup(Reverse(DEFAULT_LOCATION_PIECES))
  {
    var parts := DEFAULT_LOCATION_PIECES;
    assert |parts[0]| == 11 && |parts[1]| == 18 && |parts[2]| == 7 && |parts[3]| == 14;
  }

  /** The defaults, from most to least specific: the last entry of the setting is tried first. */
  lemma DefaultSearchLocations()
    ensures SearchLocations(None, None) == Reverse(DEFAULT_LOCATION_PIECES)
  {
    var rev := Reverse(DEFAULT_LOCATION_PIECES);
    DefaultLocationPieces();
    DefaultLocationsDistinct();
    DedupOfNoDup(rev);
    assert AsResolvedSet(None, Some(DEFAULT_SEARCH_LOCATIONS)) == rev;
    assert SearchLocations(None, None) == Dedup([] + rev);
    assert [] + rev == rev;
  }

  /** Trimming leaves a string alone when it neither starts nor ends with a blank. */
  lemma TrimUnpadded(s: string)
    requires |s| > 0 && s[0] > ' ' && s[|s| - 1] > ' '
    ensures Trim(s) == s
  {
    assert TrimStartIndex(s) == 0;
    assert TrimEndIndex(s, 0) == |s|;
  }

  /**
   * getSearchNames: `spring.config.name` replaces the configured names entirely when the
   * environment has it; otherwise the configured names, or "application".
   */
  function SearchNames(configName: Option<string>, names: Option<string>): seq<string> {
    if configName.Some? then AsResolvedSet(configName, None) else AsResolvedSet(names, Some(DEFAULT_NAMES))
  }

  /**
   * The search names are the resolved set of `spring.config.name` when the environment has it,
   * and then the configured names play no part; otherwise of the configured names, or of
   * "application" when none are configured. Each name appears once, the last one listed first.
   */
  lemma SearchNamesSpec(configName: Option<string>, names: Option<string>, otherNames: Option<string>)
    ensures configName.Some? ==> SearchNames(configName, names) == SearchNames(configName, otherNames)
    ensures var listed := if configName.Some? then configName else if names.Some? then names else Some(DEFAULT_NAMES);
      var r, pieces := SearchNames(configName, names), Pieces(listed);
      NoDup(r)
      && (forall x :: x in r <==> x in pieces)
      && (|pieces| > 0 ==> |r| > 0 && r[0] == pieces[|pieces| - 1])
  {
    var value, fallback := if configName.Some? then configName else names, if configName.Some? then None else Some(DEFAULT_NAMES);
    AsResolvedSetSpec(value, fallback);
    assert SearchNames(configName, names) == AsResolvedSet(value, fallback);
    assert (if configName.Some? then configName else if names.Some? then names else Some(DEFAULT_NAMES))
      == (if value.Some? then value else fallback);
  }

  // ---------------------------------------------------------------------------------------
  // Candidates

  /** The file extensions of the two loaders, properties/xml first, then yml/yaml. */
  const EXTENSIONS: seq<string> := ["properties", "xml", "yml", "yaml"]

  /** One call of loadIntoGroup: the location tried and the profile it is loaded for. */
  datatype Candidate = Candidate(location: string, profile: Option<Profile>)

  /** The profile-specific files named after already processed profiles. */
  function ProcessedCandidates(base: string, ext: string, profile: Option<Profile>, processed: seq<Option<Profile>>): (r: seq<Candidate>)
    ensures forall i :: 0 <= i < |r| ==> r[i].profile == profile
    ensures |r| <= |processed|
    decreases |processed|
  {
    if processed == [] then []
    else
      var rest := ProcessedCandidates(base, ext, profile, processed[1..]);
      match processed[0]
      case None => rest
      case Some(q) => [Candidate(base + "-" + q.name + "." + ext, profile)] + rest
  }

  /** The candidates of one extension, in the order load(location, name, profile) tries them. */
  function ExtensionCandidates(base: string, ext: string, profile: Option<Profile>, processed: seq<Option<Profile>>): seq<Candidate> {
    (if profile.Some? then
       [Candidate(base + "-" + profile.value.name + "." + ext, None)]
       + ProcessedCandidates(base, ext, profile, processed)
       + [Candidate(base + "-" + profile.value.name + "." + ext, profile)]
     else [])
    + [Candidate(base + "." + ext, profile)]
  }

  function AllExtensionCandidates(base: string, exts: seq<string>, profile: Option<Profile>, processed: seq<Option<Profile>>): seq<Candidate>
    decreases |exts|
  {
    if exts == [] then []
    else ExtensionCandidates(base, exts[0], profile, processed) + AllExtensionCandidates(base, exts[1..], profile, processed)
  }

  /** load(location, name, profile): the location itself when the name has no text. */
  function NameCandidates(location: string, name: Option<string>, profile: Option<Profile>, processed: seq<Option<Profile>>): seq<Candidate> {
    if !HasText(name) then [Candidate(location, profile)]
    else AllExtensionCandidates(location + name.value, EXTENSIONS, profile, processed)
  }

  function NamesCandidates(location: string, names: seq<string>, profile: Option<Profile>, processed: seq<Option<Profile>>): seq<Candidate>
    decreases |names|
  {
    if names == [] then []
    else NameCandidates(location, Some(names[0]), profile, processed) + NamesCandidates(location, names[1..], profile, processed)
  }

  /** A location not ending in "/" is a file name: loaded directly, search names ignored. */
  function LocationCandidates(location: string, names: seq<string>, profile: Option<Profile>, processed: seq<Option<Profile>>): seq<Candidate> {
    if !EndsWith(location, "/") then NameCandidates(location, None, profile, processed)
    else NamesCandidates(location, names, profile, processed)
  }

  /** Every candidate of one pass of the loader, for one profile. */
  function PassCandidates(locations: seq<string>, names: seq<string>, profile: Option<Profile>, processed: seq<Option<Profile>>): seq<Candidate>
    decreases |locations|
  {
    if locations == [] then []
    else LocationCandidates(locations[0], names, profile, processed) + PassCandidates(locations[1..], names, profile, processed)
  }

  /** The number of non-null profiles in a list. */
  function CountProfiles(ps: seq<Option<Profile>>): nat
    decreases |ps|
  {
    if ps == [] then 0 else (if ps[0].Some? then 1 else 0) + CountProfiles(ps[1..])
  }

  lemma {:induction false} ProcessedCandidatesCount(base: string, ext: string, profile: Option<Profile>, processed: seq<Option<Profile>>)
    ensures |ProcessedCandidates(base, ext, profile, processed)| == CountProfiles(processed)
    decreases |processed|
  {
    if processed != [] {
      ProcessedCandidatesCount(base, ext, profile, processed[1..]);
    }
  }

  /**
   * For a profile p, each extension tries: the p-specific file untagged, the file of every
   * processed profile tagged with p, the p-specific file tagged with p, and the plain file
   * tagged with p. Without a profile it tries only the plain file.
   */
  lemma ExtensionCandidatesSpec(base: string, ext: string, profile: Option<Profile>, processed: seq<Option<Profile>>)
    ensures var r := ExtensionCandidates(base, ext, profile, processed);
      |r| == (if profile.Some? then 3 + CountProfiles(processed) else 1)
      && r[|r| - 1] == Candidate(base + "." + ext, profile)
      && (profile.None? ==> r == [Candidate(base + "." + ext, None)])
      && (profile.Some? ==>
            var specific := base + "-" + profile.value.name + "." + ext;
            r[0] == Candidate(specific, None) && r[|r| - 2] == Candidate(specific, profile)
            && forall i :: 0 < i < |r| ==> r[i].profile == profile)
  {
    ProcessedCandidatesCount(base, ext, profile, processed);
    var r := ExtensionCandidates(base, ext, profile, processed);
    if profile.Some? {
      var specific := base + "-" + profile.value.name + "." + ext;
      var mid := ProcessedCandidates(base, ext, profile, processed);
      assert r == [Candidate(specific, None)] + mid + [Candidate(specific, profile)] + [Candidate(base + "." + ext, profile)];
      forall i | 0 < i < |r|
        ensures r[i].profile == profile
      {
        if i <= |mid| {
          assert r[i] == mid[i - 1];
        }
      }
    }
  }

  /** Every candidate of a location names a path under that location, or the location itself. */
  lemma {:induction false} LocationCandidatesUnder(location: string, names: seq<string>, profile: Option<Profile>, processed: seq<Option<Profile>>)
    ensures forall c :: c in LocationCandidates(location, names, profile, processed) ==> StartsWith(c.location, location)
  {
    if EndsWith(location, "/") {
      NamesCandidatesUnder(location, names, profile, processed);
    } else {
      StartsWithAppend(location, "");
      assert location + "" == location;
    }
  }

  lemma {:induction false} NamesCandidatesUnder(location: string, names: seq<string>, profile: Option<Profile>, processed: seq<Option<Profile>>)
    ensures forall c :: c in NamesCandidates(location, names, profile, processed) ==> StartsWith(c.location, location)
    decreases |names|
  {
    if names != [] {
      NamesCandidatesUnder(location, names[1..], profile, processed);
      var name := Some(names[0]);
      if !HasText(name) {
        StartsWithAppend(location, "");
        assert location + "" == location;
      } else {
        AllExtensionsUnder(location, names[0], EXTENSIONS, profile, processed);
      }
    }
  }

  lemma {:induction false} AllExtensionsUnder(location: string, name: string, exts: seq<string>, profile: Option<Profile>, processed: seq<Option<Profile>>)
    ensures forall c :: c in AllExtensionCandidates(location + name, exts, profile, processed) ==> StartsWith(c.location, location)
    decreases |exts|
  {
    if exts != [] {
      AllExtensionsUnder(location, name, exts[1..], profile, processed);
      StartsWithAppend(location, name);
      ExtensionUnder(location + name, exts[0], profile, processed);
      forall c | c in ExtensionCandidates(location + name, exts[0], profile, processed)
        ensures StartsWith(c.location, location)
      {
        StartsWithTransitive(c.location, location + name, location);
      }
    }
  }

  lemma ExtensionUnder(base: string, ext: string, profile: Option<Profile>, processed: seq<Option<Profile>>)
    ensures forall c :: c in ExtensionCandidates(base, ext, profile, processed) ==> StartsWith(c.location, base)
  {
    ProcessedUnder(base, ext, profile, processed);
    StartsWithAppend(base, "." + ext);
    assert base + "." + ext == base + ("." + ext);
    if profile.Some? {
      StartsWithAppend(base, "-" + profile.value.name + "." + ext);
      assert base + "-" + profile.value.name + "." + ext == base + ("-" + profile.value.name + "." + ext);
    }
  }

  lemma {:induction false} ProcessedUnder(base: string, ext: string, profile: Option<Profile>, processed: seq<Option<Profile>>)
    ensures forall c :: c in ProcessedCandidates(base, ext, profile, processed) ==> StartsWith(c.location, base)
    decreases |processed|
  {
    if processed != [] {
      ProcessedUnder(base, ext, profile, processed[1..]);
      if processed[0].Some? {
        var q := processed[0].value;
        StartsWithAppend(base, "-" + q.name + "." + ext);
        assert base + "-" + q.name + "." + ext == base + ("-" + q.name + "." + ext);
      }
    }
  }

  // ---------------------------------------------------------------------------------------
  // Loading one existing file (PropertySourcesLoader and the two PropertySourceLoaders)

  /**
   * What reading a resource yields: its properties (for YAML, the documents that match the
   * requested profile, flattened) or an error (an IOException or a parse error).
   */
  datatype ParseOutcome = Parsed(values: map<string, string>) | ParseError(error: Throwable)

  /** The resource reader: location and requested profile to outcome. */
  type Parser = (string, Option<string>) -> ParseOutcome

  /** The name of a loaded source: the file's name, with "#profile" when loaded for a profile. */
  function SourceName(name: string, profile: Option<string>): string {
    if profile.Some? then name + "#" + profile.value else name
  }

  predicate HasExtension(location: string, ext: string) {
    EndsWith(LowerAscii(location), "." + ext)
  }

  /** The outcome of a loader: a source with the values, or null when there are none. */
  function FromOutcome(outcome: ParseOutcome, sourceName: string): Result<Option<PS.PropertySource>, Throwable> {
    match outcome
    case ParseError(e) => Failure(e)
    case Parsed(values) => if values == map[] then Success(None) else Success(Some(PS.MapSource(sourceName, values)))
  }

  /**
   * PropertySourcesLoader.load on an existing resource: the first loader whose extension
   * matches reads it. The properties/xml loader yields null when asked for a profile; no
   * matching loader also yields null.
   */
  function LoadFile(location: string, name: string, profile: Option<string>, parse: Parser): (r: Result<Option<PS.PropertySource>, Throwable>)
    ensures r.Success? && r.value.Some? ==> PS.Name(r.value.value) == SourceName(name, profile)
    ensures (HasExtension(location, "properties") || HasExtension(location, "xml")) && profile.Some? ==> r == Success(None)
  {
    var sourceName := SourceName(name, profile);
    if HasExtension(location, "properties") || HasExtension(location, "xml") then
      if profile.Some? then Success(None) else FromOutcome(parse(location, None), sourceName)
    else if HasExtension(location, "yml") || HasExtension(location, "yaml") then
      FromOutcome(parse(location, profile), sourceName)
    else
      Success(None)
  }

  /** The group a load(location, name, profile) call adds to: "profile=" and the profile name. */
  function GroupIdentifier(profile: Option<Profile>): string {
    "profile=" + (if profile.Some? then profile.value.name else "")
  }

  function GroupName(identifier: string): string {
    "applicationConfig: [" + identifier + "]"
  }

  function ResourceName(location: string): string {
    "applicationConfig: [" + location + "]"
  }

  /** loadIntoGroup's error: an IllegalStateException naming the location, caused by `cause`. */
  function LoadFailure(location: string, cause: Throwable): Throwable {
    NewIllegalState("Failed to load property source from location '" + location + "'", cause)
  }

  /** An error that is loadIntoGroup's report for `location`, whatever its cause. */
  predicate FailedToLoad(r: Option<Throwable>, location: string) {
    r.Some? && |r.value| > 0 && r.value == LoadFailure(location, r.value[1..])
  }

  /** A group gains a source unless it already has one of that name (a LinkedHashSet). */
  function AddMember(members: seq<PS.PropertySource>, s: PS.PropertySource): seq<PS.PropertySource> {
    if PS.Named(members, PS.Name(s)) then members else members + [s]
  }

  /**
   * Adding a loaded source to its group: an existing group is replaced in place by the
   * group with the new member, a new group goes first.
   */
  function AddToGroup(groups: seq<PS.PropertySource>, group: string, s: PS.PropertySource): seq<PS.PropertySource> {
    var existing := PS.Get(groups, group);
    if existing.Some? && existing.value.Group? then
      var replaced := PS.Replace(groups, group, PS.Group(group, AddMember(existing.value.members, s)));
      if replaced.Success? then replaced.value else groups
    else PS.AddFirst(groups, PS.Group(group, [s]))
  }

  /** Each group is a Group named after its identifier. */
  predicate WellFormedGroups(groups: seq<PS.PropertySource>) {
    PS.UniqueNames(groups) && forall i :: 0 <= i < |groups| ==> groups[i].Group?
  }

  /** Adding to groups keeps them well formed, and the new source is then in its group. */
  lemma AddToGroupSpec(groups: seq<PS.PropertySource>, group: string, s: PS.PropertySource)
    requires WellFormedGroups(groups)
    ensures WellFormedGroups(AddToGroup(groups, group, s))
    ensures PS.Named(AddToGroup(groups, group, s), group)
    ensures PS.Named(groups, group) ==> |AddToGroup(groups, group, s)| == |groups|
    ensures !PS.Named(groups, group) ==> AddToGroup(groups, group, s)[0] == PS.Group(group, [s])
  {
    if PS.Named(groups, group) {
      AddToExistingGroup(groups, group, s);
    } else {
      AddToNewGroup(groups, group, s);
    }
  }

  lemma AddToExistingGroup(groups: seq<PS.PropertySource>, group: string, s: PS.PropertySource)
    requires WellFormedGroups(groups) && PS.Named(groups, group)
    ensures WellFormedGroups(AddToGroup(groups, group, s))
    ensures PS.Named(AddToGroup(groups, group, s), group)
    ensures |AddToGroup(groups, group, s)| == |groups|
  {
    var r := AddToGroup(groups, group, s);
    var g := PS.Get(groups, group).value;
    var i := PS.IndexOfName(groups, group).value;
    assert g == groups[i] && g.Group?;
    var g' := PS.Group(group, AddMember(g.members, s));
    assert r == groups[i := g'];
    assert PS.Names(r) == PS.Names(groups) by {
      assert forall k :: 0 <= k < |r| ==> PS.Name(r[k]) == PS.Name(groups[k]);
    }
    assert PS.Name(r[i]) == group;
  }

  lemma AddToNewGroup(groups: seq<PS.PropertySource>, group: string, s: PS.PropertySource)
    requires WellFormedGroups(groups) && !PS.Named(groups, group)
    ensures WellFormedGroups(AddToGroup(groups, group, s))
    ensures PS.Named(AddToGroup(groups, group, s), group)
    ensures AddToGroup(groups, group, s)[0] == PS.Group(group, [s])
  {
    var r := AddToGroup(groups, group, s);
    PS.AddFirstSpec(groups, PS.Group(group, [s]));
    assert PS.Names(r)[0] == group;
    forall k | 0 <= k < |r|
      ensures r[k].Group?
    {
      if k > 0 {
        assert r[k] == PS.RemoveNamed(groups, group)[k - 1];
      }
    }
  }

  /**
   * The groups after loadIntoGroup has been called for one candidate in a pass whose group
   * identifier is `identifier`: unchanged when the resource does not exist, cannot be read or
   * yields nothing; otherwise the loaded source joins the pass's group.
   */
  /** What loadIntoGroup reads for a candidate whose resource exists. */
  function CandidateSource(c: Candidate, parse: Parser): Result<Option<PS.PropertySource>, Throwable> {
    LoadFile(c.location, ResourceName(c.location), if c.profile.Some? then Some(c.profile.value.name) else None, parse)
  }

  function LoadedInto(groups: seq<PS.PropertySource>, identifier: string, c: Candidate, present: string -> bool, parse: Parser): seq<PS.PropertySource> {
    if !present(c.location) then groups
    else
      match CandidateSource(c, parse)
      case Success(Some(source)) => AddToGroup(groups, GroupName(identifier), source)
      case _ => groups
  }

  /** The groups after loadIntoGroup has been called for each candidate in turn. */
  function LoadedGroups(groups: seq<PS.PropertySource>, identifier: string, cs: seq<Candidate>, present: string -> bool, parse: Parser): seq<PS.PropertySource>
    decreases |cs|
  {
    if cs == [] then groups
    else LoadedInto(LoadedGroups(groups, identifier, cs[..|cs| - 1], present, parse), identifier, cs[|cs| - 1], present, parse)
  }

  /** Every candidate tried by the passes for `processed`, the i-th pass seeing processed[..i]. */
  function PassesTried(locations: seq<string>, names: seq<string>, processed: seq<Option<Profile>>): seq<Candidate>
    decreases |processed|
  {
    if processed == [] then []
    else
      var earlier := processed[..|processed| - 1];
      PassesTried(locations, names, earlier) + PassCandidates(locations, names, processed[|processed| - 1], earlier)
  }

  /** The groups the passes for `processed` collect, each pass into its own profile's group. */
  function PassesGroups(groups: seq<PS.PropertySource>, locations: seq<string>, names: seq<string>, processed: seq<Option<Profile>>, present: string -> bool, parse: Parser): seq<PS.PropertySource>
    decreases |processed|
  {
    if processed == [] then groups
    else
      var earlier := processed[..|processed| - 1];
      var profile := processed[|processed| - 1];
      LoadedGroups(PassesGroups(groups, locations, names, earlier, present, parse), GroupIdentifier(profile),
        PassCandidates(locations, names, profile, earlier), present, parse)
  }

  /** The group named `group` holds a member named `name`. */
  predicate InGroup(groups: seq<PS.PropertySource>, group: string, name: string) {
    exists i :: 0 <= i < |groups| && PS.Name(groups[i]) == group && groups[i].Group? && PS.Named(groups[i].members, name)
  }

  /** Adding to a group never takes a member out of any group. */
  lemma AddToGroupKeeps(groups: seq<PS.PropertySource>, group: string, s: PS.PropertySource, other: string, name: string)
    requires WellFormedGroups(groups) && InGroup(groups, other, name)
    ensures InGroup(AddToGroup(groups, group, s), other, name)
  {
    var j :| 0 <= j < |groups| && PS.Name(groups[j]) == other && groups[j].Group? && PS.Named(groups[j].members, name);
    var r := AddToGroup(groups, group, s);
    if PS.Named(groups, group) {
      var i := PS.IndexOfName(groups, group).value;
      var g' := PS.Group(group, AddMember(groups[i].members, s));
      assert r == groups[i := g'];
      if i == j {
        assert PS.Names(groups[j].members) <= PS.Names(g'.members);
        assert PS.Named(r[j].members, name);
      } else {
        assert r[j] == groups[j];
      }
    } else {
      assert PS.RemoveNamed(groups, group) == groups;
      assert r[j + 1] == groups[j];
    }
  }

  /** The source just added is then a member of its group, by name. */
  lemma AddToGroupHolds(groups: seq<PS.PropertySource>, group: string, s: PS.PropertySource)
    requires WellFormedGroups(groups)
    ensures InGroup(AddToGroup(groups, group, s), group, PS.Name(s))
  {
    var r := AddToGroup(groups, group, s);
    if PS.Named(groups, group) {
      var i := PS.IndexOfName(groups, group).value;
      var g' := PS.Group(group, AddMember(groups[i].members, s));
      assert r == groups[i := g'];
      if !PS.Named(groups[i].members, PS.Name(s)) {
        assert PS.Names(g'.members)[|groups[i].members|] == PS.Name(s);
      }
      assert r[i] == g';
    } else {
      assert r[0] == PS.Group(group, [s]);
      assert PS.Names([s])[0] == PS.Name(s);
    }
  }

  /** The groups stay well formed whatever the candidates load. */
  lemma {:induction false} LoadedGroupsWellFormed(groups: seq<PS.PropertySource>, identifier: string, cs: seq<Candidate>, present: string -> bool, parse: Parser)
    requires WellFormedGroups(groups)
    ensures WellFormedGroups(LoadedGroups(groups, identifier, cs, present, parse))
    decreases |cs|
  {
    if cs != [] {
      var before := LoadedGroups(groups, identifier, cs[..|cs| - 1], present, parse);
      LoadedGroupsWellFormed(groups, identifier, cs[..|cs| - 1], present, parse);
      var c := cs[|cs| - 1];
      if present(c.location) {
        match CandidateSource(c, parse)
        case Success(Some(source)) => AddToGroupSpec(before, GroupName(identifier), source);
        case _ =>
      }
    }
  }

  /**
   * Every candidate that exists and yields a source leaves a member of that source's name in
   * the pass's group; later candidates never take it out.
   */
  lemma {:induction false} LoadedGroupsHold(groups: seq<PS.PropertySource>, identifier: string, cs: seq<Candidate>, present: string -> bool, parse: Parser, k: nat)
    requires WellFormedGroups(groups) && k < |cs| && present(cs[k].location)
    requires CandidateSource(cs[k], parse).Success?
    requires CandidateSource(cs[k], parse).value.Some?
    ensures var source := CandidateSource(cs[k], parse).value.value;
      InGroup(LoadedGroups(groups, identifier, cs, present, parse), GroupName(identifier), PS.Name(source))
    decreases |cs|
  {
    var c := cs[k];
    var source := CandidateSource(c, parse).value.value;
    var init := cs[..|cs| - 1];
    var before := LoadedGroups(groups, identifier, init, present, parse);
    LoadedGroupsWellFormed(groups, identifier, init, present, parse);
    var last := cs[|cs| - 1];
    if k == |cs| - 1 {
      AddToGroupHolds(before, GroupName(identifier), source);
    } else {
      assert init[k] == c;
      LoadedGroupsHold(groups, identifier, init, present, parse, k);
      if present(last.location) {
        match CandidateSource(last, parse)
        case Success(Some(s)) => AddToGroupKeeps(before, GroupName(identifier), s, GroupName(identifier), PS.Name(source));
        case _ =>
      }
    }
  }

  /** Candidates whose resources do not exist leave the groups as they are. */
  lemma {:induction false} LoadedGroupsAbsent(groups: seq<PS.PropertySource>, identifier: string, cs: seq<Candidate>, present: string -> bool, parse: Parser)
    requires forall i :: 0 <= i < |cs| ==> !present(cs[i].location)
    ensures LoadedGroups(groups, identifier, cs, present, parse) == groups
    decreases |cs|
  {
    if cs != [] {
      LoadedGroupsAbsent(groups, identifier, cs[..|cs| - 1], present, parse);
    }
  }

  /** Loading one candidate more loads it into the groups the earlier ones left. */
  lemma LoadedGroupsStep(groups: seq<PS.PropertySource>, identifier: string, cs: seq<Candidate>, i: nat, present: string -> bool, parse: Parser)
    requires i < |cs|
    ensures LoadedGroups(groups, identifier, cs[..i + 1], present, parse)
      == LoadedGroups(LoadedGroups(groups, identifier, cs[..i], present, parse), identifier, [cs[i]], present, parse)
  {
    assert cs[..i + 1][..i] == cs[..i];
    assert [cs[i]][..0] == [];
  }

  /** One more pass adds its candidates after the earlier passes' ones. */
  lemma PassesStep(groups: seq<PS.PropertySource>, locations: seq<string>, names: seq<string>, processed: seq<Option<Profile>>, profile: Option<Profile>, present: string -> bool, parse: Parser)
    ensures PassesTried(locations, names, processed + [profile])
      == PassesTried(locations, names, processed) + PassCandidates(locations, names, profile, processed)
    ensures PassesGroups(groups, locations, names, processed + [profile], present, parse)
      == LoadedGroups(PassesGroups(groups, locations, names, processed, present, parse), GroupIdentifier(profile),
           PassCandidates(locations, names, profile, processed), present, parse)
  {
    assert (processed + [profile])[..|processed|] == processed;
  }

  // ---------------------------------------------------------------------------------------
  // The loaded layers in the environment

  /** ConfigurationPropertySources.getProperty: the first member with a value answers. */
  lemma ConfigurationGetProperty(members: seq<PS.PropertySource>, key: string)
    ensures PS.Lookup(PS.Configuration(members), key).Some? <==> exists i :: 0 <= i < |members| && PS.Lookup(members[i], key).Some?
    ensures PS.Lookup(PS.Configuration(members), key).Some? ==>
      exists i :: PS.AnswersAt(members, key, i) && PS.Lookup(PS.Configuration(members), key) == PS.Lookup(members[i], key)
  {
    PS.LookupFirstIsFirstMatch(members, key);
  }

  /**
   * addConfigurationProperties: the loaded groups, in the loader's order, as one source placed
   * just before `defaultProperties` when the environment has it, and last otherwise.
   */
  function AddConfigurationProperties(ss: seq<PS.PropertySource>, groups: seq<PS.PropertySource>): Result<seq<PS.PropertySource>, Throwable> {
    var layers := PS.Configuration(groups);
    if PS.Named(ss, PS.DEFAULT_PROPERTIES) then PS.AddBefore(ss, PS.DEFAULT_PROPERTIES, layers)
    else Success(PS.AddLast(ss, layers))
  }

  lemma AddConfigurationPropertiesSpec(ss: seq<PS.PropertySource>, groups: seq<PS.PropertySource>)
    ensures AddConfigurationProperties(ss, groups).Success?
    ensures PS.UniqueNames(ss) ==> var r := AddConfigurationProperties(ss, groups);
      PS.UniqueNames(r.value)
      && (PS.Named(ss, PS.DEFAULT_PROPERTIES) ==>
            exists i :: 0 <= i < |r.value| - 1 && r.value[i] == PS.Configuration(groups) && PS.Name(r.value[i + 1]) == PS.DEFAULT_PROPERTIES)
      && (!PS.Named(ss, PS.DEFAULT_PROPERTIES) ==> r.value[|r.value| - 1] == PS.Configuration(groups))
  {
    if PS.Named(ss, PS.DEFAULT_PROPERTIES) {
      PS.RelativeSurvivesRemoval(ss, PS.APPLICATION_CONFIGURATION, PS.DEFAULT_PROPERTIES);
      if PS.UniqueNames(ss) {
        PS.AddBeforeSpec(ss, PS.DEFAULT_PROPERTIES, PS.Configuration(groups));
      }
    } else if PS.UniqueNames(ss) {
      PS.AddLastSpec(ss, PS.Configuration(groups));
    }
  }

  const CLASS_CAST_EXCEPTION := "java.lang.ClassCastException"

  /** One `addAfter` of finishAndRelocate: the source, and whether the anchor moves to it. */
  datatype Relocation = Relocation(source: PS.PropertySource, advance: bool)

  /**
   * The additions finishAndRelocate makes for the members of the loaded layers: each source of
   * a group, moving the anchor along, or a member that is not a group, at the fixed anchor.
   */
  function Relocations(members: seq<PS.PropertySource>): (r: seq<Relocation>)
    decreases |members|
  {
    if members == [] then []
    else
      var m := members[0];
      var here := if m.Group? then seq(|m.members|, i requires 0 <= i < |m.members| => Relocation(m.members[i], true))
                  else [Relocation(m, false)];
      here + Relocations(members[1..])
  }

  /** The members of the loaded layers with each group replaced by its sources. */
  function Flatten(members: seq<PS.PropertySource>): seq<PS.PropertySource>
    decreases |members|
  {
    if members == [] then []
    else (if members[0].Group? then members[0].members else [members[0]]) + Flatten(members[1..])
  }

  /** The additions, one after the other, each after the current anchor. */
  function ApplyRelocations(ss: seq<PS.PropertySource>, anchor: string, steps: seq<Relocation>): Result<seq<PS.PropertySource>, Throwable>
    decreases |steps|
  {
    if steps == [] then Success(ss)
    else
      match PS.AddAfter(ss, anchor, steps[0].source)
      case Failure(e) => Failure(e)
      case Success(ss') => ApplyRelocations(ss', if steps[0].advance then PS.Name(steps[0].source) else anchor, steps[1..])
  }

  /**
   * ConfigurationPropertySources.finishAndRelocate: the loaded layers, if present, give way to
   * their members, which are added after them; then the aggregate itself is removed. A source
   * of that name that is not the loaded layers fails the cast.
   */
  function FinishAndRelocate(ss: seq<PS.PropertySource>): Result<seq<PS.PropertySource>, Throwable> {
    match PS.Get(ss, PS.APPLICATION_CONFIGURATION)
    case None => Success(ss)
    case Some(layers) =>
      if !layers.Configuration? then Failure(NewRuntime(CLASS_CAST_EXCEPTION, None, []))
      else
        match ApplyRelocations(ss, PS.APPLICATION_CONFIGURATION, Relocations(layers.members))
        case Failure(e) => Failure(e)
        case Success(ss') => Success(PS.RemoveNamed(ss', PS.APPLICATION_CONFIGURATION))
  }

  /** PropertySourceOrderingPostProcessor.reorderSources: relocate, then move `defaultProperties` last. */
  function ReorderSources(ss: seq<PS.PropertySource>): Result<seq<PS.PropertySource>, Throwable> {
    match FinishAndRelocate(ss)
    case Failure(e) => Failure(e)
    case Success(relocated) =>
      var (rest, defaults) := PS.Remove(relocated, PS.DEFAULT_PROPERTIES);
      if defaults.Some? then Success(PS.AddLast(rest, defaults.value)) else Success(rest)
  }

  /** With the loaded layers absent, relocation changes nothing. */
  lemma FinishAndRelocateAbsent(ss: seq<PS.PropertySource>)
    requires !PS.Named(ss, PS.APPLICATION_CONFIGURATION)
    ensures FinishAndRelocate(ss) == Success(ss)
  {
  }

  /** When every member is a group, every addition moves the anchor and the sources are the flattening. */
  lemma {:induction false} RelocationsOfGroups(members: seq<PS.PropertySource>)
    requires forall i :: 0 <= i < |members| ==> members[i].Group?
    ensures |Relocations(members)| == |Flatten(members)|
    ensures forall i :: 0 <= i < |Relocations(members)| ==>
      Relocations(members)[i] == Relocation(Flatten(members)[i], true)
    decreases |members|
  {
    if members != [] {
      RelocationsOfGroups(members[1..]);
    }
  }

  /** An index of a unique name is where a lookup by that name lands. */
  lemma IndexOfUniqueName(ss: seq<PS.PropertySource>, i: nat)
    requires i < |ss| && PS.UniqueNames(ss)
    ensures PS.IndexOfName(ss, PS.Name(ss[i])) == Some(i)
  {
    assert PS.Names(ss)[i] == PS.Name(ss[i]);
    var j := PS.IndexOfName(ss, PS.Name(ss[i])).value;
    assert PS.Names(ss)[j] == PS.Names(ss)[i];
  }

  /** The additions of `sources`, each moving the anchor along. */
  function Advancing(sources: seq<PS.PropertySource>): (r: seq<Relocation>)
    ensures |r| == |sources| && forall i :: 0 <= i < |sources| ==> r[i] == Relocation(sources[i], true)
  {
    seq(|sources|, i requires 0 <= i < |sources| => Relocation(sources[i], true))
  }

  /** One addition of a fresh source right after a uniquely named anchor. */
  lemma AddAfterFresh(before: seq<PS.PropertySource>, anchor: PS.PropertySource, after: seq<PS.PropertySource>, n: PS.PropertySource)
    requires PS.UniqueNames(before + [anchor] + after)
    requires !PS.Named(before + [anchor] + after, PS.Name(n))
    ensures PS.AddAfter(before + [anchor] + after, PS.Name(anchor), n) == Success((before + [anchor]) + [n] + after)
    ensures PS.UniqueNames((before + [anchor]) + [n] + after)
  {
    var ss := before + [anchor] + after;
    assert PS.Names(ss)[|before|] == PS.Name(anchor);
    assert PS.RemoveNamed(ss, PS.Name(n)) == ss;
    assert ss[|before|] == anchor;
    IndexOfUniqueName(ss, |before|);
    assert Text.InsertAt(ss, |before| + 1, n) == (before + [anchor]) + [n] + after;
    PS.InsertUnique(ss, |before| + 1, n);
  }

  /** Names fresh for a list stay fresh once a source of another name is inserted. */
  lemma FreshAfterInsert(before: seq<PS.PropertySource>, after: seq<PS.PropertySource>, n: PS.PropertySource, name: string)
    requires !PS.Named(before + after, name) && name != PS.Name(n)
    ensures !PS.Named(before + [n] + after, name)
  {
    var ss := before + after;
    var ss' := before + [n] + after;
    forall k | 0 <= k < |ss'|
      ensures PS.Names(ss')[k] != name
    {
      if k < |before| {
        assert ss'[k] == ss[k];
      } else if k > |before| {
        assert ss'[k] == ss[k - 1];
      }
    }
  }

  /** What the rest of the sources still satisfy once the first one has been added. */
  lemma AdvancingTail(ss: seq<PS.PropertySource>, before: seq<PS.PropertySource>, after: seq<PS.PropertySource>, sources: seq<PS.PropertySource>)
    requires |sources| > 0 && ss == before + after
    requires NoDup(PS.Names(sources))
    requires forall i :: 0 <= i < |sources| ==> !PS.Named(ss, PS.Name(sources[i]))
    ensures NoDup(PS.Names(sources[1..]))
    ensures forall i :: 0 <= i < |sources| - 1 ==> !PS.Named(before + [sources[0]] + after, PS.Name(sources[1..][i]))
  {
    var rest := sources[1..];
    forall a, b | 0 <= a < b < |rest|
      ensures PS.Names(rest)[a] != PS.Names(rest)[b]
    {
      assert PS.Names(sources)[a + 1] != PS.Names(sources)[b + 1];
    }
    forall i | 0 <= i < |rest|
      ensures !PS.Named(before + [sources[0]] + after, PS.Name(rest[i]))
    {
      assert PS.Names(sources)[i + 1] != PS.Names(sources)[0];
      FreshAfterInsert(before, after, sources[0], PS.Name(rest[i]));
    }
  }

  /**
   * Adding fresh, distinct sources one after the other, each after the previous one, lays
   * them out in their own order right after the first anchor.
   */
  lemma {:induction false} ApplyAdvancing(before: seq<PS.PropertySource>, anchor: PS.PropertySource, after: seq<PS.PropertySource>, sources: seq<PS.PropertySource>)
    requires PS.UniqueNames(before + [anchor] + after)
    requires NoDup(PS.Names(sources))
    requires forall i :: 0 <= i < |sources| ==> !PS.Named(before + [anchor] + after, PS.Name(sources[i]))
    ensures ApplyRelocations(before + [anchor] + after, PS.Name(anchor), Advancing(sources))
            == Success(before + [anchor] + sources + after)
    decreases |sources|, 1
  {
    if sources == [] {
      ApplyNone(before, anchor, after, sources);
    } else {
      ApplyFirst(before, anchor, after, sources);
      ApplyRest(before, anchor, after, sources);
      ShiftHead(before, anchor, sources, after);
    }
  }

  lemma ApplyNone(before: seq<PS.PropertySource>, anchor: PS.PropertySource, after: seq<PS.PropertySource>, sources: seq<PS.PropertySource>)
    requires sources == []
    ensures ApplyRelocations(before + [anchor] + after, PS.Name(anchor), Advancing(sources))
            == Success(before + [anchor] + sources + after)
  {
    assert Advancing(sources) == [];
    assert before + [anchor] + sources + after == before + [anchor] + after;
  }

  /** The first addition of ApplyAdvancing. */
  lemma ApplyFirst(before: seq<PS.PropertySource>, anchor: PS.PropertySource, after: seq<PS.PropertySource>, sources: seq<PS.PropertySource>)
    requires |sources| > 0
    requires PS.UniqueNames(before + [anchor] + after)
    requires forall i :: 0 <= i < |sources| ==> !PS.Named(before + [anchor] + after, PS.Name(sources[i]))
    ensures ApplyRelocations(before + [anchor] + after, PS.Name(anchor), Advancing(sources))
         == ApplyRelocations((before + [anchor]) + [sources[0]] + after, PS.Name(sources[0]), Advancing(sources[1..]))
  {
    var n := sources[0];
    AddAfterFresh(before, anchor, after, n);
    ApplyStep(before + [anchor] + after, PS.Name(anchor), Advancing(sources), (before + [anchor]) + [n] + after);
    assert Advancing(sources)[1..] == Advancing(sources[1..]);
  }

  /** The remaining additions of ApplyAdvancing. */
  lemma {:induction false} ApplyRest(before: seq<PS.PropertySource>, anchor: PS.PropertySource, after: seq<PS.PropertySource>, sources: seq<PS.PropertySource>)
    requires |sources| > 0
    requires PS.UniqueNames(before + [anchor] + after)
    requires NoDup(PS.Names(sources))
    requires forall i :: 0 <= i < |sources| ==> !PS.Named(before + [anchor] + after, PS.Name(sources[i]))
    ensures ApplyRelocations((before + [anchor]) + [sources[0]] + after, PS.Name(sources[0]), Advancing(sources[1..]))
         == Success((before + [anchor]) + [sources[0]] + sources[1..] + after)
    decreases |sources|, 0
  {
    var ss := before + [anchor] + after;
    AddAfterFresh(before, anchor, after, sources[0]);
    assert ss == (before + [anchor]) + after;
    AdvancingTail(ss, before + [anchor], after, sources);
    ApplyAdvancing(before + [anchor], sources[0], after, sources[1..]);
  }

  lemma ShiftHead<T>(before: seq<T>, anchor: T, sources: seq<T>, after: seq<T>)
    requires |sources| > 0
    ensures (before + [anchor]) + [sources[0]] + sources[1..] + after == before + [anchor] + sources + after
  {
    assert [sources[0]] + sources[1..] == sources;
  }

  /** One successful addition, then the rest. */
  lemma ApplyStep(ss: seq<PS.PropertySource>, anchor: string, steps: seq<Relocation>, ss': seq<PS.PropertySource>)
    requires |steps| > 0 && PS.AddAfter(ss, anchor, steps[0].source) == Success(ss')
    ensures ApplyRelocations(ss, anchor, steps)
      == ApplyRelocations(ss', if steps[0].advance then PS.Name(steps[0].source) else anchor, steps[1..])
  {
  }

  /**
   * finishAndRelocate as the loader uses it: when the loaded layers hold only groups whose
   * sources have fresh, distinct names, the layers are replaced in place by those sources, in
   * order.
   */
  lemma FinishAndRelocateGroups(before: seq<PS.PropertySource>, groups: seq<PS.PropertySource>, after: seq<PS.PropertySource>)
    requires PS.UniqueNames(before + [PS.Configuration(groups)] + after)
    requires forall i :: 0 <= i < |groups| ==> groups[i].Group?
    requires NoDup(PS.Names(Flatten(groups)))
    requires forall i :: 0 <= i < |Flatten(groups)| ==> !PS.Named(before + after, PS.Name(Flatten(groups)[i]))
    requires forall i :: 0 <= i < |Flatten(groups)| ==> PS.Name(Flatten(groups)[i]) != PS.APPLICATION_CONFIGURATION
    ensures FinishAndRelocate(before + [PS.Configuration(groups)] + after) == Success(before + Flatten(groups) + after)
  {
    var layers := PS.Configuration(groups);
    var ss := before + [layers] + after;
    var flat := Flatten(groups);
    var placed := before + [layers] + flat + after;
    GetLayers(before, layers, after);
    FreshForLayers(before, layers, after, flat);
    ApplyGroups(before, groups, after);
    RemoveLayers(before, layers, flat, after);
    FinishUnfold(ss, groups, placed);
  }

  lemma FinishUnfold(ss: seq<PS.PropertySource>, groups: seq<PS.PropertySource>, placed: seq<PS.PropertySource>)
    requires PS.Get(ss, PS.APPLICATION_CONFIGURATION) == Some(PS.Configuration(groups))
    requires ApplyRelocations(ss, PS.APPLICATION_CONFIGURATION, Relocations(groups)) == Success(placed)
    ensures FinishAndRelocate(ss) == Success(PS.RemoveNamed(placed, PS.APPLICATION_CONFIGURATION))
  {
  }

  lemma GetLayers(before: seq<PS.PropertySource>, layers: PS.PropertySource, after: seq<PS.PropertySource>)
    requires PS.UniqueNames(before + [layers] + after)
    ensures PS.Get(before + [layers] + after, PS.Name(layers)) == Some(layers)
  {
    var ss := before + [layers] + after;
    IndexOfUniqueName(ss, |before|);
    assert ss[|before|] == layers;
  }

  lemma ApplyGroups(before: seq<PS.PropertySource>, groups: seq<PS.PropertySource>, after: seq<PS.PropertySource>)
    requires PS.UniqueNames(before + [PS.Configuration(groups)] + after)
    requires forall i :: 0 <= i < |groups| ==> groups[i].Group?
    requires NoDup(PS.Names(Flatten(groups)))
    requires forall i :: 0 <= i < |Flatten(groups)| ==> !PS.Named(before + [PS.Configuration(groups)] + after, PS.Name(Flatten(groups)[i]))
    ensures ApplyRelocations(before + [PS.Configuration(groups)] + after, PS.APPLICATION_CONFIGURATION, Relocations(groups))
         == Success(before + [PS.Configuration(groups)] + Flatten(groups) + after)
  {
    RelocationsOfGroups(groups);
    assert Relocations(groups) == Advancing(Flatten(groups));
    ApplyAdvancing(before, PS.Configuration(groups), after, Flatten(groups));
  }

  lemma RemoveLayers(before: seq<PS.PropertySource>, layers: PS.PropertySource, flat: seq<PS.PropertySource>, after: seq<PS.PropertySource>)
    requires PS.UniqueNames(before + [layers] + after)
    requires NoDup(PS.Names(flat))
    requires forall i :: 0 <= i < |flat| ==> !PS.Named(before + [layers] + after, PS.Name(flat[i]))
    ensures PS.RemoveNamed(before + [layers] + flat + after, PS.Name(layers)) == before + flat + after
  {
    var placed := before + [layers] + flat + after;
    PlacedUnique(before, layers, flat, after);
    assert placed == before + [layers] + (flat + after);
    assert placed[|before|] == layers;
    RemoveUnique(placed, |before|);
    DeleteMiddle(before, layers, flat + after);
    assert before + (flat + after) == before + flat + after;
  }

  lemma DeleteMiddle<T>(before: seq<T>, x: T, after: seq<T>)
    ensures Text.DeleteAt(before + [x] + after, |before|) == before + after
  {
    var s := before + [x] + after;
    assert s[..|before|] == before;
    assert s[|before| + 1..] == after;
  }

  lemma FreshForLayers(before: seq<PS.PropertySource>, layers: PS.PropertySource, after: seq<PS.PropertySource>, flat: seq<PS.PropertySource>)
    requires forall i :: 0 <= i < |flat| ==> !PS.Named(before + after, PS.Name(flat[i]))
    requires forall i :: 0 <= i < |flat| ==> PS.Name(flat[i]) != PS.Name(layers)
    ensures forall i :: 0 <= i < |flat| ==> !PS.Named(before + [layers] + after, PS.Name(flat[i]))
  {
    forall i | 0 <= i < |flat|
      ensures !PS.Named(before + [layers] + after, PS.Name(flat[i]))
    {
      FreshAfterInsert(before, after, layers, PS.Name(flat[i]));
    }
  }

  /** The layout after the additions still has unique names. */
  lemma PlacedUnique(before: seq<PS.PropertySource>, layers: PS.PropertySource, flat: seq<PS.PropertySource>, after: seq<PS.PropertySource>)
    requires PS.UniqueNames(before + [layers] + after)
    requires NoDup(PS.Names(flat))
    requires forall i :: 0 <= i < |flat| ==> !PS.Named(before + [layers] + after, PS.Name(flat[i]))
    ensures PS.UniqueNames(before + [layers] + flat + after)
  {
    var n := PS.Names(before + [layers] + after);
    var f := PS.Names(flat);
    var m := |before| + 1;
    assert PS.Names(before + [layers] + flat + after) == n[..m] + f + n[m..];
    NoDupInsertAll(n, f, m);
  }

  /** Inserting fresh, distinct elements into a list without duplicates keeps it so. */
  lemma NoDupInsertAll<T>(n: seq<T>, f: seq<T>, m: nat)
    requires m <= |n| && NoDup(n) && NoDup(f)
    requires forall i :: 0 <= i < |f| ==> f[i] !in n
    ensures NoDup(n[..m] + f + n[m..])
  {
    var p := n[..m] + f + n[m..];
    var k := m + |f|;
    forall a, b | 0 <= a < b < |p|
      ensures p[a] != p[b]
    {
      if b < m {
        assert p[a] == n[a] && p[b] == n[b];
      } else if a < m && b < k {
        assert p[a] == n[a] && p[b] == f[b - m];
      } else if a < m {
        assert p[a] == n[a] && p[b] == n[b - |f|];
      } else if a < k && b < k {
        assert p[a] == f[a - m] && p[b] == f[b - m];
      } else if a < k {
        assert p[a] == f[a - m] && p[b] == n[b - |f|];
      } else {
        assert p[a] == n[a - |f|] && p[b] == n[b - |f|];
      }
    }
  }

  /** Removing by the name of the source at a known index of a uniquely named list. */
  lemma RemoveUnique(ss: seq<PS.PropertySource>, i: nat)
    requires i < |ss| && PS.UniqueNames(ss)
    ensures PS.RemoveNamed(ss, PS.Name(ss[i])) == Text.DeleteAt(ss, i)
  {
    IndexOfUniqueName(ss, i);
  }

  /**
   * Sources that are not groups are all added right after the layers, so each lands in front
   * of the one before it: two plain members come out in reverse order.
   */
  lemma FinishAndRelocatePlainReversed()
    ensures var a := PS.MapSource("a", map[]);
      var b := PS.MapSource("b", map[]);
      FinishAndRelocate([PS.Configuration([a, b])]) == Success([b, a])
  {
    var a := PS.MapSource("a", map[]);
    var b := PS.MapSource("b", map[]);
    var layers := PS.Configuration([a, b]);
    assert Relocations([a, b]) == [Relocation(a, false), Relocation(b, false)] by {
      assert Relocations([a, b][1..]) == [Relocation(b, false)];
    }
    assert PS.Names([layers]) == [PS.APPLICATION_CONFIGURATION];
    assert [] + [layers] + [] == [layers];
    GetLayers([], layers, []);
    var s2 := [layers, b, a];
    ApplyPlainPair(layers, a, b);
    FinishUnfold([layers], [a, b], s2);
    RemoveUnique(s2, 0);
    assert Text.DeleteAt(s2, 0) == [b, a];
  }

  /** The two relocation steps of FinishAndRelocatePlainReversed, one after the other. */
  lemma ApplyPlainPair(layers: PS.PropertySource, a: PS.PropertySource, b: PS.PropertySource)
    requires layers == PS.Configuration([a, b])
    requires a == PS.MapSource("a", map[]) && b == PS.MapSource("b", map[])
    ensures ApplyRelocations([layers], PS.APPLICATION_CONFIGURATION, [Relocation(a, false), Relocation(b, false)])
      == Success([layers, b, a])
    ensures PS.UniqueNames([layers, b, a])
  {
    var steps := [Relocation(a, false), Relocation(b, false)];
    assert PS.Names([layers]) == [PS.APPLICATION_CONFIGURATION];
    var s1 := [layers, a];
    assert [] + [layers] + [] == [layers];
    AddAfterFresh([], layers, [], a);
    assert ([] + [layers]) + [a] + [] == s1;
    ApplyStep([layers], PS.APPLICATION_CONFIGURATION, steps, s1);
    assert steps[1..] == [Relocation(b, false)];
    var s2 := [layers, b, a];
    assert PS.Names(s1) == [PS.APPLICATION_CONFIGURATION, "a"];
    assert [] + [layers] + [a] == s1;
    AddAfterFresh([], layers, [a], b);
    assert ([] + [layers]) + [b] + [a] == s2;
    ApplyStep(s1, PS.APPLICATION_CONFIGURATION, steps[1..], s2);
    assert steps[1..][1..] == [];
  }

  /** After reordering, `defaultProperties`, when present, is the last source. */
  lemma ReorderSourcesSpec(ss: seq<PS.PropertySource>)
    requires ReorderSources(ss).Success?
    ensures var relocated := FinishAndRelocate(ss).value;
      var r := ReorderSources(ss).value;
      (PS.Named(relocated, PS.DEFAULT_PROPERTIES) <==> PS.Named(r, PS.DEFAULT_PROPERTIES))
      && (PS.Named(r, PS.DEFAULT_PROPERTIES) ==> PS.Name(r[|r| - 1]) == PS.DEFAULT_PROPERTIES)
      && (!PS.Named(relocated, PS.DEFAULT_PROPERTIES) ==> r == relocated)
  {
    var relocated := FinishAndRelocate(ss).value;
    var removed := PS.Remove(relocated, PS.DEFAULT_PROPERTIES);
    var r := ReorderSources(ss).value;
    if removed.1.Some? {
      var d := removed.1.value;
      assert PS.Name(d) == PS.DEFAULT_PROPERTIES;
      assert r == PS.AddLast(removed.0, d);
      assert PS.Names(r)[|r| - 1] == PS.DEFAULT_PROPERTIES;
    } else {
      assert r == removed.0;
      assert !PS.Named(relocated, PS.DEFAULT_PROPERTIES);
    }
  }
}
