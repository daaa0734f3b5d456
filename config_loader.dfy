/**
 * ConfigFileApplicationListener.Loader: the profile work queue, the passes over the search
 * locations, and the activation of profiles found in loaded files; and the post-processor
 * step that relocates the loaded layers. Resources are reached through two oracles: whether a
 * location exists, and what reading it yields.
 */
module ConfigLoader {
  import opened Wrappers
  import opened Throwables
  import opened Text
  import PS = PropertySources
  import Env = Environments
  import opened ConfigFile

  /** How a run of the loader ends. */
  datatype LoadOutcome = Loaded | Failed(error: Throwable) | OutOfFuel

  class Loader {
    const env: Env.Environment
    /** Resource.exists for the resource at a location. */
    const resourceExists: string -> bool
    /** The property source loaders' reading of an existing resource. */
    const parse: Parser
    /** The listener's configured search locations and names (null when not set). */
    const searchLocations: Option<string>
    const names: Option<string>

    /** The LIFO queue of profiles still to process; `None` is the no-profile sentinel. */
    var queue: seq<Option<Profile>>
    var processed: seq<Option<Profile>>
    var activated: bool
    /** The property sources the PropertySourcesLoader has collected: one group per profile. */
    var groups: seq<PS.PropertySource>
    /** Every location loadIntoGroup was called for, with the profile, in call order. */
    var tried: seq<Candidate>

    constructor(env: Env.Environment, resourceExists: string -> bool, parse: Parser, searchLocations: Option<string>, names: Option<string>)
      ensures this.env == env && this.resourceExists == resourceExists && this.parse == parse
      ensures this.searchLocations == searchLocations && this.names == names
      ensures queue == [] && processed == [] && !activated && groups == [] && tried == []
    {
      this.env := env;
      this.resourceExists := resourceExists;
      this.parse := parse;
      this.searchLocations := searchLocations;
      this.names := names;
      queue := [];
      processed := [];
      activated := false;
      groups := [];
      tried := [];
    }

    /** getSearchLocations, read from the environment. */
    function Locations(): seq<string>
      reads env`sources
    {
      SearchLocations(env.Property(CONFIG_LOCATION_PROPERTY), searchLocations)
    }

    /** getSearchNames, read from the environment. */
    function SearchNamesNow(): seq<string>
      reads env`sources
    {
      SearchNames(env.Property(CONFIG_NAME_PROPERTY), names)
    }

    /** environmentHasActiveProfile, which initialises the active profiles if need be. */
    method EnvironmentHasActiveProfile(name: string) returns (r: Result<bool, Throwable>)
      modifies env
      ensures env.sources == old(env.sources) && env.defaults == old(env.defaults)
      ensures forall n :: n in old(env.active) ==> n in env.active
      ensures NoDup(old(env.active)) ==> NoDup(env.active)
      ensures r.Success? ==> (r.value <==> name in env.active)
    {
      var active := env.GetActiveProfiles();
      if active.Failure? {
        return Failure(active.error);
      }
      return Success(name in active.value);
    }

    /** prependProfile: the profile's name goes first, the other active profiles follow. */
    method PrependProfile(p: Profile) returns (r: Option<Throwable>)
      modifies env
      ensures env.sources == old(env.sources) && env.defaults == old(env.defaults)
      ensures NoDup(old(env.active)) ==> NoDup(env.active)
      ensures r.None? ==> |env.active| > 0 && env.active[0] == p.name
      ensures r.None? ==> forall n :: n in old(env.active) ==> n in env.active
    {
      var initialized := env.GetActiveProfiles();
      if initialized.Failure? {
        return Some(initialized.error);
      }
      // Once initialised, the active profiles are read again without error.
      var active := env.GetActiveProfiles();
      if active.Failure? {
        assert false;
      }
      var profiles := Dedup([p.name] + active.value);
      PrependedSpec(p.name, active.value);
      r := env.SetActiveProfiles(profiles);
      if r.None? {
        DedupOfNoDup(profiles);
      }
    }

    /**
     * addProfiles: every profile is pushed onto the queue; a profile the environment does not
     * have active yet is also put first among its active profiles.
     */
    method AddProfiles(profiles: seq<Profile>) returns (r: Option<Throwable>)
      modifies this, env
      ensures env.sources == old(env.sources) && env.defaults == old(env.defaults)
      ensures processed == old(processed) && activated == old(activated) && groups == old(groups) && tried == old(tried)
      ensures NoDup(old(env.active)) ==> NoDup(env.active)
      ensures exists k :: 0 <= k <= |profiles| && queue == PushAll(old(queue), profiles[..k])
      ensures r.None? ==> queue == PushAll(old(queue), profiles)
      ensures r.None? ==> forall i :: 0 <= i < |profiles| ==> profiles[i].name in env.active
      ensures r.None? ==> forall n :: n in old(env.active) ==> n in env.active
    {
      var i := 0;
      while i < |profiles|
        invariant 0 <= i <= |profiles|
        invariant env.sources == old(env.sources) && env.defaults == old(env.defaults)
        invariant processed == old(processed) && activated == old(activated) && groups == old(groups) && tried == old(tried)
        invariant NoDup(old(env.active)) ==> NoDup(env.active)
        invariant queue == PushAll(old(queue), profiles[..i])
        invariant forall j :: 0 <= j < i ==> profiles[j].name in env.active
        invariant forall n :: n in old(env.active) ==> n in env.active
      {
        var p := profiles[i];
        PushAllStep(old(queue), profiles, i);
        queue := [Some(p)] + queue;
        var has := EnvironmentHasActiveProfile(p.name);
        if has.Failure? {
          return Some(has.error);
        }
        if !has.value {
          r := PrependProfile(p);
          if r.Some? {
            return r;
          }
        }
        i := i + 1;
      }
      assert profiles[..i] == profiles;
      return None;
    }

    /**
     * maybeActivateProfiles: only the first non-empty set takes effect. It is added, the
     * loader is marked activated, and the default profiles still queued are removed.
     */
    method MaybeActivateProfiles(profiles: seq<Profile>) returns (r: Option<Throwable>)
      modifies this, env
      ensures env.sources == old(env.sources) && env.defaults == old(env.defaults)
      ensures processed == old(processed) && groups == old(groups) && tried == old(tried)
      ensures NoDup(old(env.active)) ==> NoDup(env.active)
      ensures old(activated) || profiles == [] ==>
        r.None? && queue == old(queue) && activated == old(activated) && env.active == old(env.active)
      ensures !old(activated) && profiles != [] && r.None? ==>
        activated && queue == RemoveDefaults(PushAll(old(queue), profiles)).0
        && forall i :: 0 <= i < |profiles| ==> profiles[i].name in env.active
      ensures None !in old(queue) ==> None !in queue && (r.Some? ==> !activated || r != Some(NewNullPointer()))
      ensures old(activated) ==> activated
    {
      if activated || profiles == [] {
        return None;
      }
      r := AddProfiles(profiles);
      if r.Some? {
        PushAllPrefixNoNull(old(queue), profiles);
        return r;
      }
      activated := true;
      ghost var pushed := queue;
      r := RemoveUnprocessedDefaultProfiles();
      if None !in old(queue) {
        PushAllNoNull(old(queue), profiles);
      }
    }

    /** removeUnprocessedDefaultProfiles; the sentinel, if still queued, raises. */
    method RemoveUnprocessedDefaultProfiles() returns (r: Option<Throwable>)
      modifies this
      ensures processed == old(processed) && activated == old(activated) && groups == old(groups) && tried == old(tried)
      ensures queue == RemoveDefaults(old(queue)).0
      ensures r.Some? <==> RemoveDefaults(old(queue)).1
      ensures r.Some? ==> r == Some(NewNullPointer())
      ensures None !in old(queue) ==> r.None? && None !in queue
    {
      var remaining := queue;
      var kept: seq<Option<Profile>> := [];
      while remaining != []
        invariant RemoveDefaults(old(queue)).0 == kept + RemoveDefaults(remaining).0
        invariant RemoveDefaults(old(queue)).1 == RemoveDefaults(remaining).1
        invariant forall x :: x in remaining ==> x in old(queue)
        decreases |remaining|
      {
        match remaining[0]
        case None =>
          queue := kept + remaining;
          return Some(NewNullPointer());
        case Some(p) =>
          if !p.isDefault {
            kept := kept + [remaining[0]];
          }
          remaining := remaining[1..];
      }
      queue := kept;
      if None !in old(queue) {
        RemoveDefaultsSpec(old(queue));
      }
      return None;
    }

    /** handleProfileProperties: the `spring.profiles` settings of one loaded source. */
    method HandleProfileProperties(source: PS.PropertySource) returns (r: Option<Throwable>)
      modifies this, env
      ensures env.sources == old(env.sources) && env.defaults == old(env.defaults)
      ensures processed == old(processed) && groups == old(groups) && tried == old(tried)
      ensures NoDup(old(env.active)) ==> NoDup(env.active)
      ensures old(activated) ==> activated
      ensures None !in old(queue) ==> None !in queue
    {
      var bound := BindSpringProfiles([source]);
      r := MaybeActivateProfiles(AsProfileSet(bound.active));
      if r.Some? {
        return r;
      }
      ghost var mid := queue;
      r := AddProfiles(AsProfileSet(bound.includes));
      if None !in mid {
        PushAllPrefixNoNull(mid, AsProfileSet(bound.includes));
      }
    }

    /**
     * loadIntoGroup: a location that does not exist is skipped; an existing one is read, its
     * source joins the profile's group, and its `spring.profiles` settings are applied. Any
     * error on the way is reported as an IllegalStateException naming the location.
     */
    method LoadIntoGroup(identifier: string, location: string, profile: Option<Profile>) returns (r: Option<Throwable>)
      modifies this, env
      ensures env.sources == old(env.sources) && env.defaults == old(env.defaults)
      ensures processed == old(processed) && tried == old(tried)
      ensures NoDup(old(env.active)) ==> NoDup(env.active)
      ensures old(activated) ==> activated
      ensures None !in old(queue) ==> None !in queue
      ensures WellFormedGroups(old(groups)) ==> WellFormedGroups(groups)
      ensures !resourceExists(location) ==> r.None? && groups == old(groups) && queue == old(queue) && env.active == old(env.active)
      ensures r.Some? ==> FailedToLoad(r, location)
      ensures resourceExists(location) ==>
        var loaded := LoadFile(location, ResourceName(location), if profile.Some? then Some(profile.value.name) else None, parse);
        (loaded.Failure? ==> r == Some(LoadFailure(location, loaded.error)) && groups == old(groups))
        && (loaded.Success? && loaded.value.None? ==> r.None? && groups == old(groups))
        && (loaded.Success? && loaded.value.Some? ==> groups == AddToGroup(old(groups), GroupName(identifier), loaded.value.value))
    {
      if !resourceExists(location) {
        return None;
      }
      var name := ResourceName(location);
      var group := GroupName(identifier);
      var loaded := LoadFile(location, name, if profile.Some? then Some(profile.value.name) else None, parse);
      match loaded
      case Failure(e) =>
        return Some(LoadFailure(location, e));
      case Success(None) =>
        return None;
      case Success(Some(source)) =>
        if WellFormedGroups(groups) {
          AddToGroupSpec(groups, group, source);
        }
        groups := AddToGroup(groups, group, source);
        var error := HandleProfileProperties(source);
        if error.Some? {
          return Some(LoadFailure(location, error.value));
        }
        return None;
    }

    /** One candidate: recorded as tried, then loaded into its group. */
    method LoadCandidate(identifier: string, c: Candidate) returns (r: Option<Throwable>)
      modifies this, env
      ensures env.sources == old(env.sources) && env.defaults == old(env.defaults)
      ensures processed == old(processed) && tried == old(tried) + [c]
      ensures NoDup(old(env.active)) ==> NoDup(env.active)
      ensures old(activated) ==> activated
      ensures None !in old(queue) ==> None !in queue
      ensures WellFormedGroups(old(groups)) ==> WellFormedGroups(groups)
      ensures groups == LoadedGroups(old(groups), identifier, [c], resourceExists, parse)
      ensures r.Some? ==> FailedToLoad(r, c.location)
    {
      tried := tried + [c];
      r := LoadIntoGroup(identifier, c.location, c.profile);
      assert [c][..0] == [];
    }

    /** The calls of loadIntoGroup for a list of candidates, stopping at the first error. */
    method LoadCandidates(identifier: string, candidates: seq<Candidate>) returns (r: Option<Throwable>)
      modifies this, env
      ensures env.sources == old(env.sources) && env.defaults == old(env.defaults)
      ensures processed == old(processed)
      ensures NoDup(old(env.active)) ==> NoDup(env.active)
      ensures old(activated) ==> activated
      ensures None !in old(queue) ==> None !in queue
      ensures WellFormedGroups(old(groups)) ==> WellFormedGroups(groups)
      ensures r.None? ==> tried == old(tried) + candidates
      ensures old(tried) <= tried && tried[|old(tried)|..] <= candidates
      ensures r.Some? ==> |tried| > |old(tried)| && FailedToLoad(r, tried[|tried| - 1].location)
      ensures groups == LoadedGroups(old(groups), identifier, tried[|old(tried)|..], resourceExists, parse)
    {
      r := None;
      var i := 0;
      while i < |candidates| && r.None?
        invariant 0 <= i <= |candidates|
        invariant env.sources == old(env.sources) && env.defaults == old(env.defaults)
        invariant processed == old(processed)
        invariant NoDup(old(env.active)) ==> NoDup(env.active)
        invariant old(activated) ==> activated
        invariant None !in old(queue) ==> None !in queue
        invariant WellFormedGroups(old(groups)) ==> WellFormedGroups(groups)
        invariant tried == old(tried) + candidates[..i]
        invariant groups == LoadedGroups(old(groups), identifier, candidates[..i], resourceExists, parse)
        invariant r.Some? ==> i > 0 && FailedToLoad(r, candidates[i - 1].location)
      {
        assert candidates[..i + 1] == candidates[..i] + [candidates[i]];
        LoadedGroupsStep(old(groups), identifier, candidates, i, resourceExists, parse);
        r := LoadCandidate(identifier, candidates[i]);
        i := i + 1;
      }
      assert tried[|old(tried)|..] == candidates[..i];
      assert r.None? ==> candidates[..i] == candidates;
    }

    /**
     * One pass of load(): every location and name, for one profile. The locations and names
     * are those getSearchLocations and getSearchNames give at the start of the pass.
     */
    method LoadPass(profile: Option<Profile>, locations: seq<string>, names: seq<string>) returns (r: Option<Throwable>)
      modifies this, env
      ensures env.sources == old(env.sources) && env.defaults == old(env.defaults)
      ensures processed == old(processed)
      ensures NoDup(old(env.active)) ==> NoDup(env.active)
      ensures old(activated) ==> activated
      ensures None !in old(queue) ==> None !in queue
      ensures WellFormedGroups(old(groups)) ==> WellFormedGroups(groups)
      ensures r.None? ==> tried == old(tried) + PassCandidates(locations, names, profile, processed)
      ensures old(tried) <= tried && tried[|old(tried)|..] <= PassCandidates(locations, names, profile, processed)
      ensures r.Some? ==> |tried| > |old(tried)| && FailedToLoad(r, tried[|tried| - 1].location)
      ensures groups == LoadedGroups(old(groups), GroupIdentifier(profile), tried[|old(tried)|..], resourceExists, parse)
    {
      var candidates := PassCandidates(locations, names, profile, processed);
      r := LoadCandidates(GroupIdentifier(profile), candidates);
    }

    /**
     * initializeActiveProfiles: the profiles named by `spring.profiles.active` and
     * `spring.profiles.include` in the environment, activated; none when neither is set.
     */
    method InitializeActiveProfiles() returns (r: Result<seq<Profile>, Throwable>)
      modifies this, env
      ensures env.sources == old(env.sources) && env.defaults == old(env.defaults)
      ensures processed == old(processed) && groups == old(groups) && tried == old(tried)
      ensures NoDup(old(env.active)) ==> NoDup(env.active)
      ensures None !in old(queue) ==> None !in queue
      ensures old(activated) ==> activated
      ensures !env.ContainsProperty(ACTIVE_PROFILES_PROPERTY) && !env.ContainsProperty(INCLUDE_PROFILES_PROPERTY) ==>
        r == Success([]) && queue == old(queue) && activated == old(activated)
      ensures r.Success? ==> r.value == InitialProfiles(old(env.sources))
      ensures r.Success? ==> activated == (old(activated) || r.value != [])
      ensures r.Success? && !old(activated) && r.value != [] ==>
        queue == RemoveDefaults(PushAll(old(queue), r.value)).0
        && forall i :: 0 <= i < |r.value| ==> r.value[i].name in env.active
      ensures r.Success? && (old(activated) || r.value == []) ==> queue == old(queue) && env.active == old(env.active)
    {
      if !env.ContainsProperty(ACTIVE_PROFILES_PROPERTY) && !env.ContainsProperty(INCLUDE_PROFILES_PROPERTY) {
        return Success([]);
      }
      var bound := BindSpringProfiles(env.sources);
      var active := Dedup(AsProfileSet(bound.active) + AsProfileSet(bound.includes));
      var error := MaybeActivateProfiles(active);
      if error.Some? {
        return Failure(error.value);
      }
      return Success(active);
    }

    /** getUnprocessedActiveProfiles. */
    method GetUnprocessedActiveProfiles(initial: seq<Profile>) returns (r: Result<seq<Profile>, Throwable>)
      modifies env
      ensures env.sources == old(env.sources) && env.defaults == old(env.defaults)
      ensures NoDup(old(env.active)) ==> NoDup(env.active)
      ensures r.Success? ==> r.value == UnprocessedActive(env.active, initial)
    {
      var active := env.GetActiveProfiles();
      if active.Failure? {
        return Failure(active.error);
      }
      return Success(UnprocessedActive(active.value, initial));
    }

    /** The default-profile seeding of load(), used when the queue is still empty. */
    method SeedDefaultProfiles() returns (r: Option<Throwable>)
      modifies this, env
      ensures env.sources == old(env.sources) && env.active == old(env.active)
      ensures env.defaults == old(env.defaults) || old(env.defaults) == [Env.RESERVED_DEFAULT_PROFILE]
      ensures processed == old(processed) && activated == old(activated) && groups == old(groups) && tried == old(tried)
      ensures r.None? ==> queue == SeedDefaults(old(queue), env.defaults)
      ensures r.Some? ==> queue == old(queue)
    {
      var defaults := env.GetDefaultProfiles();
      if defaults.Failure? {
        return Some(defaults.error);
      }
      var names := defaults.value;
      for i := 0 to |names|
        invariant env.sources == old(env.sources) && env.active == old(env.active) && env.defaults == names
        invariant processed == old(processed) && activated == old(activated) && groups == old(groups) && tried == old(tried)
        invariant queue == SeedDefaults(old(queue), names[..i])
      {
        assert names[..i + 1][..i] == names[..i];
        var p := Profile(names[i], true);
        if !QueueContains(queue, p) {
          queue := [Some(p)] + queue;
        }
      }
      assert names[..|names|] == names;
      return None;
    }

    /**
     * load(): seed the queue, then poll it until it is empty, running one pass per profile,
     * and finally place the collected groups in the environment. `fuel` bounds the passes:
     * nothing stops a file from queueing its own profile again.
     */
    method Load(fuel: nat) returns (outcome: LoadOutcome)
      modifies this, env
      ensures env.defaults == old(env.defaults) || old(env.defaults) == [Env.RESERVED_DEFAULT_PROFILE]
      ensures NoDup(old(env.active)) ==> NoDup(env.active)
      ensures outcome.Loaded? ==> queue == [] && |processed| > 0 && processed[0] == None
      ensures forall i :: 0 < i < |processed| ==> processed[i].Some?
      ensures outcome.Loaded? ==> WellFormedGroups(groups)
      ensures !outcome.Failed? ==>
        tried == old(tried) + PassesTried(old(Locations()), old(SearchNamesNow()), processed)
        && groups == PassesGroups([], old(Locations()), old(SearchNamesNow()), processed, resourceExists, parse)
      ensures outcome.Loaded? ==> (AddConfigurationProperties(old(env.sources), groups).Success?
        && env.sources == AddConfigurationProperties(old(env.sources), groups).value)
      ensures !outcome.Loaded? ==> env.sources == old(env.sources)
      ensures outcome.OutOfFuel? ==> |processed| == fuel
    {
      var error := InitializeQueue();
      if error.Some? {
        return Failed(error.value);
      }
      ghost var failing;
      outcome, failing := ProcessQueue(fuel, Locations(), SearchNamesNow());
      if outcome.Loaded? {
        AddLoadedProperties();
      }
    }

    /**
     * addConfigurationProperties: the collected groups, as one layer, go directly before
     * `defaultProperties` when the environment has it and last otherwise.
     */
    method AddLoadedProperties()
      modifies env`sources
      ensures AddConfigurationProperties(old(env.sources), groups).Success?
      ensures env.sources == AddConfigurationProperties(old(env.sources), groups).value
    {
      AddConfigurationPropertiesSpec(env.sources, groups);
      var placed := AddConfigurationProperties(env.sources, groups);
      env.sources := placed.value;
    }

    /**
     * The start of load(): a fresh state, the initial and the unprocessed active profiles
     * queued, the default profiles when there are none, and the null sentinel on top.
     */
    method InitializeQueue() returns (r: Option<Throwable>)
      modifies this, env
      ensures env.sources == old(env.sources)
      ensures env.defaults == old(env.defaults) || old(env.defaults) == [Env.RESERVED_DEFAULT_PROFILE]
      ensures NoDup(old(env.active)) ==> NoDup(env.active)
      ensures groups == [] && processed == [] && tried == old(tried)
      ensures r.None? ==> |queue| > 0 && queue[0] == None && None !in queue[1..]
      ensures r.None? ==> activated == (InitialProfiles(old(env.sources)) != [])
      ensures r.None? ==> queue == SeededQueue(InitialProfiles(old(env.sources)), env.active, env.defaults)
    {
      r := None;
      groups := [];
      activated := false;
      queue := [];
      processed := [];
      var initial := InitializeActiveProfiles();
      if initial.Failure? {
        return Some(initial.error);
      }
      InitialProfilesSpec(old(env.sources));
      InitialQueue(initial.value);
      var unprocessed := GetUnprocessedActiveProfiles(initial.value);
      if unprocessed.Failure? {
        return Some(unprocessed.error);
      }
      PushAllNoNull(queue, unprocessed.value);
      queue := PushAll(queue, unprocessed.value);
      if queue == [] {
        r := SeedDefaultProfiles();
        if r.Some? {
          return r;
        }
        SeedDefaultsNoNull(env.defaults);
      }
      ghost var pushed := queue;
      queue := [None] + queue;
      assert queue[1..] == pushed;
    }

    /**
     * One turn of the polling loop: poll the head, run its pass, record it as processed. The
     * files tried and the groups loaded so far are those of the passes for `processed`.
     */
    method PollAndLoad(locations: seq<string>, names: seq<string>, ghost tried0: seq<Candidate>, ghost groups0: seq<PS.PropertySource>)
      returns (error: Option<Throwable>, ghost profile: Option<Profile>)
      requires queue != []
      requires tried == tried0 + PassesTried(locations, names, processed)
      requires groups == PassesGroups(groups0, locations, names, processed, resourceExists, parse)
      modifies this, env
      ensures env.sources == old(env.sources) && env.defaults == old(env.defaults)
      ensures NoDup(old(env.active)) ==> NoDup(env.active)
      ensures WellFormedGroups(old(groups)) ==> WellFormedGroups(groups)
      ensures profile == old(queue[0])
      ensures None !in old(queue[1..]) ==> None !in queue
      ensures error.None? ==> processed == old(processed) + [profile]
      ensures error.None? ==> tried == tried0 + PassesTried(locations, names, processed)
      ensures error.None? ==> groups == PassesGroups(groups0, locations, names, processed, resourceExists, parse)
      ensures error.Some? ==> processed == old(processed)
      ensures error.Some? ==>
        var done := tried0 + PassesTried(locations, names, processed);
        done <= tried && tried[|done|..] <= PassCandidates(locations, names, profile, processed)
        && groups == LoadedGroups(PassesGroups(groups0, locations, names, processed, resourceExists, parse),
             GroupIdentifier(profile), tried[|done|..], resourceExists, parse)
    {
      var head := queue[0];
      profile := head;
      queue := queue[1..];
      error := LoadPass(head, locations, names);
      if error.None? {
        PassesStep(groups0, locations, names, processed, head, resourceExists, parse);
        AppendAssociative(tried0, PassesTried(locations, names, processed), PassCandidates(locations, names, head, processed));
        processed := processed + [head];
      }
    }

    /** The polling loop of load(), one pass per profile until the queue is empty. */
    method ProcessQueue(fuel: nat, ghost locations: seq<string>, ghost names: seq<string>) returns (outcome: LoadOutcome, ghost failing: Option<Profile>)
      requires Locations() == locations && SearchNamesNow() == names
      requires WellFormedGroups(groups) && processed == []
      requires |queue| > 0 && queue[0] == None && None !in queue[1..]
      modifies this, env
      ensures env.sources == old(env.sources)
      ensures env.defaults == old(env.defaults)
      ensures NoDup(old(env.active)) ==> NoDup(env.active)
      ensures outcome.Loaded? ==> queue == [] && |processed| > 0 && processed[0] == None
      ensures forall i :: 0 < i < |processed| ==> processed[i].Some?
      ensures WellFormedGroups(groups)
      ensures outcome.OutOfFuel? ==> |processed| == fuel
      ensures !outcome.Failed? ==>
        tried == old(tried) + PassesTried(locations, names, processed)
        && groups == PassesGroups(old(groups), locations, names, processed, resourceExists, parse)
      ensures outcome.Failed? ==>
        var done := old(tried) + PassesTried(locations, names, processed);
        done <= tried && tried[|done|..] <= PassCandidates(locations, names, failing, processed)
        && groups == LoadedGroups(PassesGroups(old(groups), locations, names, processed, resourceExists, parse),
             GroupIdentifier(failing), tried[|done|..], resourceExists, parse)
    {
      var first := true;
      while queue != []
        invariant env.sources == old(env.sources) && env.defaults == old(env.defaults)
        invariant NoDup(old(env.active)) ==> NoDup(env.active)
        invariant WellFormedGroups(groups)
        invariant first <==> processed == []
        invariant first ==> |queue| > 0 && queue[0] == None && None !in queue[1..]
        invariant !first ==> None !in queue && processed[0] == None
        invariant |processed| <= fuel
        invariant forall i :: 0 < i < |processed| ==> processed[i].Some?
        invariant Locations() == locations && SearchNamesNow() == names
        invariant tried == old(tried) + PassesTried(locations, names, processed)
        invariant groups == PassesGroups(old(groups), locations, names, processed, resourceExists, parse)
        decreases fuel - |processed|
      {
        if |processed| == fuel {
          return OutOfFuel, None;
        }
        var error;
        ghost var profile;
        var passLocations, passNames := Locations(), SearchNamesNow();
        error, profile := PollAndLoad(passLocations, passNames, old(tried), old(groups));
        if error.Some? {
          return Failed(error.value), profile;
        }
        first := false;
      }
      return Loaded, None;
    }
  }

  /** The ordered set of a name followed by a list: the name first, every listed name kept. */
  lemma PrependedSpec(name: string, active: seq<string>)
    ensures |Dedup([name] + active)| > 0 && Dedup([name] + active)[0] == name
    ensures forall n :: n in active ==> n in Dedup([name] + active)
  {
    DedupHead(name, active);
    DedupMembers([name] + active);
    forall n | n in active
      ensures n in [name] + active
    {
    }
  }

  lemma PushAllStep(queue: seq<Option<Profile>>, profiles: seq<Profile>, i: nat)
    requires i < |profiles|
    ensures PushAll(queue, profiles[..i + 1]) == [Some(profiles[i])] + PushAll(queue, profiles[..i])
  {
    PushAllReverses(queue, profiles[..i + 1]);
    PushAllReverses(queue, profiles[..i]);
    var a := Reverse(Somes(profiles[..i + 1])) + queue;
    var b := [Some(profiles[i])] + (Reverse(Somes(profiles[..i])) + queue);
    assert |a| == |b|;
    forall k | 0 <= k < |a|
      ensures a[k] == b[k]
    {
      if 0 < k <= i {
        assert a[k] == Some(profiles[..i + 1][i - k]);
        assert b[k] == Some(profiles[..i][i - k]);
      }
    }
  }

  lemma PushAllPrefixNoNull(queue: seq<Option<Profile>>, profiles: seq<Profile>)
    ensures forall k :: 0 <= k <= |profiles| && None !in queue ==> None !in PushAll(queue, profiles[..k])
  {
    forall k | 0 <= k <= |profiles| && None !in queue
      ensures None !in PushAll(queue, profiles[..k])
    {
      PushAllNoNull(queue, profiles[..k]);
    }
  }

  lemma {:induction false} SeedDefaultsNoNull(names: seq<string>)
    ensures None !in SeedDefaults([], names)
    decreases |names|
  {
    if names != [] {
      SeedDefaultsNoNull(names[..|names| - 1]);
    }
  }

  /**
   * ConfigurationPropertySources.finishAndRelocate on the environment's sources: the loaded
   * layers give way to their members. The environment is left as far as the first failing
   * step got.
   */
  method FinishAndRelocateSources(env: Env.Environment) returns (r: Option<Throwable>)
    modifies env
    ensures env.active == old(env.active) && env.defaults == old(env.defaults)
    ensures r.None? <==> FinishAndRelocate(old(env.sources)).Success?
    ensures r.None? ==> env.sources == FinishAndRelocate(old(env.sources)).value
    ensures r.Some? ==> r.value == FinishAndRelocate(old(env.sources)).error
  {
    var found := PS.Get(env.sources, PS.APPLICATION_CONFIGURATION);
    if found.None? {
      return None;
    }
    if !found.value.Configuration? {
      return Some(NewRuntime(CLASS_CAST_EXCEPTION, None, []));
    }
    var steps := Relocations(found.value.members);
    var anchor := PS.APPLICATION_CONFIGURATION;
    ghost var start := env.sources;
    for i := 0 to |steps|
      invariant env.active == old(env.active) && env.defaults == old(env.defaults)
      invariant ApplyRelocations(start, PS.APPLICATION_CONFIGURATION, steps) == ApplyRelocations(env.sources, anchor, steps[i..])
    {
      assert steps[i..][1..] == steps[i + 1..];
      var error := env.AddAfter(anchor, steps[i].source);
      if error.Some? {
        return error;
      }
      if steps[i].advance {
        anchor := PS.Name(steps[i].source);
      }
    }
    var removed := env.Remove(PS.APPLICATION_CONFIGURATION);
    return None;
  }

  /** PropertySourceOrderingPostProcessor.reorderSources. */
  method ReorderEnvironmentSources(env: Env.Environment) returns (r: Option<Throwable>)
    modifies env
    ensures env.active == old(env.active) && env.defaults == old(env.defaults)
    ensures r.None? <==> ReorderSources(old(env.sources)).Success?
    ensures r.None? ==> env.sources == ReorderSources(old(env.sources)).value
  {
    r := FinishAndRelocateSources(env);
    if r.Some? {
      return r;
    }
    var defaults := env.Remove(PS.DEFAULT_PROPERTIES);
    if defaults.Some? {
      env.AddLast(defaults.value);
    }
  }
}
