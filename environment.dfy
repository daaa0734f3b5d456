/**
 * The configurable environment the bootstrap code reads and updates: the ordered property
 * sources, the active profiles and the default profiles (Spring's AbstractEnvironment with
 * its MutablePropertySources). Both profile lists behave as insertion-ordered sets. The
 * active profiles are read lazily from `spring.profiles.active` the first time they are asked
 * for while none are set, and the default profiles from `spring.profiles.default` while they
 * are still the reserved ["default"].
 */
module Environments {
  import opened Wrappers
  import opened Throwables
  import opened Text
  import PS = PropertySources

  const ACTIVE_PROFILES_PROPERTY := "spring.profiles.active"
  const DEFAULT_PROFILES_PROPERTY := "spring.profiles.default"
  const RESERVED_DEFAULT_PROFILE := "default"

  /** A profile name the environment accepts: it has text and does not begin with '!'. */
  predicate ValidProfile(p: string) {
    HasText(Some(p)) && p[0] != '!'
  }

  /** The error setActiveProfiles/setDefaultProfiles raise for an invalid name. */
  function InvalidProfile(p: string): Throwable {
    if !HasText(Some(p)) then NewIllegalArgument("Invalid profile [" + p + "]: must contain text")
    else NewIllegalArgument("Invalid profile [" + p + "]: must not begin with ! operator")
  }

  /**
   * Setting a profile list: the set is cleared, then names are added in order until the
   * first invalid one, which raises. Result: the new set and the error, if any.
   */
  function SetProfiles(profiles: seq<string>): (r: (seq<string>, Option<Throwable>))
    ensures NoDup(r.0)
    ensures r.1.None? <==> forall i :: 0 <= i < |profiles| ==> ValidProfile(profiles[i])
    ensures r.1.None? ==> r.0 == Dedup(profiles)
    ensures r.1.Some? ==> IsInstance(r.1.value, ILLEGAL_ARGUMENT_EXCEPTION)
    decreases |profiles|
  {
    if profiles == [] then ([], None)
    else
      var init := SetProfiles(profiles[..|profiles| - 1]);
      var last := profiles[|profiles| - 1];
      assert forall i :: 0 <= i < |profiles| - 1 ==> profiles[..|profiles| - 1][i] == profiles[i];
      if init.1.Some? then init
      else if !ValidProfile(last) then (init.0, Some(InvalidProfile(last)))
      else (Dedup(profiles), None)
  }

  /** The profile list a property value names: whitespace dropped, then split on commas. */
  function ProfilesFromProperty(value: string): seq<string> {
    CommaDelimitedList(Some(TrimAllWhitespace(value)))
  }

  /** A value with text names at least one profile (possibly an empty or invalid one). */
  lemma ProfilesFromPropertyNonEmpty(value: string)
    requires HasText(Some(value))
    ensures |ProfilesFromProperty(value)| > 0
  {
    var i :| 0 <= i < |value| && !IsWhitespace(value[i]);
    TrimAllWhitespaceKeeps(value, i);
  }

  /** Dropping whitespace keeps a string that has text non-empty. */
  lemma {:induction false} TrimAllWhitespaceKeeps(value: string, i: nat)
    requires i < |value| && !IsWhitespace(value[i])
    ensures TrimAllWhitespace(value) != ""
    decreases i
  {
    if i > 0 && IsWhitespace(value[0]) {
      TrimAllWhitespaceKeeps(value[1..], i - 1);
    }
  }

  class Environment {
    var sources: seq<PS.PropertySource>
    var active: seq<string>
    var defaults: seq<string>

    /** A fresh environment with the given sources, no active profile and the reserved default. */
    constructor(initial: seq<PS.PropertySource>)
      ensures sources == initial && active == [] && defaults == [RESERVED_DEFAULT_PROFILE]
    {
      sources := initial;
      active := [];
      defaults := [RESERVED_DEFAULT_PROFILE];
    }

    /** getProperty: the first value in source order (placeholders left unresolved). */
    function Property(key: string): Option<string>
      reads this`sources
    {
      PS.LookupFirst(sources, key)
    }

    /** containsProperty. */
    predicate ContainsProperty(key: string)
      reads this`sources
    {
      Property(key).Some?
    }

    /** setActiveProfiles. */
    method SetActiveProfiles(profiles: seq<string>) returns (r: Option<Throwable>)
      modifies this
      ensures (active, r) == SetProfiles(profiles)
      ensures sources == old(sources) && defaults == old(defaults)
    {
      var result := SetProfiles(profiles);
      active := result.0;
      r := result.1;
    }

    /** getActiveProfiles, with its lazy read of `spring.profiles.active`. */
    method GetActiveProfiles() returns (r: Result<seq<string>, Throwable>)
      modifies this
      ensures sources == old(sources) && defaults == old(defaults)
      ensures old(active) != [] || !HasText(old(Property(ACTIVE_PROFILES_PROPERTY))) ==>
        active == old(active) && r == Success(active)
      ensures old(active) == [] && HasText(old(Property(ACTIVE_PROFILES_PROPERTY))) ==>
        var update := SetProfiles(ProfilesFromProperty(old(Property(ACTIVE_PROFILES_PROPERTY)).value));
        active == update.0 && (r.Success? <==> update.1.None?) && (r.Success? ==> r.value == active)
        && (r.Failure? ==> r.error == update.1.value)
      ensures r.Success? ==> active != [] || !HasText(Property(ACTIVE_PROFILES_PROPERTY))
    {
      if active == [] {
        var value := Property(ACTIVE_PROFILES_PROPERTY);
        if HasText(value) {
          ProfilesFromPropertyNonEmpty(value.value);
          var error := SetActiveProfiles(ProfilesFromProperty(value.value));
          if error.Some? {
            return Failure(error.value);
          }
        }
      }
      return Success(active);
    }

    /** getDefaultProfiles, with its lazy read of `spring.profiles.default`. */
    method GetDefaultProfiles() returns (r: Result<seq<string>, Throwable>)
      modifies this
      ensures sources == old(sources) && active == old(active)
      ensures old(defaults) != [RESERVED_DEFAULT_PROFILE] || !HasText(old(Property(DEFAULT_PROFILES_PROPERTY))) ==>
        defaults == old(defaults) && r == Success(defaults)
      ensures old(defaults) == [RESERVED_DEFAULT_PROFILE] && HasText(old(Property(DEFAULT_PROFILES_PROPERTY))) ==>
        var update := SetProfiles(ProfilesFromProperty(old(Property(DEFAULT_PROFILES_PROPERTY)).value));
        defaults == update.0 && (r.Success? <==> update.1.None?) && (r.Success? ==> r.value == defaults)
        && (r.Failure? ==> r.error == update.1.value)
    {
      if defaults == [RESERVED_DEFAULT_PROFILE] {
        var value := Property(DEFAULT_PROFILES_PROPERTY);
        if HasText(value) {
          var update := SetProfiles(ProfilesFromProperty(value.value));
          defaults := update.0;
          if update.1.Some? {
            return Failure(update.1.value);
          }
        }
      }
      return Success(defaults);
    }

    /** getPropertySources().addFirst. */
    method AddFirst(p: PS.PropertySource)
      modifies this
      ensures sources == PS.AddFirst(old(sources), p)
      ensures active == old(active) && defaults == old(defaults)
    {
      sources := PS.AddFirst(sources, p);
    }

    /** getPropertySources().addLast. */
    method AddLast(p: PS.PropertySource)
      modifies this
      ensures sources == PS.AddLast(old(sources), p)
      ensures active == old(active) && defaults == old(defaults)
    {
      sources := PS.AddLast(sources, p);
    }

    /**
     * getPropertySources().addBefore. A failure after removeIfPresent has run leaves the list
     * without the new source's name.
     */
    method AddBefore(relative: string, p: PS.PropertySource) returns (r: Option<Throwable>)
      modifies this
      ensures PS.AddBefore(old(sources), relative, p).Success? ==> sources == PS.AddBefore(old(sources), relative, p).value && r == None
      ensures PS.AddBefore(old(sources), relative, p).Failure? ==>
        sources == PS.AfterFailedRelativeAdd(old(sources), relative, p) && r == Some(PS.AddBefore(old(sources), relative, p).error)
      ensures active == old(active) && defaults == old(defaults)
    {
      match PS.AddBefore(sources, relative, p)
      case Success(s) => sources := s; r := None;
      case Failure(e) => sources := PS.AfterFailedRelativeAdd(sources, relative, p); r := Some(e);
    }

    /**
     * getPropertySources().addAfter. A failure after removeIfPresent has run leaves the list
     * without the new source's name.
     */
    method AddAfter(relative: string, p: PS.PropertySource) returns (r: Option<Throwable>)
      modifies this
      ensures PS.AddAfter(old(sources), relative, p).Success? ==> sources == PS.AddAfter(old(sources), relative, p).value && r == None
      ensures PS.AddAfter(old(sources), relative, p).Failure? ==>
        sources == PS.AfterFailedRelativeAdd(old(sources), relative, p) && r == Some(PS.AddAfter(old(sources), relative, p).error)
      ensures active == old(active) && defaults == old(defaults)
    {
      match PS.AddAfter(sources, relative, p)
      case Success(s) => sources := s; r := None;
      case Failure(e) => sources := PS.AfterFailedRelativeAdd(sources, relative, p); r := Some(e);
    }

    /** getPropertySources().replace; the list is unchanged when it fails. */
    method Replace(name: string, p: PS.PropertySource) returns (r: Option<Throwable>)
      modifies this
      ensures PS.Replace(old(sources), name, p).Success? ==> sources == PS.Replace(old(sources), name, p).value && r == None
      ensures PS.Replace(old(sources), name, p).Failure? ==> sources == old(sources) && r == Some(PS.Replace(old(sources), name, p).error)
      ensures active == old(active) && defaults == old(defaults)
    {
      match PS.Replace(sources, name, p)
      case Success(s) => sources := s; r := None;
      case Failure(e) => r := Some(e);
    }

    /** getPropertySources().remove: returns the removed source, if any. */
    method Remove(name: string) returns (removed: Option<PS.PropertySource>)
      modifies this
      ensures (sources, removed) == PS.Remove(old(sources), name)
      ensures active == old(active) && defaults == old(defaults)
    {
      var result := PS.Remove(sources, name);
      sources := result.0;
      removed := result.1;
    }
  }
}
