/** Retry policies per profile, resolved through the "."-separated hierarchy of profile
    names (io/github/andresviedma/poket/utils/retry/RetryProfileConfig.kt). */
module RetryProfileConfiguration {
  import opened Base
  import Strings

  /** A retry policy: the delay in milliseconds before each retry, and whether retrying is
      enabled at all. */
  datatype RetryPolicyConfig = RetryPolicyConfig(retries: seq<int>, enabled: bool) {
    /** The retries in effect: none when the policy is disabled. */
    function EffectiveRetries(): (r: seq<int>)
      ensures r == [] || r == retries
      ensures enabled ==> r == retries
    {
      if enabled then retries else []
    }

    /** `maxRetries`. */
    function MaxRetries(): (n: nat)
      ensures n <= |retries| && (!enabled ==> n == 0) && (enabled ==> n == |retries|)
    {
      |EffectiveRetries()|
    }
  }

  /** The default when no profile matches: retrying disabled. */
  const DisabledPolicy := RetryPolicyConfig([], false)

  const Separator := "."

  /** `profileSubparts`: for "a.b.c", the list "a.b.c", "a.b", "a" (most specific first). */
  function ProfileSubparts(profile: string): (r: seq<string>)
    ensures |r| == |Strings.Split(profile, Separator)| >= 1
    ensures forall i :: 0 <= i < |r| ==>
              r[i] == Strings.Join(Strings.Split(profile, Separator)[..|r| - i], Separator)
  {
    var pieces := Strings.Split(profile, Separator);
    seq(|pieces|, i requires 0 <= i < |pieces| => Strings.Join(pieces[..|pieces| - i], Separator))
  }

  /** The first of `names` that has a profile entry. */
  function FirstDefined(profiles: map<string, RetryPolicyConfig>, names: seq<string>): (r: Option<RetryPolicyConfig>)
    ensures r.None? <==> forall i :: 0 <= i < |names| ==> names[i] !in profiles
    ensures r.Some? ==> exists i :: 0 <= i < |names| && names[i] in profiles && profiles[names[i]] == r.value &&
                          forall j :: 0 <= j < i ==> names[j] !in profiles
  {
    if names == [] then None
    else if names[0] in profiles then Some(profiles[names[0]])
    else
      var r := FirstDefined(profiles, names[1..]);
      assert forall i :: 1 <= i < |names| ==> names[i] == names[1..][i - 1];
      if r.Some? then
        var i :| 0 <= i < |names[1..]| && names[1..][i] in profiles && profiles[names[1..][i]] == r.value &&
                 forall j :: 0 <= j < i ==> names[1..][j] !in profiles;
        assert names[i + 1] == names[1..][i];
        assert forall j :: 1 <= j < i + 1 ==> names[j] == names[1..][j - 1];
        r
      else r
  }

  datatype RetryProfileConfig = RetryProfileConfig(profiles: map<string, RetryPolicyConfig>, default: RetryPolicyConfig) {

    /** `getProfileConfig(profile)`: the policy of the longest "."-prefix of the profile
        that has an entry; the default when there is none or no profile is given. */
    function GetProfileConfig(profile: Option<string>): (r: RetryPolicyConfig)
      ensures profile.None? ==> r == default
      ensures profile.Some? ==>
                var subparts := ProfileSubparts(profile.value);
                (r == default && forall i :: 0 <= i < |subparts| ==> subparts[i] !in profiles) ||
                (exists i :: 0 <= i < |subparts| && subparts[i] in profiles && r == profiles[subparts[i]] &&
                   forall j :: 0 <= j < i ==> subparts[j] !in profiles)
    {
      if profile.None? then default
      else FirstDefined(profiles, ProfileSubparts(profile.value)).GetOr(default)
    }
  }

  /** A profile entry for the full profile name always wins. */
  lemma ExactProfileWins(config: RetryProfileConfig, profile: string)
    requires profile in config.profiles
    ensures config.GetProfileConfig(Some(profile)) == config.profiles[profile]
  {
    var pieces := Strings.Split(profile, Separator);
    assert pieces[..|pieces|] == pieces;
    Strings.JoinSplit(profile, Separator);
  }

  /** With no profile entries at all, the default applies to every profile. */
  lemma NoProfilesGiveDefault(default: RetryPolicyConfig, profile: Option<string>)
    ensures RetryProfileConfig(map[], default).GetProfileConfig(profile) == default
  {
  }
}
