/**
 * `src/lib/feature-flags.ts`: switches read from the environment. The
 * environment value is an input (`None` when the variable is unset).
 */
module FeatureFlags {
  import opened Wrappers
  import opened Strings

  /** `parseBooleanEnv(value, defaultValue)`. */
  function ParseBooleanEnv(value: Option<string>, defaultValue: bool): (r: bool)
    ensures value.None? || value.value == "" ==> r == defaultValue
    ensures value.Some? && value.value != "" ==> (r <==> |value.value| == 4 && ToLower(value.value) == "true")
  {
    if value.None? || value.value == "" then defaultValue
    else ToLower(value.value) == "true"
  }

  /** Case does not matter: a value and its upper-case form read the same. */
  lemma CaseInsensitive(s: string, defaultValue: bool)
    ensures ParseBooleanEnv(Some(ToUpper(s)), defaultValue) == ParseBooleanEnv(Some(s), defaultValue)
  {
    LowerOfUpper(s);
  }

  /** A set value other than "true" is false even when the default is true. */
  lemma SetValueOverridesDefault()
    ensures ParseBooleanEnv(Some("TRUE"), false) && ParseBooleanEnv(Some("True"), false)
    ensures !ParseBooleanEnv(Some("1"), true) && !ParseBooleanEnv(Some("yes"), true)
    ensures !ParseBooleanEnv(Some(" true"), true)
  {
    assert ToLower("TRUE") == "true";
    assert ToLower("True") == "true";
  }

  /** `ENABLE_MATCH_SHOP`, from `NEXT_PUBLIC_ENABLE_MATCH_SHOP`. */
  function EnableMatchShop(env: Option<string>): (enabled: bool)
    ensures env.None? ==> !enabled
    ensures enabled ==> env.Some? && ToLower(env.value) == "true"
  {
    ParseBooleanEnv(env, false)
  }
}
