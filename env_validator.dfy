/**
 * lib/env-validator.ts: checks on the process environment, given here as
 * a map from variable names to their values. A variable counts as set
 * only when it is present and not empty.
 */
module EnvValidator {
  import opened Wrappers
  import opened Text

  /** What a call ends in: it returns, or it throws an `Error` with this message. */
  datatype Outcome<T> = Returned(value: T) | Thrown(message: string)

  /** `!!process.env[key]`. */
  predicate IsSet(env: map<string, string>, key: string) {
    key in env && env[key] != ""
  }

  /** The keys of `required` that are not set, in the order given. */
  function MissingKeys(env: map<string, string>, required: seq<string>): (r: seq<string>)
    ensures |r| <= |required|
  {
    if required == [] then []
    else
      var last := required[|required| - 1];
      MissingKeys(env, required[..|required| - 1]) + (if IsSet(env, last) then [] else [last])
  }

  /** A key is reported exactly when it is required and not set. */
  lemma {:induction false} MissingKeysIff(env: map<string, string>, required: seq<string>, key: string)
    ensures key in MissingKeys(env, required) <==> key in required && !IsSet(env, key)
  {
    if required != [] {
      var init := required[..|required| - 1];
      MissingKeysIff(env, init, key);
      assert required == init + [required[|required| - 1]];
    }
  }

  /** Reporting is done list by list: the missing keys of `a + b` are those of `a` followed by those of `b`. */
  lemma {:induction false} MissingKeysAppend(env: map<string, string>, a: seq<string>, b: seq<string>)
    ensures MissingKeys(env, a + b) == MissingKeys(env, a) + MissingKeys(env, b)
  {
    if b == [] {
      assert a + b == a;
    } else {
      var init := b[..|b| - 1];
      MissingKeysAppend(env, a, init);
      assert (a + b)[..|a + b| - 1] == a + init;
    }
  }

  const MissingPrefix: string := "필수 환경 변수가 설정되지 않았습니다: "

  /** `validateRequiredEnv`: collect the unset keys in one pass, then throw when there is any. */
  method ValidateRequiredEnv(env: map<string, string>, required: seq<string>) returns (outcome: Outcome<()>)
    ensures outcome.Thrown? <==> exists k :: k in required && !IsSet(env, k)
    ensures outcome.Thrown? ==> outcome.message == MissingPrefix + Join(MissingKeys(env, required), ", ")
  {
    var missing: seq<string> := [];
    for i := 0 to |required|
      invariant missing == MissingKeys(env, required[..i])
    {
      assert required[..i + 1][..i] == required[..i];
      if !(required[i] in env && env[required[i]] != "") {
        missing := missing + [required[i]];
      }
    }
    assert required[..|required|] == required;
    if |missing| > 0 {
      outcome := Thrown(MissingPrefix + Join(missing, ", "));
      MissingKeysIff(env, required, missing[0]);
    } else {
      outcome := Returned(());
      forall k | k in required
        ensures IsSet(env, k)
      {
        MissingKeysIff(env, required, k);
      }
    }
  }

  /** `getEnv(key, defaultValue)`; an absent default is written "". */
  function GetEnv(env: map<string, string>, key: string, defaultValue: string): (r: Outcome<string>)
    ensures r.Thrown? <==> !IsSet(env, key) && defaultValue == ""
    ensures r.Thrown? ==> r.message == "환경 변수 " + key + "가 설정되지 않았습니다."
    ensures IsSet(env, key) ==> r == Returned(env[key])
    ensures !IsSet(env, key) && defaultValue != "" ==> r == Returned(defaultValue)
    ensures r.Returned? ==> r.value != ""
  {
    var value := if key in env then env[key] else "";
    if value == "" && defaultValue == "" then Thrown("환경 변수 " + key + "가 설정되지 않았습니다.")
    else if value != "" then Returned(value)
    else Returned(defaultValue)
  }

  /** `getOptionalEnv`: the raw lookup, which never throws. */
  function GetOptionalEnv(env: map<string, string>, key: string): (r: Option<string>)
    ensures r.Some? <==> key in env
    ensures r.Some? ==> r.value == env[key]
  {
    if key in env then Some(env[key]) else None
  }

  /** `getEnv` succeeds with the optional lookup whenever that lookup is non-empty, and then ignores the default. */
  lemma GetEnvAgreesWithOptional(env: map<string, string>, key: string, defaultValue: string)
    requires GetOptionalEnv(env, key).GetOr("") != ""
    ensures GetEnv(env, key, defaultValue) == Returned(GetOptionalEnv(env, key).value)
  {
  }
}
