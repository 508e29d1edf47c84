/** `_setEnvironmentVars` of lib/scheduler.js: the provider's and then the
    function's `environment` maps are copied over the process environment
    with `Object.assign`, so a later source wins on a shared name. */
module Environment {
  import opened Values

  /** `environment || {}`: an absent or falsy environment copies nothing. */
  function OrEmpty(env: Option<map<string, string>>): (m: map<string, string>)
    ensures env.None? ==> m == map[]
    ensures env.Some? ==> m == env.value
  {
    if env.Some? then env.value else map[]
  }

  /** `Object.assign(target, src)`: every name of `src` now holds its value
      there, every other name of `target` is kept, and nothing else appears. */
  function Overlay(target: map<string, string>, src: map<string, string>): (r: map<string, string>)
    ensures r.Keys == target.Keys + src.Keys
    ensures forall k :: k in src ==> r[k] == src[k]
    ensures forall k :: k in target && k !in src ==> r[k] == target[k]
  {
    target + src
  }

  /** The environment `_setEnvironmentVars` leaves behind: the function's
      value where it has one, else the provider's, else the previous one. */
  function Merged(previous: map<string, string>, providerEnv: Option<map<string, string>>,
                  functionEnv: Option<map<string, string>>): (r: map<string, string>)
    ensures r.Keys == previous.Keys + OrEmpty(providerEnv).Keys + OrEmpty(functionEnv).Keys
    ensures forall k :: k in OrEmpty(functionEnv) ==> r[k] == OrEmpty(functionEnv)[k]
  {
    Overlay(Overlay(previous, OrEmpty(providerEnv)), OrEmpty(functionEnv))
  }

  /** Function values override provider values, which override what the
      process already had. */
  lemma Precedence(previous: map<string, string>, providerEnv: Option<map<string, string>>,
                   functionEnv: Option<map<string, string>>, k: string)
    ensures functionEnv.Some? && k in functionEnv.value ==>
      k in Merged(previous, providerEnv, functionEnv) && Merged(previous, providerEnv, functionEnv)[k] == functionEnv.value[k]
    ensures providerEnv.Some? && k in providerEnv.value && (functionEnv.None? || k !in functionEnv.value) ==>
      k in Merged(previous, providerEnv, functionEnv) && Merged(previous, providerEnv, functionEnv)[k] == providerEnv.value[k]
    ensures (providerEnv.None? || k !in providerEnv.value) && (functionEnv.None? || k !in functionEnv.value) ==>
      (k in Merged(previous, providerEnv, functionEnv) <==> k in previous) &&
      (k in previous ==> Merged(previous, providerEnv, functionEnv)[k] == previous[k])
  {
  }

  /** Setting the same function's variables again leaves the environment as
      it was, so scheduling several triggers of one function is harmless. */
  lemma MergedIdempotent(previous: map<string, string>, providerEnv: Option<map<string, string>>,
                         functionEnv: Option<map<string, string>>)
    ensures Merged(Merged(previous, providerEnv, functionEnv), providerEnv, functionEnv) == Merged(previous, providerEnv, functionEnv)
  {
    var once := Merged(previous, providerEnv, functionEnv);
    var twice := Merged(once, providerEnv, functionEnv);
    assert twice.Keys == once.Keys;
    forall k | k in once ensures twice[k] == once[k] {
    }
  }

  /** Variables of a function scheduled earlier stay in the environment when
      the next function is set up, unless that function or the provider
      names them too: the environment is shared by every job. */
  lemma EarlierFunctionLeaks(previous: map<string, string>, providerEnv: Option<map<string, string>>,
                             first: map<string, string>, second: map<string, string>, k: string)
    requires k in first && k !in second
    requires providerEnv.None? || k !in providerEnv.value
    ensures var env := Merged(Merged(previous, providerEnv, Some(first)), providerEnv, Some(second));
      k in env && env[k] == first[k]
  {
    Precedence(previous, providerEnv, Some(first), k);
    Precedence(Merged(previous, providerEnv, Some(first)), providerEnv, Some(second), k);
  }

  /** The process environment, which `_setEnvironmentVars` updates in place. */
  class ProcessEnv {
    var vars: map<string, string>

    constructor(initial: map<string, string>)
      ensures vars == initial
    {
      vars := initial;
    }

    /** `_setEnvironmentVars(functionName)`, given the provider's and that
        function's `environment` settings. */
    method SetEnvironmentVars(providerEnv: Option<map<string, string>>, functionEnv: Option<map<string, string>>)
      modifies this
      ensures vars == Merged(old(vars), providerEnv, functionEnv)
    {
      var providerEnvVars := OrEmpty(providerEnv);
      var functionEnvVars := OrEmpty(functionEnv);
      vars := Overlay(vars, providerEnvVars);
      vars := Overlay(vars, functionEnvVars);
    }
  }
}
