/**
 * How `main` builds the effective configuration before serving: defaults,
 * then each candidate file in order, then the environment.
 */
module Startup {
  import opened Wrappers
  import opened AppConfig

  /** The candidate configuration files, in the order they are tried. */
  const CandidatePaths: seq<string> := ["application.json", "config/application.json"]

  /** The outcome of reading and parsing each path, in order. */
  function Outcomes(load: string -> FileOutcome, paths: seq<string>): (os: seq<FileOutcome>)
    ensures |os| == |paths|
    ensures forall i :: 0 <= i < |paths| ==> os[i] == load(paths[i])
  {
    seq(|paths|, i requires 0 <= i < |paths| => load(paths[i]))
  }

  /** The paths whose file loaded, in order: the ones `main` logs as applied. */
  function AppliedPaths(load: string -> FileOutcome, paths: seq<string>): (applied: seq<string>)
    ensures forall p :: p in applied <==> p in paths && load(p).Success?
    ensures |applied| <= |paths|
  {
    if paths == [] then []
    else
      var front := AppliedPaths(load, paths[..|paths| - 1]);
      var last := paths[|paths| - 1];
      assert paths == paths[..|paths| - 1] + [last];
      if load(last).Success? then front + [last] else front
  }

  /**
   * The effective configuration: the defaults, overlaid by each candidate
   * file in order, then by the `PORT` variable `env`.
   */
  function Effective(load: string -> FileOutcome, env: Option<string>): (r: Config)
    ensures env.Some? ==> r.port == env.value
    ensures env.None? ==>
              r.port == Default().port ||
              exists p :: p in CandidatePaths && SetsPort(load(p)) && r.port == load(p).value.port
    ensures r.rates == Default().rates ||
            exists p :: p in CandidatePaths && SetsRates(load(p)) && r.rates == load(p).value.rates
  {
    ApplyEnv(OverlayAll(Default(), Outcomes(load, CandidatePaths)), env)
  }

  /**
   * The start-up part of `main`: `config = defaultConfig()`, then
   * `populateConfig` for each candidate path, logging the ones applied,
   * then `populateConfigByEnvs`. Reading and parsing the file at a path is
   * `load`; the value of `PORT`, if set, is `env`.
   */
  method BuildConfig(load: string -> FileOutcome, env: Option<string>)
    returns (config: ConfigVar, applied: seq<string>)
    ensures fresh(config)
    ensures config.Value() == Effective(load, env)
    ensures applied == AppliedPaths(load, CandidatePaths)
  {
    config := new ConfigVar.FromDefaults();
    applied := [];
    var paths := CandidatePaths;
    for i := 0 to |paths|
      invariant config.Value() == OverlayAll(Default(), Outcomes(load, paths[..i]))
      invariant applied == AppliedPaths(load, paths[..i])
    {
      var err := config.PopulateConfig(load(paths[i]));
      if err == None {
        applied := applied + [paths[i]];
      }
      assert paths[..i + 1][..i] == paths[..i];
      assert Outcomes(load, paths[..i + 1])[..i] == Outcomes(load, paths[..i]);
    }
    assert paths[..|paths|] == paths;
    config.PopulateConfigByEnvs(env);
  }

  /**
   * The paths logged as applied, for the two candidates: each candidate
   * that loaded, once, in the order they are tried.
   */
  lemma AppliedCandidates(load: string -> FileOutcome)
    ensures AppliedPaths(load, CandidatePaths) ==
              (if load("application.json").Success? then ["application.json"] else []) +
              (if load("config/application.json").Success? then ["config/application.json"] else [])
  {
  }

  /** The effective port: a present `PORT` wins; otherwise the last file that set one; otherwise "8080". */
  lemma EffectivePort(load: string -> FileOutcome, env: Option<string>)
    ensures env.Some? ==> Effective(load, env).port == env.value
    ensures env.None? ==>
              Effective(load, env).port ==
              (if SetsPort(load("config/application.json")) then load("config/application.json").value.port
               else if SetsPort(load("application.json")) then load("application.json").value.port
               else "8080")
  {
    var os := Outcomes(load, CandidatePaths);
    if SetsPort(os[1]) {
      PortIsLastWriter(Default(), os, 1);
    } else if SetsPort(os[0]) {
      PortIsLastWriter(Default(), os, 0);
    } else {
      PortKeptWithoutWriter(Default(), os);
    }
  }

  /**
   * The effective table: the last file that set a non-empty table, taken
   * whole, or else the defaults; the environment never changes it.
   */
  lemma EffectiveRates(load: string -> FileOutcome, env: Option<string>)
    ensures Effective(load, env).rates ==
              (if SetsRates(load("config/application.json")) then load("config/application.json").value.rates
               else if SetsRates(load("application.json")) then load("application.json").value.rates
               else Default().rates)
  {
    var os := Outcomes(load, CandidatePaths);
    if SetsRates(os[1]) {
      RatesIsLastWriter(Default(), os, 1);
    } else if SetsRates(os[0]) {
      RatesIsLastWriter(Default(), os, 0);
    } else {
      RatesKeptWithoutWriter(Default(), os);
    }
  }

  /** With no file loaded and no `PORT`, the effective configuration is the defaults. */
  lemma NothingLoadedGivesDefaults(load: string -> FileOutcome)
    requires forall p :: p in CandidatePaths ==> load(p).Failure?
    ensures Effective(load, None) == Default()
  {
  }

  /**
   * A malformed file is skipped exactly like a missing one: which of the two
   * failures a path reports makes no difference to the effective configuration.
   */
  lemma ParseFailureLikeMissingFile(load: string -> FileOutcome, path: string, env: Option<string>)
    requires load(path) == Failure(ParseFailed)
    ensures Effective(load, env) ==
            Effective(p => if p == path then Failure(ReadFailed) else load(p), env)
  {
    var load' := p => if p == path then Failure(ReadFailed) else load(p);
    EffectivePort(load, env);
    EffectivePort(load', env);
    EffectiveRates(load, env);
    EffectiveRates(load', env);
  }

  /** The first file's port survives a second file that loads without a port, when `PORT` is unset. */
  lemma FirstFilePortSurvives(load: string -> FileOutcome)
    requires load("application.json").Success? && load("application.json").value.port == "9000"
    requires load("config/application.json").Success? && load("config/application.json").value.port == ""
    ensures Effective(load, None).port == "9000"
    ensures Effective(load, Some("7000")).port == "7000"
  {
    EffectivePort(load, None);
    EffectivePort(load, Some("7000"));
  }
}
