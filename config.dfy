/**
 * The service's configuration: the rate table, the listen port, the built-in
 * defaults, and the two ways a configuration is overlaid (by one parsed
 * configuration file, and by the `PORT` environment variable).
 */
module AppConfig {
  import opened Wrappers

  /** A currency code; free-form and compared exactly. */
  type Code = string

  /** Rates by source code, then by destination code. */
  type RateTable = map<Code, map<Code, real>>

  /** The `Config` struct as a value: what `defaultConfig` builds and what a file parses into. */
  datatype Config = Config(rates: RateTable, port: string)

  /** Why reading and parsing one configuration file failed. */
  datatype LoadError = ReadFailed | ParseFailed

  /** The combined outcome of reading one file and decoding its JSON into a `Config`. */
  type FileOutcome = Result<Config, LoadError>

  /** Every pair (from, to) the table holds a rate for. */
  function Pairs(rates: RateTable): set<(Code, Code)>
  {
    set from, to | from in rates && to in rates[from] :: (from, to)
  }

  /**
   * The built-in configuration every start begins from: exactly six pairs,
   * none from a code to itself, and port "8080".
   */
  function Default(): (d: Config)
    ensures Pairs(d.rates) ==
      {("CARAMEL", "CHOKOLATE"), ("CARAMEL", "PLAIN"),
       ("CHOKOLATE", "CARAMEL"), ("CHOKOLATE", "PLAIN"),
       ("PLAIN", "CHOKOLATE"), ("PLAIN", "CARAMEL")}
    ensures d.port == "8080"
  {
    Config(
      map[
        "CARAMEL"   := map["CHOKOLATE" := 0.85, "PLAIN" := 75.50],
        "CHOKOLATE" := map["CARAMEL" := 1.18, "PLAIN" := 89.00],
        "PLAIN"     := map["CHOKOLATE" := 0.013, "CARAMEL" := 0.011]
      ],
      "8080")
  }

  /** A parsed file contributes its port exactly when that port is non-empty. */
  predicate SetsPort(o: FileOutcome)
  {
    o.Success? && o.value.port != ""
  }

  /** A parsed file contributes its rate table exactly when that table is non-empty. */
  predicate SetsRates(o: FileOutcome)
  {
    o.Success? && |o.value.rates| > 0
  }

  /**
   * The configuration after one file's outcome is applied to `c`: a failed
   * read or parse changes nothing; otherwise a non-empty port replaces the
   * port and a non-empty table replaces the whole table, each independently.
   */
  function Overlay(c: Config, o: FileOutcome): (r: Config)
    ensures o.Failure? ==> r == c
    ensures r.port == (if SetsPort(o) then o.value.port else c.port)
    ensures r.rates == (if SetsRates(o) then o.value.rates else c.rates)
  {
    match o
    case Failure(_) => c
    case Success(parsed) =>
      Config(
        if |parsed.rates| > 0 then parsed.rates else c.rates,
        if parsed.port != "" then parsed.port else c.port)
  }

  /**
   * The configuration after the environment is consulted: a present `PORT`,
   * even an empty one, replaces the port; the rate table is never touched.
   */
  function ApplyEnv(c: Config, env: Option<string>): (r: Config)
    ensures r.rates == c.rates
    ensures env.Some? ==> r.port == env.value
    ensures env.None? ==> r == c
  {
    match env
    case None => c
    case Some(p) => c.(port := p)
  }

  /**
   * The configuration after the outcomes are applied to `c` in order, first
   * to last. Each field comes either from `c` or from one of the outcomes
   * that sets it; nothing is merged or invented.
   */
  function OverlayAll(c: Config, outcomes: seq<FileOutcome>): (r: Config)
    ensures r.port == c.port ||
            exists i :: 0 <= i < |outcomes| && SetsPort(outcomes[i]) && r.port == outcomes[i].value.port
    ensures r.rates == c.rates ||
            exists i :: 0 <= i < |outcomes| && SetsRates(outcomes[i]) && r.rates == outcomes[i].value.rates
  {
    if outcomes == [] then c
    else Overlay(OverlayAll(c, outcomes[..|outcomes| - 1]), outcomes[|outcomes| - 1])
  }

  /** Index `i` holds the last outcome in `outcomes` that sets the port. */
  ghost predicate LastPortWriter(outcomes: seq<FileOutcome>, i: int)
  {
    0 <= i < |outcomes| && SetsPort(outcomes[i]) &&
    forall j :: i < j < |outcomes| ==> !SetsPort(outcomes[j])
  }

  /** Index `i` holds the last outcome in `outcomes` that sets the rate table. */
  ghost predicate LastRatesWriter(outcomes: seq<FileOutcome>, i: int)
  {
    0 <= i < |outcomes| && SetsRates(outcomes[i]) &&
    forall j :: i < j < |outcomes| ==> !SetsRates(outcomes[j])
  }

  /** Unfolds `OverlayAll` by one step: the last outcome is applied last. */
  lemma OverlayAllStep(c: Config, outcomes: seq<FileOutcome>)
    requires outcomes != []
    ensures OverlayAll(c, outcomes) ==
              Overlay(OverlayAll(c, outcomes[..|outcomes| - 1]), outcomes[|outcomes| - 1])
  {
  }

  /** With no file setting a port, the starting port survives every file. */
  lemma PortKeptWithoutWriter(c: Config, outcomes: seq<FileOutcome>)
    requires forall j :: 0 <= j < |outcomes| ==> !SetsPort(outcomes[j])
    ensures OverlayAll(c, outcomes).port == c.port
  {
  }

  /**
   * Last writer wins for the port: after a sequence of files, the port is
   * the one of the last file that set a port.
   */
  lemma {:induction false} PortIsLastWriter(c: Config, outcomes: seq<FileOutcome>, i: int)
    requires LastPortWriter(outcomes, i)
    ensures OverlayAll(c, outcomes).port == outcomes[i].value.port
  {
    var n := |outcomes| - 1;
    OverlayAllStep(c, outcomes);
    if i < n {
      var front := outcomes[..n];
      assert !SetsPort(outcomes[n]);
      assert LastPortWriter(front, i) by {
        forall j | i < j < |front| ensures !SetsPort(front[j]) {
          assert front[j] == outcomes[j];
        }
      }
      PortIsLastWriter(c, front, i);
    }
  }

  /** With no file setting a rate table, the starting table survives every file. */
  lemma RatesKeptWithoutWriter(c: Config, outcomes: seq<FileOutcome>)
    requires forall j :: 0 <= j < |outcomes| ==> !SetsRates(outcomes[j])
    ensures OverlayAll(c, outcomes).rates == c.rates
  {
  }

  /**
   * Last writer wins for the rate table, wholesale: after a sequence of
   * files, the table is exactly the one of the last file that set a table.
   */
  lemma {:induction false} RatesIsLastWriter(c: Config, outcomes: seq<FileOutcome>, i: int)
    requires LastRatesWriter(outcomes, i)
    ensures OverlayAll(c, outcomes).rates == outcomes[i].value.rates
  {
    var n := |outcomes| - 1;
    OverlayAllStep(c, outcomes);
    if i < n {
      var front := outcomes[..n];
      assert !SetsRates(outcomes[n]);
      assert LastRatesWriter(front, i) by {
        forall j | i < j < |front| ensures !SetsRates(front[j]) {
          assert front[j] == outcomes[j];
        }
      }
      RatesIsLastWriter(c, front, i);
    }
  }

  /** Files that all failed to load leave the configuration exactly as it was. */
  lemma FailedFilesChangeNothing(c: Config, outcomes: seq<FileOutcome>)
    requires forall j :: 0 <= j < |outcomes| ==> outcomes[j].Failure?
    ensures OverlayAll(c, outcomes) == c
  {
  }

  /**
   * A file with a non-empty table discards the previous table entirely: a
   * pair is present afterwards exactly when the file has it, whatever the
   * previous table held.
   */
  lemma ReplacedTableForgetsOldPairs(c: Config, o: FileOutcome)
    requires SetsRates(o)
    ensures Pairs(Overlay(c, o).rates) == Pairs(o.value.rates)
    ensures forall p :: p in Pairs(c.rates) && p !in Pairs(o.value.rates) ==>
              p !in Pairs(Overlay(c, o).rates)
  {
  }

  /**
   * The storage behind the process-wide `config` variable, which the
   * start-up code updates in place through a `*Config` pointer.
   */
  class ConfigVar {
    var rates: RateTable
    var port: string

    /** The configuration the variable currently holds. */
    function Value(): Config
      reads this
    {
      Config(rates, port)
    }

    /** `config = defaultConfig()`. */
    constructor FromDefaults()
      ensures Value() == Default()
    {
      rates := Default().rates;
      port := Default().port;
    }

    /**
     * `populateConfig`: applies one file's read-and-parse outcome and
     * reports the failure, if any.
     */
    method PopulateConfig(outcome: FileOutcome) returns (err: Option<LoadError>)
      modifies this
      ensures err == (if outcome.Failure? then Some(outcome.error) else None)
      ensures Value() == Overlay(old(Value()), outcome)
    {
      if outcome.Failure? {
        return Some(outcome.error);
      }
      var parsed := outcome.value;
      if parsed.port != "" {
        port := parsed.port;
      }
      if |parsed.rates| > 0 {
        rates := parsed.rates;
      }
      err := None;
    }

    /** `populateConfigByEnvs`: a present `PORT` replaces the port. */
    method PopulateConfigByEnvs(env: Option<string>)
      modifies this
      ensures Value() == ApplyEnv(old(Value()), env)
      ensures rates == old(rates)
    {
      if env.Some? {
        port := env.value;
      }
    }
  }
}
