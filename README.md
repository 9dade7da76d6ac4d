# muffin-currency: configuration merge and rate lookup

A Dafny model of the logic of a tiny HTTP service that answers
`GET /rate?from=<CODE>&to=<CODE>` from an in-memory table of currency
rates. Two pieces of the Go program `app/main.go` are modelled:

- **Configuration merge.** The process-wide `config` starts as
  `defaultConfig()` (six rates between CARAMEL, CHOKOLATE and PLAIN, port
  `"8080"`). Then `populateConfig` is applied for `application.json` and
  then for `config/application.json`. A file that cannot be read or parsed
  changes nothing. In a file that loaded, a non-empty `Port` replaces the
  port, and a non-empty `Rates` replaces the whole table. Finally
  `populateConfigByEnvs` replaces the port whenever `PORT` is set, even to
  the empty string.
- **Rate request.** `getRateHandler` answers 400 when `from` or `to` is
  empty or missing, without looking at the table. Otherwise it looks up
  `rates[from][to]` exactly: 404 when the pair is absent, else 200 with
  `{from, to, rate}`.

Layout:

- `wrappers.dfy` (`Wrappers`): `Option` and `Result`.
- `config.dfy` (`AppConfig`): the `Config` value, the default
  configuration, the pure overlay functions `Overlay`, `ApplyEnv` and
  `OverlayAll`, the last-writer-wins lemmas, and the class `ConfigVar`. That
  class is the storage behind the global `config`, which
  `populateConfig` and `populateConfigByEnvs` update in place through a
  `*Config`.
- `rate_handler.dfy` (`RateHandler`): the handler's decision `HandleRate`
  and lemmas about it.
- `startup.dfy` (`Startup`): the start-up loop of `main` as the method
  `BuildConfig`, its specification `Effective`, and the precedence lemmas.

Reading a file and decoding its JSON are one input: a total function
`load: string -> Result<Config, LoadError>` from a path to its outcome. The
environment lookup of `PORT` is an input `Option<string>`. Rates are only
stored and echoed, so they are `real`; this lets the default table be
stated with its exact constants.

`main` ignores any error from `populateConfig` (app/main.go:94-97), so a
file that cannot be parsed is skipped like a missing one
(`ParseFailureLikeMissingFile`).

## Model

| member | source | states |
|---|---|---|
| AppConfig.Default | app/main.go:16-25 | the default table holds exactly the six pairs CARAMEL→{CHOKOLATE, PLAIN}, CHOKOLATE→{CARAMEL, PLAIN}, PLAIN→{CHOKOLATE, CARAMEL}, and the default port is "8080" |
| AppConfig.Overlay | app/main.go:27-47 | a failed read or parse leaves the configuration unchanged; otherwise the port becomes the file's port exactly when that is non-empty, and the table becomes the file's table exactly when that is non-empty, each field independently of the other |
| AppConfig.ConfigVar.PopulateConfig | app/main.go:27-47 | the in-place update returns the load error, if any, and leaves the object holding the overlay of its old value by the file; on an error both fields are unchanged |
| AppConfig.ApplyEnv | app/main.go:49-53 | a present `PORT`, including the empty string, becomes the port; an absent one changes nothing; the table is never changed |
| AppConfig.ConfigVar.PopulateConfigByEnvs | app/main.go:49-53 | the in-place update leaves the object holding the environment overlay of its old value and never touches the table |
| AppConfig.ConfigVar.FromDefaults | app/main.go:92 | a fresh configuration variable holds the defaults |
| AppConfig.OverlayAll | app/main.go:93-98 | after files applied in order, the port is the starting port or the non-empty port of one of the files, and the table is the starting table or the whole non-empty table of one of the files |
| AppConfig.FailedFilesChangeNothing | app/main.go:28-37 | any number of files that fail to load leave the configuration exactly as it was |
| AppConfig.PortKeptWithoutWriter | app/main.go:39-41 | when no loaded file has a non-empty port, the starting port survives every file |
| AppConfig.PortIsLastWriter | app/main.go:93-98 | after a sequence of files, the port is that of the last loaded file with a non-empty port |
| AppConfig.RatesKeptWithoutWriter | app/main.go:42-44 | when no loaded file has a non-empty table, the starting table survives every file |
| AppConfig.RatesIsLastWriter | app/main.go:93-98 | after a sequence of files, the table is exactly that of the last loaded file with a non-empty table, with no per-entry merge |
| AppConfig.ReplacedTableForgetsOldPairs | app/main.go:42-44 | after a file with a non-empty table, the pairs present are exactly the file's pairs; a previous pair the file lacks is gone |
| RateHandler.StatusCode | app/main.go:67-87 | the status is 200 exactly for a found pair, 400 exactly for a missing parameter, and 404 otherwise |
| RateHandler.HandleRate | app/main.go:63-88 | 400 exactly when `from` or `to` is empty; 200 exactly when both are non-empty and the pair is in the table, with body `{from, to, rates[from][to]}`; 404 exactly when both are non-empty and the pair is absent |
| RateHandler.BadRequestIgnoresTable | app/main.go:67-70 | with a parameter empty, the answer is 400 whatever the table holds |
| RateHandler.UnknownSourceNotFound | app/main.go:72-78 | a source code absent from the table gives 404 for every destination |
| RateHandler.AnswerDependsOnlyOnPair | app/main.go:72-84 | two tables that agree on the requested pair give the same answer: the lookup is exact, with no inference from other entries |
| RateHandler.DefaultCaramelToChokolate | app/main.go:74-84 | with the default table, CARAMEL to CHOKOLATE is answered 200 with rate 0.85 |
| RateHandler.ReplacedDefaultsNotFound | app/main.go:42-44 | after a file whose table is only USD→EUR 0.9, CARAMEL to CHOKOLATE is 404 and USD to EUR is 200 with rate 0.9 |
| Startup.Outcomes | app/main.go:93-94 | one read-and-parse outcome per path, in the order the paths are tried |
| Startup.AppliedPaths | app/main.go:93-97 | the paths logged as applied are exactly the candidate paths whose file loaded |
| Startup.AppliedCandidates | app/main.go:93-97 | the applied-path log is `application.json` if it loaded, followed by `config/application.json` if it loaded: each loaded candidate once, in candidate order |
| Startup.Effective | app/main.go:92-99 | the effective port is `PORT` when set, and otherwise the default port or the non-empty port of a candidate file that loaded; the effective table is the default table or the whole non-empty table of a candidate file that loaded |
| Startup.BuildConfig | app/main.go:90-99 | the loop over the two candidate paths followed by the environment step leaves a fresh configuration equal to `Effective`, and reports exactly the applied paths |
| Startup.EffectivePort | app/main.go:92-99 | the effective port is `PORT` when set; otherwise that of `config/application.json` if it loaded with a non-empty port; otherwise that of `application.json` likewise; otherwise "8080" |
| Startup.EffectiveRates | app/main.go:92-98 | the effective table is the whole table of `config/application.json` if it loaded with a non-empty one, otherwise that of `application.json` likewise, otherwise the defaults; `PORT` never affects it |
| Startup.NothingLoadedGivesDefaults | app/main.go:92-99 | with no file loaded and `PORT` unset, the effective configuration equals the defaults |
| Startup.ParseFailureLikeMissingFile | app/main.go:94-97 | a file that fails to parse has the same effect on the effective configuration as a file that cannot be read |
| Startup.FirstFilePortSurvives | app/main.go:92-99 | with the first file setting port "9000" and the second loading without a port, the effective port is "9000" when `PORT` is unset and "7000" when `PORT` is "7000" |

## Left out

- Reading files (`os.ReadFile`) and JSON decoding (`json.Unmarshal`, including Go's case-insensitive field matching): their combined outcome per path is the input `load`.
- `os.LookupEnv("PORT")`: its result is the input `env`.
- HTTP plumbing: route registration, reading the query string, `http.Error` message bodies, response headers and JSON encoding of the body. Only the answer the handler decides on, and its status code, are modelled.
- Logging: the "Applied '<path>' config" lines are modelled as the list of applied paths; the port log line is not modelled.
- `http.ListenAndServe` and the fatal exit when the port cannot be bound.
- Per-request concurrency of the HTTP server: the configuration is written once before serving and only read afterwards, so the model is sequential.
- Floating point: `float64` rates are `real` values that are only stored and returned.
