/**
 * The decision the `/rate` endpoint makes for one request: reject a missing
 * parameter, otherwise look the pair up exactly and answer with its rate.
 */
module RateHandler {
  import opened Wrappers
  import opened AppConfig

  /** The JSON body `{from, to, rate}` of a successful answer. */
  datatype CurrencyRate = CurrencyRate(from: Code, to: Code, rate: real)

  /** What the handler answers. */
  datatype RateResponse =
    | BadRequest          // 400, "Missing 'from' or 'to' parameter"
    | NotFound            // 404, "Currency pair not found"
    | Found(body: CurrencyRate)  // 200, the JSON body

  /** The HTTP status code each answer is sent with. */
  function StatusCode(r: RateResponse): (code: int)
    ensures code in {200, 400, 404}
    ensures code == 200 <==> r.Found?
    ensures code == 400 <==> r.BadRequest?
  {
    match r
    case BadRequest => 400
    case NotFound => 404
    case Found(_) => 200
  }

  /**
   * `getRateHandler` on the query values `from` and `to` (a missing
   * parameter reads as the empty string) against the table `rates`.
   */
  function HandleRate(from: Code, to: Code, rates: RateTable): (r: RateResponse)
    ensures r.BadRequest? <==> from == "" || to == ""
    ensures r.Found? <==> from != "" && to != "" && (from, to) in Pairs(rates)
    ensures r.NotFound? <==> from != "" && to != "" && (from, to) !in Pairs(rates)
    ensures r.Found? ==> r.body.from == from && r.body.to == to &&
                         from in rates && to in rates[from] && r.body.rate == rates[from][to]
  {
    if from == "" || to == "" then BadRequest
    else if from in rates && to in rates[from] then
      Found(CurrencyRate(from, to, rates[from][to]))
    else
      NotFound
  }

  /** A request missing a parameter is answered without consulting the table. */
  lemma BadRequestIgnoresTable(from: Code, to: Code, rates1: RateTable, rates2: RateTable)
    requires from == "" || to == ""
    ensures HandleRate(from, to, rates1) == HandleRate(from, to, rates2) == BadRequest
  {
  }

  /** A source code absent from the table is never found, whatever the destination. */
  lemma UnknownSourceNotFound(from: Code, to: Code, rates: RateTable)
    requires from != "" && to != "" && from !in rates
    ensures HandleRate(from, to, rates) == NotFound
    ensures StatusCode(HandleRate(from, to, rates)) == 404
  {
  }

  /**
   * The answer depends on the table only through the entry for the pair
   * asked about: two tables that agree on that entry answer alike.
   */
  lemma AnswerDependsOnlyOnPair(from: Code, to: Code, rates1: RateTable, rates2: RateTable)
    requires (from, to) in Pairs(rates1) <==> (from, to) in Pairs(rates2)
    requires from in rates1 && to in rates1[from] ==> rates1[from][to] == rates2[from][to]
    ensures HandleRate(from, to, rates1) == HandleRate(from, to, rates2)
  {
  }

  /** The defaults answer CARAMEL to CHOKOLATE with 200 and rate 0.85. */
  lemma DefaultCaramelToChokolate()
    ensures HandleRate("CARAMEL", "CHOKOLATE", Default().rates) ==
              Found(CurrencyRate("CARAMEL", "CHOKOLATE", 0.85))
  {
  }

  /**
   * A file whose only table is USD to EUR at 0.9 replaces the defaults, so
   * CARAMEL to CHOKOLATE is no longer found while USD to EUR is.
   */
  lemma ReplacedDefaultsNotFound(port: string)
    ensures var c := Overlay(Default(), Success(Config(map["USD" := map["EUR" := 0.9]], port)));
            HandleRate("CARAMEL", "CHOKOLATE", c.rates) == NotFound &&
            HandleRate("USD", "EUR", c.rates) == Found(CurrencyRate("USD", "EUR", 0.9))
  {
  }
}
