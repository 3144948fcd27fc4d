/** Optional values, the error kinds the fetch module raises, and a result type
    that carries either a value or one of those errors. The source signals every
    failure by raising an exception; here each raise becomes an `Err`. */
module Outcomes {

  datatype Option<T> = None | Some(value: T)

  /** One constructor per exception the fetch module can end in. */
  datatype FetchError =
    | NoApiKey                                // ValueError: the Polygon credential is empty
    | BadDate(text: string)                   // the date parser could not read `text`
    | PolygonUnavailable                      // the HTTP request itself failed (timeout, connection)
    | PolygonStatus(status: int, body: string) // ValueError: a status other than 200
    | PolygonUndecodable                      // the 200 reply body is not a JSON object
    | NoPolygonData(ticker: string)           // ValueError: an empty `results` array
    | YahooUnavailable                        // the Yahoo download raised
    | NoYahooData(ticker: string)             // ValueError: the downloaded table is empty
    | MissingColumn(name: string)             // KeyError: `dropna` on a column that is absent
    | NoFrame                                 // AttributeError: normalising `None` (unknown provider)

  datatype Result<T> = Ok(value: T) | Err(error: FetchError)
}
