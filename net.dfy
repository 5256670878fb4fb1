/** What the network gives back to one `requests.get`. The sweeps never see
    the network itself: they are handed a `Fetch` oracle that maps the
    request number and the URL to an outcome. */
module Net {

  datatype Option<T> = None | Some(value: T)

  /** The parts of a `requests` response the sweeps read. */
  datatype Response = Response(status: int, text: string)

  /** A response, a `requests.exceptions.RequestException` (timeout,
      connection or DNS failure, malformed response), or any other exception
      raised inside the call. */
  datatype Outcome =
    | Got(response: Response)
    | RequestError(message: string)
    | OtherError(message: string)

  /** The outcome of request number `n`, sent to `url`. */
  type Fetch = (nat, string) -> Outcome
}
