/**
 * The two option endpoints (`/sd_params/options/style` and
 * `/sd_params/options/room`) seen from the page: what a `fetch` can end in.
 * Requests, headers and JSON decoding are not modelled; a call is replaced
 * by its outcome.
 */
module Remote {
  import opened Api

  /** A selectable option (`OptionItem` / `IOptions` in the source); `caption` is its `label`. */
  datatype OptionItem = OptionItem(caption: string, value: string)

  /** The response body: either it does not decode as JSON (`json()` rejects) or it is an envelope. */
  datatype Body<T> = NotJson | Json(envelope: Envelope<T>)

  /** A `fetch` either rejects (network failure) or resolves with a response whose `ok` flag reflects the HTTP status. */
  datatype FetchOutcome<T> = TransportError | Responded(ok: bool, body: Body<T>)

  type OptionsOutcome = FetchOutcome<seq<OptionItem>>
}
