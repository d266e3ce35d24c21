/**
 * The style-options loader (`OptionsListener.tsx`). When the loaded API key
 * changes it fetches the style options and, only when that fetch fully
 * succeeds, persists the (endpoint, key) pair and marks the key as cached in
 * the form.
 */
module OptionsListener {
  import opened Wrappers
  import opened JsStrings
  import opened AidTestDb
  import opened Api
  import opened Remote

  /**
   * The state the effect touches: the component's `styleOptions` and
   * `loading`, the record store, and the form's hidden `cachedApiKey` field.
   */
  datatype Listener = Listener(styleOptions: seq<OptionItem>, loading: bool, store: Store, cachedApiKey: Option<string>)

  /** "Failed to fetch options". */
  const FetchFailedMessage: string := "获取选项失败"

  /** The state after the effect, whether a request went out, and the error message shown, if any. */
  datatype Step = Step(state: Listener, fetched: bool, notice: Option<string>)

  /** The response got past the `ok` filter and its body decoded, so the subscriber reached its `try`. */
  predicate ReachedTry(outcome: OptionsOutcome) {
    outcome.Responded? && outcome.ok && outcome.body.Json?
  }

  /** The fetch succeeded all the way: HTTP ok, a JSON envelope, code 200. */
  predicate Succeeded(outcome: OptionsOutcome) {
    ReachedTry(outcome) && outcome.body.envelope.code == SuccessCode
  }

  /**
   * The effect run for a new `apiKey` prop, with the fetch replaced by its
   * outcome. A failed `fetch` shows a message; a non-ok response is filtered
   * out; an undecodable body throws before the `try`. In those three cases
   * `loading` stays set. Inside the `try` a non-200 code throws before any
   * write, and `finally` clears `loading`.
   */
  function OnApiKey(st: Listener, apiKey: Option<string>, apiUrl: string, outcome: OptionsOutcome): (r: Step)
    ensures !Truthy(apiKey) ==> r == Step(st, false, None)
    ensures Truthy(apiKey) ==> r.fetched && (r.state.loading <==> !ReachedTry(outcome))
    ensures r.notice.Some? <==> Truthy(apiKey) && outcome.TransportError?
    ensures Truthy(apiKey) && Succeeded(outcome) ==>
      && r.state.styleOptions == outcome.body.envelope.data.data
      && GetApiKeyByUrl(r.state.store, apiUrl) == apiKey
      && r.state.store == SetApiKeyByUrl(st.store, apiUrl, apiKey.value)
      && r.state.cachedApiKey == apiKey
    ensures !(Truthy(apiKey) && Succeeded(outcome)) ==>
      && r.state.styleOptions == st.styleOptions
      && r.state.store == st.store
      && r.state.cachedApiKey == st.cachedApiKey
  {
    if !Truthy(apiKey) then Step(st, false, None)
    else
      var started := st.(loading := true);
      match outcome
      case TransportError => Step(started, true, Some(FetchFailedMessage))
      case Responded(ok, body) =>
        if !ok then Step(started, true, None)
        else match body
          case NotJson => Step(started, true, None)
          case Json(envelope) =>
            match ParseApiResponse(envelope)
            case Err(_) => Step(started.(loading := false), true, None)
            case Ok(options) =>
              Step(Listener(options, false, SetApiKeyByUrl(st.store, apiUrl, apiKey.value), apiKey), true, None)
  }

  /** The store and the cached key change only after a fully successful fetch, and then to the pair just used. */
  lemma PersistsOnlyOnSuccess(st: Listener, apiKey: Option<string>, apiUrl: string, outcome: OptionsOutcome)
    ensures var r := OnApiKey(st, apiKey, apiUrl, outcome).state;
      (r.store != st.store || r.cachedApiKey != st.cachedApiKey) ==>
        Truthy(apiKey) && Succeeded(outcome) && r.cachedApiKey == apiKey
  {
  }

  /** A successful fetch leaves the other endpoints' keys as they were. */
  lemma SuccessKeepsOtherKeys(st: Listener, apiKey: Option<string>, apiUrl: string, outcome: OptionsOutcome, other: string)
    requires Truthy(apiKey) && Succeeded(outcome) && other != apiUrl
    ensures GetApiKeyByUrl(OnApiKey(st, apiKey, apiUrl, outcome).state.store, other) == GetApiKeyByUrl(st.store, other)
  {
  }

  /**
   * React re-runs the effect only when the `apiKey` prop changes value, and
   * the body does something only for a truthy key.
   */
  predicate EffectRuns(previous: Option<string>, next: Option<string>) {
    previous != next && Truthy(next)
  }
}
