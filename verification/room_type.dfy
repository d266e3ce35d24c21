/**
 * The room-type selector (`RoomType.tsx`). All selectors share one
 * module-level options subject and one `loading` flag. The flag is set
 * before the first request and nothing ever clears it.
 */
module RoomType {
  import opened Wrappers
  import opened JsStrings
  import opened Api
  import opened Remote

  /** The module-level state: the value held by `options$` and the `loading` flag. */
  datatype Shared = Shared(options: seq<OptionItem>, loading: bool)

  /** At page load: no options and no request made. */
  const Initial: Shared := Shared([], false)

  /** The state after a call and whether the call sent a request. */
  datatype LoadStep = LoadStep(state: Shared, fetched: bool)

  /**
   * `loadOptions` with the room fetch replaced by its outcome. The response's
   * `ok` flag is never checked; a failed fetch, an undecodable body and a
   * non-200 code all reject the returned promise before `options$.next`.
   */
  function LoadOptions(st: Shared, outcome: OptionsOutcome): (r: LoadStep)
    ensures st.loading ==> r == LoadStep(st, false)
    ensures !st.loading ==> r.fetched
    ensures r.state.loading
    ensures !st.loading && outcome.Responded? && outcome.body.Json? && outcome.body.envelope.code == SuccessCode ==>
      r.state.options == outcome.body.envelope.data.data
    ensures !(outcome.Responded? && outcome.body.Json? && outcome.body.envelope.code == SuccessCode) ==>
      r.state.options == st.options
  {
    if st.loading then LoadStep(st, false)
    else
      var started := st.(loading := true);
      match outcome
      case TransportError => LoadStep(started, true)
      case Responded(_, body) =>
        match body
        case NotJson => LoadStep(started, true)
        case Json(envelope) =>
          match ParseApiResponse(envelope)
          case Err(_) => LoadStep(started, true)
          case Ok(options) => LoadStep(started.(options := options), true)
  }

  /** The selector's effect for its current props: it calls `loadOptions` only when both are truthy. */
  function OnProps(st: Shared, apiUrl: Option<string>, apiKey: Option<string>, outcome: OptionsOutcome): (r: LoadStep)
    ensures !(Truthy(apiUrl) && Truthy(apiKey)) ==> r == LoadStep(st, false)
    ensures r.fetched ==> Truthy(apiUrl) && Truthy(apiKey) && !st.loading
  {
    if Truthy(apiUrl) && Truthy(apiKey) then LoadOptions(st, outcome) else LoadStep(st, false)
  }

  /** One run of a selector's effect: its props and what the request would return. */
  datatype Trigger = Trigger(apiUrl: Option<string>, apiKey: Option<string>, outcome: OptionsOutcome)

  predicate Enabled(t: Trigger) {
    Truthy(t.apiUrl) && Truthy(t.apiKey)
  }

  /** Any sequence of effect runs, from any number of selectors, in order: final state and requests sent. */
  function Run(st: Shared, triggers: seq<Trigger>): (Shared, nat)
    decreases |triggers|
  {
    if triggers == [] then (st, 0)
    else
      var step := OnProps(st, triggers[0].apiUrl, triggers[0].apiKey, triggers[0].outcome);
      var rest := Run(step.state, triggers[1..]);
      (rest.0, rest.1 + if step.fetched then 1 else 0)
  }

  /** Once `loading` is set, no later run sends a request or changes anything. */
  lemma {:induction false} LoadingLatches(st: Shared, triggers: seq<Trigger>)
    requires st.loading
    ensures Run(st, triggers) == (st, 0)
  {
    if triggers != [] {
      LoadingLatches(st, triggers[1..]);
    }
  }

  /**
   * Over a whole page lifetime at most one room request is sent: exactly one
   * if some run had both props truthy, none otherwise.
   */
  lemma {:induction false} AtMostOneFetch(triggers: seq<Trigger>)
    ensures Run(Initial, triggers).1 <= 1
    ensures Run(Initial, triggers).1 == 1 <==> exists i :: 0 <= i < |triggers| && Enabled(triggers[i])
  {
    if triggers != [] {
      var step := OnProps(Initial, triggers[0].apiUrl, triggers[0].apiKey, triggers[0].outcome);
      if Enabled(triggers[0]) {
        LoadingLatches(step.state, triggers[1..]);
      } else {
        AtMostOneFetch(triggers[1..]);
        if exists i :: 0 <= i < |triggers| && Enabled(triggers[i]) {
          var i :| 0 <= i < |triggers| && Enabled(triggers[i]);
          assert triggers[1..][i - 1] == triggers[i];
        }
      }
    }
  }
}
