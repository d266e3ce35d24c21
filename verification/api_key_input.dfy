/**
 * The API-key field (`ApiKeyInput.tsx`): loading a typed key, refilling the
 * field when the endpoint changes, the length-based auto-load rule, and the
 * load button's disabled state.
 */
module ApiKeyInput {
  import opened Wrappers
  import opened JsStrings
  import opened AidTestDb
  import OptionsListener
  import Remote

  /** The form fields the component watches. */
  datatype Fields = Fields(apiUrl: Option<string>, apiKey: Option<string>, cachedApiKey: Option<string>)

  /** The fields plus the component's own state; `currentApiKey` is the key handed to the options loader. */
  datatype KeyInput = KeyInput(fields: Fields, currentApiKey: Option<string>, loading: bool)

  /** "Please enter the API Key". */
  const EmptyKeyMessage: string := "请输入API Key"

  /** The state after `handleLoadApiKey` and the error message it shows, if any. */
  datatype Loaded = Loaded(state: KeyInput, error: Option<string>)

  /**
   * `handleLoadApiKey`: an empty or missing key is reported and changes
   * nothing else; otherwise the typed key becomes the current key. `finally`
   * clears `loading` on both paths.
   */
  function HandleLoadApiKey(st: KeyInput): (r: Loaded)
    ensures r.error.Some? <==> !Truthy(st.fields.apiKey)
    ensures r.error.Some? ==> r.error.value == EmptyKeyMessage && r.state.currentApiKey == st.currentApiKey
    ensures r.error.None? ==> r.state.currentApiKey == st.fields.apiKey
    ensures r.state.fields == st.fields && !r.state.loading
  {
    if !Truthy(st.fields.apiKey) then Loaded(st.(loading := false), Some(EmptyKeyMessage))
    else Loaded(st.(currentApiKey := st.fields.apiKey, loading := false), None)
  }

  /**
   * `shouldAutoLoad`: never with a missing or blank cached key or an empty
   * typed key; otherwise exactly when the two have the same `length`. The
   * contents are never compared.
   */
  function ShouldAutoLoad(apiKey: Option<string>, cachedApiKey: Option<string>): (r: bool)
    ensures r <==>
      && cachedApiKey.Some? && !Blank(cachedApiKey.value)
      && Truthy(apiKey)
      && Utf16Length(apiKey.value) == Utf16Length(cachedApiKey.value)
  {
    if cachedApiKey.None? then false
    else
      TrimEmptyIffBlank(cachedApiKey.value);
      if cachedApiKey.value == [] || Trim(cachedApiKey.value) == [] then false
      else if !Truthy(apiKey) then false
      else Utf16Length(apiKey.value) == Utf16Length(cachedApiKey.value)
  }

  /** Only the lengths matter: two typed keys of equal `length` are treated alike. */
  lemma AutoLoadIgnoresContent(k1: string, k2: string, cachedApiKey: Option<string>)
    requires Utf16Length(k1) == Utf16Length(k2)
    ensures ShouldAutoLoad(Some(k1), cachedApiKey) == ShouldAutoLoad(Some(k2), cachedApiKey)
  {
  }

  /** A typed key that differs from the cached one but has the same `length` still triggers the load. */
  lemma DifferentKeySameLengthAutoLoads(k: string, c: string)
    requires k != [] && !Blank(c) && Utf16Length(k) == Utf16Length(c) && k != c
    ensures ShouldAutoLoad(Some(k), Some(c))
  {
  }

  /** A whitespace-only cached key never triggers the load. */
  lemma BlankCacheNeverAutoLoads(apiKey: Option<string>, cached: string)
    requires Blank(cached)
    ensures !ShouldAutoLoad(apiKey, Some(cached))
  {
  }

  /** The auto-load effect: when the rule holds it runs `handleLoadApiKey`, which then cannot fail. */
  function AutoLoad(st: KeyInput): (r: KeyInput)
    ensures ShouldAutoLoad(st.fields.apiKey, st.fields.cachedApiKey) ==>
      r.currentApiKey == st.fields.apiKey && r.fields == st.fields
    ensures !ShouldAutoLoad(st.fields.apiKey, st.fields.cachedApiKey) ==> r == st
  {
    if ShouldAutoLoad(st.fields.apiKey, st.fields.cachedApiKey) then HandleLoadApiKey(st).state else st
  }

  /**
   * The endpoint-change effect: with a truthy URL it looks the stored key up.
   * A missing or empty key clears the field and keeps the current key; a
   * stored key fills the field and becomes the current key. `cachedApiKey`
   * is not touched here.
   */
  function OnEndpointChange(st: KeyInput, store: Store): (r: KeyInput)
    ensures !Truthy(st.fields.apiUrl) ==> r == st
    ensures r.fields.apiUrl == st.fields.apiUrl && r.fields.cachedApiKey == st.fields.cachedApiKey
    ensures r.loading == st.loading
    ensures Truthy(st.fields.apiUrl) && !Truthy(GetApiKeyByUrl(store, st.fields.apiUrl.value)) ==>
      r.fields.apiKey == Some("") && r.currentApiKey == st.currentApiKey
    ensures Truthy(st.fields.apiUrl) && Truthy(GetApiKeyByUrl(store, st.fields.apiUrl.value)) ==>
      r.fields.apiKey == GetApiKeyByUrl(store, st.fields.apiUrl.value) && r.currentApiKey == r.fields.apiKey
  {
    if !Truthy(st.fields.apiUrl) then st
    else
      var stored := GetApiKeyByUrl(store, st.fields.apiUrl.value);
      if !Truthy(stored) then st.(fields := st.fields.(apiKey := Some("")))
      else st.(fields := st.fields.(apiKey := stored), currentApiKey := stored)
  }

  /** Switching to an endpoint whose key was persisted brings that key back into the field and loads it. */
  lemma StoredKeyRestored(st: KeyInput, store: Store, apiUrl: string, apiKey: string)
    requires st.fields.apiUrl == Some(apiUrl) && apiUrl != [] && apiKey != []
    ensures var r := OnEndpointChange(st, SetApiKeyByUrl(store, apiUrl, apiKey));
      r.fields.apiKey == Some(apiKey) && r.currentApiKey == Some(apiKey)
  {
  }

  /** Switching to an endpoint with nothing stored empties the field and leaves the loaded key alone. */
  lemma UnknownEndpointClears(st: KeyInput, store: Store, apiUrl: string)
    requires st.fields.apiUrl == Some(apiUrl) && apiUrl != [] && apiUrl !in store
    ensures var r := OnEndpointChange(st, store);
      r.fields.apiKey == Some("") && r.currentApiKey == st.currentApiKey
  {
  }

  /** `disabled={!apiKey || apiKey === cachedApiKey}`. */
  function LoadButtonDisabled(fields: Fields): (r: bool)
    ensures !r <==> Truthy(fields.apiKey) && fields.apiKey != fields.cachedApiKey
  {
    !Truthy(fields.apiKey) || fields.apiKey == fields.cachedApiKey
  }

  /**
   * After the options loader succeeds with the key in the field, the key is
   * cached: the load button is disabled, and the auto-load that follows sets
   * the same current key again, so the options effect does not fire a
   * second request.
   */
  lemma FetchSuccessSettles(st: KeyInput, listener: OptionsListener.Listener, apiUrl: string, outcome: Remote.OptionsOutcome)
    requires Truthy(st.fields.apiKey) && st.currentApiKey == st.fields.apiKey
    requires OptionsListener.Succeeded(outcome)
    ensures var step := OptionsListener.OnApiKey(listener, st.currentApiKey, apiUrl, outcome);
      var st' := st.(fields := st.fields.(cachedApiKey := step.state.cachedApiKey));
      && LoadButtonDisabled(st'.fields)
      && AutoLoad(st').currentApiKey == st.currentApiKey
      && !OptionsListener.EffectRuns(st.currentApiKey, AutoLoad(st').currentApiKey)
  {
  }

  /** Typing a key of the cached key's length loads the TYPED key, which starts a new fetch when it differs from the loaded one. */
  lemma SameLengthKeyLoads(st: KeyInput)
    requires ShouldAutoLoad(st.fields.apiKey, st.fields.cachedApiKey)
    requires st.fields.apiKey != st.currentApiKey
    ensures AutoLoad(st).currentApiKey == st.fields.apiKey
    ensures OptionsListener.EffectRuns(st.currentApiKey, AutoLoad(st).currentApiKey)
  {
  }
}
