# AID API test page: local store and decision rules, in Dafny

This project models the logic of the AID API test page, a browser form for trying out an image-generation service. That logic is the page's local record store (`AidTestDB`, one IndexedDB object store keyed by `id`) and the rules around it. The store caches API keys per endpoint URL and holds uploaded images under generated `img_<filename>_<timestamp>` ids. The rules are:

- the upload acceptance check;
- unwrapping of the service's `{ code, data: { data, total? } }` envelope;
- the API-key field's auto-load rule;
- the endpoint-change refill;
- the load button's disabled state;
- the style-options loader, which persists a key only after a fully successful fetch;
- the shared room-type loader, whose `loading` flag latches;
- the preview grid's delete and room-type edits, each mirrored into the store.

The store is a finite map from id to a tagged record (`ApiKeyRecord` or `ImageRecord`). Every operation is a pure function on that map. UI components are state-transition functions. Each network call is replaced by its outcome: the `fetch` rejected, or it resolved with an `ok` flag and a body that either is not JSON or is an envelope. `Date.now()` becomes a parameter `clock: nat -> nat`, where `clock(i)` is the reading in loop iteration `i`. Each object URL is numbered by its creation order.

Modules follow the source files: `AidTestDb` (db.ts), `Api` (tools/api.ts), `ImageUpload` and `LegacyImageUpload` (the two `ImageUpload.tsx` copies, with `UploadSubscription` for the effect's subscription), `ApiKeyInput`, `OptionsListener`, `RoomType` and `ImagePreview`. Three modules support them: `Remote` holds fetch outcomes and option items, `Browser` holds opaque browser values, and `JsStrings` holds the JavaScript string semantics the code relies on:

- `startsWith` and `trim`;
- `length`, counted in UTF-16 code units;
- the decimal rendering of a timestamp;
- the code-unit order IndexedDB uses for string keys.

In these places the model follows the code, which behaves differently from what a reader might expect:

- the room-type `loading` flag is never cleared, so one request per page lifetime is the most there can be;
- created object URLs are never revoked;
- an endpoint change fills the key field but does not set `cachedApiKey` (only a successful style fetch does);
- a style response whose body is not JSON throws outside the `try`, so `loading` stays set;
- nothing in the upload pipeline re-checks the acceptance rule, so it saves whatever list the widget reports.

## Model

| member | source | states |
|---|---|---|
| AidTestDb.GetApiKeyByUrl | src/pages/AidTest/db.ts:44-57 | a key is returned exactly when the URL holds a key record, and it is that record's `apiKey`; otherwise undefined, not an error |
| AidTestDb.SetApiKeyByUrl | src/pages/AidTest/db.ts:59-73 | the URL's lookup then returns the key; every other record is untouched; the key set grows by at most the URL |
| AidTestDb.SetApiKeyOverwrites | src/pages/AidTest/db.ts:59-72 | a second `put` for the same URL replaces the first, and the lookup returns the second key |
| AidTestDb.SetApiKeyIsolated | src/pages/AidTest/db.ts:59-72 | writing one URL's key never changes another URL's lookup |
| AidTestDb.ImageId | src/pages/AidTest/db.ts:84 | every synthesised id carries the `img_` prefix |
| AidTestDb.ImageIdInjective | src/pages/AidTest/db.ts:84 | two synthesised ids are equal iff both filename and millisecond are equal |
| AidTestDb.TrailingDigitsAfterSeparator | src/pages/AidTest/db.ts:84 | after the `_` separator, the trailing digit run is exactly the timestamp numeral |
| AidTestDb.BatchIds | src/pages/AidTest/db.ts:81-84 | one id per file, id `i` built from file `i`'s name and the clock reading of iteration `i` |
| AidTestDb.AddFrom | src/pages/AidTest/db.ts:81-100 | the `add` loop succeeds iff every remaining id is new and distinct; on success the old records are kept and each id holds its file's record |
| AidTestDb.BatchSaveImages | src/pages/AidTest/db.ts:75-103 | resolves iff all synthesised ids are fresh and pairwise distinct; then one id per file in input order, and each record has the file's blob, filename = name and roomType = ""; a rejection is caused by an id already stored or shared by two files of the batch (the model tags the `ConstraintError` with that id) |
| AidTestDb.SameNameSameInstantRejects | src/pages/AidTest/db.ts:84-98 | two files with the same name in the same millisecond make the batch reject instead of overwriting |
| AidTestDb.ExistingIdRejects | src/pages/AidTest/db.ts:93-98 | an id already present in the store makes the batch reject (`add`, not `put`) |
| AidTestDb.GetImageById | src/pages/AidTest/db.ts:105-116 | a blob is returned exactly for an image record, and it is that record's blob; otherwise null |
| AidTestDb.SavedImageReadBack | src/pages/AidTest/db.ts:75-116 | each id a successful batch returns reads back, through `getImageById`, the blob of the file it was made from |
| AidTestDb.GetImagesForPreview | src/pages/AidTest/db.ts:118-141 | every entry shows its record's blob, filename as title and roomType; an id appears iff it was requested and holds an image; missing ids are skipped without error |
| AidTestDb.PreviewDistinct | src/pages/AidTest/db.ts:118-141 | ids that never repeat give preview entries whose ids never repeat |
| AidTestDb.PreviewConcat | src/pages/AidTest/db.ts:124-139 | the preview of `a + b` is the preview of `a` followed by the preview of `b`: input order is kept |
| AidTestDb.PreviewOfStoredImages | src/pages/AidTest/db.ts:124-139 | when every id holds an image, the preview has one entry per id, in the same order |
| AidTestDb.SavedImagesPreview | src/pages/AidTest/db.ts:75-141 | after a successful batch, previewing the returned ids gives, per file, its blob, its name as title and an empty room type |
| AidTestDb.UpdateImageType | src/pages/AidTest/db.ts:143-152 | only the named image record's roomType changes; an absent id (or a non-image record) leaves the store as it was |
| AidTestDb.UpdateThenPreview | src/pages/AidTest/db.ts:143-152 | after the update the image previews with the new room type and the same blob and title |
| AidTestDb.LeastExists | src/pages/AidTest/db.ts:159-163 | every non-empty key set has a least key in IndexedDB order |
| AidTestDb.InKeyOrder | src/pages/AidTest/db.ts:159-163 | `getAll` visits exactly the keys of the set, strictly ascending, so without duplicates |
| AidTestDb.GetAllImageIds | src/pages/AidTest/db.ts:155-168 | the result lists exactly the stored ids that start with `img_` (by prefix alone), in ascending key order |
| AidTestDb.ListedIdsDistinct | src/pages/AidTest/db.ts:155-168 | the ids of a successful batch and the ids `getAllImageIds` lists never repeat |
| AidTestDb.DeleteById | src/pages/AidTest/db.ts:198-208 | removes only `id`; deleting an absent id changes nothing |
| AidTestDb.DeleteEach | src/pages/AidTest/db.ts:176-182 | after the loop no listed id remains and every other record is unchanged |
| AidTestDb.DeleteAllImages | src/pages/AidTest/db.ts:170-183 | every `img_` record is removed and every other record is kept unchanged |
| AidTestDb.SavedImagesEnumerated | src/pages/AidTest/db.ts:165-167 | ids returned by a batch are enumerated afterwards; a key record under a non-`img_` URL never is |
| AidTestDb.DeleteAllImagesKeepsKeys | src/pages/AidTest/db.ts:170-183 | after the bulk delete no image id is listed and API-key lookups under non-`img_` URLs are unchanged |
| AidTestDb.PreviewAfterDelete | src/pages/AidTest/db.ts:198-208 | a deleted id never appears in a later preview; previews of lists without it are unchanged |
| JsStrings.TrimStart | src/pages/AidTest/components/ApiKeyInput.tsx:61 | the result is the suffix starting at the first non-whitespace character |
| JsStrings.TrimEnd | src/pages/AidTest/components/ApiKeyInput.tsx:61 | the result is the prefix ending at the last non-whitespace character |
| JsStrings.TrimEmptyIffBlank | src/pages/AidTest/components/ApiKeyInput.tsx:61 | `trim() === ""` holds exactly for strings made only of JavaScript whitespace |
| JsStrings.Utf16Length | src/pages/AidTest/components/ApiKeyInput.tsx:63 | `length` counts code units: between the character count and twice it, equal to it exactly when every character is in the Basic Multilingual Plane |
| JsStrings.Utf16LengthConcat | src/pages/AidTest/components/ApiKeyInput.tsx:63 | `length` of a concatenation is the sum of the parts' lengths |
| JsStrings.Utf16LengthChar | src/pages/AidTest/components/ApiKeyInput.tsx:63 | one character counts one code unit, two outside the Basic Multilingual Plane; one emoji and one letter have length 3 |
| JsStrings.NatToDecimal | src/pages/AidTest/db.ts:84 | the rendered timestamp is a non-empty run of decimal digits with no leading zero (only 0 renders as "0") |
| JsStrings.DecimalRoundTrip | src/pages/AidTest/db.ts:84 | reading the rendered numeral back gives the timestamp |
| JsStrings.DecimalInjective | src/pages/AidTest/db.ts:84 | distinct timestamps render differently |
| JsStrings.LessIrreflexive | src/pages/AidTest/db.ts:160 | no key sorts before itself |
| JsStrings.LessTransitive | src/pages/AidTest/db.ts:160 | the key order is transitive |
| JsStrings.LessTotal | src/pages/AidTest/db.ts:160 | any two different keys are ordered one way or the other |
| Api.ParseApiResponse | src/tools/api.ts:11-17 | succeeds iff code is 200 and then yields exactly `data.data`; any other code is an error carrying that code |
| Api.UnwrapWrapped | src/tools/api.ts:16 | wrapping a value in a 200 envelope and unwrapping it returns the value |
| Api.TotalIgnored | src/tools/api.ts:2-8 | the optional `total` never affects the result |
| Api.OnlyCode200Succeeds | src/tools/api.ts:12-14 | there is no success range: every code other than 200 fails |
| ImageUpload.HandleBeforeUpload | src/pages/AidTest/components/ImageUpload.tsx:18-30 | accepted iff the type starts with `image/` and size < 2 MiB; a non-image gets the type message, an oversized image the size message, exactly one each |
| ImageUpload.NonImageSizeIrrelevant | src/pages/AidTest/components/ImageUpload.tsx:19-23 | for a non-image the size is never consulted |
| ImageUpload.SizeBoundary | src/pages/AidTest/components/ImageUpload.tsx:24-28 | an image of 2097151 bytes is accepted and one of 2097152 bytes is refused with the size message |
| ImageUpload.OriginFiles | src/pages/AidTest/components/ImageUpload.tsx:39 | extracting origin files keeps length and order |
| ImageUpload.UploadPipeline | src/pages/AidTest/components/ImageUpload.tsx:32-53 | for one settled event on an open subscription, an undefined list is dropped before any save; otherwise `onChange` gets exactly the ids `batchSaveImages` resolved with, and a rejection emits nothing |
| ImageUpload.UploadedFilesPreview | src/pages/AidTest/components/ImageUpload.tsx:36-45 | a settled list yields one id per entry, in list order, each previewing as the uploaded file with an empty room type |
| UploadSubscription.OnSettled | src/pages/AidTest/components/ImageUpload.tsx:42-50 | on an open subscription, an emitted step hands its ids to `onChange` and becomes the store, a rejected save closes the subscription, a dropped list changes nothing; a closed subscription ignores every step |
| UploadSubscription.DeliverAppendsUntilClosed | src/pages/AidTest/components/ImageUpload.tsx:32-53 | over any sequence of events the emitted id lists only grow, and a closed subscription stays closed and unchanged |
| UploadSubscription.RejectionEndsUploads | src/pages/AidTest/components/ImageUpload.tsx:40-50 | after a rejected save no later event is saved or emitted |
| LegacyImageUpload.HandleBeforeUpload | components/ImageUpload.tsx:12-24 | a non-image is refused with the type message before size is looked at; an image of 2 MiB or more is refused with the size message |
| LegacyImageUpload.SameAcceptancePolicy | components/ImageUpload.tsx:12-24 | the older copy decides every file exactly as the current one: accepted iff image and < 2 MiB |
| LegacyImageUpload.HandleChange | components/ImageUpload.tsx:26-28 | the parent's `onChange` receives the new list unchanged |
| ApiKeyInput.HandleLoadApiKey | src/pages/AidTest/components/ApiKeyInput.tsx:22-38 | an empty key reports the message and keeps `currentApiKey`; a non-empty key becomes `currentApiKey`; `loading` ends cleared |
| ApiKeyInput.ShouldAutoLoad | src/pages/AidTest/components/ApiKeyInput.tsx:59-64 | true iff the cached key is present and not blank, the typed key is non-empty, and their `length`s are equal |
| ApiKeyInput.AutoLoadIgnoresContent | src/pages/AidTest/components/ApiKeyInput.tsx:63 | typed keys of equal length are treated alike, whatever their characters |
| ApiKeyInput.DifferentKeySameLengthAutoLoads | src/pages/AidTest/components/ApiKeyInput.tsx:63 | any non-empty typed key that differs from a non-blank cached key but has the same `length` triggers loading |
| ApiKeyInput.BlankCacheNeverAutoLoads | src/pages/AidTest/components/ApiKeyInput.tsx:61 | a whitespace-only cached key never triggers loading |
| ApiKeyInput.AutoLoad | src/pages/AidTest/components/ApiKeyInput.tsx:59-68 | when the rule holds the typed key becomes current and the fields stay put; otherwise nothing changes |
| ApiKeyInput.OnEndpointChange | src/pages/AidTest/components/ApiKeyInput.tsx:40-57 | with no stored key the field becomes "" and `currentApiKey` is kept; with a stored key both become it; `cachedApiKey` is never touched |
| ApiKeyInput.StoredKeyRestored | src/pages/AidTest/components/ApiKeyInput.tsx:49-53 | switching to an endpoint whose key was persisted puts that key in the field and loads it |
| ApiKeyInput.UnknownEndpointClears | src/pages/AidTest/components/ApiKeyInput.tsx:43-47 | switching to an endpoint with nothing stored empties the field and keeps the loaded key |
| ApiKeyInput.LoadButtonDisabled | src/pages/AidTest/components/ApiKeyInput.tsx:83 | enabled iff the typed key is non-empty and differs from the cached key |
| ApiKeyInput.FetchSuccessSettles | src/pages/AidTest/components/ApiKeyInput.tsx:59-83 | after a successful style fetch the button is disabled, and the auto-load that follows re-sets the same key, so no second fetch runs |
| ApiKeyInput.SameLengthKeyLoads | src/pages/AidTest/components/ApiKeyInput.tsx:59-68 | a newly typed key of the cached length becomes current, which makes the options effect run for it |
| OptionsListener.OnApiKey | src/pages/AidTest/components/OptionsListener.tsx:23-60 | a falsy key does nothing; a transport error shows a message; `loading` is cleared iff the body reached the `try`; only full success sets options to `data.data`, sets `cachedApiKey` and changes the store by exactly one `put` of apiUrl → apiKey |
| OptionsListener.PersistsOnlyOnSuccess | src/pages/AidTest/components/OptionsListener.tsx:49-53 | the store or the cached key change only on a fully successful fetch, and then to the key used |
| OptionsListener.SuccessKeepsOtherKeys | src/pages/AidTest/components/OptionsListener.tsx:52 | persisting one endpoint's key leaves every other endpoint's key as it was |
| RoomType.LoadOptions | src/pages/AidTest/components/RoomType.tsx:14-28 | while `loading` nothing happens; otherwise a request is sent and `loading` is set for good; options change only on a code-200 envelope, to `data.data` |
| RoomType.OnProps | src/pages/AidTest/components/RoomType.tsx:50-54 | a request goes out only when `apiUrl` and `apiKey` are both truthy and no load has started |
| RoomType.LoadingLatches | src/pages/AidTest/components/RoomType.tsx:12-18 | once `loading` is set, no later call sends a request or changes the shared options |
| RoomType.AtMostOneFetch | src/pages/AidTest/components/RoomType.tsx:11-28 | from the initial empty state, any sequence of selector effects sends at most one request, exactly one iff some call had both props truthy |
| ImagePreview.LoadImages | src/pages/AidTest/components/ImagePreview.tsx:21-37 | one displayed item per preview entry, same order, with id/title/roomType copied; `urlsRef` grows by one fresh URL per item and keeps every earlier URL; an empty id list displays nothing |
| ImagePreview.LoadedListMirrorsStore | src/pages/AidTest/components/ImagePreview.tsx:25-36 | a loaded list mirrors the store: every item is a stored image with its filename and room type |
| ImagePreview.LoadedListDistinct | src/pages/AidTest/components/ImagePreview.tsx:25-36 | a list loaded from ids that never repeat has distinct ids, as the edit lemmas require |
| ImagePreview.HandleDelete | src/pages/AidTest/components/ImagePreview.tsx:53-57 | removes exactly item `index` and keeps the others in order, and deletes that id from the store; an index outside the list changes nothing |
| ImagePreview.HandleTypeChange | src/pages/AidTest/components/ImagePreview.tsx:59-64 | only item `index`'s roomType changes, and the same id is updated in the store; an index outside the list changes nothing |
| ImagePreview.DeletePreservesMirror | src/pages/AidTest/components/ImagePreview.tsx:53-57 | for a list with distinct ids, deleting keeps the list mirroring the store |
| ImagePreview.TypeChangePreservesMirror | src/pages/AidTest/components/ImagePreview.tsx:59-64 | for a list with distinct ids, a room-type change keeps the list mirroring the store |
| ImagePreview.DeletedImageNotReloaded | src/pages/AidTest/components/ImagePreview.tsx:53-56 | after a delete, no later load displays the deleted id |

## Left out

- IndexedDB plumbing is not modelled because it wraps a foreign API: `initDB`, the version upgrade, transactions, request callbacks and `deleteDatabase`. The only storage failure modelled is `add`'s ConstraintError. Quota and I/O errors are left out.
- AidTestDb.BatchSaveImages: on a rejected `add` the model keeps the store as it was. This relies on IndexedDB aborting a transaction whose request error is not handled. No partial batch is modelled.
- AidTestDb.UpdateImageType: on a key record the source adds a `roomType` property that no reader ever looks at. The model leaves that record unchanged.
- AidTestDb.GetAllImageIds and AidTestDb.DeleteAllImages are ghost functions. Putting a set of keys in order picks the least key by choice.
- JsStrings.Less: IndexedDB's string-key order (UTF-16 code units) is modelled through a character rank. Non-string keys do not occur.
- Network I/O is left out: `fetch`, headers, request URLs and JSON decoding. Each call is replaced by its outcome. JSON that decodes but has another shape than the envelope is not modelled.
- rxjs timing is left out because it concerns asynchronous interleaving: the 300 ms `debounceTime`, `switchMap` cancellation of an in-flight save, and teardown when the component unmounts. The model feeds the events that survive the debounce to the subscription in order. A rejected save closes the subscription, and it ignores every later event until the effect subscribes anew.
- React scheduling is left out. Effects are applied as sequential transitions, and OptionsListener.EffectRuns approximates the "dependencies changed" test.
- Blob contents and `URL.createObjectURL` are opaque tokens, because the page never looks inside them. A URL is numbered by creation order.
- ImageUpload.HandleBeforeUpload: the size test `size / 1024 / 1024 < 2` is stated as the integer comparison `size < 2097152`. This is exact for any byte count below 2^53.
- ImageUpload.UploadPipeline: `originFileObj` is taken to be always present. Whether the widget keeps a refused file in the list it reports is the widget library's behaviour and is not modelled.
- OptionsListener.OnApiKey: `apiUrl` is read from a form field that has an initial value, so it is modelled as always present. A failed store write inside the `try` is not modelled.
- User-facing messages are modelled as returned strings. `console` logging is dropped.
- Rendering, antd widgets and routing are not modelled because they hold no logic here: `src/App.tsx`, `src/pages/Home/index.tsx`, and the layout of `src/pages/AidTest/index.tsx`, whose `initForm` only copies `getAllImageIds` into a field. The root `index.tsx` is also left out: it is an older page whose only logic is an empty-key check.
- RoomType: a selector's subscription to the shared options subject is not modelled. Every mounted selector sees the one shared value.
