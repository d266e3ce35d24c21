/**
 * The page's local record store (`AidTestDB` over one IndexedDB object store
 * keyed by `id`). The object store is a finite map from id to record. The
 * keyPath makes every record's `id` field equal to its key, so records do not
 * repeat it. Two kinds of record share the table: API-key records keyed by
 * endpoint URL, and image records keyed by `img_<filename>_<timestamp>`.
 */
module AidTestDb {
  import opened Wrappers
  import opened JsStrings
  import opened Browser

  datatype Record =
    | ApiKeyRecord(apiUrl: string, apiKey: string)
    | ImageRecord(blob: Blob, filename: string, roomType: string)

  type Store = map<string, Record>

  /** The id prefix that marks image records. */
  const ImagePrefix: string := "img_"

  /** `add` on an id that is already present fails with IndexedDB's ConstraintError. */
  datatype DbError = ConstraintError(id: string)

  /** One element of `getImagesForPreview`'s result (the source spells the last field `roomeType`). */
  datatype PreviewEntry = PreviewEntry(id: string, blob: Blob, title: string, roomType: string)

  /** A resolved `batchSaveImages`: the store after the transaction and the ids it returns. */
  datatype Saved = Saved(store: Store, ids: seq<string>)

  predicate HasImage(s: Store, id: string) {
    id in s && s[id].ImageRecord?
  }

  // ---------------------------------------------------------------------------
  // API keys
  // ---------------------------------------------------------------------------

  /** `getApiKeyByUrl`: the `apiKey` of the record stored under the URL; undefined when there is none. */
  function GetApiKeyByUrl(s: Store, apiUrl: string): (r: Option<string>)
    ensures r.Some? <==> apiUrl in s && s[apiUrl].ApiKeyRecord?
    ensures r.Some? ==> r.value == s[apiUrl].apiKey
  {
    if apiUrl in s && s[apiUrl].ApiKeyRecord? then Some(s[apiUrl].apiKey) else None
  }

  /** `setApiKeyByUrl`: a `put` keyed by the URL, which inserts or overwrites. */
  function SetApiKeyByUrl(s: Store, apiUrl: string, apiKey: string): (r: Store)
    ensures r.Keys == s.Keys + {apiUrl}
    ensures forall id :: id in s && id != apiUrl ==> r[id] == s[id]
    ensures GetApiKeyByUrl(r, apiUrl) == Some(apiKey)
  {
    s[apiUrl := ApiKeyRecord(apiUrl, apiKey)]
  }

  /** A second write to the same URL replaces the first. */
  lemma SetApiKeyOverwrites(s: Store, apiUrl: string, k1: string, k2: string)
    ensures SetApiKeyByUrl(SetApiKeyByUrl(s, apiUrl, k1), apiUrl, k2) == SetApiKeyByUrl(s, apiUrl, k2)
    ensures GetApiKeyByUrl(SetApiKeyByUrl(SetApiKeyByUrl(s, apiUrl, k1), apiUrl, k2), apiUrl) == Some(k2)
  {
  }

  /** Writing a key for one URL leaves every other URL's lookup as it was. */
  lemma SetApiKeyIsolated(s: Store, apiUrl: string, apiKey: string, other: string)
    requires other != apiUrl
    ensures GetApiKeyByUrl(SetApiKeyByUrl(s, apiUrl, apiKey), other) == GetApiKeyByUrl(s, other)
  {
  }

  // ---------------------------------------------------------------------------
  // image ids
  // ---------------------------------------------------------------------------

  /** The id `img_${filename}_${Date.now()}` synthesised for an uploaded file. */
  function ImageId(filename: string, now: nat): (id: string)
    ensures StartsWith(id, ImagePrefix)
  {
    ImagePrefix + filename + "_" + NatToDecimal(now)
  }

  /** Length of the run of decimal digits that ends `s`. */
  function TrailingDigits(s: string): (n: nat)
    ensures n <= |s|
  {
    if s != [] && IsDigit(s[|s| - 1]) then 1 + TrailingDigits(s[..|s| - 1]) else 0
  }

  /** Behind a `_` separator, the trailing digit run is exactly the numeral. */
  lemma {:induction false} TrailingDigitsAfterSeparator(p: string, d: string)
    requires forall i :: 0 <= i < |d| ==> IsDigit(d[i])
    ensures TrailingDigits(p + "_" + d) == |d|
    decreases |d|
  {
    var s := p + "_" + d;
    if d != [] {
      TrailingDigitsAfterSeparator(p, d[..|d| - 1]);
      assert s[..|s| - 1] == p + "_" + d[..|d| - 1];
    }
  }

  /**
   * Two synthesised ids collide exactly when both the file name and the
   * millisecond agree: the numeral has no `_`, so the last `_` separates them.
   */
  lemma ImageIdInjective(n1: string, t1: nat, n2: string, t2: nat)
    ensures ImageId(n1, t1) == ImageId(n2, t2) <==> n1 == n2 && t1 == t2
  {
    if ImageId(n1, t1) == ImageId(n2, t2) {
      var id := ImageId(n1, t1);
      var d1, d2 := NatToDecimal(t1), NatToDecimal(t2);
      assert |id| == 5 + |n1| + |d1| == 5 + |n2| + |d2|;
      TrailingDigitsAfterSeparator(ImagePrefix + n1, d1);
      TrailingDigitsAfterSeparator(ImagePrefix + n2, d2);
      assert ImagePrefix + n1 + "_" + d1 == (ImagePrefix + n1) + "_" + d1;
      assert ImagePrefix + n2 + "_" + d2 == (ImagePrefix + n2) + "_" + d2;
      assert d1 == id[|id| - |d1|..] == d2;
      assert n1 == id[4..4 + |n1|] == n2;
      DecimalInjective(t1, t2);
    }
  }

  /** The ids `batchSaveImages` synthesises, one per file; `clock(i)` is `Date.now()` in iteration `i`. */
  function BatchIds(images: seq<File>, clock: nat -> nat): (ids: seq<string>)
    ensures |ids| == |images|
    ensures forall i :: 0 <= i < |images| ==> ids[i] == ImageId(images[i].name, clock(i))
  {
    seq(|images|, i requires 0 <= i < |images| => ImageId(images[i].name, clock(i)))
  }

  /** The record stored for an uploaded file: its payload and name, with an empty room type. */
  function NewImageRecord(f: File): Record {
    ImageRecord(f.blob, f.name, "")
  }

  /** Every id from position `i` on is absent from the store and different from every other one. */
  predicate InsertableFrom(s: Store, ids: seq<string>, i: nat) {
    && (forall j :: i <= j < |ids| ==> ids[j] !in s)
    && (forall j, k :: i <= j < k < |ids| ==> ids[j] != ids[k])
  }

  /** `id` occurs at two positions from `i` on. */
  predicate Repeated(ids: seq<string>, i: nat, id: string) {
    exists j, k :: i <= j < k < |ids| && ids[j] == id && ids[k] == id
  }

  /** An id first inserted at `i` and met again later is repeated from `i` on. */
  lemma RepeatedExtends(ids: seq<string>, i: nat, id: string)
    requires i < |ids|
    ensures Repeated(ids, i + 1, id) ==> Repeated(ids, i, id)
    ensures id == ids[i] && id in ids[i + 1..] ==> Repeated(ids, i, id)
  {
    if id == ids[i] && id in ids[i + 1..] {
      var k :| i + 1 <= k < |ids| && ids[k] == id;
      assert ids[i] == id;
    }
  }

  /** The sequential `add`s of iterations `i..` of the loop in `batchSaveImages`. */
  function AddFrom(s: Store, images: seq<File>, ids: seq<string>, i: nat): (r: Result<Store, DbError>)
    requires |ids| == |images| && i <= |images|
    ensures r.Ok? <==> InsertableFrom(s, ids, i)
    ensures r.Err? ==> r.error.id in ids[i..]
    ensures r.Err? ==> r.error.id in s || Repeated(ids, i, r.error.id)
    ensures r.Ok? ==> forall k :: k in r.value <==> k in s || k in ids[i..]
    ensures r.Ok? ==> forall k :: k in s ==> r.value[k] == s[k]
    ensures r.Ok? ==> forall j :: i <= j < |ids| ==> ids[j] in r.value && r.value[ids[j]] == NewImageRecord(images[j])
    decreases |images| - i
  {
    if i == |images| then Ok(s)
    else if ids[i] in s then Err(ConstraintError(ids[i]))
    else
      var s' := s[ids[i] := NewImageRecord(images[i])];
      var r := AddFrom(s', images, ids, i + 1);
      assert ids[i..] == [ids[i]] + ids[i + 1..];
      assert InsertableFrom(s, ids, i) <==> InsertableFrom(s', ids, i + 1);
      RepeatedExtends(ids, i, if r.Err? then r.error.id else ids[i]);
      r
  }

  /**
   * `batchSaveImages`: one `add` per file inside one transaction. When an
   * `add` fails the promise rejects and the aborted transaction leaves the
   * store as it was, so an `Err` means the caller still holds `s`.
   */
  function BatchSaveImages(s: Store, images: seq<File>, clock: nat -> nat): (r: Result<Saved, DbError>)
    ensures r.Ok? <==> InsertableFrom(s, BatchIds(images, clock), 0)
    ensures r.Ok? ==> |r.value.ids| == |images|
    ensures r.Ok? ==> forall i :: 0 <= i < |images| ==> r.value.ids[i] == ImageId(images[i].name, clock(i))
    ensures r.Ok? ==> forall i :: 0 <= i < |images| ==>
      r.value.ids[i] in r.value.store && r.value.store[r.value.ids[i]] == NewImageRecord(images[i])
    ensures r.Ok? ==> forall k :: k in r.value.store <==> k in s || k in r.value.ids
    ensures r.Ok? ==> forall k :: k in s ==> r.value.store[k] == s[k]
    ensures r.Err? ==> r.error.id in BatchIds(images, clock)
    ensures r.Err? ==> r.error.id in s || Repeated(BatchIds(images, clock), 0, r.error.id)
  {
    var ids := BatchIds(images, clock);
    var added := AddFrom(s, images, ids, 0);
    assert ids[0..] == ids;
    if added.Ok? then Ok(Saved(added.value, ids)) else Err(added.error)
  }

  /** Two files with the same name saved in the same millisecond make the whole batch reject. */
  lemma SameNameSameInstantRejects(s: Store, images: seq<File>, clock: nat -> nat, i: nat, j: nat)
    requires i < j < |images|
    requires images[i].name == images[j].name && clock(i) == clock(j)
    ensures BatchSaveImages(s, images, clock).Err?
  {
  }

  /** A file whose id is already taken (by any record) makes the batch reject instead of overwriting. */
  lemma ExistingIdRejects(s: Store, images: seq<File>, clock: nat -> nat, i: nat)
    requires i < |images| && ImageId(images[i].name, clock(i)) in s
    ensures BatchSaveImages(s, images, clock).Err?
  {
  }

  // ---------------------------------------------------------------------------
  // reading images
  // ---------------------------------------------------------------------------

  /** `getImageById`: the blob of the record, or null when there is no image record. */
  function GetImageById(s: Store, id: string): (r: Option<Blob>)
    ensures r.Some? <==> HasImage(s, id)
    ensures r.Some? ==> r.value == s[id].blob
  {
    if HasImage(s, id) then Some(s[id].blob) else None
  }

  /** Each id a successful batch returns reads back the blob of the file it was made from. */
  lemma SavedImageReadBack(s: Store, images: seq<File>, clock: nat -> nat, saved: Saved, i: nat)
    requires BatchSaveImages(s, images, clock) == Ok(saved) && i < |images|
    ensures GetImageById(saved.store, saved.ids[i]) == Some(images[i].blob)
  {
  }

  /** The preview entry for a stored image record: id, blob, title from the filename, room type. */
  function EntryFor(s: Store, id: string): PreviewEntry
    requires HasImage(s, id)
  {
    PreviewEntry(id, s[id].blob, s[id].filename, s[id].roomType)
  }

  /** The entry shows exactly what the store holds under its id. */
  predicate Reflects(s: Store, e: PreviewEntry) {
    HasImage(s, e.id) && e == EntryFor(s, e.id)
  }

  function EntryIds(r: seq<PreviewEntry>): (ids: seq<string>)
    ensures |ids| == |r| && forall i :: 0 <= i < |r| ==> ids[i] == r[i].id
  {
    seq(|r|, i requires 0 <= i < |r| => r[i].id)
  }

  lemma EntryIdsConcat(a: seq<PreviewEntry>, b: seq<PreviewEntry>)
    ensures EntryIds(a + b) == EntryIds(a) + EntryIds(b)
  {
  }

  /**
   * `getImagesForPreview`: looks every id up in order and keeps those whose
   * record has a blob; ids with no such record are skipped without error.
   */
  function GetImagesForPreview(s: Store, ids: seq<string>): (r: seq<PreviewEntry>)
    ensures |r| <= |ids|
    ensures forall i :: 0 <= i < |r| ==> Reflects(s, r[i])
    ensures forall id :: id in EntryIds(r) <==> id in ids && HasImage(s, id)
  {
    if ids == [] then []
    else
      var rest := GetImagesForPreview(s, ids[1..]);
      var r := (if HasImage(s, ids[0]) then [EntryFor(s, ids[0])] else []) + rest;
      assert ids == [ids[0]] + ids[1..];
      EntryIdsConcat(if HasImage(s, ids[0]) then [EntryFor(s, ids[0])] else [], rest);
      r
  }

  /** No id occurs twice. */
  predicate Distinct(ids: seq<string>) {
    forall i, j :: 0 <= i < j < |ids| ==> ids[i] != ids[j]
  }

  lemma DistinctCons(x: string, t: seq<string>)
    requires x !in t && Distinct(t)
    ensures Distinct([x] + t)
  {
    var u := [x] + t;
    forall i, j | 0 <= i < j < |u| ensures u[i] != u[j] {
      if i > 0 {
        assert u[i] == t[i - 1] && u[j] == t[j - 1];
      } else {
        assert u[j] == t[j - 1];
      }
    }
  }

  /** Pairwise-distinct ids give a preview whose entries have pairwise-distinct ids. */
  lemma {:induction false} PreviewDistinct(s: Store, ids: seq<string>)
    requires Distinct(ids)
    ensures Distinct(EntryIds(GetImagesForPreview(s, ids)))
  {
    if ids != [] {
      var tail := ids[1..];
      assert Distinct(tail) by {
        forall i, j | 0 <= i < j < |tail| ensures tail[i] != tail[j] {
          assert tail[i] == ids[i + 1] && tail[j] == ids[j + 1];
        }
      }
      PreviewDistinct(s, tail);
      var rest := GetImagesForPreview(s, tail);
      var head := if HasImage(s, ids[0]) then [EntryFor(s, ids[0])] else [];
      assert GetImagesForPreview(s, ids) == head + rest;
      EntryIdsConcat(head, rest);
      if HasImage(s, ids[0]) {
        assert EntryIds(head) == [ids[0]];
        assert ids[0] !in tail by {
          forall k | 0 <= k < |tail| ensures tail[k] != ids[0] {
            assert tail[k] == ids[k + 1];
          }
        }
        DistinctCons(ids[0], EntryIds(rest));
      } else {
        assert EntryIds(head) == [];
        assert EntryIds(head) + EntryIds(rest) == EntryIds(rest);
      }
    }
  }

  /** The preview of a concatenation is the concatenation of the previews: input order is kept. */
  lemma {:induction false} PreviewConcat(s: Store, a: seq<string>, b: seq<string>)
    ensures GetImagesForPreview(s, a + b) == GetImagesForPreview(s, a) + GetImagesForPreview(s, b)
    decreases |a|
  {
    if a != [] {
      PreviewConcat(s, a[1..], b);
      assert (a + b)[0] == a[0];
      assert (a + b)[1..] == a[1..] + b;
    } else {
      assert a + b == b;
    }
  }

  /** When every id names a stored image, the preview has one entry per id, in the same order. */
  lemma {:induction false} PreviewOfStoredImages(s: Store, ids: seq<string>)
    requires forall i :: 0 <= i < |ids| ==> HasImage(s, ids[i])
    ensures |GetImagesForPreview(s, ids)| == |ids|
    ensures forall i :: 0 <= i < |ids| ==> GetImagesForPreview(s, ids)[i] == EntryFor(s, ids[i])
  {
    if ids != [] {
      PreviewOfStoredImages(s, ids[1..]);
    }
  }

  /** Every id a successful batch returns previews as the uploaded file: its blob, its name, no room type. */
  lemma SavedImagesPreview(s: Store, images: seq<File>, clock: nat -> nat, saved: Saved)
    requires BatchSaveImages(s, images, clock) == Ok(saved)
    ensures |GetImagesForPreview(saved.store, saved.ids)| == |images|
    ensures forall i :: 0 <= i < |images| ==>
      GetImagesForPreview(saved.store, saved.ids)[i] == PreviewEntry(saved.ids[i], images[i].blob, images[i].name, "")
  {
    PreviewOfStoredImages(saved.store, saved.ids);
  }

  // ---------------------------------------------------------------------------
  // room type
  // ---------------------------------------------------------------------------

  /**
   * `updateImageType`: read-modify-write of one record's `roomType`. On a
   * missing id the success handler dereferences undefined and never writes.
   * On a key record the source adds a `roomType` property no reader ever
   * looks at, so the model leaves that record as it is.
   */
  function UpdateImageType(s: Store, id: string, roomType: string): (r: Store)
    ensures r.Keys == s.Keys
    ensures HasImage(s, id) ==> r[id] == s[id].(roomType := roomType)
    ensures forall k :: k in s && k != id ==> r[k] == s[k]
    ensures !HasImage(s, id) ==> r == s
  {
    if HasImage(s, id) then s[id := s[id].(roomType := roomType)] else s
  }

  /** After the update the image previews with the new room type and nothing else about it changes. */
  lemma UpdateThenPreview(s: Store, id: string, roomType: string)
    requires HasImage(s, id)
    ensures GetImagesForPreview(UpdateImageType(s, id, roomType), [id])
         == [PreviewEntry(id, s[id].blob, s[id].filename, roomType)]
  {
  }

  // ---------------------------------------------------------------------------
  // enumeration and deletion
  // ---------------------------------------------------------------------------

  /** Strictly ascending in key order, hence without duplicates. */
  ghost predicate Ascending(r: seq<string>) {
    forall i, j :: 0 <= i < j < |r| ==> Less(r[i], r[j])
  }

  ghost predicate IsLeast(m: string, ks: set<string>) {
    m in ks && forall k :: k in ks && k != m ==> Less(m, k)
  }

  lemma {:induction false} LeastExists(ks: set<string>)
    requires ks != {}
    ensures exists m :: IsLeast(m, ks)
    decreases |ks|
  {
    var x :| x in ks;
    var rest := ks - {x};
    if rest == {} {
      assert ks == {x};
      assert IsLeast(x, ks);
    } else {
      LeastExists(rest);
      var m :| IsLeast(m, rest);
      if Less(x, m) {
        forall k | k in ks && k != x ensures Less(x, k) {
          if k != m {
            LessTransitive(x, m, k);
          }
        }
        assert IsLeast(x, ks);
      } else {
        LessTotal(x, m);
        assert IsLeast(m, ks);
      }
    }
  }

  /** The keys of `ks` in ascending key order, as an IndexedDB cursor or `getAll` visits them. */
  ghost function InKeyOrder(ks: set<string>): (r: seq<string>)
    ensures |r| == |ks|
    ensures forall k :: k in r <==> k in ks
    ensures Ascending(r)
    decreases |ks|
  {
    if ks == {} then []
    else
      LeastExists(ks);
      var m :| IsLeast(m, ks);
      [m] + InKeyOrder(ks - {m})
  }

  /**
   * `getAllImageIds`: a full `getAll` (key order) filtered by the `img_`
   * prefix alone; the record kind is never consulted.
   */
  ghost function GetAllImageIds(s: Store): (r: seq<string>)
    ensures forall k :: k in r <==> k in s && StartsWith(k, ImagePrefix)
    ensures Ascending(r)
  {
    InKeyOrder(set k | k in s && StartsWith(k, ImagePrefix))
  }

  /** The ids a successful batch returns and the ids `getAllImageIds` lists never repeat. */
  lemma ListedIdsDistinct(s: Store, images: seq<File>, clock: nat -> nat, saved: Saved)
    requires BatchSaveImages(s, images, clock) == Ok(saved)
    ensures Distinct(saved.ids)
    ensures Distinct(GetAllImageIds(s))
  {
    var r := GetAllImageIds(s);
    forall i, j | 0 <= i < j < |r| ensures r[i] != r[j] {
      LessIrreflexive(r[i]);
    }
  }

  /** `deleteById`: removes the record under `id`; deleting an absent id succeeds and changes nothing. */
  function DeleteById(s: Store, id: string): (r: Store)
    ensures r.Keys == s.Keys - {id}
    ensures forall k :: k in r ==> r[k] == s[k]
  {
    s - {id}
  }

  /** The loop of `deleteAllImages`: one `delete` per listed id, in order. */
  function DeleteEach(s: Store, ids: seq<string>): (r: Store)
    ensures forall k :: k in r <==> k in s && k !in ids
    ensures forall k :: k in r ==> r[k] == s[k]
  {
    if ids == [] then s else DeleteEach(DeleteById(s, ids[0]), ids[1..])
  }

  /** `deleteAllImages`: deletes every id `getAllImageIds` lists and keeps every other record. */
  ghost function DeleteAllImages(s: Store): (r: Store)
    ensures forall k :: k in r <==> k in s && !StartsWith(k, ImagePrefix)
    ensures forall k :: k in r ==> r[k] == s[k]
  {
    DeleteEach(s, GetAllImageIds(s))
  }

  /** The ids of a successful batch are all enumerated afterwards; key records under non-`img_` URLs never are. */
  lemma SavedImagesEnumerated(s: Store, images: seq<File>, clock: nat -> nat, apiUrl: string)
    requires BatchSaveImages(s, images, clock).Ok?
    requires apiUrl in s && !StartsWith(apiUrl, ImagePrefix)
    ensures var saved := BatchSaveImages(s, images, clock).value;
      && (forall i :: 0 <= i < |saved.ids| ==> saved.ids[i] in GetAllImageIds(saved.store))
      && apiUrl !in GetAllImageIds(saved.store)
  {
  }

  /** After `deleteAllImages` no image id is left and every key lookup under a non-`img_` URL is unchanged. */
  lemma DeleteAllImagesKeepsKeys(s: Store, apiUrl: string)
    requires !StartsWith(apiUrl, ImagePrefix)
    ensures GetAllImageIds(DeleteAllImages(s)) == []
    ensures GetApiKeyByUrl(DeleteAllImages(s), apiUrl) == GetApiKeyByUrl(s, apiUrl)
  {
  }

  /** A deleted image drops out of every later preview; previews of lists without it are unchanged. */
  lemma {:induction false} PreviewAfterDelete(s: Store, id: string, ids: seq<string>)
    ensures id !in EntryIds(GetImagesForPreview(DeleteById(s, id), ids))
    ensures id !in ids ==> GetImagesForPreview(DeleteById(s, id), ids) == GetImagesForPreview(s, ids)
  {
    if ids != [] && id !in ids {
      PreviewAfterDelete(s, id, ids[1..]);
      assert ids[0] in ids;
    }
  }
}
