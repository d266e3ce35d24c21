/**
 * The preview grid (`ImagePreview.tsx`): loading the displayed list from
 * the store, and the two per-image edits (delete, room-type change), each
 * applied to the list and mirrored into the store.
 */
module ImagePreview {
  import opened Browser
  import opened AidTestDb

  /** One displayed image: id, object URL, title and room type. */
  datatype Shown = Shown(id: string, url: ObjectUrl, title: string, roomType: string)

  /** The component's `imageUrls` state and the `urlsRef` list of every URL it created. */
  datatype Preview = Preview(imageUrls: seq<Shown>, urlsRef: seq<ObjectUrl>)

  /** At mount: nothing displayed, no URL created. */
  const Initial: Preview := Preview([], [])

  /** URL `j` of `urlsRef` is the `j`-th one created, so every recorded URL is distinct. */
  predicate UrlsNumbered(p: Preview) {
    forall j :: 0 <= j < |p.urlsRef| ==> p.urlsRef[j] == ObjectUrl(j)
  }

  /** The displayed item for a preview entry, with the URL created for it. */
  function ShowEntry(e: PreviewEntry, url: ObjectUrl): Shown {
    Shown(e.id, url, e.title, e.roomType)
  }

  /**
   * `loadImages`: reads the preview entries, creates one object URL per entry
   * and records it in `urlsRef`, then displays the entries in order. An empty
   * id list ends with an empty display. No URL is ever revoked.
   */
  function LoadImages(p: Preview, s: Store, ids: seq<string>): (r: Preview)
    ensures |r.urlsRef| == |p.urlsRef| + |r.imageUrls| && p.urlsRef <= r.urlsRef
    ensures var images := GetImagesForPreview(s, ids);
      && |r.imageUrls| == |images|
      && (forall i :: 0 <= i < |images| ==>
            && r.imageUrls[i].id == images[i].id
            && r.imageUrls[i].title == images[i].title
            && r.imageUrls[i].roomType == images[i].roomType
            && r.imageUrls[i].url == r.urlsRef[|p.urlsRef| + i])
    ensures ids == [] ==> r.imageUrls == []
    ensures UrlsNumbered(p) ==> UrlsNumbered(r)
  {
    var images := GetImagesForPreview(s, ids);
    var base := |p.urlsRef|;
    var created := seq(|images|, i requires 0 <= i < |images| => ObjectUrl(base + i));
    var shown := seq(|images|, i requires 0 <= i < |images| => ShowEntry(images[i], created[i]));
    Preview(shown, p.urlsRef + created)
  }

  /** Every displayed item matches its record in the store: an image with that filename and room type. */
  predicate Mirrors(list: seq<Shown>, s: Store) {
    forall j :: 0 <= j < |list| ==>
      && HasImage(s, list[j].id)
      && s[list[j].id].filename == list[j].title
      && s[list[j].id].roomType == list[j].roomType
  }

  predicate DistinctIds(list: seq<Shown>) {
    forall i, j :: 0 <= i < j < |list| ==> list[i].id != list[j].id
  }

  /** A freshly loaded list mirrors the store it was loaded from. */
  lemma LoadedListMirrorsStore(p: Preview, s: Store, ids: seq<string>)
    ensures Mirrors(LoadImages(p, s, ids).imageUrls, s)
  {
  }

  /**
   * A list loaded from ids that never repeat (as `batchSaveImages` and
   * `getAllImageIds` return them) has distinct ids, so together with
   * `LoadedListMirrorsStore` it meets what the edit lemmas below require.
   */
  lemma LoadedListDistinct(p: Preview, s: Store, ids: seq<string>)
    requires Distinct(ids)
    ensures DistinctIds(LoadImages(p, s, ids).imageUrls)
  {
    PreviewDistinct(s, ids);
  }

  /** The displayed list and the store after an edit. */
  datatype Edit = Edit(preview: Preview, store: Store)

  predicate InRange(p: Preview, index: int) {
    0 <= index < |p.imageUrls|
  }

  /**
   * `handleDelete`: removes item `index` from the list and its id from the
   * store. With an index outside the list, the filter removes nothing and
   * reading `.id` of undefined throws before the store is touched.
   */
  function HandleDelete(p: Preview, s: Store, index: int): (r: Edit)
    ensures InRange(p, index) ==>
      && |r.preview.imageUrls| == |p.imageUrls| - 1
      && (forall j :: 0 <= j < index ==> r.preview.imageUrls[j] == p.imageUrls[j])
      && (forall j :: index <= j < |r.preview.imageUrls| ==> r.preview.imageUrls[j] == p.imageUrls[j + 1])
      && r.store.Keys == s.Keys - {p.imageUrls[index].id}
    ensures !InRange(p, index) ==> r == Edit(p, s)
    ensures r.preview.urlsRef == p.urlsRef
    ensures forall k :: k in r.store ==> r.store[k] == s[k]
  {
    if !InRange(p, index) then Edit(p, s)
    else
      var list := p.imageUrls;
      Edit(p.(imageUrls := list[..index] + list[index + 1..]), DeleteById(s, list[index].id))
  }

  /**
   * `handleTypeChange`: sets item `index`'s room type and writes it to the
   * store under the same id. With an index outside the list, assigning to
   * undefined throws first and nothing changes.
   */
  function HandleTypeChange(p: Preview, s: Store, index: int, roomType: string): (r: Edit)
    ensures InRange(p, index) ==>
      && |r.preview.imageUrls| == |p.imageUrls|
      && r.preview.imageUrls[index] == p.imageUrls[index].(roomType := roomType)
      && (forall j :: 0 <= j < |p.imageUrls| && j != index ==> r.preview.imageUrls[j] == p.imageUrls[j])
      && r.store == UpdateImageType(s, p.imageUrls[index].id, roomType)
    ensures !InRange(p, index) ==> r == Edit(p, s)
    ensures r.preview.urlsRef == p.urlsRef
  {
    if !InRange(p, index) then Edit(p, s)
    else
      var list := p.imageUrls;
      Edit(p.(imageUrls := list[index := list[index].(roomType := roomType)]),
           UpdateImageType(s, list[index].id, roomType))
  }

  /** Deleting keeps the list and the store in step: the remaining items still mirror the store. */
  lemma DeletePreservesMirror(p: Preview, s: Store, index: int)
    requires Mirrors(p.imageUrls, s) && DistinctIds(p.imageUrls)
    ensures var r := HandleDelete(p, s, index);
      Mirrors(r.preview.imageUrls, r.store) && DistinctIds(r.preview.imageUrls)
  {
  }

  /** Changing a room type keeps the list and the store in step. */
  lemma TypeChangePreservesMirror(p: Preview, s: Store, index: int, roomType: string)
    requires Mirrors(p.imageUrls, s) && DistinctIds(p.imageUrls)
    ensures var r := HandleTypeChange(p, s, index, roomType);
      Mirrors(r.preview.imageUrls, r.store) && DistinctIds(r.preview.imageUrls)
  {
  }

  /** A deleted image no longer previews on the next load, and that load creates no URL for it. */
  lemma DeletedImageNotReloaded(p: Preview, s: Store, index: int, q: Preview, ids: seq<string>)
    requires InRange(p, index)
    ensures var r := HandleDelete(p, s, index);
      forall i :: 0 <= i < |LoadImages(q, r.store, ids).imageUrls| ==>
        LoadImages(q, r.store, ids).imageUrls[i].id != p.imageUrls[index].id
  {
  }
}
