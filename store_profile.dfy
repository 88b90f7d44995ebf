/**
 * The store detail serializer: creating a store with its gallery, updating a
 * store's fields and replacing its gallery, and the image serializer's
 * nine-image cap.
 */
module StoreProfile {
  import opened Outcomes
  import opened Records
  import opened Database

  /** The most images the image serializer lets a store hold. */
  const ImageCap := 9

  /** The urls of one store's images (`store.images`), in table order. */
  function ImagesOf(images: seq<StoreImage>, storeId: nat): (r: seq<string>)
    ensures |r| <= |images|
  {
    if |images| == 0 then []
    else
      var last := images[|images| - 1];
      assert images == images[..|images| - 1] + [last];
      ImagesOf(images[..|images| - 1], storeId) + (if last.storeId == storeId then [last.url] else [])
  }

  /** Image rows for one store, one per url, in order. */
  function NewImages(storeId: nat, urls: seq<string>): (r: seq<StoreImage>)
    ensures |r| == |urls|
    ensures forall k :: 0 <= k < |r| ==> r[k] == StoreImage(storeId, urls[k])
  {
    seq(|urls|, k requires 0 <= k < |urls| => StoreImage(storeId, urls[k]))
  }

  /** The image table after `instance.images.all().delete()`. */
  function WithoutStore(images: seq<StoreImage>, storeId: nat): (r: seq<StoreImage>)
    ensures forall img :: img in r <==> img in images && img.storeId != storeId
  {
    if |images| == 0 then []
    else
      var last := images[|images| - 1];
      assert images == images[..|images| - 1] + [last];
      WithoutStore(images[..|images| - 1], storeId) + (if last.storeId == storeId then [] else [last])
  }

  // ---------------------------------------------------------------------------
  // The image serializer's cap
  // ---------------------------------------------------------------------------

  /** `StoreImageSerializer.validate`: an image whose validated attributes name a
      store that already has nine or more images is refused; one naming no store
      passes. */
  function ValidateImage(store: Option<nat>, images: seq<StoreImage>): (ok: bool)
    ensures !ok <==> store.Some? && |ImagesOf(images, store.value)| >= ImageCap
  {
    match store
    case None => true
    case Some(id) => |ImagesOf(images, id)| < ImageCap
  }

  /** Adding images one at a time, each validated against the table as it then
      stands, never takes a store past nine. */
  lemma CapKeepsAtMostNine(images: seq<StoreImage>, storeId: nat, url: string)
    requires |ImagesOf(images, storeId)| <= ImageCap
    ensures ValidateImage(Some(storeId), images) ==> |ImagesOf(images + [StoreImage(storeId, url)], storeId)| <= ImageCap
    ensures !ValidateImage(Some(storeId), images) ==> |ImagesOf(images, storeId)| == ImageCap
  {
    var grown := images + [StoreImage(storeId, url)];
    assert grown[..|grown| - 1] == images;
  }

  /** The `store` field is read-only, so it never reaches the validated
      attributes: through the store serializer every nested image passes,
      whatever the store already holds. */
  lemma NestedImagesUncapped(images: seq<StoreImage>)
    ensures ValidateImage(None, images)
  {
  }

  // ---------------------------------------------------------------------------
  // Appending and removing images
  // ---------------------------------------------------------------------------

  lemma {:induction false} ImagesOfAppend(a: seq<StoreImage>, b: seq<StoreImage>, storeId: nat)
    ensures ImagesOf(a + b, storeId) == ImagesOf(a, storeId) + ImagesOf(b, storeId)
    decreases |b|
  {
    if |b| > 0 {
      var ab := a + b;
      var b' := b[..|b| - 1];
      assert ab[..|ab| - 1] == a + b';
      assert ab[|ab| - 1] == b[|b| - 1];
      ImagesOfAppend(a, b', storeId);
    } else {
      assert a + b == a;
    }
  }

  lemma {:induction false} ImagesOfAbsent(images: seq<StoreImage>, storeId: nat)
    requires forall img :: img in images ==> img.storeId != storeId
    ensures ImagesOf(images, storeId) == []
    decreases |images|
  {
    if |images| > 0 {
      assert images[|images| - 1] in images;
      ImagesOfAbsent(images[..|images| - 1], storeId);
    }
  }

  lemma {:induction false} ImagesOfNew(id: nat, urls: seq<string>, storeId: nat)
    ensures ImagesOf(NewImages(id, urls), storeId) == if storeId == id then urls else []
    decreases |urls|
  {
    if |urls| > 0 {
      var n := NewImages(id, urls);
      var u' := urls[..|urls| - 1];
      assert n[..|n| - 1] == NewImages(id, u');
      ImagesOfNew(id, u', storeId);
      if storeId == id {
        assert urls == u' + [urls[|urls| - 1]];
      }
    }
  }

  lemma {:induction false} ImagesOfWithout(images: seq<StoreImage>, id: nat, storeId: nat)
    ensures ImagesOf(WithoutStore(images, id), storeId) == if storeId == id then [] else ImagesOf(images, storeId)
    decreases |images|
  {
    if |images| > 0 {
      var init := images[..|images| - 1];
      var last := images[|images| - 1];
      ImagesOfWithout(init, id, storeId);
      ImagesOfAppend(WithoutStore(init, id), if last.storeId == id then [] else [last], storeId);
      if last.storeId != id {
        assert ImagesOf([last], storeId) == if last.storeId == storeId then [last.url] else [] by {
          assert ([] + [last])[..0] == [];
        }
      }
    }
  }

  // ---------------------------------------------------------------------------
  // Create
  // ---------------------------------------------------------------------------

  /** The store fields the model carries from the request. */
  datatype StoreFields = StoreFields(storeName: string, phone: string)

  /** `create`: save the store under the next id, then one image per nested
      entry, in order. */
  method CreateStore(db: Db, fields: StoreFields, urls: seq<string>) returns (id: nat)
    modifies db`stores, db`nextStoreId, db`images
    ensures id == old(db.nextStoreId) && db.nextStoreId == id + 1
    ensures db.stores == old(db.stores) + [StoreRow(id, fields.storeName, fields.phone)]
    ensures db.images == old(db.images) + NewImages(id, urls)
  {
    id := db.nextStoreId;
    db.nextStoreId := id + 1;
    db.stores := db.stores + [StoreRow(id, fields.storeName, fields.phone)];
    for k := 0 to |urls|
      invariant db.stores == old(db.stores) + [StoreRow(id, fields.storeName, fields.phone)]
      invariant db.nextStoreId == id + 1
      invariant db.images == old(db.images) + NewImages(id, urls[..k])
    {
      assert NewImages(id, urls[..k + 1]) == NewImages(id, urls[..k]) + [StoreImage(id, urls[k])];
      db.images := db.images + [StoreImage(id, urls[k])];
    }
    assert urls[..|urls|] == urls;
  }

  /** A new store's gallery is exactly the submitted images, however many, and no
      other store's gallery changes. */
  lemma CreatedStoreGallery(images: seq<StoreImage>, id: nat, urls: seq<string>, other: nat)
    requires forall img :: img in images ==> img.storeId < id
    ensures ImagesOf(images + NewImages(id, urls), id) == urls
    ensures other != id ==> ImagesOf(images + NewImages(id, urls), other) == ImagesOf(images, other)
  {
    ImagesOfAppend(images, NewImages(id, urls), id);
    ImagesOfAppend(images, NewImages(id, urls), other);
    ImagesOfNew(id, urls, id);
    ImagesOfNew(id, urls, other);
    ImagesOfAbsent(images, id);
  }

  // ---------------------------------------------------------------------------
  // Update
  // ---------------------------------------------------------------------------

  /** The store fields an update may supply; None leaves a field as it is. */
  datatype StorePatch = StorePatch(storeName: Option<string>, phone: Option<string>)

  function PatchedStore(s: StoreRow, patch: StorePatch): StoreRow
  {
    StoreRow(s.id,
             if patch.storeName.Some? then patch.storeName.value else s.storeName,
             if patch.phone.Some? then patch.phone.value else s.phone)
  }

  /** The update replaces the gallery when the request carries an `images` list
      (even an empty one) or uploaded image files. */
  predicate Replaces(json: Option<seq<string>>, files: seq<string>)
  {
    json.Some? || |files| > 0
  }

  function JsonUrls(json: Option<seq<string>>): seq<string>
  {
    if json.Some? then json.value else []
  }

  /** The image table after an update of store `storeId`. */
  function ReplacedImages(images: seq<StoreImage>, storeId: nat, json: Option<seq<string>>, files: seq<string>): seq<StoreImage>
  {
    if Replaces(json, files) then WithoutStore(images, storeId) + NewImages(storeId, JsonUrls(json)) + NewImages(storeId, files)
    else images
  }

  /** `update`: overwrite the supplied fields, then replace the gallery. */
  method UpdateStore(db: Db, i: nat, patch: StorePatch, json: Option<seq<string>>, files: seq<string>)
    requires i < |db.stores|
    modifies db`stores, db`images
    ensures db.stores == old(db.stores)[i := PatchedStore(old(db.stores)[i], patch)]
    ensures db.images == ReplacedImages(old(db.images), old(db.stores)[i].id, json, files)
  {
    var s := db.stores[i];
    if patch.storeName.Some? {
      s := s.(storeName := patch.storeName.value);
    }
    if patch.phone.Some? {
      s := s.(phone := patch.phone.value);
    }
    db.stores := db.stores[i := s];
    ReplaceGallery(db, s.id, json, files);
  }

  /** When replacing: delete the store's images, then create the nested ones, then
      one per uploaded file. */
  method ReplaceGallery(db: Db, storeId: nat, json: Option<seq<string>>, files: seq<string>)
    modifies db`images
    ensures db.images == ReplacedImages(old(db.images), storeId, json, files)
  {
    if json.Some? || |files| > 0 {
      var base := WithoutStore(db.images, storeId);
      db.images := base;
      if json.Some? && |json.value| > 0 {
        var nested := json.value;
        for k := 0 to |nested|
          invariant db.images == base + NewImages(storeId, nested[..k])
        {
          assert NewImages(storeId, nested[..k + 1]) == NewImages(storeId, nested[..k]) + [StoreImage(storeId, nested[k])];
          db.images := db.images + [StoreImage(storeId, nested[k])];
        }
        assert nested[..|nested|] == nested;
      }
      var front := base + NewImages(storeId, JsonUrls(json));
      assert db.images == front;
      for k := 0 to |files|
        invariant db.images == front + NewImages(storeId, files[..k])
      {
        assert NewImages(storeId, files[..k + 1]) == NewImages(storeId, files[..k]) + [StoreImage(storeId, files[k])];
        db.images := db.images + [StoreImage(storeId, files[k])];
      }
      assert files[..|files|] == files;
    }
  }

  /** After an update that replaces the gallery, the store's images are exactly the
      nested ones followed by the uploaded files; otherwise nothing changes. */
  lemma ReplacedGallery(images: seq<StoreImage>, storeId: nat, json: Option<seq<string>>, files: seq<string>)
    ensures Replaces(json, files) ==> ImagesOf(ReplacedImages(images, storeId, json, files), storeId) == JsonUrls(json) + files
    ensures !Replaces(json, files) ==> ReplacedImages(images, storeId, json, files) == images
  {
    if Replaces(json, files) {
      var w := WithoutStore(images, storeId);
      var n1 := NewImages(storeId, JsonUrls(json));
      var n2 := NewImages(storeId, files);
      calc {
        ImagesOf(ReplacedImages(images, storeId, json, files), storeId);
        ImagesOf(w + n1 + n2, storeId);
        { ImagesOfAppend(w + n1, n2, storeId); }
        ImagesOf(w + n1, storeId) + ImagesOf(n2, storeId);
        { ImagesOfAppend(w, n1, storeId); }
        ImagesOf(w, storeId) + ImagesOf(n1, storeId) + ImagesOf(n2, storeId);
        { ImagesOfWithout(images, storeId, storeId); ImagesOfNew(storeId, JsonUrls(json), storeId); ImagesOfNew(storeId, files, storeId); }
        [] + JsonUrls(json) + files;
        JsonUrls(json) + files;
      }
    }
  }

  /** An update never changes another store's images. */
  lemma UpdateKeepsOtherGalleries(images: seq<StoreImage>, storeId: nat, json: Option<seq<string>>, files: seq<string>, other: nat)
    requires other != storeId
    ensures ImagesOf(ReplacedImages(images, storeId, json, files), other) == ImagesOf(images, other)
  {
    if Replaces(json, files) {
      var w := WithoutStore(images, storeId);
      var n1 := NewImages(storeId, JsonUrls(json));
      var n2 := NewImages(storeId, files);
      calc {
        ImagesOf(ReplacedImages(images, storeId, json, files), other);
        ImagesOf(w + n1 + n2, other);
        { ImagesOfAppend(w + n1, n2, other); }
        ImagesOf(w + n1, other) + ImagesOf(n2, other);
        { ImagesOfAppend(w, n1, other); }
        ImagesOf(w, other) + ImagesOf(n1, other) + ImagesOf(n2, other);
        { ImagesOfWithout(images, storeId, other); ImagesOfNew(storeId, JsonUrls(json), other); ImagesOfNew(storeId, files, other); }
        ImagesOf(images, other) + [] + [];
        ImagesOf(images, other);
      }
    }
  }

  /** The patched store keeps its id, takes each supplied field and keeps each
      other one; patching again with the same values changes nothing. */
  lemma PatchedStoreShape(s: StoreRow, patch: StorePatch)
    ensures var p := PatchedStore(s, patch);
      && p.id == s.id
      && (patch.storeName.Some? ==> p.storeName == patch.storeName.value) && (patch.storeName.None? ==> p.storeName == s.storeName)
      && (patch.phone.Some? ==> p.phone == patch.phone.value) && (patch.phone.None? ==> p.phone == s.phone)
      && PatchedStore(p, patch) == p
  {
  }
}
