/** Images of a gallery (`CollectionImageService`): creation at the end of the
    gallery, lookup, edit, removal, the title search and the reorder loop.
    The table of galleries is seen only through the set of ids it holds. */
module Images {
  import opened Wrappers
  import opened Entities
  import opened GalleryDtos
  import opened Text
  import opened Seqs
  import opened Ordering
  import opened Siblings

  predicate UniqueIds(imgs: seq<CollectionImage>)
  {
    forall i, j :: 0 <= i < j < |imgs| ==> imgs[i].id != imgs[j].id
  }

  /** `findById` on the images. */
  function ImageIndex(imgs: seq<CollectionImage>, id: int): (k: int)
    ensures -1 <= k < |imgs|
    ensures k >= 0 ==> imgs[k].id == id
    ensures k < 0 <==> forall i :: 0 <= i < |imgs| ==> imgs[i].id != id
  {
    FindIndex(imgs, (img: CollectionImage) => img.id == id)
  }

  predicate InCollection(img: CollectionImage, collectionId: int)
  {
    img.collectionId == collectionId
  }

  /** `countByCollectionId`. */
  function CountInCollection(imgs: seq<CollectionImage>, collectionId: int): (n: nat)
    ensures n <= |imgs|
  {
    |Filter(imgs, (img: CollectionImage) => InCollection(img, collectionId))|
  }

  /** A new image appended to one gallery is counted for that gallery only:
      the next image there gets the following position. */
  lemma CountAfterCreate(imgs: seq<CollectionImage>, img: CollectionImage, collectionId: int)
    ensures CountInCollection(imgs + [img], collectionId) ==
            CountInCollection(imgs, collectionId) + (if img.collectionId == collectionId then 1 else 0)
  {
    FilterSnoc(imgs, img, (x: CollectionImage) => InCollection(x, collectionId));
  }

  /** `updateImage` on the record: url, title and description are always
      overwritten, the position only when one is given. */
  function Edited(img: CollectionImage, imageUrl: string, title: string, description: string,
                  orderIndex: Option<int>): (r: CollectionImage)
    ensures r.imageUrl == imageUrl && r.title == title && r.description == description
    ensures r.orderIndex == orderIndex.GetOr(img.orderIndex)
    ensures r.id == img.id && r.collectionId == img.collectionId && r.dialogues == img.dialogues
  {
    var r := img.(imageUrl := imageUrl, title := title, description := description);
    if orderIndex.Some? then r.(orderIndex := orderIndex.value) else r
  }

  /** Submitting an image's own values, with or without its position, leaves
      it as it was. */
  lemma EditWithOwnValues(img: CollectionImage)
    ensures Edited(img, img.imageUrl, img.title, img.description, None) == img
    ensures Edited(img, img.imageUrl, img.title, img.description, Some(img.orderIndex)) == img
  {
  }

  /** `ORDER BY i.orderIndex ASC`. */
  predicate OrderLe(a: CollectionImage, b: CollectionImage)
  {
    a.orderIndex <= b.orderIndex
  }

  /** `findByCollectionIdWithDialogues`: the gallery's images by ascending
      position. */
  function CollectionListing(imgs: seq<CollectionImage>, collectionId: int): seq<CollectionImage>
  {
    SortBy(Filter(imgs, (img: CollectionImage) => InCollection(img, collectionId)), OrderLe)
  }

  /** The listing is as long as the gallery's count, sorted by position and
      drawn from that gallery alone. */
  lemma ListingShape(imgs: seq<CollectionImage>, collectionId: int)
    ensures var l := CollectionListing(imgs, collectionId);
      |l| == CountInCollection(imgs, collectionId) && SortedBy(l, OrderLe) &&
      (forall i :: 0 <= i < |l| ==> l[i].collectionId == collectionId)
  {
    var f := Filter(imgs, (img: CollectionImage) => InCollection(img, collectionId));
    var l := CollectionListing(imgs, collectionId);
    SortBySorted(f, OrderLe);
    forall i | 0 <= i < |l| ensures l[i].collectionId == collectionId {
      assert l[i] in multiset(f);
    }
  }

  /** The listing holds stored images only, and every image of the gallery. */
  lemma ListingMembers(imgs: seq<CollectionImage>, collectionId: int)
    ensures var l := CollectionListing(imgs, collectionId);
      (forall x :: x in l ==> x in imgs) &&
      (forall k :: 0 <= k < |imgs| && imgs[k].collectionId == collectionId ==> imgs[k] in l)
  {
    var f := Filter(imgs, (img: CollectionImage) => InCollection(img, collectionId));
    var l := CollectionListing(imgs, collectionId);
    forall x | x in l ensures x in imgs {
      assert x in multiset(f);
    }
    forall k | 0 <= k < |imgs| && imgs[k].collectionId == collectionId ensures imgs[k] in l {
      assert imgs[k] in multiset(l);
    }
  }

  /** Converting a sorted listing of one gallery keeps it sorted and in
      that gallery. */
  lemma ListingDtosOrdered(l: seq<CollectionImage>, collectionId: int)
    requires SortedBy(l, OrderLe)
    requires forall i :: 0 <= i < |l| ==> l[i].collectionId == collectionId
    ensures var r := ImagesToDtos(l);
      (forall i :: 0 <= i < |r| ==> r[i].collectionId == collectionId) &&
      (forall i, j :: 0 <= i < j < |r| ==> r[i].orderIndex <= r[j].orderIndex)
  {
    var r := ImagesToDtos(l);
    forall i, j | 0 <= i < j < |r| ensures r[i].orderIndex <= r[j].orderIndex {
      assert OrderLe(l[i], l[j]);
    }
  }

  /** Converting a listing drawn from the table that holds all of the
      gallery's images gives DTOs of stored images, all of the gallery's. */
  lemma ListingDtosMembers(imgs: seq<CollectionImage>, l: seq<CollectionImage>, collectionId: int)
    requires forall x :: x in l ==> x in imgs
    requires forall k :: 0 <= k < |imgs| && imgs[k].collectionId == collectionId ==> imgs[k] in l
    ensures var r := ImagesToDtos(l);
      (forall d :: d in r ==> exists k :: 0 <= k < |imgs| && d == ImageToDto(imgs[k])) &&
      (forall k :: 0 <= k < |imgs| && imgs[k].collectionId == collectionId ==> ImageToDto(imgs[k]) in r)
  {
    var r := ImagesToDtos(l);
    forall d | d in r ensures exists k :: 0 <= k < |imgs| && d == ImageToDto(imgs[k]) {
      var i :| 0 <= i < |r| && r[i] == d;
      assert l[i] in l;
      var k :| 0 <= k < |imgs| && imgs[k] == l[i];
      assert d == ImageToDto(imgs[k]);
    }
    forall k | 0 <= k < |imgs| && imgs[k].collectionId == collectionId ensures ImageToDto(imgs[k]) in r {
      var at :| 0 <= at < |l| && l[at] == imgs[k];
      assert r[at] == ImageToDto(imgs[k]);
    }
  }

  /** The listing, converted, holds every image of the gallery and nothing
      else, as many as the gallery counts, by ascending position. */
  lemma CollectionListingSpec(imgs: seq<CollectionImage>, collectionId: int)
    ensures var r := ImagesToDtos(CollectionListing(imgs, collectionId));
      |r| == CountInCollection(imgs, collectionId) &&
      (forall i :: 0 <= i < |r| ==> r[i].collectionId == collectionId) &&
      (forall i, j :: 0 <= i < j < |r| ==> r[i].orderIndex <= r[j].orderIndex) &&
      (forall d :: d in r ==> exists k :: 0 <= k < |imgs| && d == ImageToDto(imgs[k])) &&
      (forall k :: 0 <= k < |imgs| && imgs[k].collectionId == collectionId ==> ImageToDto(imgs[k]) in r)
  {
    var l := CollectionListing(imgs, collectionId);
    var r := ImagesToDtos(l);
    ListingShape(imgs, collectionId);
    ListingDtosOrdered(l, collectionId);
    assert (forall d :: d in r ==> exists k :: 0 <= k < |imgs| && d == ImageToDto(imgs[k])) &&
           (forall k :: 0 <= k < |imgs| && imgs[k].collectionId == collectionId ==> ImageToDto(imgs[k]) in r) by {
      ListingMembers(imgs, collectionId);
      ListingDtosMembers(imgs, l, collectionId);
    }
  }

  /** `findByCollectionIdAndTitleContainingIgnoreCase`: the gallery's images
      whose lower-cased title contains the lower-cased text. */
  function TitleMatches(imgs: seq<CollectionImage>, collectionId: int, title: string): seq<CollectionImage>
  {
    SortBy(Filter(imgs, (img: CollectionImage) =>
      InCollection(img, collectionId) && ContainsIgnoreCase(img.title, title)), OrderLe)
  }

  /** The title search returns exactly the gallery's images whose title
      contains the text, ignoring case, each once, by ascending position. */
  lemma TitleMatchesSpec(imgs: seq<CollectionImage>, collectionId: int, title: string)
    ensures var r := TitleMatches(imgs, collectionId, title);
      multiset(r) == multiset(Filter(imgs, (img: CollectionImage) =>
        InCollection(img, collectionId) && ContainsIgnoreCase(img.title, title))) &&
      (forall i :: 0 <= i < |r| ==> r[i].collectionId == collectionId && ContainsIgnoreCase(r[i].title, title)) &&
      (forall i, j :: 0 <= i < j < |r| ==> r[i].orderIndex <= r[j].orderIndex)
  {
    var f := Filter(imgs, (img: CollectionImage) =>
      InCollection(img, collectionId) && ContainsIgnoreCase(img.title, title));
    var r := TitleMatches(imgs, collectionId, title);
    SortBySorted(f, OrderLe);
    forall i | 0 <= i < |r| ensures r[i].collectionId == collectionId && ContainsIgnoreCase(r[i].title, title) {
      assert r[i] in multiset(f);
    }
  }

  // Reorder

  /** `id` names an image of the gallery: the reorder loop searches only the
      images fetched for that gallery. */
  predicate IsImageOf(imgs: seq<CollectionImage>, collectionId: int, id: int)
  {
    exists k :: 0 <= k < |imgs| && imgs[k].collectionId == collectionId && imgs[k].id == id
  }

  /** The position in the table of the image the loop finds for `id`. */
  function ImageOfIndex(imgs: seq<CollectionImage>, collectionId: int, id: int): (k: int)
    ensures -1 <= k < |imgs|
    ensures k >= 0 ==> imgs[k].collectionId == collectionId && imgs[k].id == id
    ensures k < 0 <==> !IsImageOf(imgs, collectionId, id)
  {
    FindIndex(imgs, (img: CollectionImage) => img.collectionId == collectionId && img.id == id)
  }

  /** The position in `ids` of the first id that is not an image of the
      gallery, or |ids|. */
  function FirstForeign(imgs: seq<CollectionImage>, collectionId: int, ids: seq<int>): (m: int)
    ensures 0 <= m <= |ids|
    ensures forall j :: 0 <= j < m ==> IsImageOf(imgs, collectionId, ids[j])
    ensures m < |ids| ==> !IsImageOf(imgs, collectionId, ids[m])
  {
    FirstMissing(ids, (id: int) => IsImageOf(imgs, collectionId, id))
  }

  /** The table after the loop has run over all of `ids`: every image of the
      gallery that is listed sits at the last position listing it. */
  function Repositioned(imgs: seq<CollectionImage>, collectionId: int, ids: seq<int>): (r: seq<CollectionImage>)
    ensures |r| == |imgs|
  {
    seq(|imgs|, k requires 0 <= k < |imgs| =>
      if imgs[k].collectionId == collectionId && LastPosition(ids, imgs[k].id) >= 0
      then imgs[k].(orderIndex := LastPosition(ids, imgs[k].id))
      else imgs[k])
  }

  /** `reorderImages` as one transaction: the first id that is not an image of
      the gallery aborts it, and nothing is saved. */
  function Reordered(imgs: seq<CollectionImage>, collectionId: int, ids: seq<int>): (r: Result<seq<CollectionImage>>)
    ensures r.Err? <==> exists i :: 0 <= i < |ids| && !IsImageOf(imgs, collectionId, ids[i])
    ensures r.Err? ==>
      exists i ::
        0 <= i < |ids| && r.error == NotFoundWithId("Image", ids[i]) &&
        !IsImageOf(imgs, collectionId, ids[i]) && forall j :: 0 <= j < i ==> IsImageOf(imgs, collectionId, ids[j])
  {
    var m := FirstForeign(imgs, collectionId, ids);
    if m < |ids| then Err(NotFoundWithId("Image", ids[m])) else Ok(Repositioned(imgs, collectionId, ids))
  }

  /** After a reorder that succeeds, the image listed at position i has
      the position at which the list names it last, which is i itself when
      no id is listed twice. */
  lemma ReorderPlacesListed(imgs: seq<CollectionImage>, collectionId: int, ids: seq<int>, i: int)
    requires Reordered(imgs, collectionId, ids).Ok?
    requires 0 <= i < |ids|
    ensures
      exists k ::
        0 <= k < |imgs| &&
        Reordered(imgs, collectionId, ids).value[k].id == ids[i] &&
        Reordered(imgs, collectionId, ids).value[k].collectionId == collectionId &&
        Reordered(imgs, collectionId, ids).value[k].orderIndex == LastPosition(ids, ids[i])
    ensures (forall a, b :: 0 <= a < b < |ids| ==> ids[a] != ids[b]) ==> LastPosition(ids, ids[i]) == i
  {
    var k := ImageOfIndex(imgs, collectionId, ids[i]);
    assert FirstForeign(imgs, collectionId, ids) == |ids|;
    var r := Reordered(imgs, collectionId, ids).value;
    assert r == Repositioned(imgs, collectionId, ids);
    assert r[k].orderIndex == LastPosition(ids, ids[i]);
    if forall a, b :: 0 <= a < b < |ids| ==> ids[a] != ids[b] {
      LastPositionDistinct(ids, i);
    }
  }

  /** A reorder changes positions only: every other field of every image is
      kept, and images of other galleries or not listed keep their position. */
  lemma ReorderKeepsOthers(imgs: seq<CollectionImage>, collectionId: int, ids: seq<int>, k: int)
    requires Reordered(imgs, collectionId, ids).Ok?
    requires 0 <= k < |imgs|
    ensures Reordered(imgs, collectionId, ids).value[k].(orderIndex := imgs[k].orderIndex) == imgs[k]
    ensures imgs[k].collectionId != collectionId || imgs[k].id !in ids ==>
      Reordered(imgs, collectionId, ids).value[k] == imgs[k]
  {
  }

  /** Running the same reorder again changes nothing. */
  lemma ReorderIdempotent(imgs: seq<CollectionImage>, collectionId: int, ids: seq<int>)
    requires Reordered(imgs, collectionId, ids).Ok?
    ensures Reordered(Reordered(imgs, collectionId, ids).value, collectionId, ids) == Reordered(imgs, collectionId, ids)
  {
    var r := Repositioned(imgs, collectionId, ids);
    forall i | 0 <= i < |ids| ensures IsImageOf(r, collectionId, ids[i]) {
      var k := ImageOfIndex(imgs, collectionId, ids[i]);
      assert r[k].collectionId == collectionId && r[k].id == ids[i];
    }
    assert Repositioned(r, collectionId, ids) == r;
  }

  /** One more turn of the loop: listing `x` at the end moves the image with
      that id, found at k, to the new last position. */
  lemma RepositionedSnoc(imgs: seq<CollectionImage>, collectionId: int, ids: seq<int>, x: int, k: int)
    requires UniqueIds(imgs)
    requires 0 <= k < |imgs| && imgs[k].collectionId == collectionId && imgs[k].id == x
    ensures Repositioned(imgs, collectionId, ids + [x]) ==
            Repositioned(imgs, collectionId, ids)[k := Repositioned(imgs, collectionId, ids)[k].(orderIndex := |ids|)]
  {
    forall m | 0 <= m < |imgs|
      ensures LastPosition(ids + [x], imgs[m].id) == if m == k then |ids| else LastPosition(ids, imgs[m].id)
    {
      LastPositionSnoc(ids, x, imgs[m].id);
    }
  }

  /** One turn of the reorder loop, at list position i, keeps the table equal
      to the closed form over the ids seen so far. */
  lemma ReorderStep(rows: seq<CollectionImage>, fetched: seq<CollectionImage>, collectionId: int, ids: seq<int>, i: int, k: int)
    requires UniqueIds(fetched) && 0 <= i < |ids|
    requires rows == Repositioned(fetched, collectionId, ids[..i])
    requires 0 <= k < |fetched| && fetched[k].collectionId == collectionId && fetched[k].id == ids[i]
    ensures rows[k := rows[k].(orderIndex := i)] == Repositioned(fetched, collectionId, ids[..i + 1])
  {
    RepositionedSnoc(fetched, collectionId, ids[..i], ids[i], k);
    assert ids[..i + 1] == ids[..i] + [ids[i]];
  }

  /** The loop stops at the first id that names none of the fetched rows. */
  lemma ReorderAborts(fetched: seq<CollectionImage>, collectionId: int, ids: seq<int>, i: int)
    requires 0 <= i < |ids| && !IsImageOf(fetched, collectionId, ids[i])
    requires i <= FirstForeign(fetched, collectionId, ids)
    ensures Reordered(fetched, collectionId, ids) == Err(NotFoundWithId("Image", ids[i]))
  {
  }

  /** An id that names a row passes the check, so the first id that names
      none lies further on. */
  lemma ForeignLater(fetched: seq<CollectionImage>, collectionId: int, ids: seq<int>, i: int)
    requires 0 <= i < |ids| && IsImageOf(fetched, collectionId, ids[i])
    requires i <= FirstForeign(fetched, collectionId, ids)
    ensures i + 1 <= FirstForeign(fetched, collectionId, ids)
  {
  }

  /** The loop that ran over every id ends in the closed form. */
  lemma ReorderCompletes(fetched: seq<CollectionImage>, collectionId: int, ids: seq<int>, rows: seq<CollectionImage>)
    requires rows == Repositioned(fetched, collectionId, ids[..|ids|])
    requires FirstForeign(fetched, collectionId, ids) == |ids|
    ensures Reordered(fetched, collectionId, ids) == Ok(rows)
  {
    assert ids[..|ids|] == ids;
  }

  /** Repositioning keeps every id, so it keeps ids unique. */
  lemma RepositionedKeepsIds(rows: seq<CollectionImage>, collectionId: int, ids: seq<int>)
    requires UniqueIds(rows)
    ensures UniqueIds(Repositioned(rows, collectionId, ids))
  {
    var r := Repositioned(rows, collectionId, ids);
    forall i, j | 0 <= i < j < |r| ensures r[i].id != r[j].id {
      assert r[i].id == rows[i].id && r[j].id == rows[j].id;
    }
  }

  class ImageService {
    var images: seq<CollectionImage>
    var nextId: int
    /** The ids of the stored galleries. */
    var collectionIds: set<int>

    ghost predicate Valid()
      reads this
    {
      UniqueIds(images) && forall i :: 0 <= i < |images| ==> images[i].id < nextId
    }

    constructor (collectionIds: set<int>)
      ensures Valid() && images == [] && this.collectionIds == collectionIds
    {
      images := [];
      nextId := 1;
      this.collectionIds := collectionIds;
    }

    /** `createImage`: a new image without dialogues, after the gallery's
        existing images. */
    method CreateImage(collectionId: int, imageUrl: string, title: string, description: string)
      returns (r: Result<ImageDto>)
      requires Valid()
      modifies this`images, this`nextId
      ensures Valid()
      ensures collectionId !in collectionIds ==>
        r == Err(NotFoundWithId("Collection", collectionId)) && images == old(images)
      ensures collectionId in collectionIds ==>
        var img := CollectionImage(old(nextId), collectionId, imageUrl, title, description,
                                   CountInCollection(old(images), collectionId), []);
        images == old(images) + [img] && r == Ok(ImageToDto(img))
    {
      if collectionId !in collectionIds {
        return Err(NotFoundWithId("Collection", collectionId));
      }
      var img := CollectionImage(nextId, collectionId, imageUrl, title, description,
                                 CountInCollection(images, collectionId), []);
      images := images + [img];
      nextId := nextId + 1;
      r := Ok(ImageToDto(img));
    }

    /** `getImagesByCollectionId`: the gallery's images with their
        dialogues, by ascending position. */
    function GetImagesByCollectionId(collectionId: int): (r: seq<ImageDto>)
      reads this
      ensures |r| == CountInCollection(images, collectionId)
      ensures forall i :: 0 <= i < |r| ==> r[i].collectionId == collectionId
      ensures forall i, j :: 0 <= i < j < |r| ==> r[i].orderIndex <= r[j].orderIndex
      ensures forall d :: d in r ==> exists k :: 0 <= k < |images| && d == ImageToDto(images[k])
      ensures forall k :: 0 <= k < |images| && images[k].collectionId == collectionId ==> ImageToDto(images[k]) in r
    {
      CollectionListingSpec(images, collectionId);
      ImagesToDtos(CollectionListing(images, collectionId))
    }

    /** `getImageById`. */
    function GetImageById(id: int): (r: Result<ImageDto>)
      reads this
      ensures r.Err? <==> forall i :: 0 <= i < |images| ==> images[i].id != id
      ensures r.Err? ==> r.error == NotFoundWithId("Image", id)
      ensures r.Ok? ==> exists i :: 0 <= i < |images| && images[i].id == id && r.value == ImageToDto(images[i])
    {
      var k := ImageIndex(images, id);
      if k < 0 then Err(NotFoundWithId("Image", id)) else Ok(ImageToDto(images[k]))
    }

    /** `updateImage`. */
    method UpdateImage(id: int, imageUrl: string, title: string, description: string, orderIndex: Option<int>)
      returns (r: Result<ImageDto>)
      requires Valid()
      modifies this`images
      ensures Valid()
      ensures var k := ImageIndex(old(images), id);
        (k < 0 ==> r == Err(NotFoundWithId("Image", id)) && images == old(images)) &&
        (k >= 0 ==>
          images == old(images)[k := Edited(old(images)[k], imageUrl, title, description, orderIndex)] &&
          r == Ok(ImageToDto(images[k])))
    {
      var k := ImageIndex(images, id);
      if k < 0 {
        return Err(NotFoundWithId("Image", id));
      }
      var updated := Edited(images[k], imageUrl, title, description, orderIndex);
      images := images[k := updated];
      r := Ok(ImageToDto(updated));
    }

    /** `deleteImage`: the image goes, with its dialogues. */
    method DeleteImage(id: int) returns (r: Result<()>)
      requires Valid()
      modifies this`images
      ensures Valid()
      ensures var k := ImageIndex(old(images), id);
        (k < 0 ==> r == Err(NotFoundWithId("Image", id)) && images == old(images)) &&
        (k >= 0 ==> r == Ok(()) && images == old(images)[..k] + old(images)[k + 1..])
    {
      var k := ImageIndex(images, id);
      if k < 0 {
        return Err(NotFoundWithId("Image", id));
      }
      images := images[..k] + images[k + 1..];
      r := Ok(());
    }

    /** `reorderImages`: each listed id, in turn, is looked up among the
        gallery's images and given its position in the list. */
    method ReorderImages(collectionId: int, ids: seq<int>) returns (r: Result<()>)
      requires Valid()
      modifies this`images
      ensures Valid()
      ensures var spec := Reordered(old(images), collectionId, ids);
        (spec.Err? ==> r == Err(spec.error) && images == old(images)) &&
        (spec.Ok? ==> r == Ok(()) && images == spec.value)
    {
      var fetched := images;
      var rows := images;
      var i := 0;
      while i < |ids|
        invariant 0 <= i <= |ids|
        invariant images == fetched
        invariant rows == Repositioned(fetched, collectionId, ids[..i])
        invariant i <= FirstForeign(fetched, collectionId, ids)
      {
        var k := ImageOfIndex(fetched, collectionId, ids[i]);
        if k < 0 {
          ReorderAborts(fetched, collectionId, ids, i);
          return Err(NotFoundWithId("Image", ids[i]));
        }
        ForeignLater(fetched, collectionId, ids, i);
        ReorderStep(rows, fetched, collectionId, ids, i, k);
        rows := rows[k := rows[k].(orderIndex := i)];
        i := i + 1;
      }
      ReorderCompletes(fetched, collectionId, ids, rows);
      RepositionedKeepsIds(fetched, collectionId, ids);
      images := rows;
      r := Ok(());
    }
  }
}
