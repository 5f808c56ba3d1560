/** Lines of dialogue on a gallery image (`DialogueService`): creation at the
    end of the image's script, edit, removal, the listing and the search of an
    image's dialogues, and the reorder loop. The table of images is seen only
    through the set of ids it holds. */
module Dialogues {
  import opened Wrappers
  import opened Entities
  import opened GalleryDtos
  import opened Text
  import opened Seqs
  import opened Ordering
  import opened Siblings

  predicate UniqueIds(ds: seq<Dialogue>)
  {
    forall i, j :: 0 <= i < j < |ds| ==> ds[i].id != ds[j].id
  }

  /** `findById` on the dialogues. */
  function DialogueIndex(ds: seq<Dialogue>, id: int): (k: int)
    ensures -1 <= k < |ds|
    ensures k >= 0 ==> ds[k].id == id
    ensures k < 0 <==> forall i :: 0 <= i < |ds| ==> ds[i].id != id
  {
    FindIndex(ds, (d: Dialogue) => d.id == id)
  }

  predicate OnImage(d: Dialogue, imageId: int)
  {
    d.imageId == imageId
  }

  /** `countByImageId`. */
  function CountOnImage(ds: seq<Dialogue>, imageId: int): (n: nat)
    ensures n <= |ds|
  {
    |Filter(ds, (d: Dialogue) => OnImage(d, imageId))|
  }

  /** A dialogue appended to one image is counted for that image only: the
      next dialogue there gets the following position. */
  lemma CountAfterCreate(ds: seq<Dialogue>, d: Dialogue, imageId: int)
    ensures CountOnImage(ds + [d], imageId) == CountOnImage(ds, imageId) + (if d.imageId == imageId then 1 else 0)
  {
    FilterSnoc(ds, d, (x: Dialogue) => OnImage(x, imageId));
  }

  // Emotions

  /** `EmotionType.valueOf(raw.toUpperCase())`: case is ignored, but the text
      is not trimmed. */
  function ParseEmotion(raw: string): (r: Result<EmotionType>)
    ensures r.Ok? <==> exists e :: EmotionName(e) == ToUpper(raw)
    ensures r.Ok? ==> EmotionName(r.value) == ToUpper(raw)
    ensures r.Err? ==> r.error == Runtime("Invalid emotion type: " + raw)
  {
    match EmotionValueOf(ToUpper(raw))
    case Some(e) => Ok(e)
    case None => Err(Runtime("Invalid emotion type: " + raw))
  }

  /** The emotion a save leaves: the parsed value when one is given, the
      current one otherwise (NEUTRAL for a new dialogue). */
  function EmotionAfter(current: EmotionType, raw: Option<string>): (r: Result<EmotionType>)
    ensures raw.None? ==> r == Ok(current)
    ensures raw.Some? ==> r == ParseEmotion(raw.value)
  {
    if raw.None? then Ok(current) else ParseEmotion(raw.value)
  }

  lemma EmotionNameUpper(e: EmotionType)
    ensures UpperLettersOnly(EmotionName(e))
  {
  }

  /** Every constant is accepted under its own name, upper- or lower-case. */
  lemma ParseEmotionNames(e: EmotionType)
    ensures ParseEmotion(EmotionName(e)) == Ok(e)
    ensures ParseEmotion(ToLower(EmotionName(e))) == Ok(e)
  {
    EmotionNameUpper(e);
    ToUpperFixed(EmotionName(e));
    LowerThenUpper(EmotionName(e));
  }

  /** Unlike rarities and elements, an emotion with a leading space is
      refused. */
  lemma EmotionNotTrimmed(e: EmotionType)
    ensures ParseEmotion(" " + EmotionName(e)).Err?
  {
    var raw := " " + EmotionName(e);
    ToUpperAt(raw, 0);
  }

  /** `updateDialogue` on the record: text and speaker are always overwritten
      (a missing speaker clears it), the emotion and the position only when
      given; an unknown emotion aborts the update. */
  function Edited(d: Dialogue, text: string, speaker: Option<string>, emotion: Option<string>,
                  orderIndex: Option<int>): (r: Result<Dialogue>)
    ensures r.Err? <==> EmotionAfter(d.emotionType, emotion).Err?
    ensures r.Err? ==> r.error == EmotionAfter(d.emotionType, emotion).error
    ensures r.Ok? ==>
      r.value.id == d.id && r.value.imageId == d.imageId &&
      r.value.text == text && r.value.speaker == speaker &&
      r.value.emotionType == EmotionAfter(d.emotionType, emotion).value &&
      r.value.orderIndex == orderIndex.GetOr(d.orderIndex)
  {
    match EmotionAfter(d.emotionType, emotion)
    case Err(e) => Err(e)
    case Ok(e) => Ok(d.(text := text, speaker := speaker, emotionType := e, orderIndex := orderIndex.GetOr(d.orderIndex)))
  }

  /** Saving a dialogue's own DTO back leaves it as it was. */
  lemma EditFromOwnDto(d: Dialogue)
    ensures var dto := DialogueToDto(d);
      Edited(d, dto.text, dto.speaker, dto.emotionType, Some(dto.orderIndex)) == Ok(d)
  {
    ParseEmotionNames(d.emotionType);
  }

  // Listing and search

  /** `ORDER BY d.orderIndex ASC`. */
  predicate OrderLe(a: Dialogue, b: Dialogue)
  {
    a.orderIndex <= b.orderIndex
  }

  /** `findByImageIdOrderByOrderIndexAsc`, behind `getDialoguesByImageId`. */
  function ImageListing(ds: seq<Dialogue>, imageId: int): seq<Dialogue>
  {
    SortBy(Filter(ds, (d: Dialogue) => OnImage(d, imageId)), OrderLe)
  }

  /** The listing holds exactly the image's dialogues, each once, by
      ascending position. */
  lemma ImageListingSpec(ds: seq<Dialogue>, imageId: int)
    ensures var r := ImageListing(ds, imageId);
      multiset(r) == multiset(Filter(ds, (d: Dialogue) => OnImage(d, imageId))) &&
      (forall i :: 0 <= i < |r| ==> r[i].imageId == imageId) &&
      (forall i, j :: 0 <= i < j < |r| ==> r[i].orderIndex <= r[j].orderIndex)
  {
    var f := Filter(ds, (d: Dialogue) => OnImage(d, imageId));
    var r := ImageListing(ds, imageId);
    SortBySorted(f, OrderLe);
    forall i | 0 <= i < |r| ensures r[i].imageId == imageId {
      assert r[i] in multiset(f);
    }
  }

  /** Every dialogue of the image has its DTO in the converted listing. */
  lemma ImageDtosComplete(ds: seq<Dialogue>, imageId: int)
    ensures forall k :: 0 <= k < |ds| && ds[k].imageId == imageId ==>
      DialogueToDto(ds[k]) in DialoguesToDtos(ImageListing(ds, imageId))
  {
    var listing := ImageListing(ds, imageId);
    var r := DialoguesToDtos(listing);
    ImageListingSpec(ds, imageId);
    forall k | 0 <= k < |ds| && ds[k].imageId == imageId ensures DialogueToDto(ds[k]) in r {
      assert ds[k] in multiset(listing);
      var at :| 0 <= at < |listing| && listing[at] == ds[k];
      assert r[at] == DialogueToDto(ds[k]);
    }
  }

  /** `d.image.id = :imageId AND d.orderIndex BETWEEN lo AND hi`. */
  predicate InRange(d: Dialogue, imageId: int, lo: int, hi: int)
  {
    d.imageId == imageId && lo <= d.orderIndex <= hi
  }

  /** `findByImageIdAndOrderIndexBetween`: the image's dialogues whose
      position lies in the closed range, by ascending position. */
  function RangeListing(ds: seq<Dialogue>, imageId: int, lo: int, hi: int): seq<Dialogue>
  {
    SortBy(Filter(ds, (d: Dialogue) => InRange(d, imageId, lo, hi)), OrderLe)
  }

  /** The range listing is sorted by position and holds dialogues of the
      image within the range only. */
  lemma RangeShape(ds: seq<Dialogue>, imageId: int, lo: int, hi: int)
    ensures var l := RangeListing(ds, imageId, lo, hi);
      SortedBy(l, OrderLe) && forall i :: 0 <= i < |l| ==> InRange(l[i], imageId, lo, hi)
  {
    var f := Filter(ds, (d: Dialogue) => InRange(d, imageId, lo, hi));
    var l := RangeListing(ds, imageId, lo, hi);
    SortBySorted(f, OrderLe);
    forall i | 0 <= i < |l| ensures InRange(l[i], imageId, lo, hi) {
      assert l[i] in multiset(f);
    }
  }

  /** The range listing holds stored dialogues only, and every one in range. */
  lemma RangeMembers(ds: seq<Dialogue>, imageId: int, lo: int, hi: int)
    ensures var l := RangeListing(ds, imageId, lo, hi);
      (forall x :: x in l ==> x in ds) &&
      (forall k :: 0 <= k < |ds| && InRange(ds[k], imageId, lo, hi) ==> ds[k] in l)
  {
    var f := Filter(ds, (d: Dialogue) => InRange(d, imageId, lo, hi));
    var l := RangeListing(ds, imageId, lo, hi);
    forall x | x in l ensures x in ds {
      assert x in multiset(f);
    }
    forall k | 0 <= k < |ds| && InRange(ds[k], imageId, lo, hi) ensures ds[k] in l {
      assert ds[k] in multiset(l);
    }
  }

  /** Converting a listing with those properties keeps them. */
  lemma RangeDtos(ds: seq<Dialogue>, l: seq<Dialogue>, imageId: int, lo: int, hi: int)
    requires SortedBy(l, OrderLe) && forall i :: 0 <= i < |l| ==> InRange(l[i], imageId, lo, hi)
    requires forall x :: x in l ==> x in ds
    requires forall k :: 0 <= k < |ds| && InRange(ds[k], imageId, lo, hi) ==> ds[k] in l
    ensures var r := DialoguesToDtos(l);
      (forall i :: 0 <= i < |r| ==> r[i].imageId == imageId && lo <= r[i].orderIndex <= hi) &&
      (forall i, j :: 0 <= i < j < |r| ==> r[i].orderIndex <= r[j].orderIndex) &&
      (forall d :: d in r ==> exists k :: 0 <= k < |ds| && d == DialogueToDto(ds[k])) &&
      (forall k :: 0 <= k < |ds| && InRange(ds[k], imageId, lo, hi) ==> DialogueToDto(ds[k]) in r)
  {
    var r := DialoguesToDtos(l);
    forall i | 0 <= i < |r| ensures r[i].imageId == imageId && lo <= r[i].orderIndex <= hi {
      assert InRange(l[i], imageId, lo, hi);
    }
    forall i, j | 0 <= i < j < |r| ensures r[i].orderIndex <= r[j].orderIndex {
      assert OrderLe(l[i], l[j]);
    }
    forall d | d in r ensures exists k :: 0 <= k < |ds| && d == DialogueToDto(ds[k]) {
      var i :| 0 <= i < |r| && r[i] == d;
      assert l[i] in l;
      var k :| 0 <= k < |ds| && ds[k] == l[i];
      assert d == DialogueToDto(ds[k]);
    }
    forall k | 0 <= k < |ds| && InRange(ds[k], imageId, lo, hi) ensures DialogueToDto(ds[k]) in r {
      var at :| 0 <= at < |l| && l[at] == ds[k];
      assert r[at] == DialogueToDto(ds[k]);
    }
  }

  /** The range listing, converted, holds exactly the image's dialogues
      placed between the two bounds, both included, by ascending position. */
  lemma RangeListingSpec(ds: seq<Dialogue>, imageId: int, lo: int, hi: int)
    ensures var r := DialoguesToDtos(RangeListing(ds, imageId, lo, hi));
      (forall i :: 0 <= i < |r| ==> r[i].imageId == imageId && lo <= r[i].orderIndex <= hi) &&
      (forall i, j :: 0 <= i < j < |r| ==> r[i].orderIndex <= r[j].orderIndex) &&
      (forall d :: d in r ==> exists k :: 0 <= k < |ds| && d == DialogueToDto(ds[k])) &&
      (forall k :: 0 <= k < |ds| && InRange(ds[k], imageId, lo, hi) ==> DialogueToDto(ds[k]) in r)
  {
    RangeShape(ds, imageId, lo, hi);
    RangeMembers(ds, imageId, lo, hi);
    RangeDtos(ds, RangeListing(ds, imageId, lo, hi), imageId, lo, hi);
  }

  /** `findDistinctSpeakersByImageId`: every speaker named on the image, once
      each. The query fixes no order; here they come by first appearance. */
  function SpeakersOf(ds: seq<Dialogue>, imageId: int): (r: seq<string>)
    ensures forall i, j :: 0 <= i < j < |r| ==> r[i] != r[j]
    ensures forall s :: s in r <==> exists k :: 0 <= k < |ds| && ds[k].imageId == imageId && ds[k].speaker == Some(s)
  {
    if ds == [] then []
    else
      var front := ds[..|ds| - 1];
      var d := ds[|ds| - 1];
      var rest := SpeakersOf(front, imageId);
      assert forall k :: 0 <= k < |front| ==> front[k] == ds[k];
      if d.imageId == imageId && d.speaker.Some? && d.speaker.value !in rest then rest + [d.speaker.value]
      else rest
  }

  /** The one filter a search applies. */
  datatype Criterion = ByText(text: string) | BySpeaker(speaker: string) | ByEmotion(emotion: string) | Everything

  /** A search parameter counts only when present and not empty after
      `trim()`. */
  predicate Given(param: Option<string>)
  {
    param.Some? && JavaTrim(param.value) != []
  }

  /** The precedence of `searchDialogues`: text, then speaker, then emotion,
      else the whole script of the image. The chosen value is used as given,
      untrimmed. */
  function ChooseCriterion(text: Option<string>, speaker: Option<string>, emotion: Option<string>): (c: Criterion)
    ensures c.ByText? <==> Given(text)
    ensures c.BySpeaker? <==> !Given(text) && Given(speaker)
    ensures c.ByEmotion? <==> !Given(text) && !Given(speaker) && Given(emotion)
    ensures c.ByText? ==> c.text == text.value
    ensures c.BySpeaker? ==> c.speaker == speaker.value
    ensures c.ByEmotion? ==> c.emotion == emotion.value
  {
    if Given(text) then ByText(text.value)
    else if Given(speaker) then BySpeaker(speaker.value)
    else if Given(emotion) then ByEmotion(emotion.value)
    else Everything
  }

  /** What a dialogue must satisfy under a criterion whose emotion, if any,
      parsed to `parsed`. */
  predicate Holds(c: Criterion, parsed: EmotionType, d: Dialogue)
  {
    match c
    case ByText(t) => ContainsIgnoreCase(d.text, t)
    case BySpeaker(s) => d.speaker == Some(s)
    case ByEmotion(_) => d.emotionType == parsed
    case Everything => true
  }

  function Selected(ds: seq<Dialogue>, imageId: int, c: Criterion, parsed: EmotionType): seq<Dialogue>
  {
    SortBy(Filter(ds, (d: Dialogue) => OnImage(d, imageId) && Holds(c, parsed, d)), OrderLe)
  }

  /** `searchDialogues`: the image's dialogues that satisfy the chosen
      criterion, by position; an emotion that does not parse fails. */
  function Search(ds: seq<Dialogue>, imageId: int, text: Option<string>, speaker: Option<string>,
                  emotion: Option<string>): (r: Result<seq<Dialogue>>)
    ensures r.Err? <==> ChooseCriterion(text, speaker, emotion).ByEmotion? && ParseEmotion(emotion.value).Err?
    ensures r.Err? ==> r.error == Runtime("Invalid emotion type: " + emotion.value)
  {
    var c := ChooseCriterion(text, speaker, emotion);
    if c.ByEmotion? then
      match ParseEmotion(c.emotion)
      case Err(e) => Err(e)
      case Ok(parsed) => Ok(Selected(ds, imageId, c, parsed))
    else Ok(Selected(ds, imageId, c, DefaultEmotion))
  }

  /** What a successful search returns: dialogues of the image, each
      satisfying the chosen criterion, by ascending position, and every
      dialogue that qualifies. */
  lemma SearchSpec(ds: seq<Dialogue>, imageId: int, text: Option<string>, speaker: Option<string>,
                   emotion: Option<string>)
    requires Search(ds, imageId, text, speaker, emotion).Ok?
    ensures var c := ChooseCriterion(text, speaker, emotion);
      var parsed := if c.ByEmotion? then ParseEmotion(c.emotion).value else DefaultEmotion;
      var r := Search(ds, imageId, text, speaker, emotion).value;
      (forall i :: 0 <= i < |r| ==> r[i].imageId == imageId && Holds(c, parsed, r[i])) &&
      (forall j :: 0 <= j < |ds| && ds[j].imageId == imageId && Holds(c, parsed, ds[j]) ==> ds[j] in r) &&
      (forall i, j :: 0 <= i < j < |r| ==> r[i].orderIndex <= r[j].orderIndex)
  {
    var c := ChooseCriterion(text, speaker, emotion);
    var parsed := if c.ByEmotion? then ParseEmotion(c.emotion).value else DefaultEmotion;
    assert Search(ds, imageId, text, speaker, emotion).value == Selected(ds, imageId, c, parsed);
    SelectedSpec(ds, imageId, c, parsed);
  }

  /** The selection holds exactly the image's dialogues meeting the
      criterion, by ascending position. */
  lemma SelectedSpec(ds: seq<Dialogue>, imageId: int, c: Criterion, parsed: EmotionType)
    ensures var r := Selected(ds, imageId, c, parsed);
      (forall i :: 0 <= i < |r| ==> r[i].imageId == imageId && Holds(c, parsed, r[i])) &&
      (forall j :: 0 <= j < |ds| && ds[j].imageId == imageId && Holds(c, parsed, ds[j]) ==> ds[j] in r) &&
      (forall i, j :: 0 <= i < j < |r| ==> r[i].orderIndex <= r[j].orderIndex)
  {
    SelectedOrdered(ds, imageId, c, parsed);
    SelectedMeets(ds, imageId, c, parsed);
    SelectedComplete(ds, imageId, c, parsed);
  }

  /** The selection is by ascending position. */
  lemma SelectedOrdered(ds: seq<Dialogue>, imageId: int, c: Criterion, parsed: EmotionType)
    ensures var r := Selected(ds, imageId, c, parsed);
      forall i, j :: 0 <= i < j < |r| ==> r[i].orderIndex <= r[j].orderIndex
  {
    SortBySorted(Filter(ds, (d: Dialogue) => OnImage(d, imageId) && Holds(c, parsed, d)), OrderLe);
  }

  /** Every dialogue selected is of the image and meets the criterion. */
  lemma SelectedMeets(ds: seq<Dialogue>, imageId: int, c: Criterion, parsed: EmotionType)
    ensures var r := Selected(ds, imageId, c, parsed);
      forall i :: 0 <= i < |r| ==> r[i].imageId == imageId && Holds(c, parsed, r[i])
  {
    var f := Filter(ds, (d: Dialogue) => OnImage(d, imageId) && Holds(c, parsed, d));
    var r := Selected(ds, imageId, c, parsed);
    SortByMembers(f, OrderLe);
    forall i | 0 <= i < |r| ensures r[i].imageId == imageId && Holds(c, parsed, r[i]) {
      assert r[i] in r;
      var k :| 0 <= k < |f| && f[k] == r[i];
    }
  }

  /** Every dialogue of the image that meets the criterion is selected. */
  lemma SelectedComplete(ds: seq<Dialogue>, imageId: int, c: Criterion, parsed: EmotionType)
    ensures var r := Selected(ds, imageId, c, parsed);
      forall j :: 0 <= j < |ds| && ds[j].imageId == imageId && Holds(c, parsed, ds[j]) ==> ds[j] in r
  {
    var f := Filter(ds, (d: Dialogue) => OnImage(d, imageId) && Holds(c, parsed, d));
    var r := Selected(ds, imageId, c, parsed);
    SortByMembers(f, OrderLe);
    forall j | 0 <= j < |ds| && ds[j].imageId == imageId && Holds(c, parsed, ds[j]) ensures ds[j] in r {
      assert ds[j] in f;
    }
  }

  /** Given text wins: the speaker and emotion parameters are then ignored,
      even an emotion that would not parse. */
  lemma TextTakesPrecedence(ds: seq<Dialogue>, imageId: int, text: string,
                            speaker1: Option<string>, emotion1: Option<string>,
                            speaker2: Option<string>, emotion2: Option<string>)
    requires JavaTrim(text) != []
    ensures Search(ds, imageId, Some(text), speaker1, emotion1) == Search(ds, imageId, Some(text), speaker2, emotion2)
    ensures Search(ds, imageId, Some(text), speaker1, emotion1).Ok?
  {
  }

  /** A search with no usable parameter is the image's listing. */
  lemma EmptySearchIsListing(ds: seq<Dialogue>, imageId: int, text: Option<string>, speaker: Option<string>,
                             emotion: Option<string>)
    requires !Given(text) && !Given(speaker) && !Given(emotion)
    ensures Search(ds, imageId, text, speaker, emotion) == Ok(ImageListing(ds, imageId))
  {
    var p := (d: Dialogue) => OnImage(d, imageId) && Holds(Everything, DefaultEmotion, d);
    var q := (d: Dialogue) => OnImage(d, imageId);
    forall x | x in ds ensures p(x) == q(x) {
      assert Holds(Everything, DefaultEmotion, x);
    }
    FilterCongruent(ds, p, q);
  }

  // Reorder

  /** `id` names a dialogue of the image: the reorder loop searches only the
      dialogues fetched for that image. */
  predicate IsDialogueOf(ds: seq<Dialogue>, imageId: int, id: int)
  {
    exists k :: 0 <= k < |ds| && ds[k].imageId == imageId && ds[k].id == id
  }

  /** The position in the table of the dialogue the loop finds for `id`. */
  function DialogueOfIndex(ds: seq<Dialogue>, imageId: int, id: int): (k: int)
    ensures -1 <= k < |ds|
    ensures k >= 0 ==> ds[k].imageId == imageId && ds[k].id == id
    ensures k < 0 <==> !IsDialogueOf(ds, imageId, id)
  {
    FindIndex(ds, (d: Dialogue) => d.imageId == imageId && d.id == id)
  }

  /** The position in `ids` of the first id that is not a dialogue of the
      image, or |ids|. */
  function FirstForeign(ds: seq<Dialogue>, imageId: int, ids: seq<int>): (m: int)
    ensures 0 <= m <= |ids|
    ensures forall j :: 0 <= j < m ==> IsDialogueOf(ds, imageId, ids[j])
    ensures m < |ids| ==> !IsDialogueOf(ds, imageId, ids[m])
  {
    FirstMissing(ids, (id: int) => IsDialogueOf(ds, imageId, id))
  }

  /** The table after the loop has run over all of `ids`: every dialogue of
      the image that is listed sits at the last position listing it. */
  function Repositioned(ds: seq<Dialogue>, imageId: int, ids: seq<int>): (r: seq<Dialogue>)
    ensures |r| == |ds|
  {
    seq(|ds|, k requires 0 <= k < |ds| =>
      if ds[k].imageId == imageId && LastPosition(ids, ds[k].id) >= 0
      then ds[k].(orderIndex := LastPosition(ids, ds[k].id))
      else ds[k])
  }

  /** `reorderDialogues` as one transaction: the first id that is not a
      dialogue of the image aborts it, and nothing is saved. */
  function Reordered(ds: seq<Dialogue>, imageId: int, ids: seq<int>): (r: Result<seq<Dialogue>>)
    ensures r.Err? <==> exists i :: 0 <= i < |ids| && !IsDialogueOf(ds, imageId, ids[i])
    ensures r.Err? ==>
      exists i ::
        0 <= i < |ids| && r.error == NotFoundWithId("Dialogue", ids[i]) &&
        !IsDialogueOf(ds, imageId, ids[i]) && forall j :: 0 <= j < i ==> IsDialogueOf(ds, imageId, ids[j])
  {
    var m := FirstForeign(ds, imageId, ids);
    if m < |ids| then Err(NotFoundWithId("Dialogue", ids[m])) else Ok(Repositioned(ds, imageId, ids))
  }

  /** After a reorder that succeeds, the dialogue listed at position i has
      the position at which the list names it last, which is i itself when
      no id is listed twice. */
  lemma ReorderPlacesListed(ds: seq<Dialogue>, imageId: int, ids: seq<int>, i: int)
    requires Reordered(ds, imageId, ids).Ok?
    requires 0 <= i < |ids|
    ensures
      exists k ::
        0 <= k < |ds| &&
        Reordered(ds, imageId, ids).value[k].id == ids[i] &&
        Reordered(ds, imageId, ids).value[k].imageId == imageId &&
        Reordered(ds, imageId, ids).value[k].orderIndex == LastPosition(ids, ids[i])
    ensures (forall a, b :: 0 <= a < b < |ids| ==> ids[a] != ids[b]) ==> LastPosition(ids, ids[i]) == i
  {
    var k := DialogueOfIndex(ds, imageId, ids[i]);
    assert FirstForeign(ds, imageId, ids) == |ids|;
    var r := Reordered(ds, imageId, ids).value;
    assert r == Repositioned(ds, imageId, ids);
    assert r[k].orderIndex == LastPosition(ids, ids[i]);
    if forall a, b :: 0 <= a < b < |ids| ==> ids[a] != ids[b] {
      LastPositionDistinct(ids, i);
    }
  }

  /** A reorder changes positions only, and dialogues of other images or not
      listed keep theirs. */
  lemma ReorderKeepsOthers(ds: seq<Dialogue>, imageId: int, ids: seq<int>, k: int)
    requires Reordered(ds, imageId, ids).Ok?
    requires 0 <= k < |ds|
    ensures Reordered(ds, imageId, ids).value[k].(orderIndex := ds[k].orderIndex) == ds[k]
    ensures ds[k].imageId != imageId || ds[k].id !in ids ==> Reordered(ds, imageId, ids).value[k] == ds[k]
  {
  }

  /** One more turn of the loop: listing `x` at the end moves the dialogue
      with that id, found at k, to the new last position. */
  lemma RepositionedSnoc(ds: seq<Dialogue>, imageId: int, ids: seq<int>, x: int, k: int)
    requires UniqueIds(ds)
    requires 0 <= k < |ds| && ds[k].imageId == imageId && ds[k].id == x
    ensures Repositioned(ds, imageId, ids + [x]) ==
            Repositioned(ds, imageId, ids)[k := Repositioned(ds, imageId, ids)[k].(orderIndex := |ids|)]
  {
    forall m | 0 <= m < |ds|
      ensures LastPosition(ids + [x], ds[m].id) == if m == k then |ids| else LastPosition(ids, ds[m].id)
    {
      LastPositionSnoc(ids, x, ds[m].id);
    }
  }

  /** One turn of the reorder loop, at list position i, keeps the table equal
      to the closed form over the ids seen so far. */
  lemma ReorderStep(rows: seq<Dialogue>, fetched: seq<Dialogue>, imageId: int, ids: seq<int>, i: int, k: int)
    requires UniqueIds(fetched) && 0 <= i < |ids|
    requires rows == Repositioned(fetched, imageId, ids[..i])
    requires 0 <= k < |fetched| && fetched[k].imageId == imageId && fetched[k].id == ids[i]
    ensures rows[k := rows[k].(orderIndex := i)] == Repositioned(fetched, imageId, ids[..i + 1])
  {
    RepositionedSnoc(fetched, imageId, ids[..i], ids[i], k);
    assert ids[..i + 1] == ids[..i] + [ids[i]];
  }

  /** The loop stops at the first id that names none of the fetched rows. */
  lemma ReorderAborts(fetched: seq<Dialogue>, imageId: int, ids: seq<int>, i: int)
    requires 0 <= i < |ids| && !IsDialogueOf(fetched, imageId, ids[i])
    requires i <= FirstForeign(fetched, imageId, ids)
    ensures Reordered(fetched, imageId, ids) == Err(NotFoundWithId("Dialogue", ids[i]))
  {
  }

  /** An id that names a row passes the check, so the first id that names
      none lies further on. */
  lemma ForeignLater(fetched: seq<Dialogue>, imageId: int, ids: seq<int>, i: int)
    requires 0 <= i < |ids| && IsDialogueOf(fetched, imageId, ids[i])
    requires i <= FirstForeign(fetched, imageId, ids)
    ensures i + 1 <= FirstForeign(fetched, imageId, ids)
  {
  }

  /** The loop that ran over every id ends in the closed form. */
  lemma ReorderCompletes(fetched: seq<Dialogue>, imageId: int, ids: seq<int>, rows: seq<Dialogue>)
    requires rows == Repositioned(fetched, imageId, ids[..|ids|])
    requires FirstForeign(fetched, imageId, ids) == |ids|
    ensures Reordered(fetched, imageId, ids) == Ok(rows)
  {
    assert ids[..|ids|] == ids;
  }

  /** Repositioning keeps every id, so it keeps ids unique. */
  lemma RepositionedKeepsIds(rows: seq<Dialogue>, imageId: int, ids: seq<int>)
    requires UniqueIds(rows)
    ensures UniqueIds(Repositioned(rows, imageId, ids))
  {
    var r := Repositioned(rows, imageId, ids);
    forall i, j | 0 <= i < j < |r| ensures r[i].id != r[j].id {
      assert r[i].id == rows[i].id && r[j].id == rows[j].id;
    }
  }

  class DialogueService {
    var dialogues: seq<Dialogue>
    var nextId: int
    /** The ids of the stored images. */
    var imageIds: set<int>

    ghost predicate Valid()
      reads this
    {
      UniqueIds(dialogues) && forall i :: 0 <= i < |dialogues| ==> dialogues[i].id < nextId
    }

    constructor (imageIds: set<int>)
      ensures Valid() && dialogues == [] && this.imageIds == imageIds
    {
      dialogues := [];
      nextId := 1;
      this.imageIds := imageIds;
    }

    /** `getDialoguesByImageId`: all of the image's dialogues, by ascending
        position. */
    function GetDialoguesByImageId(imageId: int): (r: seq<DialogueDto>)
      reads this
      ensures |r| == CountOnImage(dialogues, imageId)
      ensures forall i :: 0 <= i < |r| ==> r[i].imageId == imageId
      ensures forall i, j :: 0 <= i < j < |r| ==> r[i].orderIndex <= r[j].orderIndex
      ensures forall k :: 0 <= k < |dialogues| && dialogues[k].imageId == imageId ==> DialogueToDto(dialogues[k]) in r
    {
      ImageListingSpec(dialogues, imageId);
      ImageDtosComplete(dialogues, imageId);
      DialoguesToDtos(ImageListing(dialogues, imageId))
    }

    /** `getDialogueById`. */
    function GetDialogueById(id: int): (r: Result<DialogueDto>)
      reads this
      ensures r.Err? <==> forall i :: 0 <= i < |dialogues| ==> dialogues[i].id != id
      ensures r.Err? ==> r.error == NotFoundWithId("Dialogue", id)
      ensures r.Ok? ==> exists i :: 0 <= i < |dialogues| && dialogues[i].id == id && r.value == DialogueToDto(dialogues[i])
    {
      var k := DialogueIndex(dialogues, id);
      if k < 0 then Err(NotFoundWithId("Dialogue", id)) else Ok(DialogueToDto(dialogues[k]))
    }

    /** `getUniqueSpeakers`: each speaker named on the image, once. */
    function GetUniqueSpeakers(imageId: int): (r: seq<string>)
      reads this
      ensures forall i, j :: 0 <= i < j < |r| ==> r[i] != r[j]
      ensures forall s :: s in r <==>
        exists k :: 0 <= k < |dialogues| && dialogues[k].imageId == imageId && dialogues[k].speaker == Some(s)
    {
      SpeakersOf(dialogues, imageId)
    }

    /** `getDialoguesByOrderRange`: the image's dialogues positioned from
        `startIndex` to `endIndex`, both included, by ascending position. */
    function GetDialoguesByOrderRange(imageId: int, startIndex: int, endIndex: int): (r: seq<DialogueDto>)
      reads this
      ensures forall i :: 0 <= i < |r| ==> r[i].imageId == imageId && startIndex <= r[i].orderIndex <= endIndex
      ensures forall i, j :: 0 <= i < j < |r| ==> r[i].orderIndex <= r[j].orderIndex
      ensures forall d :: d in r ==> exists k :: 0 <= k < |dialogues| && d == DialogueToDto(dialogues[k])
      ensures forall k :: 0 <= k < |dialogues| && InRange(dialogues[k], imageId, startIndex, endIndex) ==>
        DialogueToDto(dialogues[k]) in r
    {
      RangeListingSpec(dialogues, imageId, startIndex, endIndex);
      DialoguesToDtos(RangeListing(dialogues, imageId, startIndex, endIndex))
    }

    /** `createDialogue`: the image must exist, then the emotion must parse;
        the new line goes after the image's existing ones. */
    method CreateDialogue(imageId: int, text: string, speaker: Option<string>, emotion: Option<string>)
      returns (r: Result<DialogueDto>)
      requires Valid()
      modifies this`dialogues, this`nextId
      ensures Valid()
      ensures imageId !in imageIds ==> r == Err(NotFoundWithId("Image", imageId)) && dialogues == old(dialogues)
      ensures imageId in imageIds && EmotionAfter(DefaultEmotion, emotion).Err? ==>
        r == Err(EmotionAfter(DefaultEmotion, emotion).error) && dialogues == old(dialogues)
      ensures imageId in imageIds && EmotionAfter(DefaultEmotion, emotion).Ok? ==>
        var d := Dialogue(old(nextId), imageId, text, speaker, CountOnImage(old(dialogues), imageId),
                          EmotionAfter(DefaultEmotion, emotion).value);
        dialogues == old(dialogues) + [d] && r == Ok(DialogueToDto(d))
    {
      if imageId !in imageIds {
        return Err(NotFoundWithId("Image", imageId));
      }
      var e := EmotionAfter(DefaultEmotion, emotion);
      if e.Err? {
        return Err(e.error);
      }
      var d := Dialogue(nextId, imageId, text, speaker, CountOnImage(dialogues, imageId), e.value);
      dialogues := dialogues + [d];
      nextId := nextId + 1;
      r := Ok(DialogueToDto(d));
    }

    /** `updateDialogue`. */
    method UpdateDialogue(id: int, text: string, speaker: Option<string>, emotion: Option<string>,
                          orderIndex: Option<int>) returns (r: Result<DialogueDto>)
      requires Valid()
      modifies this`dialogues
      ensures Valid()
      ensures var k := DialogueIndex(old(dialogues), id);
        (k < 0 ==> r == Err(NotFoundWithId("Dialogue", id)) && dialogues == old(dialogues)) &&
        (k >= 0 ==>
          var e := Edited(old(dialogues)[k], text, speaker, emotion, orderIndex);
          (e.Err? ==> r == Err(e.error) && dialogues == old(dialogues)) &&
          (e.Ok? ==> dialogues == old(dialogues)[k := e.value] && r == Ok(DialogueToDto(e.value))))
    {
      var k := DialogueIndex(dialogues, id);
      if k < 0 {
        return Err(NotFoundWithId("Dialogue", id));
      }
      var e := Edited(dialogues[k], text, speaker, emotion, orderIndex);
      if e.Err? {
        return Err(e.error);
      }
      dialogues := dialogues[k := e.value];
      r := Ok(DialogueToDto(e.value));
    }

    /** `deleteDialogue`. */
    method DeleteDialogue(id: int) returns (r: Result<()>)
      requires Valid()
      modifies this`dialogues
      ensures Valid()
      ensures var k := DialogueIndex(old(dialogues), id);
        (k < 0 ==> r == Err(NotFoundWithId("Dialogue", id)) && dialogues == old(dialogues)) &&
        (k >= 0 ==> r == Ok(()) && dialogues == old(dialogues)[..k] + old(dialogues)[k + 1..])
    {
      var k := DialogueIndex(dialogues, id);
      if k < 0 {
        return Err(NotFoundWithId("Dialogue", id));
      }
      dialogues := dialogues[..k] + dialogues[k + 1..];
      r := Ok(());
    }

    /** `reorderDialogues`: each listed id, in turn, is looked up among the
        image's dialogues and given its position in the list. */
    method ReorderDialogues(imageId: int, ids: seq<int>) returns (r: Result<()>)
      requires Valid()
      modifies this`dialogues
      ensures Valid()
      ensures var spec := Reordered(old(dialogues), imageId, ids);
        (spec.Err? ==> r == Err(spec.error) && dialogues == old(dialogues)) &&
        (spec.Ok? ==> r == Ok(()) && dialogues == spec.value)
    {
      var fetched := dialogues;
      var rows := dialogues;
      var i := 0;
      while i < |ids|
        invariant 0 <= i <= |ids|
        invariant dialogues == fetched
        invariant rows == Repositioned(fetched, imageId, ids[..i])
        invariant i <= FirstForeign(fetched, imageId, ids)
      {
        var k := DialogueOfIndex(fetched, imageId, ids[i]);
        if k < 0 {
          ReorderAborts(fetched, imageId, ids, i);
          return Err(NotFoundWithId("Dialogue", ids[i]));
        }
        ForeignLater(fetched, imageId, ids, i);
        ReorderStep(rows, fetched, imageId, ids, i, k);
        rows := rows[k := rows[k].(orderIndex := i)];
        i := i + 1;
      }
      ReorderCompletes(fetched, imageId, ids, rows);
      RepositionedKeepsIds(fetched, imageId, ids);
      dialogues := rows;
      r := Ok(());
    }
  }
}
