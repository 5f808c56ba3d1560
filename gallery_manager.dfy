/** The administrator's gallery screen: pick a card, then create, rename and
    delete its collections and add, edit and delete the images inside them.

    Each React state variable of the component is a field of `GalleryManager`.
    Every event handler is specified by a pure transition on `Screen`, the
    record of all those fields, and the class's method for that handler is
    proved to reach exactly that screen. Server calls are not performed: a
    handler returns the request it would send, and the server's answers
    (whether the save or delete succeeded, and what the reload returned) are
    parameters. */
module GalleryAdmin {
  import opened Wrappers
  import opened Text
  import CardMapping

  /** The collection form's inputs. */
  datatype CollectionForm = CollectionForm(name: string, description: string)

  /** The image form's inputs. */
  datatype ImageForm = ImageForm(imageUrl: string, title: string, description: string, orderIndex: int)

  const EmptyCollectionForm := CollectionForm("", "")
  const EmptyImageForm := ImageForm("", "", "", 0)

  /** An image as the browser receives it: the JSON may carry null strings. */
  datatype ClientImage = ClientImage(
    id: int,
    collectionId: int,
    imageUrl: Option<string>,
    title: Option<string>,
    description: Option<string>,
    orderIndex: Option<int>)

  /** A collection summary as the browser receives it. */
  datatype ClientCollection = ClientCollection(
    id: int,
    cardId: int,
    name: string,
    description: Option<string>,
    images: seq<ClientImage>)

  datatype CollectionPayload = CollectionPayload(cardId: int, name: string, description: string)

  datatype ImagePayload = ImagePayload(
    collectionId: int,
    imageUrl: string,
    title: string,
    description: string,
    orderIndex: int)

  /** The HTTP calls the screen makes to the collection and image endpoints. */
  datatype Request =
    | PostCollection(cardId: int, collection: CollectionPayload)
    | PutCollection(collectionId: int, collection: CollectionPayload)
    | DeleteCollection(collectionId: int)
    | PostImage(collectionId: int, image: ImagePayload)
    | PutImage(imageId: int, image: ImagePayload)
    | DeleteImage(imageId: int)

  const CardsFailed := "Unable to load cards right now."
  const CollectionsFailed := "Unable to load collections for this card."
  const NameRequired := "Collection name is required."
  const UrlRequired := "Image URL is required."
  const UpdateCollectionFailed := "Unable to update collection."
  const CreateCollectionFailed := "Unable to create collection."
  const DeleteCollectionFailed := "Unable to delete collection right now."
  const UpdateImageFailed := "Unable to update image."
  const AddImageFailed := "Unable to add image."
  const DeleteImageFailed := "Unable to delete image right now."

  /** JavaScript truthiness of an id slot (`number | ''` or `number | null`):
      the unset value and the number 0 are both falsy. */
  predicate Truthy(id: Option<int>)
  {
    id.Some? && id.value != 0
  }

  /** `x || ''` on a string that may be null. */
  function OrEmpty(x: Option<string>): string
  {
    if x.Some? then x.value else ""
  }

  /** `resolveImageUrl`: a missing or empty URL shows nothing, an absolute
      `http…` URL is used as it is, and anything else is a stored file name
      served under the upload base. */
  function ResolveImageUrl(url: Option<string>, uploadBase: string): (r: string)
    ensures r == [] <==> url.None? || url.value == []
    ensures url.Some? ==> |url.value| <= |r| && r[|r| - |url.value|..] == url.value
    ensures url.Some? && StartsWith(url.value, "http") ==> r == url.value
    ensures url.Some? && url.value != [] && !StartsWith(url.value, "http") ==> r == uploadBase + url.value
  {
    if url.None? || url.value == [] then ""
    else if StartsWith(url.value, "http") then url.value
    else uploadBase + url.value
  }

  /** When the upload base is itself an absolute `http…` URL, resolving a
      resolved URL again changes nothing. */
  lemma ResolveImageUrlIdempotent(url: Option<string>, uploadBase: string)
    requires StartsWith(uploadBase, "http")
    ensures ResolveImageUrl(Some(ResolveImageUrl(url, uploadBase)), uploadBase) == ResolveImageUrl(url, uploadBase)
  {
    var r := ResolveImageUrl(url, uploadBase);
    if url.Some? && url.value != [] && !StartsWith(url.value, "http") {
      assert r == uploadBase + url.value;
      assert r[..|"http"|] == uploadBase[..|"http"|];
    }
  }

  /** Non-empty, with a visible character at either end. */
  predicate Trimmed(s: string)
  {
    s != [] && !JsWhitespace(s[0]) && !JsWhitespace(s[|s| - 1])
  }

  /** What the screen relies on about `s.trim()`: it is empty exactly when
      `s` is all whitespace, and otherwise starts and ends with a visible
      character. */
  lemma JsTrimShape(s: string)
    ensures JsTrim(s) == [] <==> forall i :: 0 <= i < |s| ==> JsWhitespace(s[i])
    ensures JsTrim(s) != [] ==> Trimmed(JsTrim(s))
  {
    TrimEmptyIffAllTrimmable(s, JsWhitespace);
    var t := TrimStart(s, JsWhitespace);
    if JsTrim(s) != [] {
      assert t != [] && JsTrim(s)[0] == t[0];
    }
  }

  /** The collection form's submission: both fields trimmed, refused when the
      name trims to nothing. */
  function CollectionPayloadOf(cardId: int, form: CollectionForm): (r: Option<CollectionPayload>)
    ensures r.None? <==> forall i :: 0 <= i < |form.name| ==> JsWhitespace(form.name[i])
    ensures r.Some? ==> r.value.cardId == cardId && Trimmed(r.value.name)
    ensures r.Some? ==> r.value.name == JsTrim(form.name) && r.value.description == JsTrim(form.description)
  {
    JsTrimShape(form.name);
    var name := JsTrim(form.name);
    if name == [] then None
    else Some(CollectionPayload(cardId, name, JsTrim(form.description)))
  }

  /** The image form's submission: the texts trimmed, refused when the URL
      trims to nothing; the order index is sent as entered. */
  function ImagePayloadOf(collectionId: int, form: ImageForm): (r: Option<ImagePayload>)
    ensures r.None? <==> forall i :: 0 <= i < |form.imageUrl| ==> JsWhitespace(form.imageUrl[i])
    ensures r.Some? ==> r.value.collectionId == collectionId && r.value.orderIndex == form.orderIndex
    ensures r.Some? ==> Trimmed(r.value.imageUrl)
    ensures r.Some? ==> r.value.imageUrl == JsTrim(form.imageUrl) && r.value.title == JsTrim(form.title)
    ensures r.Some? ==> r.value.description == JsTrim(form.description)
  {
    JsTrimShape(form.imageUrl);
    var url := JsTrim(form.imageUrl);
    if url == [] then None
    else Some(ImagePayload(collectionId, url, JsTrim(form.title), JsTrim(form.description), form.orderIndex))
  }

  /** `cards.find(card => card.id === id)`. */
  function CardWithId(cards: seq<CardMapping.CardDto>, id: int): (r: Option<CardMapping.CardDto>)
    ensures r.Some? ==> r.value in cards && r.value.id == Some(id)
    ensures r.None? <==> forall k :: 0 <= k < |cards| ==> cards[k].id != Some(id)
    ensures r.Some? ==> exists k :: 0 <= k < |cards| && cards[k] == r.value && forall j :: 0 <= j < k ==> cards[j].id != Some(id)
  {
    if cards == [] then None
    else if cards[0].id == Some(id) then
      assert cards[0] == cards[0];
      Some(cards[0])
    else
      var r := CardWithId(cards[1..], id);
      if r.Some? then
        assert exists k :: 0 <= k < |cards| && cards[k] == r.value && forall j :: 0 <= j < k ==> cards[j].id != Some(id) by {
          var k :| 0 <= k < |cards| - 1 && cards[1..][k] == r.value && forall j :: 0 <= j < k ==> cards[1..][j].id != Some(id);
          assert cards[k + 1] == r.value;
          assert forall j :: 0 <= j < k + 1 ==> cards[j].id != Some(id) by {
            forall j | 0 <= j < k + 1
              ensures cards[j].id != Some(id)
            {
              if j > 0 {
                assert cards[j] == cards[1..][j - 1];
              }
            }
          }
        }
        r
      else
        assert forall k :: 0 <= k < |cards| ==> cards[k].id != Some(id) by {
          forall k | 0 <= k < |cards|
            ensures cards[k].id != Some(id)
          {
            if k > 0 {
              assert cards[k] == cards[1..][k - 1];
            }
          }
        }
        r
  }

  /** Every state variable of the screen, apart from the loading and saving
      flags. */
  datatype Screen = Screen(
    cards: seq<CardMapping.CardDto>,
    cardsError: Option<string>,
    selectedCardId: Option<int>,
    collections: seq<ClientCollection>,
    collectionsError: Option<string>,
    collectionForm: CollectionForm,
    collectionFormVisible: bool,
    editingCollectionId: Option<int>,
    expandedCollectionId: Option<int>,
    imageFormCollectionId: Option<int>,
    imageForm: ImageForm,
    editingImageId: Option<int>)

  /** A handler's outcome: the screen it leaves and the request it sent. */
  datatype Step = Step(screen: Screen, sent: Option<Request>)

  /** What every handler keeps true: the image form always belongs to the
      expanded collection, and a hidden collection form is empty and not
      editing anything. */
  predicate Valid(s: Screen)
  {
    s.imageFormCollectionId == s.expandedCollectionId &&
    (!s.collectionFormVisible ==> s.collectionForm == EmptyCollectionForm && s.editingCollectionId.None?)
  }

  function Initial(): (r: Screen)
    ensures Valid(r) && r.collections == [] && r.selectedCardId.None?
  {
    Screen([], None, None, [], None, EmptyCollectionForm, false, None, None, None, EmptyImageForm, None)
  }

  /** The card list's load on mount. */
  function CardsLoaded(s: Screen, response: Option<seq<CardMapping.CardDto>>): (r: Screen)
    ensures Valid(s) ==> Valid(r)
    ensures response.Some? ==> r.cards == response.value && r.cardsError.None?
    ensures response.None? ==> r.cards == s.cards && r.cardsError == Some(CardsFailed)
  {
    if response.Some? then s.(cards := response.value, cardsError := None)
    else s.(cardsError := Some(CardsFailed))
  }

  /** The card the selector names, if it is in the loaded list. */
  function SelectedCard(s: Screen): (r: Option<CardMapping.CardDto>)
    ensures r.Some? ==> Truthy(s.selectedCardId) && r.value in s.cards && r.value.id == s.selectedCardId
  {
    if !Truthy(s.selectedCardId) then None else CardWithId(s.cards, s.selectedCardId.value)
  }

  /** `fetchCollections`: a failed load empties the list and says so. */
  function Fetched(s: Screen, response: Option<seq<ClientCollection>>): (r: Screen)
    ensures Valid(s) ==> Valid(r)
    ensures r.collections == (if response.Some? then response.value else [])
    ensures r.collectionsError == (if response.Some? then None else Some(CollectionsFailed))
  {
    if response.Some? then s.(collections := response.value, collectionsError := None)
    else s.(collections := [], collectionsError := Some(CollectionsFailed))
  }

  /** A change of the card selector, with the effect that reloads the
      collections; choosing the value already selected triggers nothing. */
  function CardSelected(s: Screen, value: Option<int>, response: Option<seq<ClientCollection>>): (r: Screen)
    ensures Valid(s) ==> Valid(r)
    ensures r.selectedCardId == value
    ensures value != s.selectedCardId && !Truthy(value) ==> r.collections == []
  {
    if value == s.selectedCardId then s
    else
      var t := s.(selectedCardId := value);
      if !Truthy(value) then t.(collections := []) else Fetched(t, response)
  }

  function CollectionFormReset(s: Screen): (r: Screen)
    ensures Valid(s) ==> Valid(r)
    ensures !r.collectionFormVisible && r.collectionForm == EmptyCollectionForm && r.editingCollectionId.None?
  {
    s.(collectionForm := EmptyCollectionForm, editingCollectionId := None, collectionFormVisible := false)
  }

  function CreateOpened(s: Screen): (r: Screen)
    ensures Valid(s) ==> Valid(r)
    ensures r.collectionFormVisible && r.collectionForm == EmptyCollectionForm && r.editingCollectionId.None?
  {
    s.(collectionFormVisible := true, editingCollectionId := None, collectionForm := EmptyCollectionForm)
  }

  function EditOpened(s: Screen, c: ClientCollection): (r: Screen)
    ensures Valid(s) ==> Valid(r)
    ensures r.collectionFormVisible && r.editingCollectionId == Some(c.id)
    ensures r.collectionForm == CollectionForm(c.name, OrEmpty(c.description))
  {
    s.(collectionFormVisible := true, editingCollectionId := Some(c.id),
       collectionForm := CollectionForm(c.name, OrEmpty(c.description)))
  }

  /** Typing into the collection form, which is rendered only while visible. */
  function CollectionTyped(s: Screen, form: CollectionForm): (r: Screen)
    requires s.collectionFormVisible
    ensures Valid(s) ==> Valid(r)
    ensures r.collectionForm == form
  {
    s.(collectionForm := form)
  }

  function ImageFormReset(s: Screen): (r: Screen)
    ensures Valid(s) ==> Valid(r)
    ensures r.imageForm == EmptyImageForm && r.editingImageId.None?
  {
    s.(imageForm := EmptyImageForm, editingImageId := None)
  }

  function ImageTyped(s: Screen, form: ImageForm): (r: Screen)
    ensures Valid(s) ==> Valid(r)
    ensures r.imageForm == form
  {
    s.(imageForm := form)
  }

  /** `toggleCollection`: open a collection's gallery (with its image form),
      or close it when it is the one open; the image form is cleared either way. */
  function Toggled(s: Screen, collectionId: int): (r: Screen)
    ensures Valid(s) ==> Valid(r)
    ensures r.expandedCollectionId == (if s.expandedCollectionId == Some(collectionId) then None else Some(collectionId))
    ensures r.imageFormCollectionId == r.expandedCollectionId
    ensures r.imageForm == EmptyImageForm && r.editingImageId.None?
  {
    if s.expandedCollectionId == Some(collectionId) then
      ImageFormReset(s.(expandedCollectionId := None, imageFormCollectionId := None))
    else
      ImageFormReset(s.(expandedCollectionId := Some(collectionId), imageFormCollectionId := Some(collectionId)))
  }

  /** `startEditImage`: open the image's collection and load the image into
      the form, with "" for null texts and 0 for a null order index. */
  function ImageEditStarted(s: Screen, collectionId: int, image: ClientImage): (r: Screen)
    ensures Valid(s) ==> Valid(r)
    ensures r.expandedCollectionId == Some(collectionId) && r.imageFormCollectionId == Some(collectionId)
    ensures r.editingImageId == Some(image.id)
    ensures r.imageForm == ImageForm(OrEmpty(image.imageUrl), OrEmpty(image.title), OrEmpty(image.description),
                                     image.orderIndex.GetOr(0))
  {
    s.(imageFormCollectionId := Some(collectionId), expandedCollectionId := Some(collectionId),
       editingImageId := Some(image.id),
       imageForm := ImageForm(OrEmpty(image.imageUrl), OrEmpty(image.title), OrEmpty(image.description),
                              image.orderIndex.GetOr(0)))
  }

  /** `handleCollectionSubmit`. */
  function CollectionSubmitted(s: Screen, saved: bool, reload: Option<seq<ClientCollection>>): (r: Step)
    ensures Valid(s) ==> Valid(r.screen)
    ensures !Truthy(s.selectedCardId) ==> r == Step(s, None)
  {
    if !Truthy(s.selectedCardId) then Step(s, None)
    else
      match CollectionRequestOf(s.selectedCardId.value, s.editingCollectionId, s.collectionForm)
      case None => Step(s.(collectionsError := Some(NameRequired)), None)
      case Some(request) =>
        if saved then Step(CollectionFormReset(Fetched(s, reload)).(collectionsError := None), Some(request))
        else Step(s.(collectionsError := Some(if Truthy(s.editingCollectionId) then UpdateCollectionFailed
                                              else CreateCollectionFailed)), Some(request))
  }

  /** The request the collection form sends for the selected card: a PUT to
      the collection being edited, else a POST, with the trimmed payload;
      nothing when the name is blank. */
  function CollectionRequestOf(cardId: int, editing: Option<int>, form: CollectionForm): (r: Option<Request>)
    ensures r.None? <==> forall i :: 0 <= i < |form.name| ==> JsWhitespace(form.name[i])
    ensures r.Some? ==> (r.value.PutCollection? <==> Truthy(editing)) && (r.value.PutCollection? || r.value.PostCollection?)
    ensures r.Some? && r.value.PutCollection? ==> r.value.collectionId == editing.value
    ensures r.Some? ==> r.value.collection == CollectionPayloadOf(cardId, form).value
  {
    match CollectionPayloadOf(cardId, form)
    case None => None
    case Some(p) => Some(if Truthy(editing) then PutCollection(editing.value, p) else PostCollection(cardId, p))
  }

  /** `handleDeleteCollection`: after confirmation, delete it, close it if it
      was open, and reload. */
  function CollectionDeleted(s: Screen, collectionId: int, confirmed: bool, deleted: bool,
                             reload: Option<seq<ClientCollection>>): (r: Step)
    ensures Valid(s) ==> Valid(r.screen)
    ensures !Truthy(s.selectedCardId) || !confirmed ==> r == Step(s, None)
    ensures Truthy(s.selectedCardId) && confirmed ==> r.sent == Some(DeleteCollection(collectionId))
  {
    if !Truthy(s.selectedCardId) || !confirmed then Step(s, None)
    else if deleted then
      var t := if s.expandedCollectionId == Some(collectionId)
               then s.(expandedCollectionId := None, imageFormCollectionId := None)
               else s;
      Step(Fetched(t, reload), Some(DeleteCollection(collectionId)))
    else Step(s.(collectionsError := Some(DeleteCollectionFailed)), Some(DeleteCollection(collectionId)))
  }

  /** `handleImageSubmit`. */
  function ImageSubmitted(s: Screen, saved: bool, reload: Option<seq<ClientCollection>>): (r: Step)
    ensures Valid(s) ==> Valid(r.screen)
    ensures !Truthy(s.imageFormCollectionId) ==> r == Step(s, None)
  {
    if !Truthy(s.imageFormCollectionId) then Step(s, None)
    else
      var collectionId := s.imageFormCollectionId.value;
      match ImagePayloadOf(collectionId, s.imageForm)
      case None => Step(s.(collectionsError := Some(UrlRequired)), None)
      case Some(p) =>
        var editing := Truthy(s.editingImageId);
        var request := if editing then PutImage(s.editingImageId.value, p) else PostImage(collectionId, p);
        if saved then
          var t := if Truthy(s.selectedCardId) then Fetched(s, reload) else s;
          Step(ImageFormReset(t).(collectionsError := None), Some(request))
        else Step(s.(collectionsError := Some(if editing then UpdateImageFailed else AddImageFailed)), Some(request))
  }

  /** `handleDeleteImage`: after confirmation, delete it, reload, and clear
      the form if it was editing this image. */
  function ImageDeleted(s: Screen, imageId: int, confirmed: bool, deleted: bool,
                        reload: Option<seq<ClientCollection>>): (r: Step)
    ensures Valid(s) ==> Valid(r.screen)
    ensures !confirmed ==> r == Step(s, None)
    ensures confirmed ==> r.sent == Some(DeleteImage(imageId))
  {
    if !confirmed then Step(s, None)
    else if deleted then
      var t := if Truthy(s.selectedCardId) then Fetched(s, reload) else s;
      Step(if s.editingImageId == Some(imageId) then ImageFormReset(t) else t, Some(DeleteImage(imageId)))
    else Step(s.(collectionsError := Some(DeleteImageFailed)), Some(DeleteImage(imageId)))
  }

  /** Opening a closed gallery and toggling it again closes it and clears
      the image form; nothing else on the screen changes. */
  lemma ToggleTwiceCloses(s: Screen, collectionId: int)
    requires s.expandedCollectionId != Some(collectionId)
    ensures Toggled(Toggled(s, collectionId), collectionId)
            == s.(expandedCollectionId := None, imageFormCollectionId := None,
                  imageForm := EmptyImageForm, editingImageId := None)
  {
  }

  /** Deleting the open collection closes its gallery and its image form. */
  lemma DeletingOpenCollectionCloses(s: Screen, collectionId: int, reload: Option<seq<ClientCollection>>)
    requires Truthy(s.selectedCardId) && s.expandedCollectionId == Some(collectionId)
    ensures var r := CollectionDeleted(s, collectionId, true, true, reload);
            r.sent == Some(DeleteCollection(collectionId)) &&
            r.screen.expandedCollectionId.None? && r.screen.imageFormCollectionId.None?
  {
  }

  /** A collection is sent only with a trimmed, non-blank name: a blank name
      sends nothing and only raises the "name is required" message. */
  lemma {:induction false} BlankNameSendsNothing(s: Screen, saved: bool, reload: Option<seq<ClientCollection>>)
    requires Truthy(s.selectedCardId)
    requires forall i :: 0 <= i < |s.collectionForm.name| ==> JsWhitespace(s.collectionForm.name[i])
    ensures CollectionSubmitted(s, saved, reload) == Step(s.(collectionsError := Some(NameRequired)), None)
  {
    assert CollectionPayloadOf(s.selectedCardId.value, s.collectionForm).None?;
  }

  /** An image is sent only with a non-blank URL: a blank one sends nothing
      and only raises the "URL is required" message. */
  lemma BlankUrlSendsNothing(s: Screen, saved: bool, reload: Option<seq<ClientCollection>>)
    requires Truthy(s.imageFormCollectionId)
    requires forall i :: 0 <= i < |s.imageForm.imageUrl| ==> JsWhitespace(s.imageForm.imageUrl[i])
    ensures ImageSubmitted(s, saved, reload) == Step(s.(collectionsError := Some(UrlRequired)), None)
  {
    assert ImagePayloadOf(s.imageFormCollectionId.value, s.imageForm).None?;
  }

  /** A saved image empties the image form and clears the message; with a
      card selected the collections are reloaded, whatever the reload gives. */
  lemma SavedImageResetsForm(s: Screen, reload: Option<seq<ClientCollection>>)
    requires Truthy(s.imageFormCollectionId)
    requires !forall i :: 0 <= i < |s.imageForm.imageUrl| ==> JsWhitespace(s.imageForm.imageUrl[i])
    ensures var r := ImageSubmitted(s, true, reload);
            r.sent.Some? && (r.sent.value.PutImage? <==> Truthy(s.editingImageId)) &&
            r.screen.imageForm == EmptyImageForm && r.screen.editingImageId.None? &&
            r.screen.collectionsError.None? &&
            r.screen.collections == (if Truthy(s.selectedCardId) then (if reload.Some? then reload.value else []) else s.collections)
  {
    assert ImagePayloadOf(s.imageFormCollectionId.value, s.imageForm).Some?;
  }

  /** A saved collection hides and empties the form, clears the message and
      shows the reloaded list, or no list when the reload fails. */
  lemma SavedCollectionReloads(s: Screen, reload: Option<seq<ClientCollection>>)
    requires Truthy(s.selectedCardId)
    requires !forall i :: 0 <= i < |s.collectionForm.name| ==> JsWhitespace(s.collectionForm.name[i])
    ensures var r := CollectionSubmitted(s, true, reload);
            r.sent.Some? && !r.screen.collectionFormVisible &&
            r.screen.collectionForm == EmptyCollectionForm && r.screen.editingCollectionId.None? &&
            r.screen.collectionsError.None? &&
            r.screen.collections == (if reload.Some? then reload.value else [])
  {
    SubmittedSends(s, true, reload);
  }

  /** Whatever collection request the screen sends carries the selected
      card, a name with no whitespace at either end, and goes to PUT exactly
      when a collection is being edited. */
  lemma SentCollectionIsTrimmed(s: Screen, saved: bool, reload: Option<seq<ClientCollection>>)
    requires CollectionSubmitted(s, saved, reload).sent.Some?
    ensures var req := CollectionSubmitted(s, saved, reload).sent.value;
            var p := req.collection;
            (req.PutCollection? || req.PostCollection?) &&
            (req.PutCollection? <==> Truthy(s.editingCollectionId)) &&
            Some(p.cardId) == s.selectedCardId && p.name == JsTrim(s.collectionForm.name) && Trimmed(p.name)
  {
    assert Truthy(s.selectedCardId);
    SubmittedSends(s, saved, reload);
  }

  /** With a card selected, the submission sends the form's request, if
      any, whether or not the save then succeeds. */
  lemma SubmittedSends(s: Screen, saved: bool, reload: Option<seq<ClientCollection>>)
    requires Truthy(s.selectedCardId)
    ensures CollectionSubmitted(s, saved, reload).sent == CollectionRequestOf(s.selectedCardId.value, s.editingCollectionId, s.collectionForm)
  {
  }

  /** A failed save keeps the form as typed, so it can be submitted again. */
  lemma FailedSaveKeepsForm(s: Screen, reload: Option<seq<ClientCollection>>)
    requires CollectionSubmitted(s, false, reload).sent.Some?
    ensures var r := CollectionSubmitted(s, false, reload).screen;
            r.collectionForm == s.collectionForm && r.editingCollectionId == s.editingCollectionId &&
            r.collectionFormVisible == s.collectionFormVisible && r.collections == s.collections &&
            r.collectionsError == Some(if Truthy(s.editingCollectionId) then UpdateCollectionFailed else CreateCollectionFailed)
  {
  }

  /** A save that succeeds but whose reload fails leaves an empty list and no
      error message: the reload's message is cleared right after it is set. */
  lemma SavedButReloadFailedShowsNoError(s: Screen)
    requires CollectionSubmitted(s, true, None).sent.Some?
    ensures var r := CollectionSubmitted(s, true, None).screen;
            r.collections == [] && r.collectionsError.None? && !r.collectionFormVisible
  {
  }

  /** Opening a stored collection for editing and submitting it untouched
      sends a PUT with exactly its stored values, when those are trimmed. */
  lemma {:induction false} EditUntouchedResubmits(s: Screen, c: ClientCollection, reload: Option<seq<ClientCollection>>)
    requires Truthy(s.selectedCardId) && c.id != 0
    requires c.name != [] && JsTrim(c.name) == c.name && JsTrim(OrEmpty(c.description)) == OrEmpty(c.description)
    ensures CollectionSubmitted(EditOpened(s, c), true, reload).sent
            == Some(PutCollection(c.id, CollectionPayload(s.selectedCardId.value, c.name, OrEmpty(c.description))))
  {
    var t := EditOpened(s, c);
    assert t.collectionForm == CollectionForm(c.name, OrEmpty(c.description));
    assert CollectionPayloadOf(s.selectedCardId.value, t.collectionForm)
           == Some(CollectionPayload(s.selectedCardId.value, c.name, OrEmpty(c.description)));
  }

  /** Starting to edit a stored image and submitting it untouched sends a PUT
      with exactly its stored values, when those are trimmed. */
  lemma {:induction false} ImageEditUntouchedResubmits(s: Screen, collectionId: int, image: ClientImage,
                                                       reload: Option<seq<ClientCollection>>)
    requires collectionId != 0 && image.id != 0
    requires OrEmpty(image.imageUrl) != [] && JsTrim(OrEmpty(image.imageUrl)) == OrEmpty(image.imageUrl)
    requires JsTrim(OrEmpty(image.title)) == OrEmpty(image.title)
    requires JsTrim(OrEmpty(image.description)) == OrEmpty(image.description)
    ensures ImageSubmitted(ImageEditStarted(s, collectionId, image), true, reload).sent
            == Some(PutImage(image.id, ImagePayload(collectionId, OrEmpty(image.imageUrl), OrEmpty(image.title),
                                                    OrEmpty(image.description), image.orderIndex.GetOr(0))))
  {
    var t := ImageEditStarted(s, collectionId, image);
    assert ImagePayloadOf(collectionId, t.imageForm)
           == Some(ImagePayload(collectionId, OrEmpty(image.imageUrl), OrEmpty(image.title),
                                OrEmpty(image.description), image.orderIndex.GetOr(0)));
  }

  /** Deleting the image being edited clears the image form. */
  lemma DeletingEditedImageClearsForm(s: Screen, imageId: int, reload: Option<seq<ClientCollection>>)
    requires s.editingImageId == Some(imageId)
    ensures var r := ImageDeleted(s, imageId, true, true, reload);
            r.sent == Some(DeleteImage(imageId)) && r.screen.imageForm == EmptyImageForm && r.screen.editingImageId.None?
  {
  }

  /** The component: one field per state variable, one method per handler. */
  class GalleryManager {
    const uploadBase: string
    var cards: seq<CardMapping.CardDto>
    var cardsError: Option<string>
    var selectedCardId: Option<int>
    var collections: seq<ClientCollection>
    var collectionsError: Option<string>
    var collectionForm: CollectionForm
    var collectionFormVisible: bool
    var editingCollectionId: Option<int>
    var expandedCollectionId: Option<int>
    var imageFormCollectionId: Option<int>
    var imageForm: ImageForm
    var editingImageId: Option<int>

    function Snapshot(): Screen
      reads this
    {
      Screen(cards, cardsError, selectedCardId, collections, collectionsError, collectionForm,
             collectionFormVisible, editingCollectionId, expandedCollectionId, imageFormCollectionId,
             imageForm, editingImageId)
    }

    constructor(uploadBase: string)
      ensures Snapshot() == Initial() && this.uploadBase == uploadBase
    {
      this.uploadBase := uploadBase;
      cards := [];
      cardsError := None;
      selectedCardId := None;
      collections := [];
      collectionsError := None;
      collectionForm := EmptyCollectionForm;
      collectionFormVisible := false;
      editingCollectionId := None;
      expandedCollectionId := None;
      imageFormCollectionId := None;
      imageForm := EmptyImageForm;
      editingImageId := None;
    }

    /** The image URL shown for an image, under this screen's upload base. */
    function ImageSource(image: ClientImage): (r: string)
      reads this
      ensures r == [] <==> OrEmpty(image.imageUrl) == []
    {
      ResolveImageUrl(image.imageUrl, uploadBase)
    }

    method LoadCards(response: Option<seq<CardMapping.CardDto>>)
      modifies this
      ensures Snapshot() == CardsLoaded(old(Snapshot()), response)
    {
      if response.Some? {
        cards := response.value;
        cardsError := None;
      } else {
        cardsError := Some(CardsFailed);
      }
    }

    method FetchCollections(response: Option<seq<ClientCollection>>)
      modifies this
      ensures Snapshot() == Fetched(old(Snapshot()), response)
    {
      if response.Some? {
        collections := response.value;
        collectionsError := None;
      } else {
        collections := [];
        collectionsError := Some(CollectionsFailed);
      }
    }

    method SelectCard(value: Option<int>, response: Option<seq<ClientCollection>>)
      modifies this
      ensures Snapshot() == CardSelected(old(Snapshot()), value, response)
    {
      if value == selectedCardId {
        return;
      }
      selectedCardId := value;
      if !Truthy(value) {
        collections := [];
        return;
      }
      FetchCollections(response);
    }

    method ResetCollectionForm()
      modifies this
      ensures Snapshot() == CollectionFormReset(old(Snapshot()))
    {
      collectionForm := EmptyCollectionForm;
      editingCollectionId := None;
      collectionFormVisible := false;
    }

    method OpenCreateCollection()
      modifies this
      ensures Snapshot() == CreateOpened(old(Snapshot()))
    {
      collectionFormVisible := true;
      editingCollectionId := None;
      collectionForm := EmptyCollectionForm;
    }

    method OpenEditCollection(c: ClientCollection)
      modifies this
      ensures Snapshot() == EditOpened(old(Snapshot()), c)
    {
      collectionFormVisible := true;
      editingCollectionId := Some(c.id);
      collectionForm := CollectionForm(c.name, OrEmpty(c.description));
    }

    method TypeCollectionForm(form: CollectionForm)
      requires collectionFormVisible
      modifies this
      ensures Snapshot() == CollectionTyped(old(Snapshot()), form)
    {
      collectionForm := form;
    }

    method ResetImageForm()
      modifies this
      ensures Snapshot() == ImageFormReset(old(Snapshot()))
    {
      imageForm := EmptyImageForm;
      editingImageId := None;
    }

    method TypeImageForm(form: ImageForm)
      modifies this
      ensures Snapshot() == ImageTyped(old(Snapshot()), form)
    {
      imageForm := form;
    }

    method ToggleCollection(collectionId: int)
      modifies this
      ensures Snapshot() == Toggled(old(Snapshot()), collectionId)
    {
      if expandedCollectionId == Some(collectionId) {
        expandedCollectionId := None;
        imageFormCollectionId := None;
        ResetImageForm();
        return;
      }
      expandedCollectionId := Some(collectionId);
      imageFormCollectionId := Some(collectionId);
      ResetImageForm();
    }

    method StartEditImage(collectionId: int, image: ClientImage)
      modifies this
      ensures Snapshot() == ImageEditStarted(old(Snapshot()), collectionId, image)
    {
      imageFormCollectionId := Some(collectionId);
      expandedCollectionId := Some(collectionId);
      editingImageId := Some(image.id);
      imageForm := ImageForm(OrEmpty(image.imageUrl), OrEmpty(image.title), OrEmpty(image.description),
                             image.orderIndex.GetOr(0));
    }

    method SubmitCollection(saved: bool, reload: Option<seq<ClientCollection>>) returns (sent: Option<Request>)
      modifies this
      ensures Step(Snapshot(), sent) == CollectionSubmitted(old(Snapshot()), saved, reload)
    {
      ghost var s0 := Snapshot();
      sent := None;
      if !Truthy(selectedCardId) {
        return;
      }
      var cardId := selectedCardId.value;
      var payload := CollectionPayloadOf(cardId, collectionForm);
      if payload.None? {
        collectionsError := Some(NameRequired);
        return;
      }
      var editing := Truthy(editingCollectionId);
      if editing {
        sent := Some(PutCollection(editingCollectionId.value, payload.value));
      } else {
        sent := Some(PostCollection(cardId, payload.value));
      }
      ghost var expected := CollectionSubmitted(s0, saved, reload);
      assert expected.sent == sent;
      if saved {
        FetchCollections(reload);
        ResetCollectionForm();
        collectionsError := None;
        assert expected.screen == CollectionFormReset(Fetched(s0, reload)).(collectionsError := None);
      } else {
        collectionsError := Some(if editing then UpdateCollectionFailed else CreateCollectionFailed);
        assert expected.screen == s0.(collectionsError := collectionsError);
      }
    }

    method DeleteCollectionClicked(collectionId: int, confirmed: bool, deleted: bool,
                                   reload: Option<seq<ClientCollection>>) returns (sent: Option<Request>)
      modifies this
      ensures Step(Snapshot(), sent) == CollectionDeleted(old(Snapshot()), collectionId, confirmed, deleted, reload)
    {
      sent := None;
      if !Truthy(selectedCardId) || !confirmed {
        return;
      }
      sent := Some(DeleteCollection(collectionId));
      if deleted {
        if expandedCollectionId == Some(collectionId) {
          expandedCollectionId := None;
          imageFormCollectionId := None;
        }
        FetchCollections(reload);
      } else {
        collectionsError := Some(DeleteCollectionFailed);
      }
    }

    /** `setCollectionsError`. */
    method SetCollectionsError(error: Option<string>)
      modifies this
      ensures Snapshot() == old(Snapshot()).(collectionsError := error)
    {
      collectionsError := error;
    }

    method SubmitImage(saved: bool, reload: Option<seq<ClientCollection>>) returns (sent: Option<Request>)
      modifies this
      ensures Step(Snapshot(), sent) == ImageSubmitted(old(Snapshot()), saved, reload)
    {
      ghost var s0 := Snapshot();
      sent := None;
      if !Truthy(imageFormCollectionId) {
        return;
      }
      var collectionId := imageFormCollectionId.value;
      var payload := ImagePayloadOf(collectionId, imageForm);
      if payload.None? {
        SetCollectionsError(Some(UrlRequired));
        return;
      }
      var editing := Truthy(editingImageId);
      if editing {
        sent := Some(PutImage(editingImageId.value, payload.value));
      } else {
        sent := Some(PostImage(collectionId, payload.value));
      }
      ghost var expected := ImageSubmitted(s0, saved, reload);
      assert expected.sent == sent;
      if saved {
        ghost var t := if Truthy(selectedCardId) then Fetched(s0, reload) else s0;
        if Truthy(selectedCardId) {
          FetchCollections(reload);
        }
        ResetImageForm();
        SetCollectionsError(None);
        assert expected.screen == ImageFormReset(t).(collectionsError := None);
      } else {
        SetCollectionsError(Some(if editing then UpdateImageFailed else AddImageFailed));
        assert expected.screen == s0.(collectionsError := Some(if editing then UpdateImageFailed else AddImageFailed));
      }
    }

    method DeleteImageClicked(imageId: int, confirmed: bool, deleted: bool,
                              reload: Option<seq<ClientCollection>>) returns (sent: Option<Request>)
      modifies this
      ensures Step(Snapshot(), sent) == ImageDeleted(old(Snapshot()), imageId, confirmed, deleted, reload)
    {
      sent := None;
      if !confirmed {
        return;
      }
      sent := Some(DeleteImage(imageId));
      if deleted {
        var editing := editingImageId;
        if Truthy(selectedCardId) {
          FetchCollections(reload);
        }
        if editing == Some(imageId) {
          ResetImageForm();
        }
      } else {
        collectionsError := Some(DeleteImageFailed);
      }
    }
  }
}
