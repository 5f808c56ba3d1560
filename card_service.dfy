/** The card catalogue service (`CardService`): listing, lookup, creation,
    update with an optional image upload, and soft deletion. The card
    repository is the `cards` table of the class; the calls into the upload
    store are recorded, in order, in `fileOps`. */
module CardServices {
  import opened Wrappers
  import opened Text
  import opened Entities
  import opened CardMapping
  import opened FileStorage
  import opened Ordering
  import opened Seqs

  /** A multipart upload: its original file name and its size in bytes. */
  datatype Upload = Upload(originalName: string, size: nat)

  /** A call made into the upload store. */
  datatype FileOp = Deleted(url: string) | Stored(url: string)

  /** `hasFile`: a part was sent and it is not empty. */
  predicate HasFile(file: Option<Upload>)
  {
    file.Some? && file.value.size > 0
  }

  /** No id names two stored cards. */
  predicate UniqueIds(cards: seq<Card>)
  {
    forall i, j :: 0 <= i < j < |cards| ==> cards[i].id != cards[j].id
  }

  /** Every stored card has an id, below `nextId`, and no id is used twice. */
  predicate WellFormedTable(cards: seq<Card>, nextId: int)
  {
    (forall i :: 0 <= i < |cards| ==> cards[i].id.Some? && cards[i].id.value < nextId) &&
    UniqueIds(cards)
  }

  /** `findById`: the position of the card with this id, if any. */
  function IndexOfId(cards: seq<Card>, id: int): (k: int)
    ensures -1 <= k < |cards|
    ensures k >= 0 ==> cards[k].id == Some(id)
    ensures k < 0 ==> forall i :: 0 <= i < |cards| ==> cards[i].id != Some(id)
  {
    if cards == [] then -1
    else if cards[|cards| - 1].id == Some(id) then |cards| - 1
    else IndexOfId(cards[..|cards| - 1], id)
  }

  /** `getActiveCard`: a card that is missing or inactive is not found. */
  function ActiveCard(cards: seq<Card>, id: int): (r: Result<Card>)
    requires UniqueIds(cards)
    ensures r.Ok? <==> exists i :: 0 <= i < |cards| && cards[i].id == Some(id) && cards[i].isActive
    ensures r.Err? ==> r.error == ResourceNotFound("Card", id)
    ensures r.Ok? ==> r.value in cards && r.value.id == Some(id) && r.value.isActive
  {
    var k := IndexOfId(cards, id);
    if k < 0 || !cards[k].isActive then Err(ResourceNotFound("Card", id)) else Ok(cards[k])
  }

  predicate IsActive(c: Card)
  {
    c.isActive
  }

  predicate NameLe(a: Card, b: Card)
  {
    LexLe(a.name, b.name)
  }

  lemma NameLeTotalPreorder()
    ensures TotalPreorder(NameLe)
  {
    forall a: Card, b: Card ensures NameLe(a, b) || NameLe(b, a) {
      LexLeTotal(a.name, b.name);
    }
    forall a: Card, b: Card, c: Card | NameLe(a, b) && NameLe(b, c) ensures NameLe(a, c) {
      LexLeTransitive(a.name, b.name, c.name);
    }
  }

  /** `findAllByIsActiveTrueOrderByNameAsc`. */
  function ActiveByName(cards: seq<Card>): seq<Card>
  {
    SortBy(Filter(cards, IsActive), NameLe)
  }

  /** The catalogue listing holds exactly the active cards, each once, in
      ascending name order. */
  lemma ActiveByNameSpec(cards: seq<Card>)
    ensures multiset(ActiveByName(cards)) == multiset(Filter(cards, IsActive))
    ensures forall i :: 0 <= i < |ActiveByName(cards)| ==> ActiveByName(cards)[i].isActive
    ensures forall i, j :: 0 <= i < j < |ActiveByName(cards)| ==>
              LexLe(ActiveByName(cards)[i].name, ActiveByName(cards)[j].name)
  {
    var f := Filter(cards, IsActive);
    NameLeTotalPreorder();
    SortBySorted(f, NameLe);
    forall i | 0 <= i < |ActiveByName(cards)| ensures ActiveByName(cards)[i].isActive {
      assert ActiveByName(cards)[i] in multiset(f);
    }
  }

  /** `findByRarityAndIsActiveTrue`: the active cards of one rarity, in
      table order. */
  function ActiveOfRarity(cards: seq<Card>, rarity: Rarity): seq<Card>
  {
    Filter(cards, (c: Card) => c.isActive && c.rarity == rarity)
  }

  /** The query returns exactly the stored active cards of the rarity. */
  lemma ActiveOfRarityMembers(cards: seq<Card>, rarity: Rarity)
    ensures forall c :: c in ActiveOfRarity(cards, rarity) <==> c in cards && c.isActive && c.rarity == rarity
  {
    var found := ActiveOfRarity(cards, rarity);
    forall c | c in found ensures c in cards && c.isActive && c.rarity == rarity {
      var i :| 0 <= i < |found| && found[i] == c;
    }
    forall c | c in cards && c.isActive && c.rarity == rarity ensures c in found {
      var i :| 0 <= i < |cards| && cards[i] == c;
    }
  }

  /** `findByElementAndIsActiveTrue`. */
  function ActiveOfElement(cards: seq<Card>, element: Element): seq<Card>
  {
    Filter(cards, (c: Card) => c.isActive && c.element == element)
  }

  /** The query returns exactly the stored active cards of the element. */
  lemma ActiveOfElementMembers(cards: seq<Card>, element: Element)
    ensures forall c :: c in ActiveOfElement(cards, element) <==> c in cards && c.isActive && c.element == element
  {
    var found := ActiveOfElement(cards, element);
    forall c | c in found ensures c in cards && c.isActive && c.element == element {
      var i :| 0 <= i < |found| && found[i] == c;
    }
    forall c | c in cards && c.isActive && c.element == element ensures c in found {
      var i :| 0 <= i < |cards| && cards[i] == c;
    }
  }

  /** `dto` is the DTO of a stored active card of the rarity. */
  predicate ListedOfRarity(cards: seq<Card>, rarity: Rarity, dto: CardDto)
  {
    exists c :: c in cards && c.isActive && c.rarity == rarity && dto == ToDto(c)
  }

  /** Every active card of the rarity is listed, and every card listed is a
      stored active card of that rarity. */
  lemma RarityListing(cards: seq<Card>, rarity: Rarity)
    ensures var r := DtoList(ActiveOfRarity(cards, rarity));
      (forall c :: c in cards && c.isActive && c.rarity == rarity ==> ToDto(c) in r) &&
      (forall i :: 0 <= i < |r| ==> ListedOfRarity(cards, rarity, r[i])) &&
      (forall i :: 0 <= i < |r| ==> r[i].rarity == Some(RarityName(rarity)))
  {
    var found := ActiveOfRarity(cards, rarity);
    var r := DtoList(found);
    forall i | 0 <= i < |r| ensures ListedOfRarity(cards, rarity, r[i]) {
      assert found[i] in cards && found[i].isActive && found[i].rarity == rarity;
    }
    forall c | c in cards && c.isActive && c.rarity == rarity ensures ToDto(c) in r {
      var k :| 0 <= k < |cards| && cards[k] == c;
      var m :| 0 <= m < |found| && found[m] == c;
      assert r[m] == ToDto(c);
    }
  }

  /** `dto` is the DTO of a stored active card of the element. */
  predicate ListedOfElement(cards: seq<Card>, element: Element, dto: CardDto)
  {
    exists c :: c in cards && c.isActive && c.element == element && dto == ToDto(c)
  }

  /** Every active card of the element is listed, and every card listed is a
      stored active card of that element. */
  lemma ElementListing(cards: seq<Card>, element: Element)
    ensures var r := DtoList(ActiveOfElement(cards, element));
      (forall c :: c in cards && c.isActive && c.element == element ==> ToDto(c) in r) &&
      (forall i :: 0 <= i < |r| ==> ListedOfElement(cards, element, r[i])) &&
      (forall i :: 0 <= i < |r| ==> r[i].element == Some(ElementName(element)))
  {
    var found := ActiveOfElement(cards, element);
    var r := DtoList(found);
    forall i | 0 <= i < |r| ensures ListedOfElement(cards, element, r[i]) {
      assert found[i] in cards && found[i].isActive && found[i].element == element;
    }
    forall c | c in cards && c.isActive && c.element == element ensures ToDto(c) in r {
      var k :| 0 <= k < |cards| && cards[k] == c;
      var m :| 0 <= m < |found| && found[m] == c;
      assert r[m] == ToDto(c);
    }
  }

  /** `findByUserId`: the user's ownership rows, in table order. */
  function RowsOfUser(userCards: seq<UserCard>, userId: int): seq<UserCard>
  {
    Filter(userCards, (uc: UserCard) => uc.userId == userId)
  }

  /** A user's rows name stored cards. */
  lemma UserRowsReferenced(cards: seq<Card>, userCards: seq<UserCard>, userId: int)
    requires Referenced(cards, userCards)
    ensures Referenced(cards, RowsOfUser(userCards, userId))
  {
    var rows := RowsOfUser(userCards, userId);
    RowsOfUserMembers(userCards, userId);
    forall j | 0 <= j < |rows| ensures IndexOfId(cards, rows[j].cardId) >= 0 {
      assert rows[j] in rows;
      var m :| 0 <= m < |userCards| && userCards[m] == rows[j];
    }
  }

  /** The user's rows are exactly the table's rows naming that user. */
  lemma RowsOfUserMembers(userCards: seq<UserCard>, userId: int)
    ensures forall uc :: uc in RowsOfUser(userCards, userId) ==> uc in userCards && uc.userId == userId
    ensures forall uc :: uc in userCards && uc.userId == userId ==> uc in RowsOfUser(userCards, userId)
  {
    var rows := RowsOfUser(userCards, userId);
    forall uc | uc in rows ensures uc in userCards && uc.userId == userId {
      var i :| 0 <= i < |rows| && rows[i] == uc;
    }
    forall uc | uc in userCards && uc.userId == userId ensures uc in rows {
      var i :| 0 <= i < |userCards| && userCards[i] == uc;
    }
  }

  /** Every ownership row names a stored card, as the foreign key demands. */
  predicate Referenced(cards: seq<Card>, userCards: seq<UserCard>)
  {
    forall i :: 0 <= i < |userCards| ==> IndexOfId(cards, userCards[i].cardId) >= 0
  }

  /** `map(UserCard::getCard).map(toDto)`: the card each row names, whether
      or not it is still active. */
  function OwnedCards(cards: seq<Card>, rows: seq<UserCard>): (r: seq<CardDto>)
    requires Referenced(cards, rows)
    ensures |r| == |rows|
    ensures forall i :: 0 <= i < |rows| ==>
      r[i].id == Some(rows[i].cardId) && r[i] == ToDto(cards[IndexOfId(cards, rows[i].cardId)])
  {
    seq(|rows|, i requires 0 <= i < |rows| => ToDto(cards[IndexOfId(cards, rows[i].cardId)]))
  }

  /** A soft-deleted card leaves the catalogue but stays in the collections
      of the players who own it. */
  lemma RetiredCardStaysOwned(cards: seq<Card>, userCards: seq<UserCard>, userId: int, id: int)
    requires UniqueIds(cards) && Referenced(cards, userCards)
    requires exists i :: 0 <= i < |userCards| && userCards[i].userId == userId && userCards[i].cardId == id
    ensures Referenced(SoftDeleted(cards, id), userCards)
    ensures exists d :: d in OwnedCards(SoftDeleted(cards, id), RowsOfUser(userCards, userId)) && d.id == Some(id)
    ensures forall d :: d in DtoList(ActiveByName(SoftDeleted(cards, id))) ==> d.id != Some(id)
  {
    SoftDeletedReferenced(cards, userCards, id);
    SoftDeletedStillOwned(cards, userCards, userId, id);
    SoftDeletedNotListed(cards, id);
  }

  /** Soft deletion keeps every row's card in the table. */
  lemma SoftDeletedReferenced(cards: seq<Card>, userCards: seq<UserCard>, id: int)
    requires UniqueIds(cards) && Referenced(cards, userCards)
    ensures Referenced(SoftDeleted(cards, id), userCards)
  {
    var r := SoftDeleted(cards, id);
    SoftDeleteHidesCard(cards, id);
    forall j | 0 <= j < |userCards| ensures IndexOfId(r, userCards[j].cardId) >= 0 {
      assert r[IndexOfId(cards, userCards[j].cardId)].id == Some(userCards[j].cardId);
    }
  }

  /** A retired card still shows in the collection of a user who owns it. */
  lemma SoftDeletedStillOwned(cards: seq<Card>, userCards: seq<UserCard>, userId: int, id: int)
    requires UniqueIds(cards) && Referenced(cards, userCards)
    requires exists i :: 0 <= i < |userCards| && userCards[i].userId == userId && userCards[i].cardId == id
    ensures exists d :: d in OwnedCards(SoftDeleted(cards, id), RowsOfUser(userCards, userId)) && d.id == Some(id)
  {
    var r := SoftDeleted(cards, id);
    SoftDeletedReferenced(cards, userCards, id);
    var i :| 0 <= i < |userCards| && userCards[i].userId == userId && userCards[i].cardId == id;
    var rows := RowsOfUser(userCards, userId);
    RowsOfUserMembers(userCards, userId);
    assert userCards[i] in userCards;
    var k :| 0 <= k < |rows| && rows[k] == userCards[i];
    assert Referenced(r, rows) by {
      forall j | 0 <= j < |rows| ensures IndexOfId(r, rows[j].cardId) >= 0 {
        assert rows[j] in rows;
        var m :| 0 <= m < |userCards| && userCards[m] == rows[j];
      }
    }
    assert OwnedCards(r, rows)[k].id == Some(id);
  }

  /** A retired card is not in the active listing. */
  lemma SoftDeletedNotListed(cards: seq<Card>, id: int)
    requires UniqueIds(cards)
    ensures forall d :: d in DtoList(ActiveByName(SoftDeleted(cards, id))) ==> d.id != Some(id)
  {
    var r := SoftDeleted(cards, id);
    SoftDeleteHidesCard(cards, id);
    var a := ActiveByName(r);
    ActiveByNameSpec(r);
    forall d | d in DtoList(a) ensures d.id != Some(id) {
      var m :| 0 <= m < |a| && DtoList(a)[m] == d;
      assert a[m] in multiset(Filter(r, IsActive));
      assert a[m] in Filter(r, IsActive);
    }
  }

  /** `deleteCard`'s effect on the table: the card stays, marked inactive. */
  function SoftDeleted(cards: seq<Card>, id: int): (r: seq<Card>)
    ensures |r| == |cards|
    ensures forall i :: 0 <= i < |cards| ==>
      r[i] == if cards[i].id == Some(id) then cards[i].(isActive := false) else cards[i]
  {
    seq(|cards|, i requires 0 <= i < |cards| =>
      if cards[i].id == Some(id) then cards[i].(isActive := false) else cards[i])
  }

  /** After a soft delete the card is still stored, every lookup of it fails
      with not-found, and every other card answers as before. */
  lemma SoftDeleteHidesCard(cards: seq<Card>, id: int)
    requires UniqueIds(cards)
    ensures UniqueIds(SoftDeleted(cards, id))
    ensures ActiveCard(SoftDeleted(cards, id), id) == Err(ResourceNotFound("Card", id))
    ensures IndexOfId(cards, id) >= 0 ==> IndexOfId(SoftDeleted(cards, id), id) >= 0
    ensures forall other :: other != id ==> ActiveCard(SoftDeleted(cards, id), other) == ActiveCard(cards, other)
  {
    var r := SoftDeleted(cards, id);
    assert forall i :: 0 <= i < |cards| ==> r[i].id == cards[i].id;
    if IndexOfId(cards, id) >= 0 {
      assert r[IndexOfId(cards, id)].id == Some(id);
    }
    forall other | other != id ensures ActiveCard(r, other) == ActiveCard(cards, other) {
      IndexOfIdSame(cards, r, other);
    }
  }

  lemma {:induction false} IndexOfIdSame(a: seq<Card>, b: seq<Card>, id: int)
    requires |a| == |b|
    requires forall i :: 0 <= i < |a| ==> (a[i].id == Some(id) <==> b[i].id == Some(id))
    requires forall i :: 0 <= i < |a| && a[i].id == Some(id) ==> a[i] == b[i]
    ensures IndexOfId(a, id) == IndexOfId(b, id)
    ensures IndexOfId(a, id) >= 0 ==> a[IndexOfId(a, id)] == b[IndexOfId(b, id)]
  {
    if a != [] && a[|a| - 1].id != Some(id) {
      IndexOfIdSame(a[..|a| - 1], b[..|b| - 1], id);
    }
  }

  /** Deleting a card twice: the second delete finds no active card. */
  lemma SecondDeleteFails(cards: seq<Card>, id: int)
    requires UniqueIds(cards)
    ensures UniqueIds(SoftDeleted(cards, id))
    ensures ActiveCard(SoftDeleted(cards, id), id).Err?
    ensures SoftDeleted(SoftDeleted(cards, id), id) == SoftDeleted(cards, id)
  {
    SoftDeleteHidesCard(cards, id);
  }

  /** The table with the card of the same id replaced. */
  function Replaced(cards: seq<Card>, c: Card): (r: seq<Card>)
    ensures |r| == |cards|
    ensures forall i :: 0 <= i < |cards| ==> r[i] == if cards[i].id == c.id then c else cards[i]
  {
    seq(|cards|, i requires 0 <= i < |cards| => if cards[i].id == c.id then c else cards[i])
  }

  /** `storeFile` of the service: the card's current file, if it names one,
      is deleted first; then the upload is stored under "cards". */
  function StoreCardFile(file: Upload, existing: Option<string>, uniqueName: string): (r: (seq<FileOp>, Result<string>))
    ensures r.1 == StoreFile(file.originalName, "cards", uniqueName)
    ensures r.1.Ok? ==> r.0 == (if existing.Some? then [Deleted(existing.value)] else []) + [Stored(r.1.value)]
    ensures r.1.Err? ==> r.0 == (if existing.Some? then [Deleted(existing.value)] else [])
  {
    var deletions := if existing.Some? then [Deleted(existing.value)] else [];
    match StoreFile(file.originalName, "cards", uniqueName)
    case Ok(url) => (deletions + [Stored(url)], Ok(url))
    case Err(e) => (deletions, Err(e))
  }

  /** `createCard` on values: the card to save under `nextId`, or the error,
      and the calls made into the upload store. */
  function CreateStep(nextId: int, dto: CardDto, file: Option<Upload>, uniqueName: string): (r: (Result<Card>, seq<FileOp>))
    ensures r.0.Err? <==>
      ToEntity(dto).Err? || (HasFile(file) && StoreFile(file.value.originalName, "cards", uniqueName).Err?)
    ensures ToEntity(dto).Err? ==> r.0 == Err(ToEntity(dto).error) && r.1 == []
    ensures r.0.Ok? ==>
      r.0.value.id == Some(nextId) && r.0.value.isActive &&
      r.0.value == ToEntity(dto).value.(id := Some(nextId), imageUrl := r.0.value.imageUrl)
    ensures r.0.Ok? && HasFile(file) ==>
      r.0.value.imageUrl == Some(StoreFile(file.value.originalName, "cards", uniqueName).value) &&
      r.1 == [Stored(r.0.value.imageUrl.value)]
    ensures r.0.Ok? && !HasFile(file) ==>
      r.0.value.imageUrl == MergedImageUrl(None, dto.imageUrl) && r.1 == []
  {
    match ToEntity(dto)
    case Err(e) => (Err(e), [])
    case Ok(card) =>
      if HasFile(file) then
        var (ops, stored) := StoreCardFile(file.value, None, uniqueName);
        if stored.Err? then (Err(stored.error), ops)
        else (Ok(card.(id := Some(nextId), imageUrl := Some(stored.value))), ops)
      else (Ok(card.(id := Some(nextId))), [])
  }

  /** `updateCard` on values: the active card overwritten from the DTO and,
      with a file, given the new upload's URL, or the error; and the calls
      made into the upload store. The file deleted is the URL the card holds
      after the overwrite. */
  function UpdateStep(cards: seq<Card>, id: int, dto: CardDto, file: Option<Upload>, uniqueName: string): (r: (Result<Card>, seq<FileOp>))
    requires UniqueIds(cards)
    ensures ActiveCard(cards, id).Err? ==> r == (Err(ResourceNotFound("Card", id)), [])
    ensures r.0.Ok? ==> ActiveCard(cards, id).Ok? && r.0.value.id == Some(id) && r.0.value.isActive
    ensures ActiveCard(cards, id).Ok? ==>
      var merged := UpdateEntity(ActiveCard(cards, id).value, dto);
      (merged.Err? ==> r == (Err(merged.error), [])) &&
      (merged.Ok? && !HasFile(file) ==> r == (Ok(merged.value), [])) &&
      (merged.Ok? && HasFile(file) ==>
        var step := StoreCardFile(file.value, merged.value.imageUrl, uniqueName);
        r.1 == step.0 &&
        (step.1.Err? ==> r.0 == Err(step.1.error)) &&
        (step.1.Ok? ==> r.0 == Ok(merged.value.(imageUrl := Some(step.1.value)))))
  {
    match ActiveCard(cards, id)
    case Err(e) => (Err(e), [])
    case Ok(found) =>
      match UpdateEntity(found, dto)
      case Err(e) => (Err(e), [])
      case Ok(card) =>
        if HasFile(file) then
          var (ops, stored) := StoreCardFile(file.value, card.imageUrl, uniqueName);
          if stored.Err? then (Err(stored.error), ops)
          else (Ok(card.(imageUrl := Some(stored.value))), ops)
        else (Ok(card), [])
  }

  /** A created card is the one lookups find under the new id, the table
      stays well formed, and every ownership row still names a stored card. */
  lemma CreatedCardFound(cards: seq<Card>, userCards: seq<UserCard>, nextId: int, c: Card)
    requires WellFormedTable(cards, nextId) && Referenced(cards, userCards)
    requires c.id == Some(nextId) && c.isActive
    ensures WellFormedTable(cards + [c], nextId + 1)
    ensures ActiveCard(cards + [c], nextId) == Ok(c)
    ensures Referenced(cards + [c], userCards)
  {
    var r := cards + [c];
    forall j | 0 <= j < |userCards| ensures IndexOfId(r, userCards[j].cardId) >= 0 {
      assert r[IndexOfId(cards, userCards[j].cardId)].id == Some(userCards[j].cardId);
    }
  }

  /** Saving an updated card keeps the table well formed; the card is then
      what lookups of its id find, and no other card changes. */
  lemma UpdatedCardFound(cards: seq<Card>, nextId: int, id: int, c: Card)
    requires WellFormedTable(cards, nextId)
    requires IndexOfId(cards, id) >= 0 && c.id == Some(id) && c.isActive
    ensures WellFormedTable(Replaced(cards, c), nextId)
    ensures ActiveCard(Replaced(cards, c), id) == Ok(c)
    ensures forall other :: other != id ==> ActiveCard(Replaced(cards, c), other) == ActiveCard(cards, other)
  {
    var r := Replaced(cards, c);
    assert forall i :: 0 <= i < |cards| ==> r[i].id == cards[i].id;
    assert r[IndexOfId(cards, id)] == c;
    forall other | other != id ensures ActiveCard(r, other) == ActiveCard(cards, other) {
      IndexOfIdSame(cards, r, other);
    }
  }

  /** `parseRarity` of the service: trimmed and upper-cased; an unknown name
      and null both fail with "Unsupported rarity: " and the raw text. */
  function ParseRarity(raw: Option<string>): (r: Result<Rarity>)
    ensures r.Ok? ==> raw.Some? && RarityName(r.value) == ToUpper(JavaTrim(raw.value))
    ensures raw.Some? ==> r == ParseRarityField(raw)
    ensures r.Err? ==> r.error == BadRequest("Unsupported rarity: " + raw.GetOr("null"))
  {
    if raw.None? then Err(BadRequest("Unsupported rarity: " + "null"))
    else match RarityValueOf(ToUpper(JavaTrim(raw.value)))
      case Some(v) => Ok(v)
      case None =>
        assert "Unsupported " + "rarity" + ": " + raw.value == "Unsupported rarity: " + raw.value;
        Err(BadRequest("Unsupported rarity: " + raw.value))
  }

  /** `parseElement` of the service, with the same rule for elements. */
  function ParseElement(raw: Option<string>): (r: Result<Element>)
    ensures r.Ok? ==> raw.Some? && ElementName(r.value) == ToUpper(JavaTrim(raw.value))
    ensures raw.Some? ==> r == ParseElementField(raw)
    ensures r.Err? ==> r.error == BadRequest("Unsupported element: " + raw.GetOr("null"))
  {
    if raw.None? then Err(BadRequest("Unsupported element: " + "null"))
    else match ElementValueOf(ToUpper(JavaTrim(raw.value)))
      case Some(v) => Ok(v)
      case None =>
        assert "Unsupported " + "element" + ": " + raw.value == "Unsupported element: " + raw.value;
        Err(BadRequest("Unsupported element: " + raw.value))
  }

  class CardService {
    var cards: seq<Card>
    var nextId: int
    var fileOps: seq<FileOp>
    /** The ownership table, which this service only reads. */
    const userCards: seq<UserCard>

    ghost predicate Valid()
      reads this
    {
      WellFormedTable(cards, nextId) && Referenced(cards, userCards)
    }

    constructor (cards: seq<Card>, userCards: seq<UserCard>, nextId: int)
      requires WellFormedTable(cards, nextId) && Referenced(cards, userCards)
      ensures Valid() && this.cards == cards && this.userCards == userCards && this.nextId == nextId
      ensures fileOps == []
    {
      this.cards := cards;
      this.userCards := userCards;
      this.nextId := nextId;
      fileOps := [];
    }

    /** `getUserCards`: the cards the user owns, one per ownership row. */
    function GetUserCards(userId: int): (r: seq<CardDto>)
      reads this
      requires Valid()
      ensures |r| == |RowsOfUser(userCards, userId)|
      ensures forall i :: 0 <= i < |r| ==>
        var row := RowsOfUser(userCards, userId)[i];
        row in userCards && row.userId == userId && r[i].id == Some(row.cardId) &&
        IndexOfId(cards, row.cardId) >= 0 && r[i] == ToDto(cards[IndexOfId(cards, row.cardId)])
    {
      UserRowsReferenced(cards, userCards, userId);
      RowsOfUserMembers(userCards, userId);
      var rows := RowsOfUser(userCards, userId);
      assert forall i :: 0 <= i < |rows| ==> rows[i] in rows;
      OwnedCards(cards, rows)
    }

    /** `getCardsByRarity`: the name parsed as `parseRarity` does, then the
        active cards of that rarity. */
    function GetCardsByRarity(raw: Option<string>): (r: Result<seq<CardDto>>)
      reads this
      ensures r.Err? <==> ParseRarity(raw).Err?
      ensures r.Err? ==> r.error == ParseRarity(raw).error
      ensures r.Ok? ==> forall c :: c in cards && c.isActive && c.rarity == ParseRarity(raw).value ==> ToDto(c) in r.value
      ensures r.Ok? ==> forall i :: 0 <= i < |r.value| ==> r.value[i].rarity == Some(RarityName(ParseRarity(raw).value))
      ensures r.Ok? ==> forall i :: 0 <= i < |r.value| ==> ListedOfRarity(cards, ParseRarity(raw).value, r.value[i])
      ensures r.Ok? ==> r.value == DtoList(ActiveOfRarity(cards, ParseRarity(raw).value))
    {
      match ParseRarity(raw)
      case Err(e) => Err(e)
      case Ok(rarity) =>
        RarityListing(cards, rarity);
        Ok(DtoList(ActiveOfRarity(cards, rarity)))
    }

    /** `getCardsByElement`: the same for elements. */
    function GetCardsByElement(raw: Option<string>): (r: Result<seq<CardDto>>)
      reads this
      ensures r.Err? <==> ParseElement(raw).Err?
      ensures r.Err? ==> r.error == ParseElement(raw).error
      ensures r.Ok? ==> forall c :: c in cards && c.isActive && c.element == ParseElement(raw).value ==> ToDto(c) in r.value
      ensures r.Ok? ==> forall i :: 0 <= i < |r.value| ==> r.value[i].element == Some(ElementName(ParseElement(raw).value))
      ensures r.Ok? ==> forall i :: 0 <= i < |r.value| ==> ListedOfElement(cards, ParseElement(raw).value, r.value[i])
      ensures r.Ok? ==> r.value == DtoList(ActiveOfElement(cards, ParseElement(raw).value))
    {
      match ParseElement(raw)
      case Err(e) => Err(e)
      case Ok(element) =>
        ElementListing(cards, element);
        Ok(DtoList(ActiveOfElement(cards, element)))
    }

    /** `getAllCards`: the active cards in name order, as DTOs. */
    function GetAllCards(): (r: seq<CardDto>)
      reads this
      ensures |r| == |ActiveByName(cards)|
      ensures forall i :: 0 <= i < |r| ==> r[i] == ToDto(ActiveByName(cards)[i])
    {
      DtoList(ActiveByName(cards))
    }

    /** `getCard`: the DTO of the active card with this id. */
    function GetCard(id: int): (r: Result<CardDto>)
      reads this
      requires UniqueIds(cards)
      ensures r.Ok? <==> ActiveCard(cards, id).Ok?
      ensures r.Ok? ==> r.value == ToDto(ActiveCard(cards, id).value)
      ensures r.Err? ==> r.error == ResourceNotFound("Card", id)
    {
      match ActiveCard(cards, id)
      case Ok(c) => Ok(ToDto(c))
      case Err(e) => Err(e)
    }

    /** `createCard`: the card is saved under a fresh id only when mapping and
        storing succeed. */
    method CreateCard(dto: CardDto, file: Option<Upload>, uniqueName: string) returns (r: Result<CardDto>)
      requires Valid()
      modifies this
      ensures Valid()
      ensures var step := CreateStep(old(nextId), dto, file, uniqueName);
        fileOps == old(fileOps) + step.1 &&
        (step.0.Err? ==> r == Err(step.0.error) && cards == old(cards) && nextId == old(nextId)) &&
        (step.0.Ok? ==> r == Ok(ToDto(step.0.value)) && cards == old(cards) + [step.0.value])
    {
      var step := CreateStep(nextId, dto, file, uniqueName);
      fileOps := fileOps + step.1;
      if step.0.Err? {
        return Err(step.0.error);
      }
      SaveNew(step.0.value);
      r := Ok(ToDto(step.0.value));
    }

    /** `cardRepository.save` of a new card: it takes the next id. */
    method SaveNew(c: Card)
      requires Valid() && c.id == Some(nextId) && c.isActive
      modifies this`cards, this`nextId
      ensures Valid() && cards == old(cards) + [c] && nextId == old(nextId) + 1
    {
      CreatedCardFound(cards, userCards, nextId, c);
      cards := cards + [c];
      nextId := nextId + 1;
    }

    /** `updateCard`: a failure leaves the table as it was; a deletion already
        made in the upload store stays made. */
    method UpdateCard(id: int, dto: CardDto, file: Option<Upload>, uniqueName: string) returns (r: Result<CardDto>)
      requires Valid()
      modifies this`cards, this`fileOps
      ensures Valid()
      ensures var step := UpdateStep(old(cards), id, dto, file, uniqueName);
        fileOps == old(fileOps) + step.1 &&
        (step.0.Err? ==> r == Err(step.0.error) && cards == old(cards)) &&
        (step.0.Ok? ==> r == Ok(ToDto(step.0.value)) && cards == Replaced(old(cards), step.0.value))
    {
      var step := UpdateStep(cards, id, dto, file, uniqueName);
      fileOps := fileOps + step.1;
      if step.0.Err? {
        return Err(step.0.error);
      }
      UpdatedCardFound(cards, nextId, id, step.0.value);
      cards := Replaced(cards, step.0.value);
      r := Ok(ToDto(step.0.value));
    }

    /** `deleteCard`: a soft delete of an active card. */
    method DeleteCard(id: int) returns (r: Result<()>)
      requires Valid()
      modifies this`cards
      ensures Valid()
      ensures r.Err? <==> ActiveCard(old(cards), id).Err?
      ensures r.Err? ==> r.error == ResourceNotFound("Card", id) && cards == old(cards)
      ensures r.Ok? ==> cards == SoftDeleted(old(cards), id)
    {
      var found := ActiveCard(cards, id);
      if found.Err? {
        return Err(found.error);
      }
      SoftDeleteHidesCard(cards, id);
      assert forall i :: 0 <= i < |cards| ==> SoftDeleted(cards, id)[i].id == cards[i].id;
      cards := SoftDeleted(cards, id);
      r := Ok(());
    }
  }
}
