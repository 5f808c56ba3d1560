/** Galleries of a card (`CardCollectionService`): creation with a per-card
    unique name placed after the card's other collections, renaming, removal
    and the search by name. The table of cards is seen only through the set
    of ids it holds. */
module Collections {
  import opened Wrappers
  import opened Entities
  import opened GalleryDtos
  import opened Text
  import opened Seqs

  /** `existsByCardIdAndName`. */
  predicate NameTaken(cs: seq<CardCollection>, cardId: int, name: string)
  {
    exists i :: 0 <= i < |cs| && cs[i].cardId == cardId && cs[i].name == name
  }

  /** Ids are unique, and so is each card's use of a name. */
  predicate WellFormed(cs: seq<CardCollection>)
  {
    forall i, j :: 0 <= i < j < |cs| ==>
      cs[i].id != cs[j].id && (cs[i].cardId == cs[j].cardId ==> cs[i].name != cs[j].name)
  }

  /** `findById` on the collections. */
  function CollectionIndex(cs: seq<CardCollection>, id: int): (k: int)
    ensures -1 <= k < |cs|
    ensures k >= 0 ==> cs[k].id == id
    ensures k < 0 <==> forall i :: 0 <= i < |cs| ==> cs[i].id != id
  {
    FindIndex(cs, (c: CardCollection) => c.id == id)
  }

  /** `countByCardId`. */
  function CountForCard(cs: seq<CardCollection>, cardId: int): (n: nat)
    ensures n <= |cs|
  {
    |Filter(cs, (c: CardCollection) => c.cardId == cardId)|
  }

  /** The message of the duplicate-name `BadRequestException`. */
  function DuplicateName(name: string): string
  {
    "Collection with name '" + name + "' already exists for this card"
  }

  /** The checks of `createCollection`, in order: the card must exist (active
      or not), then the name must be new for that card. */
  function CreationCheck(cs: seq<CardCollection>, cardIds: set<int>, cardId: int, name: string): (r: Result<()>)
    ensures r.Ok? <==> cardId in cardIds && !NameTaken(cs, cardId, name)
    ensures cardId !in cardIds ==> r == Err(ResourceNotFound("Card", cardId))
    ensures cardId in cardIds && NameTaken(cs, cardId, name) ==> r == Err(BadRequest(DuplicateName(name)))
  {
    if cardId !in cardIds then Err(ResourceNotFound("Card", cardId))
    else if NameTaken(cs, cardId, name) then Err(BadRequest(DuplicateName(name)))
    else Ok(())
  }

  /** The check of `updateCollection` on the collection at k: a new name must
      be free for the collection's card; keeping the name is always allowed. */
  function RenameCheck(cs: seq<CardCollection>, k: int, name: string): (r: Result<()>)
    requires 0 <= k < |cs|
    ensures r.Err? <==> name != cs[k].name && NameTaken(cs, cs[k].cardId, name)
    ensures r.Err? ==> r.error == BadRequest(DuplicateName(name))
  {
    if name != cs[k].name && NameTaken(cs, cs[k].cardId, name) then Err(BadRequest(DuplicateName(name)))
    else Ok(())
  }

  /** A collection that passed the creation check, under an unused id, keeps
      the table well formed. */
  lemma CreationKeepsWellFormed(cs: seq<CardCollection>, cardIds: set<int>, c: CardCollection)
    requires WellFormed(cs)
    requires CreationCheck(cs, cardIds, c.cardId, c.name).Ok?
    requires forall i :: 0 <= i < |cs| ==> cs[i].id != c.id
    ensures WellFormed(cs + [c])
  {
    forall i | 0 <= i < |cs| && cs[i].cardId == c.cardId
      ensures cs[i].name != c.name
    {
      assert !NameTaken(cs, c.cardId, c.name);
    }
  }

  /** A rename that passed its check, which changes only name and
      description, keeps the table well formed. */
  lemma RenameKeepsWellFormed(cs: seq<CardCollection>, k: int, name: string, description: string)
    requires WellFormed(cs) && 0 <= k < |cs|
    requires RenameCheck(cs, k, name).Ok?
    ensures WellFormed(cs[k := cs[k].(name := name, description := description)])
  {
    var cs' := cs[k := cs[k].(name := name, description := description)];
    forall i, j | 0 <= i < j < |cs'| && cs'[i].cardId == cs'[j].cardId
      ensures cs'[i].name != cs'[j].name
    {
      if i == k && name != cs[k].name {
        assert !(cs[j].cardId == cs[k].cardId && cs[j].name == name);
      } else if j == k && name != cs[k].name {
        assert !(cs[i].cardId == cs[k].cardId && cs[i].name == name);
      }
    }
  }

  /** Removing a row keeps the table well formed. */
  lemma RemovalKeepsWellFormed(cs: seq<CardCollection>, k: int)
    requires WellFormed(cs) && 0 <= k < |cs|
    ensures WellFormed(cs[..k] + cs[k + 1..])
  {
    var cs' := cs[..k] + cs[k + 1..];
    forall i, j | 0 <= i < j < |cs'|
      ensures cs'[i].id != cs'[j].id && (cs'[i].cardId == cs'[j].cardId ==> cs'[i].name != cs'[j].name)
    {
      var i0 := if i < k then i else i + 1;
      var j0 := if j < k then j else j + 1;
      assert cs'[i] == cs[i0] && cs'[j] == cs[j0];
    }
  }

  /** A collection appended for one card is counted for that card only: the
      next collection of the same card gets the following position. */
  lemma CountAfterCreate(cs: seq<CardCollection>, c: CardCollection, cardId: int)
    ensures CountForCard(cs + [c], cardId) == CountForCard(cs, cardId) + (if c.cardId == cardId then 1 else 0)
  {
    FilterSnoc(cs, c, (x: CardCollection) => x.cardId == cardId);
  }

  /** A name once used for a card cannot be used again for it, whatever the
      description. */
  lemma NameUsedOnce(cs: seq<CardCollection>, cardIds: set<int>, c: CardCollection)
    requires c.cardId in cardIds
    ensures CreationCheck(cs + [c], cardIds, c.cardId, c.name) == Err(BadRequest(DuplicateName(c.name)))
  {
    assert (cs + [c])[|cs|] == c;
  }

  /** `findByNameContainingIgnoreCase` followed by `convertToDTO`: exactly the
      collections whose name contains the text, ignoring case, in table order. */
  function SearchByName(cs: seq<CardCollection>, text: string): (r: seq<CollectionDto>)
    ensures |r| <= |cs|
    ensures forall i :: 0 <= i < |r| ==>
      exists j :: 0 <= j < |cs| && ContainsIgnoreCase(cs[j].name, text) && r[i] == CollectionToDto(cs[j])
    ensures forall j :: 0 <= j < |cs| && ContainsIgnoreCase(cs[j].name, text) ==> CollectionToDto(cs[j]) in r
  {
    var found := Filter(cs, (c: CardCollection) => ContainsIgnoreCase(c.name, text));
    var r := seq(|found|, i requires 0 <= i < |found| => CollectionToDto(found[i]));
    assert forall j :: 0 <= j < |cs| && ContainsIgnoreCase(cs[j].name, text) ==> CollectionToDto(cs[j]) in r by {
      forall j | 0 <= j < |cs| && ContainsIgnoreCase(cs[j].name, text)
        ensures CollectionToDto(cs[j]) in r
      {
        var at :| 0 <= at < |found| && found[at] == cs[j];
        assert r[at] == CollectionToDto(cs[j]);
      }
    }
    r
  }

  /** `findByCardIdWithImages` followed by `convertToDTO`: the card's
      collections, each once, in table order. */
  function CollectionsOfCard(cs: seq<CardCollection>, cardId: int): (r: seq<CollectionDto>)
    ensures |r| == CountForCard(cs, cardId)
    ensures forall i :: 0 <= i < |r| ==> r[i].cardId == cardId
    ensures forall i :: 0 <= i < |r| ==> exists j :: 0 <= j < |cs| && r[i] == CollectionToDto(cs[j])
    ensures forall j :: 0 <= j < |cs| && cs[j].cardId == cardId ==> CollectionToDto(cs[j]) in r
  {
    var found := Filter(cs, (c: CardCollection) => c.cardId == cardId);
    var r := seq(|found|, i requires 0 <= i < |found| => CollectionToDto(found[i]));
    assert forall j :: 0 <= j < |cs| && cs[j].cardId == cardId ==> CollectionToDto(cs[j]) in r by {
      forall j | 0 <= j < |cs| && cs[j].cardId == cardId ensures CollectionToDto(cs[j]) in r {
        var at :| 0 <= at < |found| && found[at] == cs[j];
        assert r[at] == CollectionToDto(cs[j]);
      }
    }
    r
  }

  class CollectionService {
    var collections: seq<CardCollection>
    var nextId: int
    /** The ids of the stored cards, active or not. */
    var cardIds: set<int>

    ghost predicate Valid()
      reads this
    {
      WellFormed(collections) && forall i :: 0 <= i < |collections| ==> collections[i].id < nextId
    }

    constructor (cardIds: set<int>)
      ensures Valid() && collections == [] && this.cardIds == cardIds
    {
      collections := [];
      nextId := 1;
      this.cardIds := cardIds;
    }

    /** `getCollectionsByCardId`. */
    function GetCollectionsByCardId(cardId: int): (r: seq<CollectionDto>)
      reads this
      ensures |r| == CountForCard(collections, cardId)
      ensures forall i :: 0 <= i < |r| ==> r[i].cardId == cardId
      ensures forall j :: 0 <= j < |collections| && collections[j].cardId == cardId ==> CollectionToDto(collections[j]) in r
    {
      CollectionsOfCard(collections, cardId)
    }

    /** `getCollectionById`. */
    function GetCollectionById(id: int): (r: Result<CollectionDto>)
      reads this
      ensures r.Err? <==> forall i :: 0 <= i < |collections| ==> collections[i].id != id
      ensures r.Err? ==> r.error == ResourceNotFound("Collection", id)
      ensures r.Ok? ==>
        exists i :: 0 <= i < |collections| && collections[i].id == id && r.value == CollectionToDto(collections[i])
    {
      var k := CollectionIndex(collections, id);
      if k < 0 then Err(ResourceNotFound("Collection", id)) else Ok(CollectionToDto(collections[k]))
    }

    /** `createCollection`: a new, empty collection placed after the card's
        existing ones. */
    method CreateCollection(cardId: int, name: string, description: string) returns (r: Result<CollectionDto>)
      requires Valid()
      modifies this`collections, this`nextId
      ensures Valid()
      ensures var check := CreationCheck(old(collections), cardIds, cardId, name);
        (check.Err? ==> r == Err(check.error) && collections == old(collections)) &&
        (check.Ok? ==>
          var c := CardCollection(old(nextId), cardId, name, description, CountForCard(old(collections), cardId), []);
          collections == old(collections) + [c] && r == Ok(CollectionToDto(c)))
    {
      var check := CreationCheck(collections, cardIds, cardId, name);
      if check.Err? {
        return Err(check.error);
      }
      var c := CardCollection(nextId, cardId, name, description, CountForCard(collections, cardId), []);
      CreationKeepsWellFormed(collections, cardIds, c);
      collections := collections + [c];
      nextId := nextId + 1;
      r := Ok(CollectionToDto(c));
    }

    /** `updateCollection`: only name and description of that collection
        change; its card, position and images stay. */
    method UpdateCollection(id: int, name: string, description: string) returns (r: Result<CollectionDto>)
      requires Valid()
      modifies this`collections
      ensures Valid()
      ensures var k := CollectionIndex(old(collections), id);
        (k < 0 ==> r == Err(ResourceNotFound("Collection", id)) && collections == old(collections)) &&
        (k >= 0 && RenameCheck(old(collections), k, name).Err? ==>
          r == Err(BadRequest(DuplicateName(name))) && collections == old(collections)) &&
        (k >= 0 && RenameCheck(old(collections), k, name).Ok? ==>
          collections == old(collections)[k := old(collections)[k].(name := name, description := description)] &&
          r == Ok(CollectionToDto(collections[k])))
    {
      var k := CollectionIndex(collections, id);
      if k < 0 {
        return Err(ResourceNotFound("Collection", id));
      }
      var check := RenameCheck(collections, k, name);
      if check.Err? {
        return Err(check.error);
      }
      RenameKeepsWellFormed(collections, k, name, description);
      var updated := collections[k].(name := name, description := description);
      collections := collections[k := updated];
      r := Ok(CollectionToDto(updated));
    }

    /** `deleteCollection`: the collection goes, with its images. */
    method DeleteCollection(id: int) returns (r: Result<()>)
      requires Valid()
      modifies this`collections
      ensures Valid()
      ensures var k := CollectionIndex(old(collections), id);
        (k < 0 ==> r == Err(ResourceNotFound("Collection", id)) && collections == old(collections)) &&
        (k >= 0 ==> r == Ok(()) && collections == old(collections)[..k] + old(collections)[k + 1..])
    {
      var k := CollectionIndex(collections, id);
      if k < 0 {
        return Err(ResourceNotFound("Collection", id));
      }
      RemovalKeepsWellFormed(collections, k);
      collections := collections[..k] + collections[k + 1..];
      r := Ok(());
    }
  }
}
