/** The player's collection page (`CardCollection.tsx`): the filter and sort
    pipeline over the catalogue, the owned check behind the locked badge, and
    the counts shown in the filter menu. Cards arrive as the API's card DTOs;
    `localeCompare` is taken as code-point lexicographic order. */
module CollectionView {
  import opened Wrappers
  import opened Text
  import opened Seqs
  import opened Ordering
  import opened CardMapping

  /** `userCards.some(userCard => userCard.id === card.id)`. */
  predicate Owns(userCards: seq<CardDto>, card: CardDto)
  {
    exists i :: 0 <= i < |userCards| && userCards[i].id == card.id
  }

  /** The body of the `allCards.filter` callback for the selected filter. */
  predicate Keeps(filter: string, userCards: seq<CardDto>, card: CardDto)
  {
    if filter == "owned" then Owns(userCards, card)
    else if filter == "not_owned" then !Owns(userCards, card)
    else if filter != "all" then card.rarity == Some(filter)
    else true
  }

  /** `filteredCards`. */
  function FilteredCards(allCards: seq<CardDto>, userCards: seq<CardDto>, filter: string): seq<CardDto>
  {
    Filter(allCards, (c: CardDto) => Keeps(filter, userCards, c))
  }

  /** "all" keeps every card, in order. */
  lemma FilterAllKeepsEverything(allCards: seq<CardDto>, userCards: seq<CardDto>)
    ensures FilteredCards(allCards, userCards, "all") == allCards
  {
    FilterAll(allCards, (c: CardDto) => Keeps("all", userCards, c));
  }

  /** "owned" and "not_owned" split the catalogue: every card is in exactly
      one of them, owned ones in the first. */
  lemma OwnedSplit(allCards: seq<CardDto>, userCards: seq<CardDto>)
    ensures multiset(FilteredCards(allCards, userCards, "owned")) +
            multiset(FilteredCards(allCards, userCards, "not_owned")) == multiset(allCards)
    ensures forall c :: c in FilteredCards(allCards, userCards, "owned") <==> c in allCards && Owns(userCards, c)
    ensures forall c :: c in FilteredCards(allCards, userCards, "not_owned") <==> c in allCards && !Owns(userCards, c)
  {
    FilterPartition(allCards, (c: CardDto) => Keeps("owned", userCards, c), (c: CardDto) => Keeps("not_owned", userCards, c));
  }

  /** Any other value is a rarity name: exactly the cards of that rarity. */
  lemma RarityFilterExact(allCards: seq<CardDto>, userCards: seq<CardDto>, filter: string)
    requires filter != "all" && filter != "owned" && filter != "not_owned"
    ensures forall c :: c in FilteredCards(allCards, userCards, filter) <==> c in allCards && c.rarity == Some(filter)
  {
  }

  /** The filtered list keeps the catalogue's order. */
  lemma FilteredInOrder(allCards: seq<CardDto>, userCards: seq<CardDto>, filter: string)
    ensures IsSubsequence(FilteredCards(allCards, userCards, filter), allCards)
  {
    FilterIsSubsequence(allCards, (c: CardDto) => Keeps(filter, userCards, c));
  }

  /** `rarityOrder`; a rarity that is none of the four names ranks 0. */
  function RarityRank(rarity: Option<string>): int
  {
    match rarity
    case Some("COMMON") => 1
    case Some("RARE") => 2
    case Some("EPIC") => 3
    case Some("LEGENDARY") => 4
    case _ => 0
  }

  /** `compare(a, b) <= 0` for the comparator of the selected sort key. */
  predicate SortLe(sortBy: string, a: CardDto, b: CardDto)
  {
    if sortBy == "name" then LexLe(a.name, b.name)
    else if sortBy == "attack" then b.attack - a.attack <= 0
    else if sortBy == "defense" then b.defense - a.defense <= 0
    else if sortBy == "cost" then a.cost - b.cost <= 0
    else if sortBy == "rarity" then RarityRank(b.rarity) - RarityRank(a.rarity) <= 0
    else true
  }

  /** The comparator of the selected sort key, as the sort receives it. */
  function KeyLe(sortBy: string): (CardDto, CardDto) -> bool
  {
    (a: CardDto, b: CardDto) => SortLe(sortBy, a, b)
  }

  /** Every comparator is a total preorder, so the stable sort is well
      defined. */
  lemma SortLeTotalPreorder(sortBy: string)
    ensures TotalPreorder(KeyLe(sortBy))
  {
    forall a: CardDto, b: CardDto ensures SortLe(sortBy, a, b) || SortLe(sortBy, b, a) {
      if sortBy == "name" {
        LexLeTotal(a.name, b.name);
      }
    }
    forall a: CardDto, b: CardDto, c: CardDto | SortLe(sortBy, a, b) && SortLe(sortBy, b, c)
      ensures SortLe(sortBy, a, c)
    {
      if sortBy == "name" {
        LexLeTransitive(a.name, b.name, c.name);
      }
    }
  }

  /** `sortedCards`: a sorted copy; the filtered list itself is not touched. */
  function SortedCards(filtered: seq<CardDto>, sortBy: string): seq<CardDto>
  {
    SortBy(filtered, KeyLe(sortBy))
  }

  /** The sorted list is a permutation of the filtered one, ordered by the
      key: names ascending, attack and defense descending, cost ascending,
      rarity from LEGENDARY down to COMMON. The sort is stable: cards the key
      ranks equal keep their filtered order. */
  lemma SortedCardsSpec(filtered: seq<CardDto>, sortBy: string)
    ensures multiset(SortedCards(filtered, sortBy)) == multiset(filtered)
    ensures var r := SortedCards(filtered, sortBy);
      forall i, j :: 0 <= i < j < |r| ==>
        (sortBy == "name" ==> LexLe(r[i].name, r[j].name)) &&
        (sortBy == "attack" ==> r[i].attack >= r[j].attack) &&
        (sortBy == "defense" ==> r[i].defense >= r[j].defense) &&
        (sortBy == "cost" ==> r[i].cost <= r[j].cost) &&
        (sortBy == "rarity" ==> RarityRank(r[i].rarity) >= RarityRank(r[j].rarity))
    ensures forall k :: Filter(SortedCards(filtered, sortBy), Tie(KeyLe(sortBy), k))
                        == Filter(filtered, Tie(KeyLe(sortBy), k))
  {
    SortLeTotalPreorder(sortBy);
    SortBySorted(filtered, KeyLe(sortBy));
    forall k ensures Filter(SortedCards(filtered, sortBy), Tie(KeyLe(sortBy), k))
                     == Filter(filtered, Tie(KeyLe(sortBy), k)) {
      SortByStable(filtered, KeyLe(sortBy), k);
    }
  }

  /** An unknown sort key compares everything equal and keeps the filtered
      order. */
  lemma UnknownKeyKeepsOrder(filtered: seq<CardDto>, sortBy: string)
    requires sortBy !in {"name", "attack", "defense", "cost", "rarity"}
    ensures SortedCards(filtered, sortBy) == filtered
  {
    SortByFixesSorted(filtered, KeyLe(sortBy));
  }

  /** "Showing: n cards": n is the size of the filtered list. */
  lemma ShowingCount(filtered: seq<CardDto>, sortBy: string)
    ensures |SortedCards(filtered, sortBy)| == |filtered|
  {
  }

  /** The locked overlay: shown exactly for cards the player does not own. */
  predicate Locked(userCards: seq<CardDto>, card: CardDto)
  {
    !Owns(userCards, card)
  }

  // The "not owned" count

  /** The label next to "not_owned": a difference of lengths. */
  function NotOwnedLabel(allCards: seq<CardDto>, userCards: seq<CardDto>): int
  {
    |allCards| - |userCards|
  }

  function IdSet(cards: seq<CardDto>): (ids: set<Option<int>>)
    ensures forall c :: c in cards ==> c.id in ids
    ensures forall id :: id in ids ==> exists i :: 0 <= i < |cards| && cards[i].id == id
  {
    set i | 0 <= i < |cards| :: cards[i].id
  }

  predicate UniqueIds(cards: seq<CardDto>)
  {
    forall i, j :: 0 <= i < j < |cards| ==> cards[i].id != cards[j].id
  }

  /** The ids of a non-empty list: the first one and those of the rest. */
  lemma IdSetCons(cards: seq<CardDto>)
    requires cards != []
    ensures IdSet(cards) == {cards[0].id} + IdSet(cards[1..])
  {
    forall id | id in IdSet(cards) ensures id in {cards[0].id} + IdSet(cards[1..]) {
      var i :| 0 <= i < |cards| && cards[i].id == id;
      if i > 0 {
        assert cards[1..][i - 1] == cards[i];
      }
    }
  }

  lemma {:induction false} UniqueIdsCount(cards: seq<CardDto>)
    requires UniqueIds(cards)
    ensures |IdSet(cards)| == |cards|
  {
    if cards != [] {
      UniqueIdsCount(cards[1..]);
      IdSetCons(cards);
      assert cards[0].id !in IdSet(cards[1..]);
    }
  }

  /** The owned filter on a non-empty catalogue: its first card, if owned,
      then the owned cards of the rest. */
  lemma OwnedStep(allCards: seq<CardDto>, userCards: seq<CardDto>)
    requires allCards != []
    ensures |FilteredCards(allCards, userCards, "owned")| ==
            (if allCards[0].id in IdSet(userCards) then 1 else 0) + |FilteredCards(allCards[1..], userCards, "owned")|
  {
    assert Owns(userCards, allCards[0]) <==> allCards[0].id in IdSet(userCards);
  }

  /** Intersecting with one more element outside a set adds one exactly
      when that element is kept. */
  lemma IntersectAddOne<T>(owned: set<T>, a: T, rest: set<T>)
    requires a !in rest
    ensures |owned * ({a} + rest)| == (if a in owned then 1 else 0) + |owned * rest|
  {
    if a in owned {
      assert owned * ({a} + rest) == {a} + owned * rest;
    } else {
      assert owned * ({a} + rest) == owned * rest;
    }
  }

  /** Owned ids in a catalogue with distinct ids: the first card's, if
      owned, and those of the rest. */
  lemma OwnedIdsStep(allCards: seq<CardDto>, owned: set<Option<int>>)
    requires allCards != [] && UniqueIds(allCards)
    ensures |owned * IdSet(allCards)| == (if allCards[0].id in owned then 1 else 0) + |owned * IdSet(allCards[1..])|
  {
    IdSetCons(allCards);
    assert allCards[0].id !in IdSet(allCards[1..]);
    IntersectAddOne(owned, allCards[0].id, IdSet(allCards[1..]));
  }

  /** The owned filter keeps one card per owned id that the catalogue holds. */
  lemma {:induction false} OwnedCount(allCards: seq<CardDto>, userCards: seq<CardDto>)
    requires UniqueIds(allCards)
    ensures |FilteredCards(allCards, userCards, "owned")| == |IdSet(userCards) * IdSet(allCards)|
  {
    if allCards != [] {
      assert UniqueIds(allCards[1..]);
      OwnedCount(allCards[1..], userCards);
      OwnedStep(allCards, userCards);
      OwnedIdsStep(allCards, IdSet(userCards));
    }
  }

  /** The label is the not_owned filter's size when both lists hold each id
      once and every owned card is in the catalogue. */
  lemma NotOwnedLabelExact(allCards: seq<CardDto>, userCards: seq<CardDto>)
    requires UniqueIds(allCards) && UniqueIds(userCards)
    requires forall c :: c in userCards ==> c.id in IdSet(allCards)
    ensures NotOwnedLabel(allCards, userCards) == |FilteredCards(allCards, userCards, "not_owned")|
  {
    OwnedCount(allCards, userCards);
    assert IdSet(userCards) * IdSet(allCards) == IdSet(userCards);
    UniqueIdsCount(userCards);
    OwnedSplit(allCards, userCards);
    assert |multiset(FilteredCards(allCards, userCards, "owned"))| +
           |multiset(FilteredCards(allCards, userCards, "not_owned"))| == |multiset(allCards)|;
  }

  /** Without that condition the label can be wrong: an owned card missing
      from the catalogue (one soft-deleted after it was drawn) makes it count
      below the not_owned list. */
  lemma NotOwnedLabelOffForRetiredCard(c: CardDto, d: CardDto)
    requires c.id != d.id
    ensures NotOwnedLabel([c], [d]) == 0
    ensures |FilteredCards([c], [d], "not_owned")| == 1
  {
    assert !Owns([d], c);
    assert Filter([c], (x: CardDto) => Keeps("not_owned", [d], x)) == [c];
  }
}
