/** The gacha economy (`GachaService`): the price of a pull, the balance check
    and deduction, the mapping from a roll to a rarity, the draw from the pool
    of active cards of that rarity, the ten-pull guarantee of a card above
    COMMON, and the ownership entry or experience bonus each drawn card gives.
    The random numbers are parameters: a `Roll` carries the tier roll
    (`nextInt(100) + 1`, or `nextInt(30) + 1` on the guaranteed path) and the
    pick among the pool's cards (`nextInt(size)`, taken modulo the size). */
module Gacha {
  import opened Wrappers
  import opened Entities
  import opened CardMapping
  import opened Seqs

  const CommonRate: int := 70
  const RareRate: int := 25
  const EpicRate: int := 4
  const LegendaryRate: int := 1

  const SinglePullCostCoins: int := 100
  const SinglePullCostGems: int := 1
  const TenPullCostCoins: int := 900
  const TenPullCostGems: int := 9

  /** The cost a pull charges, in the chosen currency. */
  function PullCost(tenPull: bool, useGems: bool): (cost: int)
    ensures !tenPull ==> cost == (if useGems then 1 else 100)
    ensures tenPull ==> cost == (if useGems then 9 else 900)
  {
    if tenPull then (if useGems then TenPullCostGems else TenPullCostCoins)
    else (if useGems then SinglePullCostGems else SinglePullCostCoins)
  }

  /** The random numbers one draw consumes. */
  datatype Roll = Roll(tier: int, pick: nat)

  /** The rarity of a normal draw, by cumulative thresholds over 1..100. */
  function TierRarity(roll: int): Rarity
  {
    if roll <= LegendaryRate then Legendary
    else if roll <= LegendaryRate + EpicRate then Epic
    else if roll <= LegendaryRate + EpicRate + RareRate then Rare
    else Common
  }

  /** Each rarity owns a band of the rolls 1..100 as wide as its rate:
      LEGENDARY 1, EPIC 2..5, RARE 6..30, COMMON 31..100. */
  lemma TierBands(roll: int)
    requires 1 <= roll <= 100
    ensures TierRarity(roll) == Legendary <==> roll <= 1
    ensures TierRarity(roll) == Epic <==> 2 <= roll <= 5
    ensures TierRarity(roll) == Rare <==> 6 <= roll <= 30
    ensures TierRarity(roll) == Common <==> 31 <= roll
  {
  }

  /** The rarity of the guaranteed draw, over 1..30: never COMMON. */
  function GuaranteedRarity(roll: int): (r: Rarity)
    ensures r != Common
    ensures r == Legendary <==> roll <= 1
    ensures r == Epic <==> 1 < roll <= 5
  {
    if roll <= 1 then Legendary
    else if roll <= 5 then Epic
    else Rare
  }

  /** `findByRarityAndIsActiveTrue`: the active cards of one rarity. */
  function PoolOf(cards: seq<Card>, rarity: Rarity): (pool: seq<Card>)
    ensures forall c :: c in pool ==> c in cards && c.isActive && c.rarity == rarity
    ensures forall c :: c in cards && c.isActive && c.rarity == rarity ==> c in pool
  {
    var pool := Filter(cards, (c: Card) => c.isActive && c.rarity == rarity);
    assert forall c :: c in cards && c.isActive && c.rarity == rarity ==> c in pool by {
      forall c | c in cards && c.isActive && c.rarity == rarity ensures c in pool {
        var i :| 0 <= i < |cards| && cards[i] == c;
      }
    }
    pool
  }

  /** `cards.get(random.nextInt(cards.size()))`; an empty pool makes `nextInt`
      throw. */
  function Pick(pool: seq<Card>, pick: nat): (r: Result<Card>)
    ensures r.Ok? <==> pool != []
    ensures r.Ok? ==> r.value in pool
    ensures r.Err? ==> r.error == Runtime("bound must be positive")
  {
    if pool == [] then Err(Runtime("bound must be positive")) else Ok(pool[pick % |pool|])
  }

  /** `drawRandomCard`: a card of the rolled rarity, or a COMMON one when no
      active card has that rarity. */
  function DrawRandomCard(cards: seq<Card>, roll: Roll): (r: Result<Card>)
    ensures r.Err? <==> PoolOf(cards, TierRarity(roll.tier)) == [] && PoolOf(cards, Common) == []
    ensures r.Ok? ==> r.value in cards && r.value.isActive
    ensures r.Ok? ==>
      r.value.rarity == TierRarity(roll.tier) ||
      (PoolOf(cards, TierRarity(roll.tier)) == [] && r.value.rarity == Common)
  {
    var pool := PoolOf(cards, TierRarity(roll.tier));
    if pool != [] then Pick(pool, roll.pick) else Pick(PoolOf(cards, Common), roll.pick)
  }

  /** `drawGuaranteedRareCard`: a card of the rolled rarity, or a RARE one when
      no active card has that rarity; never a COMMON card. */
  function DrawGuaranteedRareCard(cards: seq<Card>, roll: Roll): (r: Result<Card>)
    ensures r.Err? <==> PoolOf(cards, GuaranteedRarity(roll.tier)) == [] && PoolOf(cards, Rare) == []
    ensures r.Ok? ==> r.value in cards && r.value.isActive && r.value.rarity != Common
  {
    var pool := PoolOf(cards, GuaranteedRarity(roll.tier));
    if pool != [] then Pick(pool, roll.pick) else Pick(PoolOf(cards, Rare), roll.pick)
  }

  /** The cards drawn so far in a ten pull and whether the guarantee is still
      owed. */
  datatype DrawState = DrawState(drawn: seq<Card>, needsGuaranteedRare: bool)

  /** One turn `i` of the ten-pull loop. */
  function DrawTurn(cards: seq<Card>, i: int, roll: Roll, bonus: Roll, st: DrawState): Result<DrawState>
  {
    if i == 9 && st.needsGuaranteedRare then
      match DrawGuaranteedRareCard(cards, bonus)
      case Err(e) => Err(e)
      case Ok(c) => Ok(DrawState(st.drawn + [c], st.needsGuaranteedRare))
    else
      match DrawRandomCard(cards, roll)
      case Err(e) => Err(e)
      case Ok(c) => Ok(DrawState(st.drawn + [c], st.needsGuaranteedRare && c.rarity == Common))
  }

  /** The first `n` turns of the ten-pull loop; the first failing draw ends
      it. */
  function Draws(cards: seq<Card>, rolls: seq<Roll>, bonus: Roll, n: nat): Result<DrawState>
    requires n <= |rolls|
  {
    if n == 0 then Ok(DrawState([], true))
    else
      match Draws(cards, rolls, bonus, n - 1)
      case Err(e) => Err(e)
      case Ok(st) => DrawTurn(cards, n - 1, rolls[n - 1], bonus, st)
  }

  /** The whole loop of a ten pull. */
  function TenPullDraws(cards: seq<Card>, rolls: seq<Roll>, bonus: Roll): Result<DrawState>
    requires |rolls| == 10
  {
    Draws(cards, rolls, bonus, |rolls|)
  }

  predicate AllCommon(cs: seq<Card>)
  {
    forall j :: 0 <= j < |cs| ==> cs[j].rarity == Common
  }

  /** A turn adds one active card of the catalogue; the guaranteed turn adds
      one above COMMON, any other turn keeps the guarantee owed only while
      its card is COMMON. */
  lemma DrawTurnEffect(cards: seq<Card>, i: int, roll: Roll, bonus: Roll, st: DrawState)
    requires DrawTurn(cards, i, roll, bonus, st).Ok?
    ensures var next := DrawTurn(cards, i, roll, bonus, st).value;
      |next.drawn| == |st.drawn| + 1 && next.drawn[..|st.drawn|] == st.drawn &&
      next.drawn[|st.drawn|] in cards && next.drawn[|st.drawn|].isActive &&
      (i == 9 && st.needsGuaranteedRare ==> next.drawn[|st.drawn|].rarity != Common) &&
      (!(i == 9 && st.needsGuaranteedRare) ==>
        next.needsGuaranteedRare == (st.needsGuaranteedRare && next.drawn[|st.drawn|].rarity == Common))
  {
    var next := DrawTurn(cards, i, roll, bonus, st).value;
    assert next.drawn[..|st.drawn|] == st.drawn;
  }

  /** One turn keeps the loop's invariant: `n - 1` active catalogue cards
      drawn before it, `n` after, with the guarantee owed before the last
      turn exactly while all of them are COMMON. */
  lemma DrawStep(cards: seq<Card>, n: nat, roll: Roll, bonus: Roll, prev: DrawState)
    requires 0 < n <= 10
    requires |prev.drawn| == n - 1
    requires forall j :: 0 <= j < n - 1 ==> prev.drawn[j] in cards && prev.drawn[j].isActive
    requires prev.needsGuaranteedRare <==> AllCommon(prev.drawn)
    requires DrawTurn(cards, n - 1, roll, bonus, prev).Ok?
    ensures var st := DrawTurn(cards, n - 1, roll, bonus, prev).value;
      |st.drawn| == n &&
      (forall j :: 0 <= j < n ==> st.drawn[j] in cards && st.drawn[j].isActive) &&
      (n <= 9 ==> (st.needsGuaranteedRare <==> AllCommon(st.drawn))) &&
      (n == 10 ==> !AllCommon(st.drawn))
  {
    DrawTurnEffect(cards, n - 1, roll, bonus, prev);
    var st := DrawTurn(cards, n - 1, roll, bonus, prev).value;
    forall j | 0 <= j < n - 1 ensures st.drawn[j] == prev.drawn[j] {
      assert st.drawn[..n - 1][j] == prev.drawn[j];
    }
    if n <= 9 {
      assert AllCommon(st.drawn) <==> AllCommon(prev.drawn) && st.drawn[n - 1].rarity == Common;
    } else if !prev.needsGuaranteedRare {
      var j :| 0 <= j < 9 && prev.drawn[j].rarity != Common;
      assert st.drawn[j].rarity != Common;
    }
  }

  /** Before the last turn, the guarantee is owed exactly while every card
      drawn is COMMON; every turn adds one active card of the catalogue. */
  lemma {:induction false} DrawsInvariant(cards: seq<Card>, rolls: seq<Roll>, bonus: Roll, n: nat)
    requires n <= |rolls| && n <= 10
    requires Draws(cards, rolls, bonus, n).Ok?
    ensures var st := Draws(cards, rolls, bonus, n).value;
      |st.drawn| == n &&
      (forall j :: 0 <= j < n ==> st.drawn[j] in cards && st.drawn[j].isActive) &&
      (n <= 9 ==> (st.needsGuaranteedRare <==> AllCommon(st.drawn))) &&
      (n == 10 ==> !AllCommon(st.drawn))
  {
    if n > 0 {
      DrawsInvariant(cards, rolls, bonus, n - 1);
      var prev := Draws(cards, rolls, bonus, n - 1).value;
      assert Draws(cards, rolls, bonus, n) == DrawTurn(cards, n - 1, rolls[n - 1], bonus, prev);
      DrawStep(cards, n, rolls[n - 1], bonus, prev);
    }
  }

  /** The ten-pull guarantee: a ten pull that draws its cards draws exactly
      ten, and at least one of them is above COMMON. */
  lemma TenPullGuarantee(cards: seq<Card>, rolls: seq<Roll>, bonus: Roll)
    requires |rolls| == 10
    requires TenPullDraws(cards, rolls, bonus).Ok?
    ensures |TenPullDraws(cards, rolls, bonus).value.drawn| == 10
    ensures exists j :: 0 <= j < 10 && TenPullDraws(cards, rolls, bonus).value.drawn[j].rarity != Common
  {
    DrawsInvariant(cards, rolls, bonus, |rolls|);
  }

  /** With an active COMMON card and an active RARE card in the catalogue,
      a turn always draws a card. */
  lemma TurnSucceeds(cards: seq<Card>, i: int, roll: Roll, bonus: Roll, st: DrawState)
    requires PoolOf(cards, Common) != [] && PoolOf(cards, Rare) != []
    ensures DrawTurn(cards, i, roll, bonus, st).Ok?
  {
    assert DrawRandomCard(cards, roll).Ok?;
    assert DrawGuaranteedRareCard(cards, bonus).Ok?;
  }

  /** With an active COMMON card and an active RARE card in the catalogue,
      every draw of a ten pull succeeds. */
  lemma {:induction false} DrawsSucceed(cards: seq<Card>, rolls: seq<Roll>, bonus: Roll, n: nat)
    requires n <= |rolls|
    requires PoolOf(cards, Common) != [] && PoolOf(cards, Rare) != []
    ensures Draws(cards, rolls, bonus, n).Ok?
  {
    if n > 0 {
      DrawsSucceed(cards, rolls, bonus, n - 1);
      var st := Draws(cards, rolls, bonus, n - 1).value;
      TurnSucceeds(cards, n - 1, rolls[n - 1], bonus, st);
      assert Draws(cards, rolls, bonus, n) == DrawTurn(cards, n - 1, rolls[n - 1], bonus, st);
    }
  }

  /** `validateCurrency`: only the chosen currency is checked. */
  function ValidateCurrency(u: User, cost: int, useGems: bool): (r: Result<()>)
    ensures r.Err? <==> (if useGems then u.gems < cost else u.coins < cost)
    ensures r.Err? ==> r.error == BadRequest(if useGems then "Not enough gems" else "Not enough coins")
  {
    if useGems && u.gems < cost then Err(BadRequest("Not enough gems"))
    else if !useGems && u.coins < cost then Err(BadRequest("Not enough coins"))
    else Ok(())
  }

  /** `deductCurrency`: the chosen balance goes down by the cost; nothing else
      about the user changes. */
  function DeductCurrency(u: User, cost: int, useGems: bool): (r: User)
    ensures useGems ==> r == u.(gems := u.gems - cost)
    ensures !useGems ==> r == u.(coins := u.coins - cost)
  {
    if useGems then u.(gems := u.gems - cost) else u.(coins := u.coins - cost)
  }

  /** A deduction that passed validation leaves the balance non-negative and
      the other currency as it was. */
  lemma DeductAfterValidation(u: User, cost: int, useGems: bool)
    requires ValidateCurrency(u, cost, useGems).Ok?
    ensures useGems ==> DeductCurrency(u, cost, useGems).gems >= 0 && DeductCurrency(u, cost, useGems).coins == u.coins
    ensures !useGems ==> DeductCurrency(u, cost, useGems).coins >= 0 && DeductCurrency(u, cost, useGems).gems == u.gems
    ensures DeductCurrency(u, cost, useGems).id == u.id
  {
  }

  /** The user found, checked and charged: the position and the new record. */
  function Charge(users: seq<User>, userId: int, cost: int, useGems: bool): (r: Result<(nat, User)>)
    ensures UserIndex(users, userId) < 0 ==> r == Err(ResourceNotFound("User", userId))
    ensures UserIndex(users, userId) >= 0 ==>
      var u := users[UserIndex(users, userId)];
      (ValidateCurrency(u, cost, useGems).Err? ==> r == Err(ValidateCurrency(u, cost, useGems).error)) &&
      (ValidateCurrency(u, cost, useGems).Ok? ==> r == Ok((UserIndex(users, userId), DeductCurrency(u, cost, useGems))))
  {
    var k := UserIndex(users, userId);
    if k < 0 then Err(ResourceNotFound("User", userId))
    else
      match ValidateCurrency(users[k], cost, useGems)
      case Err(e) => Err(e)
      case Ok(_) => Ok((k, DeductCurrency(users[k], cost, useGems)))
  }

  /** `findByUserAndCard`: the position of the user's entry for the card. */
  function OwnedIndex(ucs: seq<UserCard>, userId: int, cardId: int): (k: int)
    ensures -1 <= k < |ucs|
    ensures k >= 0 ==> ucs[k].userId == userId && ucs[k].cardId == cardId
    ensures k < 0 ==> forall i :: 0 <= i < |ucs| ==> !(ucs[i].userId == userId && ucs[i].cardId == cardId)
  {
    if ucs == [] then -1
    else if ucs[|ucs| - 1].userId == userId && ucs[|ucs| - 1].cardId == cardId then |ucs| - 1
    else OwnedIndex(ucs[..|ucs| - 1], userId, cardId)
  }

  /** A user owns a card at most once. */
  predicate UniqueOwnership(ucs: seq<UserCard>)
  {
    forall i, j :: 0 <= i < j < |ucs| ==>
      !(ucs[i].userId == ucs[j].userId && ucs[i].cardId == ucs[j].cardId)
  }

  /** The experience of the user's copy of a card, if the user owns it. */
  function ExperienceOf(ucs: seq<UserCard>, userId: int, cardId: int): Option<int>
  {
    var k := OwnedIndex(ucs, userId, cardId);
    if k < 0 then None else Some(ucs[k].experience)
  }

  /** `upsertUserCard`: a new entry (level 1, no experience) under the next id,
      or 10 more experience on the existing one. Returns the table and the
      next free id. */
  function Upsert(ucs: seq<UserCard>, nextId: int, userId: int, cardId: int): (r: (seq<UserCard>, int))
  {
    var k := OwnedIndex(ucs, userId, cardId);
    if k < 0 then (ucs + [NewUserCard(nextId, userId, cardId)], nextId + 1)
    else (ucs[k := ucs[k].(experience := ucs[k].experience + 10)], nextId)
  }

  lemma {:induction false} OwnedIndexSameKeys(a: seq<UserCard>, b: seq<UserCard>, userId: int, cardId: int)
    requires |a| == |b|
    requires forall i :: 0 <= i < |a| ==> a[i].userId == b[i].userId && a[i].cardId == b[i].cardId
    ensures OwnedIndex(a, userId, cardId) == OwnedIndex(b, userId, cardId)
  {
    if a != [] {
      OwnedIndexSameKeys(a[..|a| - 1], b[..|b| - 1], userId, cardId);
    }
  }

  /** A draw of a card the user does not own adds an entry with no
      experience; a draw of one the user owns adds 10 experience to it; a
      user still owns each card at most once. */
  lemma UpsertExperience(ucs: seq<UserCard>, nextId: int, userId: int, cardId: int)
    requires UniqueOwnership(ucs)
    ensures UniqueOwnership(Upsert(ucs, nextId, userId, cardId).0)
    ensures ExperienceOf(Upsert(ucs, nextId, userId, cardId).0, userId, cardId) ==
      if ExperienceOf(ucs, userId, cardId).Some? then Some(ExperienceOf(ucs, userId, cardId).value + 10) else Some(0)
  {
    var r := Upsert(ucs, nextId, userId, cardId).0;
    if OwnedIndex(ucs, userId, cardId) < 0 {
      assert r[..|ucs|] == ucs;
    } else {
      OwnedIndexSameKeys(r, ucs, userId, cardId);
    }
  }

  /** An upsert changes no other entry. */
  lemma UpsertOther(ucs: seq<UserCard>, nextId: int, userId: int, cardId: int, u: int, c: int)
    requires u != userId || c != cardId
    ensures ExperienceOf(Upsert(ucs, nextId, userId, cardId).0, u, c) == ExperienceOf(ucs, u, c)
  {
    var r := Upsert(ucs, nextId, userId, cardId).0;
    if OwnedIndex(ucs, userId, cardId) < 0 {
      assert r[..|ucs|] == ucs;
    } else {
      OwnedIndexSameKeys(r, ucs, u, c);
    }
  }

  /** The upserts of a run of drawn card ids, in order. */
  function UpsertAll(ucs: seq<UserCard>, nextId: int, userId: int, ids: seq<int>): (seq<UserCard>, int)
  {
    if ids == [] then (ucs, nextId)
    else
      var prev := UpsertAll(ucs, nextId, userId, ids[..|ids| - 1]);
      Upsert(prev.0, prev.1, userId, ids[|ids| - 1])
  }

  lemma UpsertAllSnoc(ucs: seq<UserCard>, nextId: int, userId: int, ids: seq<int>, x: int)
    ensures UpsertAll(ucs, nextId, userId, ids + [x]) ==
      Upsert(UpsertAll(ucs, nextId, userId, ids).0, UpsertAll(ucs, nextId, userId, ids).1, userId, x)
  {
    assert (ids + [x])[..|ids|] == ids;
  }

  /** Recording one more drawn card extends the run of upserts by one. */
  lemma RecordedRun(ucs: seq<UserCard>, nextId: int, userId: int, drawn: seq<Card>, card: Card)
    requires IdsAssigned(drawn) && card.id.Some?
    ensures IdsAssigned(drawn + [card])
    ensures var prev := UpsertAll(ucs, nextId, userId, DrawnIds(drawn));
      UpsertAll(ucs, nextId, userId, DrawnIds(drawn + [card])) == Upsert(prev.0, prev.1, userId, card.id.value)
  {
    assert DrawnIds(drawn + [card]) == DrawnIds(drawn) + [card.id.value];
    UpsertAllSnoc(ucs, nextId, userId, DrawnIds(drawn), card.id.value);
  }

  /** A run of upserts keeps each card owned at most once per user. */
  lemma {:induction false} UpsertAllUnique(ucs: seq<UserCard>, nextId: int, userId: int, ids: seq<int>)
    requires UniqueOwnership(ucs)
    ensures UniqueOwnership(UpsertAll(ucs, nextId, userId, ids).0)
  {
    if ids != [] {
      UpsertAllUnique(ucs, nextId, userId, ids[..|ids| - 1]);
      var prev := UpsertAll(ucs, nextId, userId, ids[..|ids| - 1]);
      UpsertExperience(prev.0, prev.1, userId, ids[|ids| - 1]);
    }
  }

  /** The experience a card has after `copies` draws of it, starting from
      `before` (None: not owned). */
  function ExperienceAfter(before: Option<int>, copies: nat): Option<int>
  {
    if before.Some? then Some(before.value + 10 * copies)
    else if copies > 0 then Some(10 * (copies - 1))
    else None
  }

  /** The experience a run of draws leaves on each of the user's cards: an
      owned card gains 10 per copy drawn; a new card gains 10 per copy after
      the first. */
  lemma {:induction false} UpsertAllExperience(ucs: seq<UserCard>, nextId: int, userId: int, ids: seq<int>, cardId: int)
    requires UniqueOwnership(ucs)
    ensures ExperienceOf(UpsertAll(ucs, nextId, userId, ids).0, userId, cardId) ==
      ExperienceAfter(ExperienceOf(ucs, userId, cardId), multiset(ids)[cardId])
  {
    if ids != [] {
      var init := ids[..|ids| - 1];
      var last := ids[|ids| - 1];
      var before := ExperienceOf(ucs, userId, cardId);
      UpsertAllExperience(ucs, nextId, userId, init, cardId);
      UpsertAllUnique(ucs, nextId, userId, init);
      var prev := UpsertAll(ucs, nextId, userId, init);
      assert UpsertAll(ucs, nextId, userId, ids) == Upsert(prev.0, prev.1, userId, last);
      CountSnoc(ids, cardId);
      if last == cardId {
        UpsertExperience(prev.0, prev.1, userId, last);
      } else {
        UpsertOther(prev.0, prev.1, userId, last, userId, cardId);
      }
    }
  }

  /** The copies of `x` in a non-empty run: those before the last draw, and
      the last draw itself. */
  lemma CountSnoc(ids: seq<int>, x: int)
    requires ids != []
    ensures multiset(ids)[x] == multiset(ids[..|ids| - 1])[x] + (if ids[|ids| - 1] == x then 1 else 0)
  {
    assert ids == ids[..|ids| - 1] + [ids[|ids| - 1]];
  }

  /** A run of upserts for one user leaves every other user's cards alone. */
  lemma {:induction false} UpsertAllOthers(ucs: seq<UserCard>, nextId: int, userId: int, ids: seq<int>, u: int, c: int)
    requires u != userId
    ensures ExperienceOf(UpsertAll(ucs, nextId, userId, ids).0, u, c) == ExperienceOf(ucs, u, c)
  {
    if ids != [] {
      UpsertAllOthers(ucs, nextId, userId, ids[..|ids| - 1], u, c);
      var prev := UpsertAll(ucs, nextId, userId, ids[..|ids| - 1]);
      UpsertOther(prev.0, prev.1, userId, ids[|ids| - 1], u, c);
    }
  }

  /** Every drawn card has an id, as every card of the catalogue does. */
  predicate IdsAssigned(cs: seq<Card>)
  {
    forall i :: 0 <= i < |cs| ==> cs[i].id.Some?
  }

  function DrawnIds(cs: seq<Card>): (ids: seq<int>)
    requires IdsAssigned(cs)
    ensures |ids| == |cs| && forall i :: 0 <= i < |cs| ==> Some(ids[i]) == cs[i].id
  {
    seq(|cs|, i requires 0 <= i < |cs| => cs[i].id.value)
  }

  /** The response of a pull. */
  datatype GachaResult = GachaResult(
    cards: seq<CardDto>,
    totalCost: int,
    pullType: string,
    remainingCoins: int,
    remainingGems: int)

  function PullType(tenPull: bool, useGems: bool): (s: string)
    ensures s == (if tenPull then "TEN_" else "SINGLE_") + (if useGems then "GEM" else "COIN")
  {
    if tenPull then (if useGems then "TEN_GEM" else "TEN_COIN")
    else (if useGems then "SINGLE_GEM" else "SINGLE_COIN")
  }

  class GachaService {
    var users: seq<User>
    var cards: seq<Card>
    var userCards: seq<UserCard>
    var nextUserCardId: int

    ghost predicate Valid()
      reads this
    {
      IdsAssigned(cards) && UniqueOwnership(userCards)
    }

    constructor (users: seq<User>, cards: seq<Card>)
      requires IdsAssigned(cards)
      ensures Valid()
      ensures this.users == users && this.cards == cards && userCards == []
    {
      this.users := users;
      this.cards := cards;
      userCards := [];
      nextUserCardId := 1;
    }

    /** `performSinglePull`: charge the user, draw one card, record it. */
    method PerformSinglePull(userId: int, useGems: bool, roll: Roll) returns (r: Result<GachaResult>)
      requires Valid()
      modifies this`users, this`userCards, this`nextUserCardId
      ensures Valid()
      ensures var cost := PullCost(false, useGems);
        var charge := Charge(old(users), userId, cost, useGems);
        var draw := DrawRandomCard(cards, roll);
        (charge.Err? ==> r == Err(charge.error)) &&
        (charge.Ok? && draw.Err? ==> r == Err(draw.error)) &&
        (r.Err? ==> users == old(users) && userCards == old(userCards) && nextUserCardId == old(nextUserCardId)) &&
        (charge.Ok? && draw.Ok? ==>
          draw.value.id.Some? &&
          users == old(users)[charge.value.0 := charge.value.1] &&
          (userCards, nextUserCardId) == Upsert(old(userCards), old(nextUserCardId), userId, draw.value.id.value) &&
          r == Ok(GachaResult([ToDto(draw.value)], cost, PullType(false, useGems),
                              charge.value.1.coins, charge.value.1.gems)))
    {
      var cost := PullCost(false, useGems);
      var charge := Charge(users, userId, cost, useGems);
      if charge.Err? {
        return Err(charge.error);
      }
      var (k, user) := charge.value;
      var draw := DrawRandomCard(cards, roll);
      if draw.Err? {
        return Err(draw.error);
      }
      var card := draw.value;
      assert card.id.Some?;
      UpsertExperience(userCards, nextUserCardId, userId, card.id.value);
      userCards, nextUserCardId := Upsert(userCards, nextUserCardId, userId, card.id.value).0,
                                   Upsert(userCards, nextUserCardId, userId, card.id.value).1;
      users := users[k := user];
      r := Ok(GachaResult([ToDto(card)], cost, PullType(false, useGems), user.coins, user.gems));
    }

    /** `upsertUserCard` on the table. */
    method RecordDraw(userId: int, cardId: int)
      requires UniqueOwnership(userCards)
      modifies this`userCards, this`nextUserCardId
      ensures UniqueOwnership(userCards)
      ensures (userCards, nextUserCardId) == Upsert(old(userCards), old(nextUserCardId), userId, cardId)
    {
      UpsertExperience(userCards, nextUserCardId, userId, cardId);
      var recorded := Upsert(userCards, nextUserCardId, userId, cardId);
      userCards, nextUserCardId := recorded.0, recorded.1;
    }

    /** The loop of `performTenPull`: ten turns, each drawing a card and
        recording it for the user. A failing draw undoes the records made. */
    method DrawTen(userId: int, rolls: seq<Roll>, bonus: Roll) returns (res: Result<seq<Card>>)
      requires Valid() && |rolls| == 10
      modifies this`userCards, this`nextUserCardId
      ensures Valid()
      ensures res.Err? <==> TenPullDraws(cards, rolls, bonus).Err?
      ensures res.Err? ==>
        res.error == TenPullDraws(cards, rolls, bonus).error &&
        userCards == old(userCards) && nextUserCardId == old(nextUserCardId)
      ensures res.Ok? ==>
        res.value == TenPullDraws(cards, rolls, bonus).value.drawn && IdsAssigned(res.value) &&
        (userCards, nextUserCardId) == UpsertAll(old(userCards), old(nextUserCardId), userId, DrawnIds(res.value))
    {
      var savedCards, savedNext := userCards, nextUserCardId;
      var catalogue := cards;
      var drawn: seq<Card> := [];
      var needsGuaranteedRare := true;
      var i := 0;
      while i < 10
        invariant 0 <= i <= 10 && catalogue == cards && IdsAssigned(catalogue)
        invariant Draws(catalogue, rolls, bonus, i) == Ok(DrawState(drawn, needsGuaranteedRare))
        invariant |drawn| == i && IdsAssigned(drawn)
        invariant UniqueOwnership(userCards)
        invariant (userCards, nextUserCardId) == UpsertAll(savedCards, savedNext, userId, DrawnIds(drawn))
      {
        var guaranteed := i == 9 && needsGuaranteedRare;
        var next: Result<Card>;
        if guaranteed {
          next := DrawGuaranteedRareCard(catalogue, bonus);
        } else {
          next := DrawRandomCard(catalogue, rolls[i]);
        }
        TurnAgrees(catalogue, rolls, bonus, i, drawn, needsGuaranteedRare, next);
        if next.Err? {
          userCards, nextUserCardId := savedCards, savedNext;
          TenPullFails(catalogue, rolls, bonus, i + 1);
          return Err(next.error);
        }
        var card := next.value;
        assert card.id.Some?;
        if !guaranteed && card.rarity != Common {
          needsGuaranteedRare := false;
        }
        RecordDraw(userId, card.id.value);
        RecordedRun(savedCards, savedNext, userId, drawn, card);
        drawn := drawn + [card];
        i := i + 1;
      }
      assert TenPullDraws(catalogue, rolls, bonus) == Draws(catalogue, rolls, bonus, i);
      res := Ok(drawn);
    }

    /** `performTenPull`: charge the user, then draw and record ten cards; a
        failing draw undoes the whole pull. */
    method PerformTenPull(userId: int, useGems: bool, rolls: seq<Roll>, bonus: Roll) returns (r: Result<GachaResult>)
      requires Valid() && |rolls| == 10
      modifies this`users, this`userCards, this`nextUserCardId
      ensures Valid()
      ensures var cost := PullCost(true, useGems);
        var charge := Charge(old(users), userId, cost, useGems);
        var draws := TenPullDraws(cards, rolls, bonus);
        (charge.Err? ==> r == Err(charge.error)) &&
        (charge.Ok? && draws.Err? ==> r == Err(draws.error)) &&
        (r.Err? ==> users == old(users) && userCards == old(userCards) && nextUserCardId == old(nextUserCardId)) &&
        (charge.Ok? && draws.Ok? ==>
          IdsAssigned(draws.value.drawn) &&
          users == old(users)[charge.value.0 := charge.value.1] &&
          (userCards, nextUserCardId) ==
            UpsertAll(old(userCards), old(nextUserCardId), userId, DrawnIds(draws.value.drawn)) &&
          r == Ok(GachaResult(DtoList(draws.value.drawn), cost, PullType(true, useGems),
                              charge.value.1.coins, charge.value.1.gems)))
    {
      var cost := PullCost(true, useGems);
      var charge := Charge(users, userId, cost, useGems);
      if charge.Err? {
        return Err(charge.error);
      }
      var (k, user) := charge.value;
      var drawn := DrawTen(userId, rolls, bonus);
      if drawn.Err? {
        return Err(drawn.error);
      }
      users := users[k := user];
      r := Ok(GachaResult(DtoList(drawn.value), cost, PullType(true, useGems), user.coins, user.gems));
    }
  }

  /** The draw the loop makes on turn `i` is the one `DrawTurn` specifies. */
  lemma TurnAgrees(cards: seq<Card>, rolls: seq<Roll>, bonus: Roll, i: nat, drawn: seq<Card>, needs: bool, next: Result<Card>)
    requires i < |rolls| && Draws(cards, rolls, bonus, i) == Ok(DrawState(drawn, needs))
    requires next == if i == 9 && needs then DrawGuaranteedRareCard(cards, bonus) else DrawRandomCard(cards, rolls[i])
    ensures next.Err? ==> Draws(cards, rolls, bonus, i + 1) == Err(next.error)
    ensures next.Ok? ==>
      next.value in cards &&
      Draws(cards, rolls, bonus, i + 1) ==
        Ok(DrawState(drawn + [next.value], if i == 9 && needs then needs else needs && next.value.rarity == Common))
  {
  }

  /** A ten pull whose turn fails ends with that turn's error. */
  lemma TenPullFails(cards: seq<Card>, rolls: seq<Roll>, bonus: Roll, n: nat)
    requires |rolls| == 10 && 1 <= n <= 10 && Draws(cards, rolls, bonus, n).Err?
    ensures TenPullDraws(cards, rolls, bonus) == Draws(cards, rolls, bonus, n)
  {
    DrawsFailed(cards, rolls, bonus, n);
  }

  /** Once a turn fails, the whole run of ten fails with that error. */
  lemma {:induction false} DrawsFailed(cards: seq<Card>, rolls: seq<Roll>, bonus: Roll, n: nat)
    requires 1 <= n <= |rolls| && Draws(cards, rolls, bonus, n).Err?
    ensures forall m :: n <= m <= |rolls| ==> Draws(cards, rolls, bonus, m) == Draws(cards, rolls, bonus, n)
  {
    forall m | n <= m <= |rolls| ensures Draws(cards, rolls, bonus, m) == Draws(cards, rolls, bonus, n) {
      DrawsFailedAt(cards, rolls, bonus, n, m);
    }
  }

  lemma {:induction false} DrawsFailedAt(cards: seq<Card>, rolls: seq<Roll>, bonus: Roll, n: nat, m: nat)
    requires 1 <= n <= m <= |rolls| && Draws(cards, rolls, bonus, n).Err?
    ensures Draws(cards, rolls, bonus, m) == Draws(cards, rolls, bonus, n)
    decreases m
  {
    if m > n {
      DrawsFailedAt(cards, rolls, bonus, n, m - 1);
    }
  }
}
