/** The persistent entities of the backend (package `model`) as values: their
    fields, the enums with their Java names, and the defaults a freshly
    constructed entity has. */
module Entities {
  import opened Wrappers

  datatype Rarity = Common | Rare | Epic | Legendary

  datatype Element = Fire | Water | Earth | Air | Light | Dark

  datatype EmotionType =
    Happy | Sad | Angry | Surprised | Neutral | Excited | Confused | Love | Embarrassed

  /** `Rarity.name()`. */
  function RarityName(r: Rarity): string
  {
    match r
    case Common => "COMMON"
    case Rare => "RARE"
    case Epic => "EPIC"
    case Legendary => "LEGENDARY"
  }

  /** `Rarity.valueOf(s)`: the constant whose name is exactly `s`. */
  function RarityValueOf(s: string): (r: Option<Rarity>)
    ensures r.Some? ==> RarityName(r.value) == s
    ensures forall x :: RarityName(x) == s ==> r == Some(x)
  {
    if s == "COMMON" then Some(Common)
    else if s == "RARE" then Some(Rare)
    else if s == "EPIC" then Some(Epic)
    else if s == "LEGENDARY" then Some(Legendary)
    else None
  }

  /** `Element.name()`. */
  function ElementName(e: Element): string
  {
    match e
    case Fire => "FIRE"
    case Water => "WATER"
    case Earth => "EARTH"
    case Air => "AIR"
    case Light => "LIGHT"
    case Dark => "DARK"
  }

  /** `Element.valueOf(s)`. */
  function ElementValueOf(s: string): (r: Option<Element>)
    ensures r.Some? ==> ElementName(r.value) == s
    ensures forall x :: ElementName(x) == s ==> r == Some(x)
  {
    if s == "FIRE" then Some(Fire)
    else if s == "WATER" then Some(Water)
    else if s == "EARTH" then Some(Earth)
    else if s == "AIR" then Some(Air)
    else if s == "LIGHT" then Some(Light)
    else if s == "DARK" then Some(Dark)
    else None
  }

  /** `EmotionType.name()`, which is also its `toString()`. */
  function EmotionName(e: EmotionType): string
  {
    match e
    case Happy => "HAPPY"
    case Sad => "SAD"
    case Angry => "ANGRY"
    case Surprised => "SURPRISED"
    case Neutral => "NEUTRAL"
    case Excited => "EXCITED"
    case Confused => "CONFUSED"
    case Love => "LOVE"
    case Embarrassed => "EMBARRASSED"
  }

  /** `EmotionType.valueOf(s)`. */
  function EmotionValueOf(s: string): (r: Option<EmotionType>)
    ensures r.Some? ==> EmotionName(r.value) == s
    ensures forall x :: EmotionName(x) == s ==> r == Some(x)
  {
    if s == "HAPPY" then Some(Happy)
    else if s == "SAD" then Some(Sad)
    else if s == "ANGRY" then Some(Angry)
    else if s == "SURPRISED" then Some(Surprised)
    else if s == "NEUTRAL" then Some(Neutral)
    else if s == "EXCITED" then Some(Excited)
    else if s == "CONFUSED" then Some(Confused)
    else if s == "LOVE" then Some(Love)
    else if s == "EMBARRASSED" then Some(Embarrassed)
    else None
  }

  /** A card of the catalogue; `id` is None until the card is first saved. */
  datatype Card = Card(
    id: Option<int>,
    name: string,
    description: string,
    attack: int,
    defense: int,
    cost: int,
    rarity: Rarity,
    element: Element,
    imageUrl: Option<string>,
    isActive: bool)

  /** The bean-validation bounds declared on the card's columns. */
  predicate ValidStats(c: Card)
  {
    1 <= |c.name| <= 100 && c.attack >= 1 && c.defense >= 0 && c.cost >= 1
  }

  /** A player account. */
  datatype User = User(
    id: int,
    username: string,
    email: string,
    passwordHash: string,
    coins: int,
    gems: int,
    experiencePoints: int,
    level: int)

  const DefaultCoins: int := 1000
  const DefaultGems: int := 100

  /** `new User()` followed by the three setters `createUser` calls; every
      other field keeps the entity's default. */
  function NewUser(id: int, username: string, email: string, passwordHash: string): (u: User)
    ensures u.id == id && u.username == username && u.email == email && u.passwordHash == passwordHash
    ensures u.coins == 1000 && u.gems == 100 && u.experiencePoints == 0 && u.level == 1
  {
    User(id, username, email, passwordHash, DefaultCoins, DefaultGems, 0, 1)
  }

  /** `userRepository.findById`: the position of the user with this id. */
  function UserIndex(users: seq<User>, id: int): (k: int)
    ensures -1 <= k < |users|
    ensures k >= 0 ==> users[k].id == id
    ensures k < 0 ==> forall i :: 0 <= i < |users| ==> users[i].id != id
  {
    if users == [] then -1
    else if users[|users| - 1].id == id then |users| - 1
    else UserIndex(users[..|users| - 1], id)
  }

  /** One card owned by one user, with its own level and experience. */
  datatype UserCard = UserCard(id: int, userId: int, cardId: int, level: int, experience: int)

  /** `new UserCard(user, card)`: level 1, no experience. */
  function NewUserCard(id: int, userId: int, cardId: int): (uc: UserCard)
    ensures uc.userId == userId && uc.cardId == cardId && uc.level == 1 && uc.experience == 0
  {
    UserCard(id, userId, cardId, 1, 0)
  }

  /** A line of dialogue attached to an image. */
  datatype Dialogue = Dialogue(
    id: int,
    imageId: int,
    text: string,
    speaker: Option<string>,
    orderIndex: int,
    emotionType: EmotionType)

  /** The emotion a dialogue has when none is given. */
  const DefaultEmotion: EmotionType := Neutral

  /** An image of a gallery, with its dialogues in display order. */
  datatype CollectionImage = CollectionImage(
    id: int,
    collectionId: int,
    imageUrl: string,
    title: string,
    description: string,
    orderIndex: int,
    dialogues: seq<Dialogue>)

  /** A named gallery of images belonging to one card. */
  datatype CardCollection = CardCollection(
    id: int,
    cardId: int,
    name: string,
    description: string,
    orderIndex: int,
    images: seq<CollectionImage>)
}
