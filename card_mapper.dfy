/** The conversions between the card entity and the card transfer object
    (`CardMapper`): the entity-to-DTO copy, the DTO-to-entity overwrite, and
    the tolerant parsing of the rarity and element names. */
module CardMapping {
  import opened Wrappers
  import opened Text
  import opened Entities

  /** The JSON shape of a card; rarity, element and image URL may be null. */
  datatype CardDto = CardDto(
    id: Option<int>,
    name: string,
    description: string,
    attack: int,
    defense: int,
    cost: int,
    rarity: Option<string>,
    element: Option<string>,
    imageUrl: Option<string>)

  function ToDto(c: Card): CardDto
  {
    CardDto(c.id, c.name, c.description, c.attack, c.defense, c.cost,
            Some(RarityName(c.rarity)), Some(ElementName(c.element)), c.imageUrl)
  }

  /** `toDtoList`: every card mapped, in order. */
  function DtoList(cards: seq<Card>): (r: seq<CardDto>)
    ensures |r| == |cards| && forall i :: 0 <= i < |cards| ==> r[i] == ToDto(cards[i])
  {
    seq(|cards|, i requires 0 <= i < |cards| => ToDto(cards[i]))
  }

  /** `parseEnum`: null is refused; otherwise the value is trimmed and
      upper-cased before it is looked up among the constant names. */
  function ParseEnum<E>(raw: Option<string>, field: string, valueOf: string -> Option<E>): (r: Result<E>)
    ensures raw.None? ==> r == Err(BadRequest(field + " must not be null"))
    ensures raw.Some? ==> (r.Ok? <==> valueOf(ToUpper(JavaTrim(raw.value))).Some?)
    ensures raw.Some? && r.Ok? ==> Some(r.value) == valueOf(ToUpper(JavaTrim(raw.value)))
    ensures raw.Some? && r.Err? ==> r.error == BadRequest("Unsupported " + field + ": " + raw.value)
  {
    match raw
    case None => Err(BadRequest(field + " must not be null"))
    case Some(s) =>
      match valueOf(ToUpper(JavaTrim(s)))
      case Some(e) => Ok(e)
      case None => Err(BadRequest("Unsupported " + field + ": " + s))
  }

  function ParseRarityField(raw: Option<string>): Result<Rarity>
  {
    ParseEnum(raw, "rarity", RarityValueOf)
  }

  function ParseElementField(raw: Option<string>): Result<Element>
  {
    ParseEnum(raw, "element", ElementValueOf)
  }

  /** The image URL survives unless the DTO brings a non-blank one. */
  function MergedImageUrl(current: Option<string>, incoming: Option<string>): Option<string>
  {
    if incoming.Some? && !IsBlank(incoming.value) then incoming else current
  }

  /** `updateEntity`: overwrites name, description and the three stats, parses
      rarity then element, and replaces the image URL only with a non-blank
      one. The first parse failure is the result. */
  function UpdateEntity(c: Card, dto: CardDto): (r: Result<Card>)
    ensures r.Ok? <==> ParseRarityField(dto.rarity).Ok? && ParseElementField(dto.element).Ok?
    ensures ParseRarityField(dto.rarity).Err? ==> r == Err(ParseRarityField(dto.rarity).error)
    ensures ParseRarityField(dto.rarity).Ok? && ParseElementField(dto.element).Err? ==>
      r == Err(ParseElementField(dto.element).error)
    ensures r.Ok? ==> r.value.id == c.id && r.value.isActive == c.isActive
    ensures r.Ok? ==>
      r.value.name == dto.name && r.value.description == dto.description &&
      r.value.attack == dto.attack && r.value.defense == dto.defense && r.value.cost == dto.cost
    ensures r.Ok? ==>
      r.value.rarity == ParseRarityField(dto.rarity).value &&
      r.value.element == ParseElementField(dto.element).value
    ensures r.Ok? ==> r.value.imageUrl == MergedImageUrl(c.imageUrl, dto.imageUrl)
  {
    match ParseRarityField(dto.rarity)
    case Err(e) => Err(e)
    case Ok(rarity) =>
      match ParseElementField(dto.element)
      case Err(e) => Err(e)
      case Ok(element) =>
        Ok(c.(name := dto.name, description := dto.description, attack := dto.attack,
              defense := dto.defense, cost := dto.cost, rarity := rarity, element := element,
              imageUrl := MergedImageUrl(c.imageUrl, dto.imageUrl)))
  }

  /** A card the entity constructor makes: no id, no image, active. */
  const BlankCard: Card := Card(None, "", "", 0, 0, 0, Common, Fire, None, true)

  /** `toEntity`: a new card, marked active, filled in by `updateEntity`. */
  function ToEntity(dto: CardDto): (r: Result<Card>)
    ensures r.Ok? ==> r.value.isActive && r.value.id.None?
    ensures r.Ok? ==> r.value.imageUrl == MergedImageUrl(None, dto.imageUrl)
    ensures r.Err? <==> UpdateEntity(BlankCard, dto).Err?
  {
    UpdateEntity(BlankCard, dto)
  }

  /** A name made of upper-case letters is untouched by trim and upper-case. */
  lemma NormalisedName(s: string)
    requires UpperLettersOnly(s)
    ensures ToUpper(JavaTrim(s)) == s
  {
    assert TrimStart(s, JavaTrimmable) == s by {
      if s != [] { assert !JavaTrimmable(s[0]); }
    }
    assert TrimEnd(s, JavaTrimmable) == s by {
      if s != [] { assert !JavaTrimmable(s[|s| - 1]); }
    }
    ToUpperFixed(s);
  }

  lemma RarityNameUpper(r: Rarity)
    ensures UpperLettersOnly(RarityName(r))
  {
  }

  lemma ElementNameUpper(e: Element)
    ensures UpperLettersOnly(ElementName(e))
  {
  }

  /** A rarity is accepted exactly when its trimmed, upper-cased text is a
      constant's name. */
  lemma ParseRarityFieldAccepts(s: string, r: Rarity)
    ensures ParseRarityField(Some(s)) == Ok(r) <==> ToUpper(JavaTrim(s)) == RarityName(r)
  {
  }

  /** An element is accepted exactly when its trimmed, upper-cased text is a
      constant's name. */
  lemma ParseElementFieldAccepts(s: string, e: Element)
    ensures ParseElementField(Some(s)) == Ok(e) <==> ToUpper(JavaTrim(s)) == ElementName(e)
  {
  }

  /** Every rarity name is accepted, in upper or lower case. */
  lemma ParseRarityFieldNames(r: Rarity)
    ensures ParseRarityField(Some(RarityName(r))) == Ok(r)
    ensures ParseRarityField(Some(ToLower(RarityName(r)))) == Ok(r)
  {
    RarityNameUpper(r);
    NormalisedName(RarityName(r));
    var lower := ToLower(RarityName(r));
    LowerThenUpper(RarityName(r));
    assert JavaTrim(lower) == lower by {
      forall i | 0 <= i < |lower| ensures !JavaTrimmable(lower[i]) {
        ToLowerAt(RarityName(r), i);
      }
      if lower != [] {
        assert !JavaTrimmable(lower[0]) && !JavaTrimmable(lower[|lower| - 1]);
      }
    }
  }

  /** Every element name is accepted as it is written. */
  lemma ParseElementFieldNames(e: Element)
    ensures ParseElementField(Some(ElementName(e))) == Ok(e)
  {
    ElementNameUpper(e);
    NormalisedName(ElementName(e));
  }

  /** Round trip: writing a card to its DTO and applying the DTO back to the
      card changes nothing. */
  lemma UpdateFromOwnDto(c: Card)
    ensures UpdateEntity(c, ToDto(c)) == Ok(c)
  {
    ParseRarityFieldNames(c.rarity);
    ParseElementFieldNames(c.element);
  }
}
