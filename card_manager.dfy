/** The administrator's card editor: the card list, the create/edit form
    with an optional image file, and deletion.

    As for the gallery screen, each state variable of the component is a
    field of `CardManager`, each handler is specified by a pure transition
    on `Screen`, and the server's answers are parameters. The card objects
    the screen holds are the JSON the card endpoints return, `CardDto`. */
module CardAdmin {
  import opened Wrappers
  import opened Text
  import opened Entities
  import opened CardMapping
  import CardServices

  // ---------------------------------------------------------------------------
  // JavaScript's parseInt(value), radix left out

  /** The value of a digit character in radices up to 36; 36 marks a
      character that is a digit in no radix. */
  function DigitOf(c: char): (d: int)
    ensures 0 <= d <= 36
    ensures d < 10 <==> '0' <= c <= '9'
  {
    if '0' <= c <= '9' then c as int - '0' as int
    else if 'a' <= c <= 'z' then c as int - 'a' as int + 10
    else if 'A' <= c <= 'Z' then c as int - 'A' as int + 10
    else 36
  }

  /** The length of the longest prefix of `s` made of radix-`radix` digits. */
  function DigitRun(s: string, radix: int): (n: nat)
    ensures n <= |s|
    ensures forall i :: 0 <= i < n ==> DigitOf(s[i]) < radix
    ensures n < |s| ==> DigitOf(s[n]) >= radix
  {
    if s == [] || DigitOf(s[0]) >= radix then 0 else 1 + DigitRun(s[1..], radix)
  }

  /** The number a string of digits denotes, most significant first. */
  function DigitsValue(s: string, radix: int): int
  {
    if s == [] then 0 else DigitsValue(s[..|s| - 1], radix) * radix + DigitOf(s[|s| - 1])
  }

  /** A hexadecimal literal's "0x" or "0X" prefix. */
  predicate HexPrefixed(u: string)
  {
    |u| >= 2 && u[0] == '0' && (u[1] == 'x' || u[1] == 'X')
  }

  /** The digits after the sign: hexadecimal after "0x" or "0X", decimal
      otherwise, read up to the first character that is not a digit; no
      digit at all is NaN, here `None`. */
  function ParseUnsigned(u: string): Option<int>
  {
    if HexPrefixed(u) then ReadDigits(u[2..], 16) else ReadDigits(u, 10)
  }

  /** The value of the leading radix-`radix` digits, `None` when there are
      none. */
  function ReadDigits(body: string, radix: int): Option<int>
  {
    var n := DigitRun(body, radix);
    if n == 0 then None else Some(DigitsValue(body[..n], radix))
  }

  /** `parseInt(s)`: skip leading white space, take an optional sign, then
      read the digits. */
  function ParseInt(s: string): (r: Option<int>)
  {
    var t := TrimStart(s, JsWhitespace);
    var negative := t != [] && t[0] == '-';
    var signed := t != [] && (t[0] == '-' || t[0] == '+');
    var magnitude := ParseUnsigned(if signed then t[1..] else t);
    if magnitude.None? then None
    else if negative then Some(-magnitude.value)
    else magnitude
  }

  /** A number input's text as the form stores it: `parseInt(value) || 0`. */
  function StatInput(value: string): int
  {
    var parsed := ParseInt(value);
    if parsed.Some? then parsed.value else 0
  }

  /** The decimal rendering of a natural number, as a number input shows it. */
  function DecimalString(n: nat): (s: string)
  {
    if n < 10 then [('0' as int + n) as char]
    else DecimalString(n / 10) + [('0' as int + n % 10) as char]
  }

  lemma {:induction false} DecimalStringDigits(n: nat)
    ensures var s := DecimalString(n);
            s != [] && (forall i :: 0 <= i < |s| ==> '0' <= s[i] <= '9') &&
            DigitsValue(s, 10) == n && (n > 0 ==> s[0] != '0')
  {
    var s := DecimalString(n);
    if n >= 10 {
      DecimalStringDigits(n / 10);
      var p := DecimalString(n / 10);
      assert s == p + [('0' as int + n % 10) as char];
      assert s[..|s| - 1] == p;
      assert s[0] == p[0];
    }
  }

  /** A rendered number followed by text that cannot continue it: it starts
      with a digit, is not a hexadecimal prefix, and its leading digits read
      back as the number. */
  lemma DecimalBody(n: nat, rest: string)
    requires rest == [] || (DigitOf(rest[0]) >= 10 && rest[0] != 'x' && rest[0] != 'X')
    ensures var s := DecimalString(n) + rest;
            '0' <= s[0] <= '9' && !HexPrefixed(s) && ReadDigits(s, 10) == Some(n)
  {
    var d := DecimalString(n);
    DecimalStringDigits(n);
    DigitRunOfDigits(d, rest);
    var s := d + rest;
    assert s[0] == d[0];
    if n == 0 {
      assert |d| == 1;
      if |s| >= 2 {
        assert s[1] == rest[0];
      }
    }
    assert s[..|d|] == d;
  }

  /** Text that starts with a visible character is not trimmed. */
  lemma NoLeadingSpace(s: string)
    requires s != [] && !JsWhitespace(s[0])
    ensures TrimStart(s, JsWhitespace) == s
  {
  }

  /** `parseInt` on text that starts with a decimal digit and is not a
      hexadecimal literal: the value of its leading digits. */
  lemma ParseIntPlain(s: string)
    requires s != [] && '0' <= s[0] <= '9' && !HexPrefixed(s)
    ensures ParseInt(s) == ReadDigits(s, 10)
  {
    NoLeadingSpace(s);
  }

  /** `parseInt` on a minus sign followed by such text: the negated value
      of its leading digits. */
  lemma ParseIntMinus(s: string)
    requires s != [] && '0' <= s[0] <= '9' && !HexPrefixed(s)
    ensures ParseInt("-" + s) == if ReadDigits(s, 10).Some? then Some(-ReadDigits(s, 10).value) else None
  {
    var m := "-" + s;
    assert m[0] == '-' && m[1..] == s;
    assert !JsWhitespace('-');
    NoLeadingSpace(m);
  }

  /** Reading back a rendered number gives the number, whatever follows it
      that cannot continue it (the end of the text, a unit, an exponent). */
  lemma {:induction false} ParseIntDecimal(n: nat, rest: string)
    requires rest == [] || (DigitOf(rest[0]) >= 10 && rest[0] != 'x' && rest[0] != 'X')
    ensures ParseInt(DecimalString(n) + rest) == Some(n)
  {
    DecimalBody(n, rest);
    ParseIntPlain(DecimalString(n) + rest);
  }

  /** The same for a rendered negative number. */
  lemma {:induction false} ParseIntNegative(n: nat, rest: string)
    requires rest == [] || (DigitOf(rest[0]) >= 10 && rest[0] != 'x' && rest[0] != 'X')
    ensures ParseInt("-" + DecimalString(n) + rest) == Some(-(n as int))
  {
    var body := DecimalString(n) + rest;
    assert "-" + DecimalString(n) + rest == "-" + body;
    DecimalBody(n, rest);
    ParseIntMinus(body);
  }

  lemma {:induction false} DigitRunOfDigits(d: string, rest: string)
    requires forall i :: 0 <= i < |d| ==> '0' <= d[i] <= '9'
    requires rest == [] || DigitOf(rest[0]) >= 10
    ensures DigitRun(d + rest, 10) == |d|
  {
    if d != [] {
      assert (d + rest)[1..] == d[1..] + rest;
      DigitRunOfDigits(d[1..], rest);
    } else {
      assert d + rest == rest;
    }
  }

  /** How a number input renders an integer. */
  function IntString(n: int): string
  {
    if n < 0 then "-" + DecimalString(-n) else DecimalString(n)
  }

  /** Every integer a stat input shows is stored back as itself. */
  lemma StatInputRoundTrip(n: int)
    ensures StatInput(IntString(n)) == n
  {
    var none: string := [];
    var s := IntString(n);
    if n < 0 {
      var m: nat := -n;
      ParseIntNegative(m, none);
      var t := "-" + DecimalString(m) + none;
      assert ParseInt(t) == Some(n);
      assert t == s;
    } else {
      ParseIntDecimal(n, none);
      var t := DecimalString(n) + none;
      assert ParseInt(t) == Some(n);
      assert t == s;
    }
  }

  /** Text with no digit where the number should start is stored as 0. */
  lemma NoDigitsStoresZero(value: string)
    requires forall i :: 0 <= i < |value| ==> DigitOf(value[i]) >= 10
    ensures StatInput(value) == 0
  {
    var t := TrimStart(value, JsWhitespace);
    var u := if t != [] && (t[0] == '-' || t[0] == '+') then t[1..] else t;
    assert u == value[|value| - |u|..];
    assert u == [] || u[0] == value[|value| - |u|];
    NoLeadingDigit(u);
  }

  /** Digits that do not start at once are not read at all. */
  lemma NoLeadingDigit(u: string)
    requires u == [] || DigitOf(u[0]) >= 10
    ensures ParseUnsigned(u) == None
  {
  }

  // ---------------------------------------------------------------------------
  // Badges

  const Grey := "#9ca3af"

  /** `getRarityColor`: one colour per rarity, grey for anything else. */
  function RarityColor(rarity: Option<string>): string
  {
    if rarity == Some("COMMON") then Grey
    else if rarity == Some("RARE") then "#3b82f6"
    else if rarity == Some("EPIC") then "#8b5cf6"
    else if rarity == Some("LEGENDARY") then "#f59e0b"
    else Grey
  }

  const UnknownElement := "\U{2753}"

  /** `getElementEmoji`: one emoji per element, a question mark otherwise. */
  function ElementEmoji(element: Option<string>): string
  {
    if element == Some("FIRE") then "\U{1F525}"
    else if element == Some("WATER") then "\U{1F4A7}"
    else if element == Some("EARTH") then "\U{1F30D}"
    else if element == Some("AIR") then "\U{1F4A8}"
    else if element == Some("LIGHT") then "\U{2728}"
    else if element == Some("DARK") then "\U{1F319}"
    else UnknownElement
  }

  /** Every rarity the server sends is told apart by its colour, except that
      common cards share the grey of unknown values. */
  lemma RarityColorsDistinct(a: Rarity, b: Rarity)
    ensures RarityColor(Some(RarityName(a))) == RarityColor(Some(RarityName(b))) <==> a == b
    ensures RarityColor(Some(RarityName(a))) == Grey <==> a == Common
  {
  }

  /** Every element the server sends has its own emoji, never the question
      mark. */
  lemma ElementEmojisDistinct(a: Element, b: Element)
    ensures ElementEmoji(Some(ElementName(a))) == ElementEmoji(Some(ElementName(b))) <==> a == b
    ensures ElementEmoji(Some(ElementName(a))) != UnknownElement
  {
  }

  /** Anything that is not one of the four rarity names, a missing rarity
      included, is shown in grey. */
  lemma UnknownRarityIsGrey(rarity: Option<string>)
    requires forall x: Rarity :: rarity != Some(RarityName(x))
    ensures RarityColor(rarity) == Grey
  {
    assert rarity != Some(RarityName(Rare)) && rarity != Some(RarityName(Epic)) &&
           rarity != Some(RarityName(Legendary));
  }

  /** Anything that is not one of the six element names, a missing element
      included, is shown with the question mark. */
  lemma UnknownElementIsQuestionMark(element: Option<string>)
    requires forall x: Element :: element != Some(ElementName(x))
    ensures ElementEmoji(element) == UnknownElement
  {
    assert element != Some(ElementName(Fire)) && element != Some(ElementName(Water)) &&
           element != Some(ElementName(Earth)) && element != Some(ElementName(Air)) &&
           element != Some(ElementName(Light)) && element != Some(ElementName(Dark));
  }

  // ---------------------------------------------------------------------------
  // The form and the requests

  /** The form's initial and reset contents. */
  const DefaultForm := CardDto(None, "", "", 1, 0, 1, Some("COMMON"), Some("FIRE"), Some(""))

  /** The form inputs that `handleInputChange` serves, by their `name`. */
  datatype Field = Name | Description | Attack | Defense | Cost | RarityField | ElementField

  /** `handleInputChange`: the three stats are parsed, the rest stored as typed. */
  function WithInput(form: CardDto, field: Field, value: string): (r: CardDto)
    ensures field.Attack? ==> r == form.(attack := StatInput(value))
    ensures field.Defense? ==> r == form.(defense := StatInput(value))
    ensures field.Cost? ==> r == form.(cost := StatInput(value))
    ensures field.Name? ==> r == form.(name := value)
    ensures field.Description? ==> r == form.(description := value)
    ensures field.RarityField? ==> r == form.(rarity := Some(value))
    ensures field.ElementField? ==> r == form.(element := Some(value))
    ensures r.id == form.id && r.imageUrl == form.imageUrl
  {
    match field
    case Name => form.(name := value)
    case Description => form.(description := value)
    case Attack => form.(attack := StatInput(value))
    case Defense => form.(defense := StatInput(value))
    case Cost => form.(cost := StatInput(value))
    case RarityField => form.(rarity := Some(value))
    case ElementField => form.(element := Some(value))
  }

  /** The `card` part of the multipart body: the form, whose image URL is the
      edited card's own when editing without a new file and is absent
      otherwise, leaving it to the server. */
  function CardPart(form: CardDto, editing: Option<CardDto>, file: Option<CardServices.Upload>): (r: CardDto)
    ensures r.(imageUrl := form.imageUrl) == form
    ensures editing.Some? && file.None? ==> r.imageUrl == editing.value.imageUrl
    ensures editing.None? || file.Some? ==> r.imageUrl.None?
  {
    form.(imageUrl := if editing.Some? && file.None? then editing.value.imageUrl else None)
  }

  /** The card endpoints' calls; a save carries the `card` part and, when a
      file was chosen, the `file` part. */
  datatype Request =
    | PostCard(card: CardDto, file: Option<CardServices.Upload>)
    | PutCard(target: Option<int>, card: CardDto, file: Option<CardServices.Upload>)
    | DeleteCard(cardId: int)

  /** Saving a card opened for editing without choosing a file keeps its
      image: the server merges the URL it was sent, which is its own. */
  lemma EditWithoutFileKeepsImage(c: Card, form: CardDto)
    requires UpdateEntity(c, CardPart(form, Some(ToDto(c)), None)).Ok?
    ensures UpdateEntity(c, CardPart(form, Some(ToDto(c)), None)).value.imageUrl == c.imageUrl
  {
  }

  /** A new card's image can only come from an uploaded file: the form's
      URL is never sent on creation. */
  lemma CreationSendsNoUrl(form: CardDto, file: Option<CardServices.Upload>)
    requires ToEntity(CardPart(form, None, file)).Ok?
    ensures ToEntity(CardPart(form, None, file)).value.imageUrl.None?
  {
  }

  /** When the edited card has an image, the preview shows it. */
  function PreviewOf(imageUrl: Option<string>): (r: Option<string>)
    ensures r.Some? <==> imageUrl.Some? && imageUrl.value != []
    ensures r.Some? ==> r == imageUrl
  {
    if imageUrl.Some? && imageUrl.value != [] then imageUrl else None
  }

  // ---------------------------------------------------------------------------
  // The screen

  const LoadFailed := "Failed to load cards"
  const UpdateFailed := "Failed to update card"
  const CreateFailed := "Failed to create card"
  const DeleteFailed := "Failed to delete card"

  /** Every state variable of the editor apart from the loading flag. */
  datatype Screen = Screen(
    cards: seq<CardDto>,
    error: Option<string>,
    showForm: bool,
    editingCard: Option<CardDto>,
    selectedFile: Option<CardServices.Upload>,
    imagePreview: Option<string>,
    formData: CardDto)

  datatype Step = Step(screen: Screen, sent: Option<Request>)

  /** What every handler keeps true: a hidden form holds the defaults, edits
      nothing, and has no file and no preview. */
  predicate Valid(s: Screen)
  {
    !s.showForm ==> s.formData == DefaultForm && s.editingCard.None? && s.selectedFile.None? && s.imagePreview.None?
  }

  function Initial(): (r: Screen)
    ensures Valid(r) && !r.showForm && r.cards == []
  {
    Screen([], None, false, None, None, None, DefaultForm)
  }

  /** `loadCards`. */
  function CardsLoaded(s: Screen, response: Option<seq<CardDto>>): (r: Screen)
    ensures Valid(s) ==> Valid(r)
    ensures r.cards == (if response.Some? then response.value else s.cards)
    ensures r.error == (if response.Some? then None else Some(LoadFailed))
  {
    if response.Some? then s.(cards := response.value, error := None) else s.(error := Some(LoadFailed))
  }

  /** `resetForm`. */
  function FormReset(s: Screen): (r: Screen)
    ensures Valid(r) && !r.showForm
    ensures r.cards == s.cards && r.error == s.error
  {
    s.(formData := DefaultForm, editingCard := None, selectedFile := None, imagePreview := None, showForm := false)
  }

  /** The "Add New Card" button. */
  function FormOpened(s: Screen): (r: Screen)
    ensures Valid(s) ==> Valid(r)
    ensures r.showForm
  {
    s.(showForm := true)
  }

  /** `handleEdit`. */
  function EditStarted(s: Screen, card: CardDto): (r: Screen)
    ensures Valid(s) ==> Valid(r)
    ensures r.showForm && r.editingCard == Some(card) && r.formData == card
  {
    s.(editingCard := Some(card), formData := card, imagePreview := PreviewOf(card.imageUrl), showForm := true)
  }

  /** `handleFileChange`, with the preview's object URL as a parameter; an
      empty selection changes nothing. The input is on the form, so the
      form is open. */
  function FileChosen(s: Screen, files: seq<CardServices.Upload>, objectUrl: string): (r: Screen)
    requires s.showForm
    ensures Valid(s) ==> Valid(r)
    ensures files != [] ==> r.selectedFile == Some(files[0]) && r.imagePreview == Some(objectUrl)
    ensures files == [] ==> r == s
  {
    if files == [] then s else s.(selectedFile := Some(files[0]), imagePreview := Some(objectUrl))
  }

  /** A keystroke in one of the form's inputs, which are on the open form. */
  function InputChanged(s: Screen, field: Field, value: string): (r: Screen)
    requires s.showForm
    ensures Valid(s) ==> Valid(r)
  {
    s.(formData := WithInput(s.formData, field, value))
  }

  /** `handleSubmit`. On success the reload is started without waiting, so
      its outcome lands after the error has been cleared. */
  function Submitted(s: Screen, saved: bool, reload: Option<seq<CardDto>>): (r: Step)
    ensures Valid(s) ==> Valid(r.screen)
  {
    var part := CardPart(s.formData, s.editingCard, s.selectedFile);
    var request := if s.editingCard.Some? then PutCard(s.editingCard.value.id, part, s.selectedFile)
                   else PostCard(part, s.selectedFile);
    if saved then Step(CardsLoaded(FormReset(s).(error := None), reload), Some(request))
    else Step(s.(error := Some(if s.editingCard.Some? then UpdateFailed else CreateFailed)), Some(request))
  }

  /** `handleDelete`: nothing happens unless the user confirms. */
  function DeleteClicked(s: Screen, cardId: int, confirmed: bool, deleted: bool, reload: Option<seq<CardDto>>): (r: Step)
    ensures Valid(s) ==> Valid(r.screen)
    ensures r.sent.Some? <==> confirmed
    ensures !confirmed ==> r.screen == s
  {
    if !confirmed then Step(s, None)
    else if deleted then Step(CardsLoaded(s.(error := None), reload), Some(DeleteCard(cardId)))
    else Step(s.(error := Some(DeleteFailed)), Some(DeleteCard(cardId)))
  }

  /** What a submission sends: a PUT to the edited card's id exactly when a
      card is being edited, the chosen file as the file part, and the form as
      the card part with the image URL rule applied. */
  lemma SubmissionShape(s: Screen, saved: bool, reload: Option<seq<CardDto>>)
    ensures var req := Submitted(s, saved, reload).sent;
            req.Some? && (req.value.PutCard? <==> s.editingCard.Some?) && !req.value.DeleteCard? &&
            (req.value.PutCard? ==> req.value.target == s.editingCard.value.id) &&
            req.value.file == s.selectedFile &&
            req.value.card.(imageUrl := s.formData.imageUrl) == s.formData &&
            (req.value.card.imageUrl.Some? ==> s.editingCard.Some? && s.selectedFile.None?)
  {
  }

  /** After a successful save the form is closed and back to its defaults,
      the list is the reloaded one, and the error shown is only the reload's. */
  lemma SavedResetsForm(s: Screen, reload: Option<seq<CardDto>>)
    ensures var r := Submitted(s, true, reload).screen;
            !r.showForm && r.formData == DefaultForm && r.editingCard.None? && r.selectedFile.None? &&
            r.imagePreview.None? && (r.error.Some? <==> reload.None?) &&
            r.cards == (if reload.Some? then reload.value else s.cards)
  {
  }

  /** A failed save keeps everything the user entered, to try again, and
      says whether the update or the creation failed. */
  lemma FailedSaveKeepsForm(s: Screen, reload: Option<seq<CardDto>>)
    ensures var r := Submitted(s, false, reload).screen;
            r == s.(error := r.error) && r.error == Some(if s.editingCard.Some? then UpdateFailed else CreateFailed)
  {
  }

  /** Creating a card from a freshly reset form sends the defaults, with no
      image URL and no file. */
  lemma ResetFormCreatesDefaults(s: Screen, saved: bool, reload: Option<seq<CardDto>>)
    ensures Submitted(FormOpened(FormReset(s)), saved, reload).sent
            == Some(PostCard(DefaultForm.(imageUrl := None), None))
  {
  }

  /** The component: one field per state variable, one method per handler. */
  class CardManager {
    var cards: seq<CardDto>
    var error: Option<string>
    var showForm: bool
    var editingCard: Option<CardDto>
    var selectedFile: Option<CardServices.Upload>
    var imagePreview: Option<string>
    var formData: CardDto

    function Snapshot(): Screen
      reads this
    {
      Screen(cards, error, showForm, editingCard, selectedFile, imagePreview, formData)
    }

    constructor()
      ensures Snapshot() == Initial()
    {
      cards := [];
      error := None;
      showForm := false;
      editingCard := None;
      selectedFile := None;
      imagePreview := None;
      formData := DefaultForm;
    }

    method LoadCards(response: Option<seq<CardDto>>)
      modifies this
      ensures Snapshot() == CardsLoaded(old(Snapshot()), response)
    {
      if response.Some? {
        cards := response.value;
        error := None;
      } else {
        error := Some(LoadFailed);
      }
    }

    method ResetForm()
      modifies this
      ensures Snapshot() == FormReset(old(Snapshot()))
    {
      formData := DefaultForm;
      editingCard := None;
      selectedFile := None;
      imagePreview := None;
      showForm := false;
    }

    method OpenForm()
      modifies this
      ensures Snapshot() == FormOpened(old(Snapshot()))
    {
      showForm := true;
    }

    method HandleEdit(card: CardDto)
      modifies this
      ensures Snapshot() == EditStarted(old(Snapshot()), card)
    {
      editingCard := Some(card);
      formData := card;
      imagePreview := PreviewOf(card.imageUrl);
      showForm := true;
    }

    method HandleFileChange(files: seq<CardServices.Upload>, objectUrl: string)
      requires showForm
      modifies this
      ensures Snapshot() == FileChosen(old(Snapshot()), files, objectUrl)
    {
      if files != [] {
        selectedFile := Some(files[0]);
        imagePreview := Some(objectUrl);
      }
    }

    method HandleInputChange(field: Field, value: string)
      requires showForm
      modifies this
      ensures Snapshot() == InputChanged(old(Snapshot()), field, value)
    {
      formData := WithInput(formData, field, value);
    }

    method HandleSubmit(saved: bool, reload: Option<seq<CardDto>>) returns (sent: Option<Request>)
      modifies this
      ensures Step(Snapshot(), sent) == Submitted(old(Snapshot()), saved, reload)
    {
      var cardData := formData;
      if editingCard.Some? && selectedFile.None? {
        cardData := cardData.(imageUrl := editingCard.value.imageUrl);
      } else {
        cardData := cardData.(imageUrl := None);
      }
      if editingCard.Some? {
        sent := Some(PutCard(editingCard.value.id, cardData, selectedFile));
      } else {
        sent := Some(PostCard(cardData, selectedFile));
      }
      if saved {
        ResetForm();
        error := None;
        LoadCards(reload);
      } else {
        error := Some(if editingCard.Some? then UpdateFailed else CreateFailed);
      }
    }

    method HandleDelete(cardId: int, confirmed: bool, deleted: bool, reload: Option<seq<CardDto>>)
      returns (sent: Option<Request>)
      modifies this
      ensures Step(Snapshot(), sent) == DeleteClicked(old(Snapshot()), cardId, confirmed, deleted, reload)
    {
      sent := None;
      if confirmed {
        sent := Some(DeleteCard(cardId));
        if deleted {
          error := None;
          LoadCards(reload);
        } else {
          error := Some(DeleteFailed);
        }
      }
    }
  }
}
