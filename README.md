# Waifu card game: a verified model of its services and screens

This project models the core of the waifu card game in Dafny and proves properties of that model.

The backend is a Spring application. Each of its services becomes a class whose fields are the repository tables it reads and writes, held as sequences of records:

- `CardService`: the card catalogue, with soft delete and image upload.
- `UserService`: accounts and balances.
- `GachaService`: single and ten pulls, their prices and rarity rates, the ten-pull guarantee of a card above COMMON, and the experience an owned card gains when drawn again.
- `CardCollectionService`, `CollectionImageService` and `DialogueService`: the galleries of a card, their images and the dialogue lines on each image, including search and reordering.
- `FileStorageService`, modelled as the URLs it produces and the remainder after `/uploads` that `deleteFile` cuts from such a URL.
- `CardMapper`, modelled as pure functions between entities and DTOs.

Each service method is a Dafny method. Its postcondition ties the new tables and the result to a specification function of the old tables. Lemmas about those functions state what the service promises: lookups fail exactly when the id is unknown, names stay unique, reordering is idempotent, a ten pull always holds a non-common card.

The React frontend is modelled the same way:

- `CardManager` and `GalleryManager`, the admin editors;
- `CardCollection`, the collection view;
- `GachaSystem`, the pull page;
- `AuthContext` and `ProtectedRoute`, the session and the route guard;
- the image-error fallback.

A component's state is a `Screen` value. Each handler is a pure transition on that value, proved to keep the screen's invariant. A class with one field per state variable has one method per handler, and each method is proved to perform that transition.

Answers from the server, confirmation dialogs, random numbers and storage contents are not computed by the model. They are parameters of the operations that receive them.

Modules, one per file: `Wrappers`, `Text`, `Seqs`, `Ordering`, `Siblings` (shared helpers); `Entities`, `CardMapping`, `FileStorage`, `GalleryDtos` (records and conversions); `CardServices`, `Users`, `Gacha`, `Collections`, `Images`, `Dialogues` (services); `Auth`, `Guard`, `ImageFallback`, `CollectionView`, `GachaPage`, `GalleryAdmin`, `CardAdmin` (frontend).

## Model

| member | source | states |
|---|---|---|
| Entities.RarityValueOf | backend/src/main/java/com/cocin/waifuwar/model/Card.java:60-62 | `Rarity.valueOf` accepts exactly the constant names and returns the constant so named |
| Entities.ElementValueOf | backend/src/main/java/com/cocin/waifuwar/model/Card.java:64-66 | `Element.valueOf` accepts exactly the constant names and returns the constant so named |
| Entities.EmotionValueOf | backend/src/main/java/com/cocin/waifuwar/model/Dialogue.java:41-43 | `EmotionType.valueOf` accepts exactly the constant names and returns the constant so named |
| Entities.NewUser | backend/src/main/java/com/cocin/waifuwar/model/User.java:34-44 | a new account starts with 1000 coins, 100 gems, 0 experience and level 1, with the given name, email and hash |
| Entities.UserIndex | backend/src/main/java/com/cocin/waifuwar/service/UserService.java:46-48 | the position of the user with the id, or -1 exactly when no user has it |
| Entities.NewUserCard | backend/src/main/java/com/cocin/waifuwar/model/UserCard.java:20-38 | a new ownership row links the user and the card at level 1 with 0 experience |
| FileStorage.Extension | backend/src/main/java/com/cocin/waifuwar/service/FileStorageService.java:54-58 | the extension is the text from the last dot after the first character, empty exactly when there is no such dot |
| FileStorage.StoreFile | backend/src/main/java/com/cocin/waifuwar/service/FileStorageService.java:39-73 | a name containing ".." is refused with the invalid-path message; otherwise the URL is `/uploads/<folder>/<unique name><extension>` |
| FileStorage.DeleteTarget | backend/src/main/java/com/cocin/waifuwar/service/FileStorageService.java:79-92 | only URLs under `/uploads` name a file to delete, and the target is the rest of the URL |
| FileStorage.DeleteTargetOfStored | backend/src/main/java/com/cocin/waifuwar/service/FileStorageService.java:69-88 | the delete target of a URL `storeFile` returns is `/<folder>/<generated name><extension>`, the part after `/uploads` |
| CardMapping.DtoList | backend/src/main/java/com/cocin/waifuwar/mapper/CardMapper.java:32-34 | one DTO per card, in the same order |
| CardMapping.UpdateEntity | backend/src/main/java/com/cocin/waifuwar/mapper/CardMapper.java:43-65 | an invalid rarity fails with its parse error; a valid rarity with an invalid element fails with the element's parse error; otherwise the fields are copied, id and active flag kept, and the image URL replaced only by a non-blank one |
| CardMapping.ToEntity | backend/src/main/java/com/cocin/waifuwar/mapper/CardMapper.java:36-41 | a new entity is active, has no id, and fails exactly when updating a blank card from the DTO would |
| CardMapping.NormalisedName | backend/src/main/java/com/cocin/waifuwar/mapper/CardMapper.java:56-65 | trimming and upper-casing leave an upper-case constant name unchanged |
| CardMapping.RarityNameUpper | backend/src/main/java/com/cocin/waifuwar/model/Card.java:60-62 | every rarity name is upper-case letters only |
| CardMapping.ElementNameUpper | backend/src/main/java/com/cocin/waifuwar/model/Card.java:64-66 | every element name is upper-case letters only |
| CardMapping.ParseEnum | backend/src/main/java/com/cocin/waifuwar/mapper/CardMapper.java:55-65 | no value fails with "<field> must not be null"; a value is accepted exactly when its trimmed, upper-cased form names a constant, which is then the result; otherwise it fails with "Unsupported <field>: <value>" quoting the value as sent |
| CardMapping.ParseRarityFieldAccepts | backend/src/main/java/com/cocin/waifuwar/mapper/CardMapper.java:56-65 | a text parses to a rarity exactly when its trimmed upper-cased form is that rarity's name |
| CardMapping.ParseRarityFieldNames | backend/src/main/java/com/cocin/waifuwar/mapper/CardMapper.java:56-65 | both the upper-case and the lower-case name of a rarity parse back to it |
| CardMapping.ParseElementFieldAccepts | backend/src/main/java/com/cocin/waifuwar/mapper/CardMapper.java:56-65 | a text parses to an element exactly when its trimmed upper-cased form is that element's name |
| CardMapping.ParseElementFieldNames | backend/src/main/java/com/cocin/waifuwar/mapper/CardMapper.java:56-65 | every element name parses back to the element |
| CardMapping.UpdateFromOwnDto | backend/src/main/java/com/cocin/waifuwar/mapper/CardMapper.java:18-54 | updating a card from its own DTO leaves it unchanged |
| CardServices.IndexOfId | backend/src/main/java/com/cocin/waifuwar/service/CardService.java:91-98 | the position of the card with the id, or -1 exactly when none has it |
| CardServices.ActiveCard | backend/src/main/java/com/cocin/waifuwar/service/CardService.java:91-98 | found exactly when an active card has the id; otherwise `ResourceNotFound("Card", id)` |
| CardServices.NameLeTotalPreorder | backend/src/main/java/com/cocin/waifuwar/repository/CardRepository.java:14 | ordering cards by name is total and transitive, so the sorted listing is well defined |
| CardServices.ActiveByNameSpec | backend/src/main/java/com/cocin/waifuwar/repository/CardRepository.java:14 | the listing is a permutation of the active cards, all active, in name order |
| CardServices.OwnedCards | backend/src/main/java/com/cocin/waifuwar/service/CardService.java:39-45 | one DTO per ownership row, each the DTO of the card that row references |
| CardServices.RetiredCardStaysOwned | backend/src/main/java/com/cocin/waifuwar/service/CardService.java:39-45 | after a soft delete the card still shows among its owner's cards but no longer in the catalogue |
| CardServices.SoftDeletedReferenced | backend/src/main/java/com/cocin/waifuwar/service/CardService.java:85-89 | a soft delete keeps every ownership row pointing at a stored card |
| CardServices.SoftDeletedStillOwned | backend/src/main/java/com/cocin/waifuwar/service/CardService.java:39-45 | a retired card still yields a DTO among the cards of a user who owns it |
| CardServices.SoftDeletedNotListed | backend/src/main/java/com/cocin/waifuwar/repository/CardRepository.java:14 | a retired card has no DTO in the active listing |
| CardServices.SoftDeleted | backend/src/main/java/com/cocin/waifuwar/service/CardService.java:85-89 | only the card with the id is changed, and only its active flag is cleared |
| CardServices.SoftDeleteHidesCard | backend/src/main/java/com/cocin/waifuwar/service/CardService.java:85-98 | a deleted card is no longer found, its row stays, and every other card's lookup is unchanged |
| CardServices.SecondDeleteFails | backend/src/main/java/com/cocin/waifuwar/service/CardService.java:85-98 | deleting a deleted card fails with not-found and would change nothing |
| CardServices.Replaced | backend/src/main/java/com/cocin/waifuwar/service/CardService.java:73-83 | the card with the same id is replaced and every other row kept |
| CardServices.StoreCardFile | backend/src/main/java/com/cocin/waifuwar/service/CardService.java:120-125 | the old file, if any, is deleted before the new one is stored, and the new URL is the stored file's |
| CardServices.CreateStep | backend/src/main/java/com/cocin/waifuwar/service/CardService.java:64-71 | a DTO with a bad rarity or element fails with no file touched; a created card takes the next id, is active, and has the uploaded file's URL or none |
| CardServices.UpdateStep | backend/src/main/java/com/cocin/waifuwar/service/CardService.java:73-83 | an unknown or inactive id fails with not-found before anything else; an update keeps the id and the active flag |
| CardServices.CreatedCardFound | backend/src/main/java/com/cocin/waifuwar/service/CardService.java:64-71 | a created card is found by its new id, the table stays well formed and every ownership row still names a stored card |
| CardServices.UpdatedCardFound | backend/src/main/java/com/cocin/waifuwar/service/CardService.java:73-83 | an updated card is found with its new contents and every other lookup is unchanged |
| CardServices.ParseRarity | backend/src/main/java/com/cocin/waifuwar/service/CardService.java:100-106 | null and unknown names fail with `Unsupported rarity: <raw>`; otherwise the trimmed upper-cased text names the rarity |
| CardServices.ParseElement | backend/src/main/java/com/cocin/waifuwar/service/CardService.java:108-114 | null and unknown names fail with `Unsupported element: <raw>`; otherwise the trimmed upper-cased text names the element |
| CardServices.CardService.constructor | backend/src/main/java/com/cocin/waifuwar/service/CardService.java:26-32 | the service starts over the given tables with no file operations |
| CardServices.CardService.GetUserCards | backend/src/main/java/com/cocin/waifuwar/service/CardService.java:39-45 | one DTO per ownership row of the user, in row order, each the DTO of the stored card that row names |
| CardServices.CardService.GetCardsByRarity | backend/src/main/java/com/cocin/waifuwar/service/CardService.java:52-56 | a bad rarity fails with its parse error; otherwise the DTOs of the stored active cards of that rarity in table order: every such card is listed, and every listed DTO is that of a stored active card of that rarity |
| CardServices.CardService.GetCardsByElement | backend/src/main/java/com/cocin/waifuwar/service/CardService.java:58-62 | a bad element fails with its parse error; otherwise the DTOs of the stored active cards of that element in table order: every such card is listed, and every listed DTO is that of a stored active card of that element |
| CardServices.RarityListing | backend/src/main/java/com/cocin/waifuwar/service/CardService.java:52-56 | every active card of the rarity has its DTO listed, every listed DTO is that of a stored active card of the rarity, and names that rarity |
| CardServices.ElementListing | backend/src/main/java/com/cocin/waifuwar/service/CardService.java:58-62 | every active card of the element has its DTO listed, every listed DTO is that of a stored active card of the element, and names that element |
| CardServices.ActiveOfRarityMembers | backend/src/main/java/com/cocin/waifuwar/service/CardService.java:52-56 | the rarity query returns exactly the stored cards that are active and of that rarity |
| CardServices.ActiveOfElementMembers | backend/src/main/java/com/cocin/waifuwar/service/CardService.java:58-62 | the element query returns exactly the stored cards that are active and of that element |
| CardServices.CardService.GetAllCards | backend/src/main/java/com/cocin/waifuwar/service/CardService.java:34-37 | the DTOs of the active cards in name order |
| CardServices.CardService.GetCard | backend/src/main/java/com/cocin/waifuwar/service/CardService.java:47-50 | the DTO of the active card with the id, or not-found |
| CardServices.CardService.CreateCard | backend/src/main/java/com/cocin/waifuwar/service/CardService.java:64-71 | the table grows by the created card exactly when the creation step succeeds, and the file operations are the step's |
| CardServices.CardService.SaveNew | backend/src/main/java/com/cocin/waifuwar/service/CardService.java:69 | a new card takes the next id and is appended; the table stays well formed and every ownership row still names a stored card |
| CardServices.CardService.UpdateCard | backend/src/main/java/com/cocin/waifuwar/service/CardService.java:73-83 | the card is replaced exactly when the update step succeeds, and the file operations are the step's |
| CardServices.CardService.DeleteCard | backend/src/main/java/com/cocin/waifuwar/service/CardService.java:85-89 | fails with not-found and changes nothing exactly when no active card has the id; otherwise soft-deletes it |
| Users.FirstNamed | backend/src/main/java/com/cocin/waifuwar/service/UserService.java:42-44 | finds a user exactly when the name is taken, and the user found has that name |
| Users.RegistrationCheck | backend/src/main/java/com/cocin/waifuwar/service/UserService.java:23-30 | a taken username is refused first, then a taken email, each with its own message; otherwise registration proceeds |
| Users.RegistrationKeepsUnique | backend/src/main/java/com/cocin/waifuwar/service/UserService.java:23-40 | an account that passed the check keeps usernames and emails unique |
| Users.UsernameRegisteredOnce | backend/src/main/java/com/cocin/waifuwar/service/UserService.java:23-27 | registering the same username again is refused |
| Users.CurrencyUpdated | backend/src/main/java/com/cocin/waifuwar/service/UserService.java:57-70 | a given amount replaces the balance, an absent one keeps it, and nothing else changes |
| Users.CurrencyUpdateIdempotent | backend/src/main/java/com/cocin/waifuwar/service/UserService.java:57-70 | applying the same update twice is applying it once, and an empty update changes nothing |
| Users.UserService.constructor | backend/src/main/java/com/cocin/waifuwar/service/UserService.java:15-19 | the service starts with no users and the given password encoder |
| Users.UserService.CreateUser | backend/src/main/java/com/cocin/waifuwar/service/UserService.java:23-40 | a refused registration changes nothing; otherwise one account with the defaults and the encoded password is added and its DTO returned |
| Users.UserService.FindByUsername | backend/src/main/java/com/cocin/waifuwar/service/UserService.java:42-44 | found exactly when the name is taken, with that name |
| Users.UserService.FindById | backend/src/main/java/com/cocin/waifuwar/service/UserService.java:46-48 | found exactly when some user has the id, with that id |
| Users.UserService.GetUserProfile | backend/src/main/java/com/cocin/waifuwar/service/UserService.java:50-54 | the DTO of the user with the id, or `User not found` exactly when there is none |
| Users.UserService.UpdateUserCurrency | backend/src/main/java/com/cocin/waifuwar/service/UserService.java:57-70 | an unknown user fails and nothing changes; otherwise only that user's balances are updated |
| Gacha.PullCost | backend/src/main/java/com/cocin/waifuwar/service/GachaService.java:35-38 | a single pull costs 100 coins or 1 gem, a ten pull 900 coins or 9 gems |
| Gacha.TierBands | backend/src/main/java/com/cocin/waifuwar/service/GachaService.java:30-33 | a roll of 1..100 gives legendary on 1, epic on 2-5, rare on 6-30, common on 31-100: 1, 4, 25 and 70 chances |
| Gacha.GuaranteedRarity | backend/src/main/java/com/cocin/waifuwar/service/GachaService.java:162-172 | the bonus draw is never common: legendary on 1, epic up to 5, rare otherwise |
| Gacha.PoolOf | backend/src/main/java/com/cocin/waifuwar/service/GachaService.java:155-158 | exactly the active cards of the rarity |
| Gacha.Pick | backend/src/main/java/com/cocin/waifuwar/service/GachaService.java:159 | an empty pool fails like `nextInt(0)`; otherwise the card comes from the pool |
| Gacha.DrawRandomCard | backend/src/main/java/com/cocin/waifuwar/service/GachaService.java:141-160 | fails exactly when both the rolled rarity's pool and the common pool are empty; otherwise an active card of the rolled rarity, or common when that pool is empty |
| Gacha.DrawGuaranteedRareCard | backend/src/main/java/com/cocin/waifuwar/service/GachaService.java:162-179 | fails exactly when both its pool and the rare pool are empty; otherwise an active card that is not common |
| Gacha.DrawTurnEffect | backend/src/main/java/com/cocin/waifuwar/service/GachaService.java:80-95 | each turn appends one card and records whether every card so far is common |
| Gacha.DrawsInvariant | backend/src/main/java/com/cocin/waifuwar/service/GachaService.java:80-95 | after n turns n cards are drawn and the pending-guarantee flag says whether all are common |
| Gacha.DrawStep | backend/src/main/java/com/cocin/waifuwar/service/GachaService.java:80-95 | one turn adds one active catalogue card; before the last turn the guarantee stays owed exactly while every card is COMMON, and after the tenth some card is not COMMON |
| Gacha.TenPullGuarantee | backend/src/main/java/com/cocin/waifuwar/service/GachaService.java:80-95 | a successful ten pull draws ten cards, at least one of them not common |
| Gacha.DrawsSucceed | backend/src/main/java/com/cocin/waifuwar/service/GachaService.java:141-179 | when the common and rare pools are non-empty no turn fails |
| Gacha.TurnSucceeds | backend/src/main/java/com/cocin/waifuwar/service/GachaService.java:141-179 | with an active COMMON and an active RARE card in the catalogue a single turn never fails |
| Gacha.ValidateCurrency | backend/src/main/java/com/cocin/waifuwar/service/GachaService.java:112-119 | refused exactly when the chosen balance is below the cost, with `Not enough gems` or `Not enough coins` |
| Gacha.DeductCurrency | backend/src/main/java/com/cocin/waifuwar/service/GachaService.java:121-127 | only the chosen balance drops, by the cost |
| Gacha.DeductAfterValidation | backend/src/main/java/com/cocin/waifuwar/service/GachaService.java:112-127 | after a passed check the charged balance stays non-negative and the other is untouched |
| Gacha.Charge | backend/src/main/java/com/cocin/waifuwar/service/GachaService.java:49-56 | an unknown user fails with not-found, a short balance with the currency error; otherwise the user is charged |
| Gacha.OwnedIndex | backend/src/main/java/com/cocin/waifuwar/service/GachaService.java:129-139 | the ownership row of the user and card, or -1 exactly when there is none |
| Gacha.OwnedIndexSameKeys | backend/src/main/java/com/cocin/waifuwar/service/GachaService.java:129-139 | the lookup depends only on the rows' user and card ids |
| Gacha.UpsertExperience | backend/src/main/java/com/cocin/waifuwar/service/GachaService.java:129-139 | a card drawn again gains 10 experience, a new one gets a row with 0, and rows stay unique per user and card |
| Gacha.UpsertOther | backend/src/main/java/com/cocin/waifuwar/service/GachaService.java:129-139 | recording a card leaves every other ownership's experience unchanged |
| Gacha.RecordedRun | backend/src/main/java/com/cocin/waifuwar/service/GachaService.java:80-95 | recording one more drawn card extends the record of the run by that card |
| Gacha.UpsertAllUnique | backend/src/main/java/com/cocin/waifuwar/service/GachaService.java:80-95 | recording a whole run keeps ownership rows unique |
| Gacha.UpsertAllExperience | backend/src/main/java/com/cocin/waifuwar/service/GachaService.java:80-95 | after a run a card's experience reflects how many times it was drawn, from 0 if it was new |
| Gacha.UpsertAllOthers | backend/src/main/java/com/cocin/waifuwar/service/GachaService.java:80-95 | a run leaves other users' ownerships unchanged |
| Gacha.DrawnIds | backend/src/main/java/com/cocin/waifuwar/service/GachaService.java:61-68 | the ids of the drawn cards, one per card in order |
| Gacha.PullType | backend/src/main/java/com/cocin/waifuwar/service/GachaService.java:61-68 | the pull type is `SINGLE_` or `TEN_` followed by `GEM` or `COIN` |
| Gacha.GachaService.constructor | backend/src/main/java/com/cocin/waifuwar/service/GachaService.java:40-47 | the service starts over the given users and cards with no ownership rows |
| Gacha.GachaService.PerformSinglePull | backend/src/main/java/com/cocin/waifuwar/service/GachaService.java:49-69 | a refused charge changes nothing; otherwise the user is charged 100 coins or 1 gem, one card is drawn and recorded, and the result lists it |
| Gacha.GachaService.RecordDraw | backend/src/main/java/com/cocin/waifuwar/service/GachaService.java:129-139 | the ownership table becomes the upsert of the drawn card, keeping rows unique |
| Gacha.GachaService.DrawTen | backend/src/main/java/com/cocin/waifuwar/service/GachaService.java:80-95 | fails exactly when the ten-turn draw does; otherwise returns its ten cards and records every one |
| Gacha.GachaService.PerformTenPull | backend/src/main/java/com/cocin/waifuwar/service/GachaService.java:72-110 | a refused charge changes nothing; otherwise the user is charged 900 coins or 9 gems and ten cards with the guarantee are drawn and recorded |
| Gacha.TurnAgrees | backend/src/main/java/com/cocin/waifuwar/service/GachaService.java:80-95 | the loop's next card agrees with the next turn of the draw specification |
| Gacha.DrawsFailed | backend/src/main/java/com/cocin/waifuwar/service/GachaService.java:80-95 | once a turn fails, the draw's outcome is that failure |
| Gacha.TenPullFails | backend/src/main/java/com/cocin/waifuwar/service/GachaService.java:80-95 | a ten pull whose n-th turn fails ends with that turn's error |
| Gacha.DrawsFailedAt | backend/src/main/java/com/cocin/waifuwar/service/GachaService.java:80-95 | a failure at turn n is the outcome at every later turn |
| Collections.CollectionIndex | backend/src/main/java/com/cocin/waifuwar/service/CardCollectionService.java:59-85 | the position of the collection with the id, or -1 exactly when none has it |
| Collections.CountForCard | backend/src/main/java/com/cocin/waifuwar/service/CardCollectionService.java:52-56 | the number of collections of the card, at most the table's size |
| Collections.CreationCheck | backend/src/main/java/com/cocin/waifuwar/service/CardCollectionService.java:33-39 | refused with card-not-found for an unknown card, then with the duplicate-name message when the card already has that name |
| Collections.RenameCheck | backend/src/main/java/com/cocin/waifuwar/service/CardCollectionService.java:69-72 | refused exactly when the name changes to one the card already uses |
| Collections.CreationKeepsWellFormed | backend/src/main/java/com/cocin/waifuwar/service/CardCollectionService.java:33-49 | a checked creation keeps ids unique and names unique per card |
| Collections.RenameKeepsWellFormed | backend/src/main/java/com/cocin/waifuwar/service/CardCollectionService.java:65-79 | a checked rename keeps names unique per card |
| Collections.RemovalKeepsWellFormed | backend/src/main/java/com/cocin/waifuwar/service/CardCollectionService.java:81-85 | deleting keeps the table well formed |
| Collections.CountAfterCreate | backend/src/main/java/com/cocin/waifuwar/service/CardCollectionService.java:33-49 | creating adds one to exactly its card's count |
| Collections.NameUsedOnce | backend/src/main/java/com/cocin/waifuwar/service/CardCollectionService.java:33-39 | creating the same name again for the card is refused |
| Collections.SearchByName | backend/src/main/java/com/cocin/waifuwar/service/CardCollectionService.java:87-92 | exactly the collections whose name contains the text, ignoring case |
| Collections.CollectionsOfCard | backend/src/main/java/com/cocin/waifuwar/service/CardCollectionService.java:52-56 | exactly the collections of the card: as many as it has, each its DTO |
| Collections.CollectionService.constructor | backend/src/main/java/com/cocin/waifuwar/service/CardCollectionService.java:27-31 | the service starts with no collections over the given cards |
| Collections.CollectionService.GetCollectionsByCardId | backend/src/main/java/com/cocin/waifuwar/service/CardCollectionService.java:52-56 | every collection of the card and nothing else |
| Collections.CollectionService.GetCollectionById | backend/src/main/java/com/cocin/waifuwar/service/CardCollectionService.java:59-63 | the DTO of the collection with the id, or `ResourceNotFound("Collection", id)` exactly when there is none |
| Collections.CollectionService.CreateCollection | backend/src/main/java/com/cocin/waifuwar/service/CardCollectionService.java:33-49 | a refused check changes nothing; otherwise one empty collection with the next id is added, its order index the number of collections the card already had |
| Collections.CollectionService.UpdateCollection | backend/src/main/java/com/cocin/waifuwar/service/CardCollectionService.java:65-79 | an unknown id or a clashing name changes nothing; otherwise only that collection's name and description change |
| Collections.CollectionService.DeleteCollection | backend/src/main/java/com/cocin/waifuwar/service/CardCollectionService.java:81-85 | an unknown id fails and changes nothing; otherwise that collection is removed |
| Images.ImageIndex | backend/src/main/java/com/cocin/waifuwar/service/CollectionImageService.java:61-90 | the position of the image with the id, or -1 exactly when none has it |
| Images.CountInCollection | backend/src/main/java/com/cocin/waifuwar/service/CollectionImageService.java:53-59 | the number of images of the collection |
| Images.CountAfterCreate | backend/src/main/java/com/cocin/waifuwar/service/CollectionImageService.java:33-51 | adding an image adds one to exactly its collection's count |
| Images.Edited | backend/src/main/java/com/cocin/waifuwar/service/CollectionImageService.java:70-83 | URL, title and description replaced, order index only when given, everything else kept |
| Images.EditWithOwnValues | backend/src/main/java/com/cocin/waifuwar/service/CollectionImageService.java:70-83 | editing an image with its own values changes nothing |
| Images.CollectionListingSpec | backend/src/main/java/com/cocin/waifuwar/repository/CollectionImageRepository.java:18-22 | every image of the collection and nothing else, in order-index order |
| Images.ListingShape | backend/src/main/java/com/cocin/waifuwar/repository/CollectionImageRepository.java:18-22 | the listing has one entry per image of the collection, all of that collection, in order-index order |
| Images.ListingMembers | backend/src/main/java/com/cocin/waifuwar/repository/CollectionImageRepository.java:18-22 | the listing holds stored images only, and every image of the collection |
| Images.TitleMatchesSpec | backend/src/main/java/com/cocin/waifuwar/service/CollectionImageService.java:92-98 | exactly the collection's images whose title contains the text, ignoring case |
| Images.ImageOfIndex | backend/src/main/java/com/cocin/waifuwar/service/CollectionImageService.java:103-111 | the position of the image with the id in the collection, or -1 exactly when it is not there |
| Images.FirstForeign | backend/src/main/java/com/cocin/waifuwar/service/CollectionImageService.java:103-111 | the first listed id that is not an image of the collection |
| Images.Repositioned | backend/src/main/java/com/cocin/waifuwar/service/CollectionImageService.java:103-111 | each listed image takes its position in the list as order index |
| Images.Reordered | backend/src/main/java/com/cocin/waifuwar/service/CollectionImageService.java:100-113 | fails with `Image not found with id` for the first foreign id; otherwise the listed images are repositioned |
| Images.ReorderPlacesListed | backend/src/main/java/com/cocin/waifuwar/service/CollectionImageService.java:103-111 | each listed image ends in the collection with the position of its last occurrence in the list, which is its own list position when no id repeats |
| Images.ReorderKeepsOthers | backend/src/main/java/com/cocin/waifuwar/service/CollectionImageService.java:103-111 | only order indices change, and images not listed do not change at all |
| Images.ReorderIdempotent | backend/src/main/java/com/cocin/waifuwar/service/CollectionImageService.java:100-113 | reordering twice with the same list is reordering once |
| Images.RepositionedSnoc | backend/src/main/java/com/cocin/waifuwar/service/CollectionImageService.java:103-111 | one more list entry moves exactly its image |
| Images.ReorderStep | backend/src/main/java/com/cocin/waifuwar/service/CollectionImageService.java:103-111 | one loop step agrees with the specification on the list so far |
| Images.ReorderAborts | backend/src/main/java/com/cocin/waifuwar/service/CollectionImageService.java:100-113 | the loop stops at the first foreign id with the specification's error |
| Images.ReorderCompletes | backend/src/main/java/com/cocin/waifuwar/service/CollectionImageService.java:100-113 | a completed loop leaves the specification's table |
| Images.ForeignLater | backend/src/main/java/com/cocin/waifuwar/service/CollectionImageService.java:104-108 | an id that names an image of the collection is not where the loop aborts |
| Images.RepositionedKeepsIds | backend/src/main/java/com/cocin/waifuwar/service/CollectionImageService.java:103-111 | reordering keeps ids unique |
| Images.ImageService.constructor | backend/src/main/java/com/cocin/waifuwar/service/CollectionImageService.java:22-29 | the service starts with no images over the given collections |
| Images.ImageService.CreateImage | backend/src/main/java/com/cocin/waifuwar/service/CollectionImageService.java:33-51 | an unknown collection fails and changes nothing; otherwise one image placed after the collection's current ones is added |
| Images.ImageService.GetImagesByCollectionId | backend/src/main/java/com/cocin/waifuwar/service/CollectionImageService.java:53-59 | every image of the collection and nothing else, in order-index order |
| Images.ImageService.GetImageById | backend/src/main/java/com/cocin/waifuwar/service/CollectionImageService.java:61-68 | the DTO of the image with the id, or not-found exactly when there is none |
| Images.ImageService.UpdateImage | backend/src/main/java/com/cocin/waifuwar/service/CollectionImageService.java:70-83 | an unknown id fails and changes nothing; otherwise only that image is edited |
| Images.ImageService.DeleteImage | backend/src/main/java/com/cocin/waifuwar/service/CollectionImageService.java:85-90 | an unknown id fails and changes nothing; otherwise that image is removed |
| Images.ImageService.ReorderImages | backend/src/main/java/com/cocin/waifuwar/service/CollectionImageService.java:100-113 | on success the table is the reordering specification's result; on a foreign id the error is returned and, the transaction rolling back, nothing changes |
| Dialogues.DialogueIndex | backend/src/main/java/com/cocin/waifuwar/service/DialogueService.java:65-102 | the position of the dialogue with the id, or -1 exactly when none has it |
| Dialogues.CountOnImage | backend/src/main/java/com/cocin/waifuwar/service/DialogueService.java:57-63 | the number of dialogues on the image |
| Dialogues.CountAfterCreate | backend/src/main/java/com/cocin/waifuwar/service/DialogueService.java:28-55 | adding a dialogue adds one to exactly its image's count |
| Dialogues.ParseEmotion | backend/src/main/java/com/cocin/waifuwar/service/DialogueService.java:40-47 | accepted exactly when the upper-cased text names an emotion; otherwise `Invalid emotion type: <text>` |
| Dialogues.EmotionAfter | backend/src/main/java/com/cocin/waifuwar/service/DialogueService.java:72-95 | an absent emotion keeps the current one; a given one must parse |
| Dialogues.EmotionNameUpper | backend/src/main/java/com/cocin/waifuwar/model/Dialogue.java:41-43 | every emotion name is upper-case letters only |
| Dialogues.ParseEmotionNames | backend/src/main/java/com/cocin/waifuwar/service/DialogueService.java:40-47 | upper-case and lower-case emotion names both parse back |
| Dialogues.EmotionNotTrimmed | backend/src/main/java/com/cocin/waifuwar/service/DialogueService.java:40-47 | unlike card enums, emotion text is not trimmed: a leading space is refused |
| Dialogues.Edited | backend/src/main/java/com/cocin/waifuwar/service/DialogueService.java:72-95 | a bad emotion fails; otherwise text and speaker are always overwritten (a missing speaker clears it), emotion and order index change only when given, id and image are kept |
| Dialogues.EditFromOwnDto | backend/src/main/java/com/cocin/waifuwar/service/DialogueService.java:72-95 | editing a dialogue with its own DTO's values changes nothing |
| Dialogues.ImageListingSpec | backend/src/main/java/com/cocin/waifuwar/repository/DialogueRepository.java:16 | every dialogue of the image and nothing else, in order-index order |
| Dialogues.RangeListingSpec | backend/src/main/java/com/cocin/waifuwar/repository/DialogueRepository.java:48-55 | every dialogue of the image whose order index lies in the bounds, in order |
| Dialogues.RangeShape | backend/src/main/java/com/cocin/waifuwar/repository/DialogueRepository.java:48-55 | the range listing holds only dialogues of the image within the bounds, in order-index order |
| Dialogues.RangeMembers | backend/src/main/java/com/cocin/waifuwar/repository/DialogueRepository.java:48-55 | the range listing holds stored dialogues only, and every dialogue of the image within the bounds |
| Dialogues.ImageDtosComplete | backend/src/main/java/com/cocin/waifuwar/service/DialogueService.java:57-63 | every dialogue of the image has its DTO in the converted listing |
| Dialogues.SpeakersOf | backend/src/main/java/com/cocin/waifuwar/repository/DialogueRepository.java:44-45 | each speaker of the image once, and only speakers of the image |
| Dialogues.ChooseCriterion | backend/src/main/java/com/cocin/waifuwar/service/DialogueService.java:104-126 | non-blank text wins, then a non-blank speaker, then a non-blank emotion |
| Dialogues.Search | backend/src/main/java/com/cocin/waifuwar/service/DialogueService.java:104-126 | fails exactly when the emotion criterion is chosen and does not parse |
| Dialogues.SearchSpec | backend/src/main/java/com/cocin/waifuwar/service/DialogueService.java:104-126 | the result is exactly the image's dialogues meeting the chosen criterion, in order |
| Dialogues.SelectedSpec | backend/src/main/java/com/cocin/waifuwar/service/DialogueService.java:104-126 | the selection holds only the image's dialogues meeting the criterion, all of them, in order-index order |
| Dialogues.SelectedOrdered | backend/src/main/java/com/cocin/waifuwar/service/DialogueService.java:104-126 | the selection is in order-index order |
| Dialogues.SelectedMeets | backend/src/main/java/com/cocin/waifuwar/service/DialogueService.java:104-126 | every selected dialogue is of the image and meets the criterion |
| Dialogues.SelectedComplete | backend/src/main/java/com/cocin/waifuwar/service/DialogueService.java:104-126 | every dialogue of the image that meets the criterion is selected |
| Dialogues.TextTakesPrecedence | backend/src/main/java/com/cocin/waifuwar/service/DialogueService.java:104-126 | with a text given, speaker and emotion are ignored and the search cannot fail |
| Dialogues.EmptySearchIsListing | backend/src/main/java/com/cocin/waifuwar/service/DialogueService.java:104-126 | with no criterion given the search is the image's listing |
| Dialogues.DialogueOfIndex | backend/src/main/java/com/cocin/waifuwar/service/DialogueService.java:133-146 | the position of the dialogue with the id on the image, or -1 exactly when it is not there |
| Dialogues.FirstForeign | backend/src/main/java/com/cocin/waifuwar/service/DialogueService.java:133-146 | the first listed id that is not a dialogue of the image |
| Dialogues.Repositioned | backend/src/main/java/com/cocin/waifuwar/service/DialogueService.java:133-146 | each listed dialogue takes its position in the list as order index |
| Dialogues.Reordered | backend/src/main/java/com/cocin/waifuwar/service/DialogueService.java:133-146 | fails with `Dialogue not found with id` for the first foreign id; otherwise the listed dialogues are repositioned |
| Dialogues.ReorderPlacesListed | backend/src/main/java/com/cocin/waifuwar/service/DialogueService.java:133-146 | each listed dialogue ends on the image with the position of its last occurrence in the list, which is its own list position when no id repeats |
| Dialogues.ReorderKeepsOthers | backend/src/main/java/com/cocin/waifuwar/service/DialogueService.java:133-146 | only order indices change, and dialogues not listed do not change at all |
| Dialogues.RepositionedSnoc | backend/src/main/java/com/cocin/waifuwar/service/DialogueService.java:133-146 | one more list entry moves exactly its dialogue |
| Dialogues.ReorderStep | backend/src/main/java/com/cocin/waifuwar/service/DialogueService.java:133-146 | one loop step agrees with the specification on the list so far |
| Dialogues.ReorderAborts | backend/src/main/java/com/cocin/waifuwar/service/DialogueService.java:133-146 | the loop stops at the first foreign id with the specification's error |
| Dialogues.ReorderCompletes | backend/src/main/java/com/cocin/waifuwar/service/DialogueService.java:133-146 | a completed loop leaves the specification's table |
| Dialogues.ForeignLater | backend/src/main/java/com/cocin/waifuwar/service/DialogueService.java:137-141 | an id that names a dialogue of the image is not where the loop aborts |
| Dialogues.RepositionedKeepsIds | backend/src/main/java/com/cocin/waifuwar/service/DialogueService.java:133-146 | reordering keeps ids unique |
| Dialogues.DialogueService.constructor | backend/src/main/java/com/cocin/waifuwar/service/DialogueService.java:22-26 | the service starts with no dialogues over the given images |
| Dialogues.DialogueService.GetDialoguesByImageId | backend/src/main/java/com/cocin/waifuwar/service/DialogueService.java:57-63 | every dialogue of the image and nothing else, in order-index order |
| Dialogues.DialogueService.GetDialogueById | backend/src/main/java/com/cocin/waifuwar/service/DialogueService.java:65-70 | the DTO of the dialogue with the id, or not-found exactly when there is none |
| Dialogues.DialogueService.GetUniqueSpeakers | backend/src/main/java/com/cocin/waifuwar/service/DialogueService.java:128-131 | each speaker of the image's dialogues exactly once |
| Dialogues.DialogueService.GetDialoguesByOrderRange | backend/src/main/java/com/cocin/waifuwar/service/DialogueService.java:148-155 | exactly the image's dialogues whose order index is within the bounds, in order |
| Dialogues.DialogueService.CreateDialogue | backend/src/main/java/com/cocin/waifuwar/service/DialogueService.java:28-55 | an unknown image or a bad emotion fails and changes nothing; otherwise one dialogue after the image's current ones is added, neutral by default |
| Dialogues.DialogueService.UpdateDialogue | backend/src/main/java/com/cocin/waifuwar/service/DialogueService.java:72-95 | an unknown id or a bad emotion fails and changes nothing; otherwise only that dialogue is edited |
| Dialogues.DialogueService.DeleteDialogue | backend/src/main/java/com/cocin/waifuwar/service/DialogueService.java:97-102 | an unknown id fails and changes nothing; otherwise that dialogue is removed |
| Dialogues.DialogueService.ReorderDialogues | backend/src/main/java/com/cocin/waifuwar/service/DialogueService.java:133-146 | on success the table is the reordering specification's result; on a foreign id the error is returned and, the transaction rolling back, nothing changes |
| GalleryDtos.DialoguesToDtos | backend/src/main/java/com/cocin/waifuwar/service/DialogueService.java:57-63 | one DTO per dialogue, in order |
| GalleryDtos.ImagesToDtos | backend/src/main/java/com/cocin/waifuwar/service/CollectionImageService.java:53-59 | one DTO per image, in order |
| GalleryDtos.EmotionNameInjective | backend/src/main/java/com/cocin/waifuwar/model/Dialogue.java:41-43 | distinct emotions have distinct names |
| GalleryDtos.DialogueDtoInjective | backend/src/main/java/com/cocin/waifuwar/service/CardCollectionService.java:124-135 | the dialogue DTO loses no field, so equal DTOs mean equal dialogues |
| GalleryDtos.DialoguesDtosInjective | backend/src/main/java/com/cocin/waifuwar/service/CardCollectionService.java:108-122 | equal DTO lists mean equal dialogue lists |
| GalleryDtos.ImageDtoInjective | backend/src/main/java/com/cocin/waifuwar/service/CardCollectionService.java:108-122 | the image DTO loses nothing of the image, dialogues included |
| GalleryDtos.CollectionDtoInjective | backend/src/main/java/com/cocin/waifuwar/service/CardCollectionService.java:94-106 | equal collection DTOs come from collections that agree on everything the DTO carries, images included; only the order index, which the DTO omits, may differ |
| CollectionView.FilterAllKeepsEverything | frontend/src/components/CardCollection.tsx:33-44 | the `all` filter keeps every card |
| CollectionView.OwnedSplit | frontend/src/components/CardCollection.tsx:34-39 | `owned` and `not_owned` split the catalogue into the owned and the other cards |
| CollectionView.RarityFilterExact | frontend/src/components/CardCollection.tsx:40-42 | any other filter keeps exactly the cards of that rarity |
| CollectionView.FilteredInOrder | frontend/src/components/CardCollection.tsx:33-44 | filtering keeps the catalogue's order |
| CollectionView.SortLeTotalPreorder | frontend/src/components/CardCollection.tsx:46-62 | each sort key orders cards totally and transitively |
| CollectionView.SortedCardsSpec | frontend/src/components/CardCollection.tsx:46-62 | the sorted list is a permutation of the filtered one, in the chosen key's order, and stable: cards the key ranks equal keep their filtered order |
| CollectionView.UnknownKeyKeepsOrder | frontend/src/components/CardCollection.tsx:46-62 | an unknown sort key leaves the order unchanged |
| CollectionView.ShowingCount | frontend/src/components/CardCollection.tsx:145 | the shown count is the number of filtered cards |
| CollectionView.IdSet | frontend/src/components/CardCollection.tsx:152 | the set of ids of the cards |
| CollectionView.UniqueIdsCount | frontend/src/components/CardCollection.tsx:121-123 | with distinct ids, the number of ids is the number of cards |
| CollectionView.OwnedCount | frontend/src/components/CardCollection.tsx:34-36 | the owned filter shows as many cards as ids the user owns in the catalogue |
| CollectionView.NotOwnedLabelExact | frontend/src/components/CardCollection.tsx:123 | when every owned card is in the catalogue, the not-owned label equals the cards the filter shows |
| CollectionView.NotOwnedLabelOffForRetiredCard | frontend/src/components/CardCollection.tsx:123 | an owned card missing from the catalogue makes the label undercount |
| GachaPage.ClientCostMatchesServer | frontend/src/components/GachaSystem.tsx:23-25 | the page's costs are the server's |
| GachaPage.ClientCheckAgrees | frontend/src/components/GachaSystem.tsx:27-32 | the page refuses exactly when the server would refuse the user |
| GachaPage.DisabledIffRefused | frontend/src/components/GachaSystem.tsx:278-318 | a button is disabled exactly while loading or when its pull would be refused |
| GachaPage.CostUnitMatchesCurrency | frontend/src/components/GachaSystem.tsx:108 | the result screen's unit is gems exactly for gem pulls |
| GachaPage.GachaScreen.constructor | frontend/src/components/GachaSystem.tsx:5-9 | the page starts idle with no result, shows the given user and keeps that user's id |
| GachaPage.GachaScreen.StartPull | frontend/src/components/GachaSystem.tsx:20-39 | nothing while loading; a short balance alerts and sends nothing; otherwise the pull is sent to the endpoint of its kind for the `user` prop's id (line 38), whatever profile the last refresh brought back |
| GachaPage.GachaScreen.CompletePull | frontend/src/components/GachaSystem.tsx:40-49 | a success shows the result and refreshes the balance, a failure alerts; loading ends either way |
| Auth.ReadStoredUser | frontend/src/contexts/AuthContext.tsx:17-25 | no stored entry, or an empty one, means no user; a non-empty one is parsed |
| Auth.Persisted | frontend/src/contexts/AuthContext.tsx:36-43 | logging in stores the serialised user under the key; logging out removes the key |
| Auth.LogoutThenRead | frontend/src/contexts/AuthContext.tsx:36-46 | after logout nothing is read back |
| Auth.LoginThenRead | frontend/src/contexts/AuthContext.tsx:36-45 | after login the same user is read back |
| Auth.PersistKeepsOtherKeys | frontend/src/contexts/AuthContext.tsx:36-43 | persisting touches no other storage key |
| Auth.UseAuth | frontend/src/contexts/AuthContext.tsx:64-69 | fails with the provider message exactly outside a provider |
| Auth.AuthProvider.constructor | frontend/src/contexts/AuthContext.tsx:28-29 | the provider starts loading with no user |
| Auth.AuthProvider.Init | frontend/src/contexts/AuthContext.tsx:31-34 | the user is read from storage and loading ends |
| Auth.AuthProvider.PersistUser | frontend/src/contexts/AuthContext.tsx:36-43 | session and storage become the persisted state |
| Auth.AuthProvider.Login | frontend/src/contexts/AuthContext.tsx:45 | persists the user |
| Auth.AuthProvider.UpdateUser | frontend/src/contexts/AuthContext.tsx:47 | persists the new user data |
| Auth.AuthProvider.Logout | frontend/src/contexts/AuthContext.tsx:46 | persists no user |
| Guard.Route | frontend/src/components/ProtectedRoute.tsx:13-23 | a placeholder while loading, a replacing redirect to `/login` without a user, the children otherwise |
| Guard.GuardAroundInit | frontend/src/components/ProtectedRoute.tsx:14-20 | with nothing stored the guard shows the placeholder, then redirects |
| Guard.GuardAfterSessionChange | frontend/src/components/ProtectedRoute.tsx:18-22 | after logout the guard redirects, after login it renders |
| ImageFallback.AfterError | frontend/src/utils/imageFallback.ts:5-14 | a marked element is left alone; otherwise it is marked and its source replaced, other data kept |
| ImageFallback.SecondErrorIsNoOp | frontend/src/utils/imageFallback.ts:10-12 | a second error changes nothing |
| ImageFallback.SourceReplacedOnce | frontend/src/utils/imageFallback.ts:10-14 | however many errors arrive, only the first one's fallback is applied |
| ImageFallback.StaysApplied | frontend/src/utils/imageFallback.ts:10-12 | errors on a marked element change nothing |
| ImageFallback.ImageElement.constructor | frontend/src/utils/imageFallback.ts:9 | the element starts with its source and no data |
| ImageFallback.ImageElement.HandleImageError | frontend/src/utils/imageFallback.ts:5-14 | the element's state becomes the one-error transition, with `/404.jpg` as default fallback |
| GalleryAdmin.ResolveImageUrl | frontend/src/components/GalleryManager.tsx:39-44 | empty exactly for a missing or empty URL; absolute `http` URLs kept as they are; any other URL gets the upload base in front |
| GalleryAdmin.ResolveImageUrlIdempotent | frontend/src/components/GalleryManager.tsx:39-44 | resolving a resolved URL changes nothing when the upload base is absolute |
| GalleryAdmin.CollectionPayloadOf | frontend/src/components/GalleryManager.tsx:129-138 | nothing is sent exactly when the name is blank; otherwise the card's id with the trimmed description and the trimmed name, which starts and ends with a visible character |
| GalleryAdmin.ImagePayloadOf | frontend/src/components/GalleryManager.tsx:217-228 | nothing is sent exactly when the URL is blank; otherwise the trimmed fields, a URL starting and ending with a visible character, and the order index |
| GalleryAdmin.JsTrimShape | frontend/src/components/GalleryManager.tsx:131-137 | `trim()` gives empty text exactly when the text is all whitespace, and otherwise text starting and ending with a visible character |
| GalleryAdmin.CollectionRequestOf | frontend/src/components/GalleryManager.tsx:129-144 | nothing is sent exactly when the name is blank; otherwise a PUT to the edited collection when one is being edited, else a POST, carrying the trimmed payload |
| GalleryAdmin.CardWithId | frontend/src/components/GalleryManager.tsx:94-99 | the first card with the id, or none exactly when no card has it |
| GalleryAdmin.Initial | frontend/src/components/GalleryManager.tsx:47-65 | the page starts with no selection and no collections |
| GalleryAdmin.CardsLoaded | frontend/src/components/GalleryManager.tsx:67-83 | a loaded list replaces the cards; a failure keeps them and shows the card error |
| GalleryAdmin.SelectedCard | frontend/src/components/GalleryManager.tsx:94-99 | the selected card is one of the cards with the selected id |
| GalleryAdmin.Fetched | frontend/src/components/GalleryManager.tsx:101-114 | a loaded list replaces the collections; a failure empties them and shows the collection error |
| GalleryAdmin.CardSelected | frontend/src/components/GalleryManager.tsx:85-92 | the selection takes the chosen value, and clearing it empties the collections |
| GalleryAdmin.CollectionFormReset | frontend/src/components/GalleryManager.tsx:116-120 | the collection form closes, empty and not editing |
| GalleryAdmin.CreateOpened | frontend/src/components/GalleryManager.tsx:177-181 | the collection form opens empty for creation |
| GalleryAdmin.EditOpened | frontend/src/components/GalleryManager.tsx:183-190 | the collection form opens with the collection's name and description, editing it |
| GalleryAdmin.CollectionTyped | frontend/src/components/GalleryManager.tsx:378-385 | typing replaces the collection form's contents |
| GalleryAdmin.ImageFormReset | frontend/src/components/GalleryManager.tsx:204-207 | the image form is empty and not editing |
| GalleryAdmin.ImageTyped | frontend/src/components/GalleryManager.tsx:521-544 | typing replaces the image form's contents |
| GalleryAdmin.Toggled | frontend/src/components/GalleryManager.tsx:192-202 | toggling closes the collection when it was open and opens it otherwise; the image form follows the open collection and is empty |
| GalleryAdmin.ImageEditStarted | frontend/src/components/GalleryManager.tsx:267-277 | the image's collection is opened, the image is being edited, and the form holds its URL, title and description (empty when missing) and its order index (0 when missing) |
| GalleryAdmin.CollectionSubmitted | frontend/src/components/GalleryManager.tsx:122-155 | keeps the screen valid; with no card selected nothing happens; a blank name sends nothing; a save reloads and resets, a failure keeps the form |
| GalleryAdmin.CollectionDeleted | frontend/src/components/GalleryManager.tsx:157-175 | keeps the screen valid; with no card selected or no confirmation nothing happens; otherwise a delete of that collection is sent |
| GalleryAdmin.ImageSubmitted | frontend/src/components/GalleryManager.tsx:209-247 | keeps the screen valid; with no collection open nothing happens; a blank URL sends nothing; a save reloads and resets the image form |
| GalleryAdmin.ImageDeleted | frontend/src/components/GalleryManager.tsx:249-265 | keeps the screen valid; without confirmation nothing happens; otherwise a delete of that image is sent |
| GalleryAdmin.BlankUrlSendsNothing | frontend/src/components/GalleryManager.tsx:225-228 | a URL that is blank after trimming sends nothing and only sets the "Image URL is required." error |
| GalleryAdmin.SavedImageResetsForm | frontend/src/components/GalleryManager.tsx:230-240 | a saved image is sent as a PUT when editing and a POST otherwise; the collections are reloaded when a card is selected, and the image form, the edited image and the error are cleared |
| GalleryAdmin.SavedCollectionReloads | frontend/src/components/GalleryManager.tsx:140-148 | after a saved collection the list is the reloaded one, the form is hidden and empty, nothing is being edited and the error is cleared |
| GalleryAdmin.ToggleTwiceCloses | frontend/src/components/GalleryManager.tsx:192-202 | toggling a closed collection twice closes it again |
| GalleryAdmin.DeletingOpenCollectionCloses | frontend/src/components/GalleryManager.tsx:157-175 | deleting the open collection closes it and its image form |
| GalleryAdmin.BlankNameSendsNothing | frontend/src/components/GalleryManager.tsx:135-138 | a blank name sends nothing and shows only the name-required error |
| GalleryAdmin.SentCollectionIsTrimmed | frontend/src/components/GalleryManager.tsx:129-144 | what is sent has a trimmed non-empty name, a PUT when editing and a POST otherwise |
| GalleryAdmin.SubmittedSends | frontend/src/components/GalleryManager.tsx:122-144 | with a card selected the handler sends the form's request, whether the save then succeeds or not |
| GalleryAdmin.FailedSaveKeepsForm | frontend/src/components/GalleryManager.tsx:149-152 | a failed save keeps the form for another try |
| GalleryAdmin.SavedButReloadFailedShowsNoError | frontend/src/components/GalleryManager.tsx:146-148 | a save whose reload fails still ends with no error shown |
| GalleryAdmin.EditUntouchedResubmits | frontend/src/components/GalleryManager.tsx:140-141 | saving an opened collection unchanged sends its own name and description back |
| GalleryAdmin.ImageEditUntouchedResubmits | frontend/src/components/GalleryManager.tsx:230-231 | saving an opened image unchanged sends its own fields back |
| GalleryAdmin.DeletingEditedImageClearsForm | frontend/src/components/GalleryManager.tsx:258-260 | deleting the image being edited clears the image form |
| GalleryAdmin.GalleryManager.constructor | frontend/src/components/GalleryManager.tsx:46-65 | the component starts in the initial screen with the given upload base |
| GalleryAdmin.GalleryManager.ImageSource | frontend/src/components/GalleryManager.tsx:322 | an image's source is empty exactly when its URL is |
| GalleryAdmin.GalleryManager.LoadCards | frontend/src/components/GalleryManager.tsx:67-83 | the state becomes the card-loading transition |
| GalleryAdmin.GalleryManager.FetchCollections | frontend/src/components/GalleryManager.tsx:101-114 | the state becomes the fetch transition |
| GalleryAdmin.GalleryManager.SelectCard | frontend/src/components/GalleryManager.tsx:85-92 | the state becomes the selection transition |
| GalleryAdmin.GalleryManager.ResetCollectionForm | frontend/src/components/GalleryManager.tsx:116-120 | the state becomes the collection-form reset |
| GalleryAdmin.GalleryManager.OpenCreateCollection | frontend/src/components/GalleryManager.tsx:177-181 | the state becomes the create-opened transition |
| GalleryAdmin.GalleryManager.OpenEditCollection | frontend/src/components/GalleryManager.tsx:183-190 | the state becomes the edit-opened transition |
| GalleryAdmin.GalleryManager.TypeCollectionForm | frontend/src/components/GalleryManager.tsx:378-385 | the state becomes the typing transition |
| GalleryAdmin.GalleryManager.ResetImageForm | frontend/src/components/GalleryManager.tsx:204-207 | the state becomes the image-form reset |
| GalleryAdmin.GalleryManager.TypeImageForm | frontend/src/components/GalleryManager.tsx:521-544 | the state becomes the image typing transition |
| GalleryAdmin.GalleryManager.ToggleCollection | frontend/src/components/GalleryManager.tsx:192-202 | the state becomes the toggle transition |
| GalleryAdmin.GalleryManager.StartEditImage | frontend/src/components/GalleryManager.tsx:267-277 | the state becomes the image-edit transition |
| GalleryAdmin.GalleryManager.SubmitCollection | frontend/src/components/GalleryManager.tsx:122-155 | the state and the request sent are the collection-submit step's |
| GalleryAdmin.GalleryManager.DeleteCollectionClicked | frontend/src/components/GalleryManager.tsx:157-175 | the state and the request sent are the collection-delete step's |
| GalleryAdmin.GalleryManager.SubmitImage | frontend/src/components/GalleryManager.tsx:209-247 | the state and the request sent are the image-submit step's |
| GalleryAdmin.GalleryManager.DeleteImageClicked | frontend/src/components/GalleryManager.tsx:249-265 | the state and the request sent are the image-delete step's |
| CardAdmin.DigitOf | frontend/src/components/CardManager.tsx:150-158 | a digit's value, below 10 exactly for decimal digits |
| CardAdmin.DigitRun | frontend/src/components/CardManager.tsx:150-158 | the longest run of digits at the front of the text |
| CardAdmin.ParseIntPlain | frontend/src/components/CardManager.tsx:150-158 | `parseInt` of text starting with a decimal digit reads the leading digits |
| CardAdmin.ParseIntMinus | frontend/src/components/CardManager.tsx:150-158 | `parseInt` of a minus sign and digits reads the negated digits |
| CardAdmin.ParseIntDecimal | frontend/src/components/CardManager.tsx:150-158 | a rendered natural number reads back as itself, whatever non-digit follows |
| CardAdmin.ParseIntNegative | frontend/src/components/CardManager.tsx:150-158 | a rendered negative number reads back as itself |
| CardAdmin.StatInputRoundTrip | frontend/src/components/CardManager.tsx:150-158 | every stat the form shows is stored back unchanged |
| CardAdmin.NoDigitsStoresZero | frontend/src/components/CardManager.tsx:150-158 | text with no digits is stored as 0 |
| CardAdmin.RarityColorsDistinct | frontend/src/components/CardManager.tsx:160-168 | each rarity has its own colour, grey only for common |
| CardAdmin.ElementEmojisDistinct | frontend/src/components/CardManager.tsx:170-180 | each element has its own emoji, never the unknown one |
| CardAdmin.UnknownRarityIsGrey | frontend/src/components/CardManager.tsx:160-168 | any value other than the four rarity names is shown in grey |
| CardAdmin.UnknownElementIsQuestionMark | frontend/src/components/CardManager.tsx:170-180 | any value other than the six element names is shown with the question mark |
| CardAdmin.WithInput | frontend/src/components/CardManager.tsx:150-158 | the three stats are parsed into numbers; name, description, rarity and element store the typed text as it is; id and image URL never change |
| CardAdmin.CardPart | frontend/src/components/CardManager.tsx:73-82 | the sent card is the form except the image URL: the edited card's when editing without a file, none otherwise |
| CardAdmin.EditWithoutFileKeepsImage | frontend/src/components/CardManager.tsx:74-77 | saving an edit without a file keeps the card's image on the server |
| CardAdmin.CreationSendsNoUrl | frontend/src/components/CardManager.tsx:78-81 | a new card's image can come only from an uploaded file |
| CardAdmin.PreviewOf | frontend/src/components/CardManager.tsx:106-111 | the preview shows the card's image exactly when it has a non-empty one |
| CardAdmin.Initial | frontend/src/components/CardManager.tsx:21-38 | the editor starts valid, hidden, with no cards |
| CardAdmin.CardsLoaded | frontend/src/components/CardManager.tsx:46-58 | a loaded list replaces the cards and clears the error; a failure keeps them and shows the load error |
| CardAdmin.FormReset | frontend/src/components/CardManager.tsx:126-141 | the form closes with the defaults, keeping cards and error |
| CardAdmin.FormOpened | frontend/src/components/CardManager.tsx:192 | the form opens |
| CardAdmin.EditStarted | frontend/src/components/CardManager.tsx:106-111 | the form opens holding the edited card |
| CardAdmin.FileChosen | frontend/src/components/CardManager.tsx:142-149 | a chosen file is kept with its preview; no file changes nothing |
| CardAdmin.InputChanged | frontend/src/components/CardManager.tsx:150-158 | a keystroke keeps the editor valid |
| CardAdmin.Submitted | frontend/src/components/CardManager.tsx:60-104 | a submission keeps the editor valid |
| CardAdmin.DeleteClicked | frontend/src/components/CardManager.tsx:113-124 | a request is sent exactly when the user confirms, and nothing changes otherwise |
| CardAdmin.SubmissionShape | frontend/src/components/CardManager.tsx:60-97 | a PUT to the edited card's id when editing, a POST otherwise, carrying the card part and the file |
| CardAdmin.SavedResetsForm | frontend/src/components/CardManager.tsx:98-99 | after a save the form is closed and back to its defaults, the list is the reloaded one, and an error is shown only when the reload fails |
| CardAdmin.FailedSaveKeepsForm | frontend/src/components/CardManager.tsx:100-103 | a failed save keeps what the user entered and shows "Failed to update card" when editing, "Failed to create card" otherwise |
| CardAdmin.ResetFormCreatesDefaults | frontend/src/components/CardManager.tsx:126-141 | creating from a reset form sends the default card with no file |
| CardAdmin.CardManager.constructor | frontend/src/components/CardManager.tsx:20-38 | the component starts in the initial state |
| CardAdmin.CardManager.LoadCards | frontend/src/components/CardManager.tsx:46-58 | the state becomes the loading transition |
| CardAdmin.CardManager.ResetForm | frontend/src/components/CardManager.tsx:126-141 | the state becomes the reset transition |
| CardAdmin.CardManager.OpenForm | frontend/src/components/CardManager.tsx:192 | the state becomes the open transition |
| CardAdmin.CardManager.HandleEdit | frontend/src/components/CardManager.tsx:106-111 | the state becomes the edit transition |
| CardAdmin.CardManager.HandleFileChange | frontend/src/components/CardManager.tsx:142-149 | the state becomes the file transition |
| CardAdmin.CardManager.HandleInputChange | frontend/src/components/CardManager.tsx:150-158 | the state becomes the input transition |
| CardAdmin.CardManager.HandleSubmit | frontend/src/components/CardManager.tsx:60-104 | the state and the request sent are the submission step's |
| CardAdmin.CardManager.HandleDelete | frontend/src/components/CardManager.tsx:113-124 | the state and the request sent are the delete step's |
| Text.TrimEmptyIffAllTrimmable | frontend/src/components/GalleryManager.tsx:135-138 | trimming yields empty text exactly when every character is trimmable |
| Text.TrimIdempotent | frontend/src/components/GalleryManager.tsx:131-132 | trimming twice is trimming once |
| Text.ToUpperIdempotent | backend/src/main/java/com/cocin/waifuwar/service/CardService.java:100-106 | upper-casing twice is upper-casing once |
| Text.UpperAfterLower | backend/src/main/java/com/cocin/waifuwar/mapper/CardMapper.java:56-65 | for every text, upper-casing after lower-casing gives the same as upper-casing alone, so a name parses whatever its case |
| Text.LowerThenUpper | backend/src/main/java/com/cocin/waifuwar/mapper/CardMapper.java:56-65 | on upper-case letter names such as the enum constants, upper-casing undoes lower-casing |
| Text.LexLeTotal | backend/src/main/java/com/cocin/waifuwar/repository/CardRepository.java:14 | name order is total |
| Text.LexLeTransitive | backend/src/main/java/com/cocin/waifuwar/repository/CardRepository.java:14 | name order is transitive |
| Text.LexLeAntisymmetric | backend/src/main/java/com/cocin/waifuwar/repository/CardRepository.java:14 | name order is antisymmetric |
| Ordering.SortBySorted | backend/src/main/java/com/cocin/waifuwar/repository/CardRepository.java:14 | for a total preorder the sorted list is in comparator order |
| Ordering.SortByIdempotent | frontend/src/components/CardCollection.tsx:46-62 | sorting a sorted list changes nothing |
| Ordering.SortBy | backend/src/main/java/com/cocin/waifuwar/repository/CardRepository.java:14 | the sorted list has the same elements with the same multiplicities |
| Ordering.SortByMembers | backend/src/main/java/com/cocin/waifuwar/repository/CardRepository.java:14 | sorting neither adds nor drops an element |
| Ordering.InsertKeepsSorted | frontend/src/components/CardCollection.tsx:46-62 | inserting into a sorted list keeps it sorted |
| Ordering.SortByFixesSorted | frontend/src/components/CardCollection.tsx:46-62 | sorting a list already in order returns it unchanged |
| Ordering.SortByStable | frontend/src/components/CardCollection.tsx:46-62 | the sort is stable: the elements equal to any given one keep their input order |
| Ordering.InsertFilterTie | frontend/src/components/CardCollection.tsx:46-62 | an inserted element comes before every element it ties with |

## Left out

- Persistence, transactions and JPA: each service owns its own in-memory tables. Tables are not shared between services, so cross-service consistency (a card deleted under its collections, say) is not modelled.
- Cascades: deleting a collection or an image removes only that row. The cascade to its images and dialogues lives in the database mapping, and the gallery DTOs hold the nested rows as given.
- `@OrderBy("orderIndex ASC")` on a collection's images (CardCollection.java:39) is not modelled: the collection DTO lists its images in the order the collection holds them, not sorted by order index.
- JOIN FETCH queries: `findByCardIdWithImages` returns one row per collection here. The duplicate rows such a join can produce are not modelled.
- Timestamps (`createdAt`, `obtainedAt`, `updatedAt`) are not modelled.
- CardServices.ActiveCard: a card's `isActive` is a `bool` here. The source's field is a nullable `Boolean`, and `getActiveCard` refuses only an explicit `false` (CardService.java:94), so a card whose flag is null counts as active there; that null case is not modelled.
- Bean validation annotations on entities and DTOs, and the controllers that call the services, are not part of this model. This includes the controllers' own non-empty check on a reorder request.
- Error messages: an `Error` value carries the resource name and id, not the formatted text with the number rendered in decimal.
- Text: upper and lower case are ASCII-only. Java `trim` strips characters up to U+0020; JavaScript `trim` strips the ASCII white space and a few Unicode spaces, not the whole Unicode space class.
- Case-insensitive `LIKE` searches are modelled as case-insensitive substring tests. A `%` or `_` in the search text is taken literally.
- `localeCompare` and the database collation are modelled as plain code-point order on names.
- `FileStorageService`: the file system, path normalisation (`StringUtils.cleanPath`, `Path.resolve`), the upload directory, I/O errors and UUID generation are left out. The unique name is a parameter, and stored and deleted files are a log of operations.
- FileStorage.DeleteTargetOfStored: states the URL remainder `deleteFile` resolves, not the file it reaches. The remainder starts with `/`, and `Path.resolve` of an absolute path returns that path unchanged, so the resolved path is not under the upload directory; the model stops at the remainder string.
- Randomness: `SecureRandom` draws are parameters. A `Roll` holds the tier roll and the pick index, which is taken modulo the pool size.
- Gacha.Pick: `nextInt(0)` on an empty pool becomes the error value "bound must be positive" instead of an `IllegalArgumentException`.
- `UserService.validatePassword` is not modelled: it only delegates to the opaque `PasswordEncoder.matches`. Password encoding is a function parameter.
- Integer widths: balances, experience and ids are unbounded integers, so Java `int` and `long` overflow is not modelled.
- CardAdmin.ParseInt: JavaScript numbers are doubles. Digit strings beyond 2^53 lose precision in the source but not in the model.
- GalleryAdmin.ImageTyped: `Number(value)` on the order-index input can give `NaN`. The model stores whatever integer the input yields and does not model `NaN`.
- A `null` bound in `getDialoguesByOrderRange` is not modelled: both bounds are integers.
- `getUniqueSpeakers`: the SQL `DISTINCT` query promises no order. The model lists speakers in order of first appearance, and the contract states only distinctness and membership.
- Asynchronous interleaving: every frontend handler runs to completion as one step, with its awaited answers as parameters. Races between overlapping requests are not modelled.
- The `loading` and `saving` flags of `CardManager` and `GalleryManager` only switch spinners, and are left out. `GachaSystem`'s `loading` flag is kept because it guards the pull.
- `window.confirm`, `alert`, `console.error`, `URL.createObjectURL`, `localStorage` serialisation and `JSON.parse` are parameters or are left out: the confirmation answer, the object URL, and serialise and parse functions.
- `getRarityColor`, `getElementEmoji` and `getRarityEmoji` in `CardCollection.tsx` and `GachaSystem.tsx` only choose colours and emoji for display, and are not modelled. The `CardManager.tsx` versions are modelled.
- `loadCards` in `CardCollection.tsx` and `refreshUserData` in `GachaSystem.tsx` only fetch. Their answers are inputs of the view and of `GachaPage.GachaScreen.CompletePull`.
- CollectionView.RarityRank: a rarity outside the four known names ranks 0 in the model, below COMMON, so it sorts last. The source looks it up as `undefined` and its comparator returns NaN for such a card, which the sort treats as equal to every card, so its position there depends on the engine's sort.
- `types/user.ts` and `config.ts` are not part of this model. The upload base URL is a parameter of the gallery editor.
- Rendering, routing, translations and styling are not modelled.
