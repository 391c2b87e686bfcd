# WheringClone wardrobe and onboarding rules in Dafny

WheringClone is a React Native wardrobe app that leaves persistence,
storage and identity to Firebase. This project models the deterministic
layer that is left once those calls are replaced by their possible answers:

- **Wardrobe filtering** (`Wardrobe`, `ItemPicker`). The wardrobe screen and
  the outfit studio's item picker filter the user's items with a category
  chip ("All" switches the step off) and a case-insensitive search term
  over category, brand and colour. The wardrobe screen also searches tags.
  The wardrobe screen's state is a class whose methods keep the shown list
  equal to the filter of the fetched list.
- **Item form → record** (`ItemForm`, `AddItemDetails`, `EditItem`).
  - Saving a new item and updating one each pass their guards in order.
  - Text fields are trimmed, and tags are parsed with split, trim and
    drop-empty.
  - An empty price becomes null.
  - A new or re-imaged item starts as `pending_processing` with a null
    processed URL.
  - Undefined keys are removed from the update payload.
  - The edit form shows tags joined with ", ", and they parse back to the
    same list.
  - The update is an imperative method proved equal to a one-expression
    definition.
- **Outfit canvas** (`OutfitStudio`). It is a class holding the list of
  placed items and the picker flag. A new item is placed at (50, 50),
  scale 1, with a stacking order equal to its position.
- **Onboarding and sign-in** (`UserInfo`, `Username`, `Interests`, `SignUp`,
  `Login`).
  - The guard chains and the parameters each screen forwards to the next.
  - The profile picture is set only by a successful upload.
  - Interest toggling, and the profile record written at the end.
  - The auth error-code messages.

Support modules:

- `Common`: optional and nullable fields, and backend outcomes.
- `Text`: ASCII `toLowerCase`, `includes`, `startsWith`, `trim`, `split`
  and `join`.
- `Sequences`: order-preserving sub-lists.

Backend calls are parameters of the operations that make them:

- the signed-in user (`Option<AuthUser>`);
- an upload's result (`Upload`);
- a document write's result (`Write`);
- the item query's result (`FetchOutcome`);
- an auth call's result (`AuthAttempt`);
- the image picker's result (`Pick`, `PhotoAttempt`).

On the onboarding and sign-in screens an alert is modelled as the text it
shows; on the add-item and edit-item screens it is modelled by which alert
is shown (a refusal reason or a failure kind). A navigation is modelled as
the parameters it passes.

Two quirks of `handleUpdateItem` are modelled as written, not corrected:

- **Operator precedence in the old-image tests.** The tests read
  `(a && b && c) || d` and `(a && b) || d`. A URL on the Firebase Storage
  host therefore passes the first test even when it equals the new URL.
- **Null dereference in the second test.** The right operand of the
  second test dereferences `processedImageUrl`. Replacing the image of an
  item whose processed URL is null or undefined throws into the catch block
  before the document is updated. The original image may already have been
  deleted by then.

Two further behaviours of the code are modelled as they are:

- The item picker matches the term against category, brand and colour
  only; unlike the wardrobe screen it does not search tags
  (`ItemPicker.PickerIgnoresTags`).
- A failed deletion of an old image is logged and ignored, but the
  processed-image test itself throws on a missing URL, and then the edit
  fails (`EditItem.NewImageOnUnprocessedItemFails`).

## Model

| member | source | states |
|---|---|---|
| Text.Lower | WheringClone/src/screens/WardrobeScreen.tsx:88 | `toLowerCase` keeps the length and lower-cases each character in place |
| Text.Contains | WheringClone/src/screens/WardrobeScreen.tsx:95 | every string includes the empty needle, and a needle longer than the string is never included |
| Text.Join | WheringClone/src/screens/EditItemScreen.tsx:32 | `join` of no pieces is empty; otherwise the text starts with the first piece, followed by the separator when there are more |
| Text.LowerChar | WheringClone/src/screens/WardrobeScreen.tsx:88 | `toLowerCase` maps an ASCII capital to its small letter, leaves every other character alone, and never yields a capital |
| Text.ContainsAt | WheringClone/src/screens/WardrobeScreen.tsx:95 | `includes` holds exactly when the needle occurs at some position of the string |
| Text.Trim | WheringClone/src/screens/AddItemDetailsScreen.tsx:84 | the result of `trim` has no leading or trailing whitespace |
| Text.TrimIsInfix | WheringClone/src/screens/AddItemDetailsScreen.tsx:84 | the trimmed string occurs in the original with only whitespace before and after it, and adds no character |
| Text.Split | WheringClone/src/screens/AddItemDetailsScreen.tsx:89 | `split(',')` yields at least one piece, no piece holds the separator, and joining the pieces gives the input back |
| Text.SplitJoin | WheringClone/src/screens/EditItemScreen.tsx:112 | splitting the join of separator-free pieces gives exactly those pieces |
| Text.SplitConcat | WheringClone/src/screens/EditItemScreen.tsx:112 | splitting at a separator splits the text on each side independently |
| Sequences.SubsequenceTransitive | WheringClone/src/screens/WardrobeScreen.tsx:84-101 | two filter steps in a row keep a sub-list in the original order |
| Wardrobe.Apply | WheringClone/src/screens/WardrobeScreen.tsx:87-99 | one `.filter` step never lengthens the list, and every item it keeps satisfies the step's predicate |
| Wardrobe.ApplyCount | WheringClone/src/screens/WardrobeScreen.tsx:87-99 | one `.filter` step keeps every copy of a passing item and no copy of a failing one |
| Wardrobe.FilterItems | WheringClone/src/screens/WardrobeScreen.tsx:83-102 | the filter never lengthens the list, and with chip "All" and an empty term it shows the list unchanged |
| Wardrobe.FilterCount | WheringClone/src/screens/WardrobeScreen.tsx:84-101 | a shown item is shown as many times as it occurs in the fetched list, and a filtered-out one not at all |
| Wardrobe.ApplyMembership | WheringClone/src/screens/WardrobeScreen.tsx:87-89 | one `.filter` step keeps an item exactly when it was in the list and satisfies the step's predicate |
| Wardrobe.ApplyIsSubsequence | WheringClone/src/screens/WardrobeScreen.tsx:94-99 | one `.filter` step keeps a sub-list in the original order |
| Wardrobe.ApplyCommutes | WheringClone/src/screens/WardrobeScreen.tsx:84-101 | the category step and the search step may run in either order |
| Wardrobe.FilterIsSubsequence | WheringClone/src/screens/WardrobeScreen.tsx:84-101 | the shown list adds nothing and reorders nothing |
| Wardrobe.FilterMembership | WheringClone/src/screens/WardrobeScreen.tsx:86-99 | an item is shown iff it is in the list, "All" or its lower-cased category equals the chip's, and the term is empty or its lower-case occurs in the category, a truthy brand or colour, or (wardrobe only) a tag |
| Wardrobe.FilterIdempotent | WheringClone/src/screens/WardrobeScreen.tsx:84-101 | filtering the shown list again with the same chip and term changes nothing |
| Wardrobe.AbsentFieldsNeverMatch | WheringClone/src/screens/WardrobeScreen.tsx:96-98 | with brand, colour and tags absent, only the category can make an item match |
| Wardrobe.EmptyFieldMatchesNothing | WheringClone/src/screens/WardrobeScreen.tsx:96-97 | an absent or empty brand or colour never matches a non-empty term |
| Wardrobe.WardrobeScreen.constructor | WheringClone/src/screens/WardrobeScreen.tsx:46-51 | the screen starts with no items, chip "All" and an empty term |
| Wardrobe.WardrobeScreen.ApplyFilters | WheringClone/src/screens/WardrobeScreen.tsx:83-102 | the effect sets the shown list to the filter of the fetched list by the chip and the term |
| Wardrobe.WardrobeScreen.SelectCategory | WheringClone/src/screens/WardrobeScreen.tsx:138 | pressing a chip stores it, keeps the items and the term, and re-filters |
| Wardrobe.WardrobeScreen.SetSearchTerm | WheringClone/src/screens/WardrobeScreen.tsx:164-168 | typing or clearing the search box stores the term, keeps the items and the chip, and re-filters |
| Wardrobe.WardrobeScreen.FetchItems | WheringClone/src/screens/WardrobeScreen.tsx:53-81 | no user clears the items; a fetch stores them; an error keeps the old ones; the shown list is re-filtered |
| Wardrobe.WardrobeScreen.OnRefresh | WheringClone/src/screens/WardrobeScreen.tsx:110-115 | refresh clears the term and resets the chip to "All", so every fetched item is shown |
| ItemPicker.PickerIgnoresTags | WheringClone/src/components/ItemPickerModal.tsx:60-70 | with a non-empty term, an item is offered iff the chip allows it and the term occurs in its category, brand or colour; tags play no part |
| ItemPicker.PickerWithinWardrobe | WheringClone/src/components/ItemPickerModal.tsx:58-72 | the picker offers, in order, a sub-list of what the wardrobe screen shows for the same items, chip and term |
| ItemPicker.PickerFilter | WheringClone/src/components/ItemPickerModal.tsx:58-72 | the picker offers a sub-list of the items in their order, and with an empty term exactly what the wardrobe screen shows |
| ItemForm.DropEmpty | WheringClone/src/screens/AddItemDetailsScreen.tsx:89 | `filter(tag => tag)` keeps, in order, exactly the non-empty pieces of the input |
| ItemForm.ParseTags | WheringClone/src/screens/AddItemDetailsScreen.tsx:89 | every parsed tag is non-empty, trimmed and comma-free |
| ItemForm.ParseTagsConcat | WheringClone/src/screens/AddItemDetailsScreen.tsx:89 | tags are parsed in the order typed: text before a comma parses to the first tags |
| ItemForm.TagRoundTrip | WheringClone/src/screens/EditItemScreen.tsx:32 | joining well-formed tags with ", " and parsing the text gives back exactly the same list |
| ItemForm.ParsePrice | WheringClone/src/screens/AddItemDetailsScreen.tsx:88 | the price is null exactly when the text is empty, and never undefined |
| ItemForm.PriceRoundTrip | WheringClone/src/screens/EditItemScreen.tsx:31 | a stored price shown in the edit form and saved again is unchanged; an undefined one is saved as null |
| AddItemDetails.ImageToDisplay | WheringClone/src/screens/AddItemDetailsScreen.tsx:20-22 | there is an image iff the local URI or the remote URL is truthy, and the local URI wins |
| AddItemDetails.SaveItem | WheringClone/src/screens/AddItemDetailsScreen.tsx:42-94 | the guards run in the order image, category, login; upload and URL failures stop the save; otherwise the record has the user's id, the chosen URL, a null processed URL, `pending_processing`, each text field equal to the trimmed input, the parsed price (null iff the text is empty), and the parsed tags |
| EditItem.DisplayImage | WheringClone/src/screens/EditItemScreen.tsx:24 | the processed URL is shown if truthy, else the original |
| EditItem.InitialForm | WheringClone/src/screens/EditItemScreen.tsx:27-33 | the form shows the stored category and text fields, absent ones as empty; the shown price and well-formed tags parse back to the stored ones |
| EditItem.ChoosePhoto | WheringClone/src/screens/EditItemScreen.tsx:48-50 | a picked path becomes the new image and is displayed; anything else changes nothing |
| EditItem.UpdatePayload | WheringClone/src/screens/EditItemScreen.tsx:106-118 | the payload literal has every key |
| EditItem.EveryKeyListed | WheringClone/src/screens/EditItemScreen.tsx:120 | `Object.keys` lists every key of the payload |
| EditItem.DropUndefined | WheringClone/src/screens/EditItemScreen.tsx:119-122 | exactly the undefined entries are removed and the others keep their values |
| EditItem.RemoveUndefined | WheringClone/src/screens/EditItemScreen.tsx:120-122 | the in-place deletion loop over the keys yields the payload without its undefined entries |
| EditItem.UpdateItem | WheringClone/src/screens/EditItemScreen.tsx:60-135 | the step-by-step handler produces the outcome `UpdateOutcome` defines |
| EditItem.UpdateOutcome | WheringClone/src/screens/EditItemScreen.tsx:60-135 | an empty trimmed category refuses first, then a missing user, and nothing else refuses; an update means the write succeeded; each failure names the failed upload, the throwing test or the failed write; without a new image nothing is deleted, and with one only the item's old original and processed images can be |
| EditItem.OldImageDeletions | WheringClone/src/screens/EditItemScreen.tsx:91-102 | the deletion step throws exactly when the processed URL is not a string; otherwise it tries to delete at most two URLs, each one of the item's old images |
| EditItem.UpdateWithoutNewImage | WheringClone/src/screens/EditItemScreen.tsx:73-75 | without a new image the original URL, processed URL and status are written back unchanged and nothing is deleted |
| EditItem.UpdateWithNewImage | WheringClone/src/screens/EditItemScreen.tsx:78-102 | with a new image the uploaded URL replaces the original, the processed URL becomes null and the status `pending_processing`, and the deleted URLs are the old original if it passes the test at :94, then the old processed image if it passes the test at :99 |
| EditItem.NewImageOnUnprocessedItemFails | WheringClone/src/screens/EditItemScreen.tsx:94-99 | replacing the image of an item without a processed URL ends in the catch block with no update written, after the old original was already deleted if it passed the test at :94 |
| EditItem.CleanedPayloadContents | WheringClone/src/screens/EditItemScreen.tsx:106-122 | the cleaned payload has no undefined value, keeps a null price iff the text is empty, and holds the trimmed category and parsed tags |
| EditItem.CleanedEntry | WheringClone/src/screens/EditItemScreen.tsx:106-122 | a key stays iff its literal value is not undefined, and then keeps that value |
| EditItem.UpdatedPayloadContents | WheringClone/src/screens/EditItemScreen.tsx:106-124 | whatever the path, the written payload is a cleaned one |
| EditItem.UnchangedFormWritesSameTags | WheringClone/src/screens/EditItemScreen.tsx:27-33 | saving the form as first shown writes back the stored well-formed tags and the stored price |
| EditItem.DeletesOldOriginal | WheringClone/src/screens/EditItemScreen.tsx:94 | a storage-host URL passes the original-image test even when it equals the new URL; any other passes iff it is a `gs://` URL different from the new one |
| EditItem.DeletesOldProcessed | WheringClone/src/screens/EditItemScreen.tsx:99 | the processed-image test throws exactly when the processed URL is not a string, and otherwise passes iff the URL is on the storage host or a `gs://` URL |
| OutfitStudio.Place | WheringClone/src/screens/OutfitStudioScreen.tsx:31-40 | a new canvas item copies the item at x 50, y 50, scale 1, with the prior length as stacking order |
| OutfitStudio.AddToCanvas | WheringClone/src/screens/OutfitStudioScreen.tsx:41 | selecting adds exactly one item, the placed item, at the end, and keeps the earlier ones |
| OutfitStudio.AddKeepsLayered | WheringClone/src/screens/OutfitStudioScreen.tsx:39-41 | after an append every item's stacking order still equals its position |
| OutfitStudio.ReAddingGrowsCanvas | WheringClone/src/screens/OutfitStudioScreen.tsx:29-41 | re-adding an item already on the canvas still adds a new entry |
| OutfitStudio.Placements | WheringClone/src/screens/OutfitStudioScreen.tsx:51 | one placement per canvas item, in order, with its id and position |
| OutfitStudio.BuiltCanvasPlacements | WheringClone/src/screens/OutfitStudioScreen.tsx:26-41 | a canvas built by selections is layered and places each chosen item, in order, at the default position |
| OutfitStudio.OutfitStudioScreen.constructor | WheringClone/src/screens/OutfitStudioScreen.tsx:19-20 | the canvas starts empty with the picker closed |
| OutfitStudio.OutfitStudioScreen.AddItemPressed | WheringClone/src/screens/OutfitStudioScreen.tsx:22-24 | the add button opens the picker and leaves the canvas alone |
| OutfitStudio.OutfitStudioScreen.ItemSelected | WheringClone/src/screens/OutfitStudioScreen.tsx:26-43 | selecting closes the picker and appends the placed item, keeping stacking order equal to position |
| OutfitStudio.OutfitStudioScreen.SaveOutfit | WheringClone/src/screens/OutfitStudioScreen.tsx:45-53 | saving is refused iff the canvas is empty, otherwise reports every placement, and never changes the canvas |
| OutfitStudio.OutfitStudioScreen.ClearCanvas | WheringClone/src/screens/OutfitStudioScreen.tsx:55-58 | clearing leaves the canvas empty |
| UserInfo.HandleContinue | WheringClone/src/screens/UserInfoScreen.tsx:16-26 | continue is refused iff a field is empty, and otherwise forwards the three values unchanged |
| UserInfo.BlankAndMalformedValuesPass | WheringClone/src/screens/UserInfoScreen.tsx:17 | whitespace-only names and a birthdate in no date format are accepted |
| Username.ChoosePhoto | WheringClone/src/screens/UsernameScreen.tsx:28-70 | the held picture changes only on a successful upload, to its download URL |
| Username.PictureAfter | WheringClone/src/screens/UsernameScreen.tsx:24-70 | any picture held after a series of presses is the download URL of one of the successful uploads |
| Username.PictureComesFromLastUpload | WheringClone/src/screens/UsernameScreen.tsx:24 | the picture is null until an upload succeeds, and then it is the URL of the most recent successful one |
| Username.HandleContinue | WheringClone/src/screens/UsernameScreen.tsx:72-91 | continue is refused iff the username is empty; the earlier values, the username and the picture are forwarded unchanged |
| Interests.RemoveAll | WheringClone/src/screens/InterestsScreen.tsx:48 | `filter(item => item !== interest)` removes every occurrence and keeps every other interest |
| Interests.RemoveCount | WheringClone/src/screens/InterestsScreen.tsx:48 | `filter` keeps every copy of every other interest and no copy of the removed one |
| Interests.RemoveKeepsOrder | WheringClone/src/screens/InterestsScreen.tsx:48 | removal keeps the other interests in order |
| Interests.Toggle | WheringClone/src/screens/InterestsScreen.tsx:46-50 | a toggle flips the toggled interest's membership and no other |
| Interests.InitialScreen | WheringClone/src/screens/InterestsScreen.tsx:42-43 | the screen opens with notifications on and no chip selected, so the first chip pressed becomes the whole selection |
| Interests.ToggleKeepsOffered | WheringClone/src/screens/InterestsScreen.tsx:18-22 | pressing offered chips keeps the selection made of offered chips, each at most once |
| Interests.ToggleAbsentAppends | WheringClone/src/screens/InterestsScreen.tsx:48 | toggling an unselected interest appends it at the end |
| Interests.ToggleTwiceAbsent | WheringClone/src/screens/InterestsScreen.tsx:48 | toggling an unselected interest twice restores the exact list |
| Interests.ToggleTwicePresent | WheringClone/src/screens/InterestsScreen.tsx:48 | toggling a selected interest twice restores the set, with the interest last |
| Interests.ToggleKeepsNoDuplicates | WheringClone/src/screens/InterestsScreen.tsx:48 | a selection without duplicates stays without duplicates |
| Interests.CompleteProfile | WheringClone/src/screens/InterestsScreen.tsx:52-79 | with no user the navigation resets to Welcome; otherwise the profile copies the user and the route values, the selection and the switch, and is saved iff the write succeeds |
| Interests.OnboardingIsLossless | WheringClone/src/screens/InterestsScreen.tsx:67-79 | through the three screens, the values entered reach the stored profile unchanged, and only the two guards stop before the last screen |
| SignUp.Guard | WheringClone/src/screens/SignUpScreen.tsx:33-44 | the first failing guard, in the order fields, match, terms, decides the message; each message iff its condition |
| SignUp.ErrorMessage | WheringClone/src/screens/SignUpScreen.tsx:58-67 | the unknown-error text appears iff the code is not one of the four known ones |
| SignUp.ToggleTerms | WheringClone/src/screens/SignUpScreen.tsx:110 | the checkbox negates the agreement |
| SignUp.HandleSignUp | WheringClone/src/screens/SignUpScreen.tsx:32-72 | refused iff a guard fails, with its message and no call; after a call loading is off; a credential with a user leads to the user-info screen; an error shows its code's message |
| Login.ErrorMessage | WheringClone/src/screens/LoginScreen.tsx:32-41 | the unknown-error text appears iff the code is not one of the four known ones |
| Login.SharedCodesAgreeWithSignUp | WheringClone/src/screens/LoginScreen.tsx:37-40 | the codes both screens know get the same text on both; a code only one knows falls back to the unknown text on the other |
| Login.HandleLogin | WheringClone/src/screens/LoginScreen.tsx:20-46 | refused iff the email or password is empty, with no call; after a call loading is off; an error shows its code's message |

## Left out

- Firebase auth, Firestore and Storage calls are not executed. Their
  answers are parameters, so the query filter by user id, the
  `createdAt` ordering, document ids and storage paths belong to the
  backend and are not modelled.
- `parseFloat` and the number shown by `toString` are not modelled. A
  price is opaque text. Only the empty-string-to-null rule is kept.
- ItemForm.PriceRoundTrip: assumes a stored price shows as non-empty text,
  as every number does; the number-to-text conversion is not modelled.
- Username.ChoosePhoto: assumes `Platform` is in scope. UsernameScreen.tsx
  uses `Platform.OS` at line 52 without importing `Platform` (lines 2-5),
  so as written every attempt that reaches the upload throws into the
  catch block at lines 61-69 and the picture stays null; the model keeps
  the evident intent, where a successful upload sets the picture.
- `toLowerCase` and `trim` cover ASCII only. Unicode case mapping and
  Unicode whitespace are not modelled.
- The image picker, the `Platform.OS` rewrite of upload paths and the
  `Date.now()` file names depend on the device and the clock. Only the
  picker's result is a parameter.
- Server timestamps are an opaque marker in the edit payload, and are left
  out of the new-item record and the profile.
- The `loading`, `uploading` and `refreshing` flags are not modelled,
  except `loading` on the sign-up and login screens. The ordering of
  asynchronous state updates is not modelled either: in a sequential model,
  `canvasItems.length` and the functional append read the same list.
- Alerts are modelled only through their text or their kind. The alert
  the interests screen shows when nobody is signed in
  (InterestsScreen.tsx:55) and the success alerts are not modelled; the
  navigation that follows them is. The result of deleting an old image is
  ignored by the app and is not modelled; only the URLs whose deletion is
  attempted are recorded.
- Rendering, styles, navigation wiring, and the item details, welcome,
  discover, profile and add-item-source screens are not part of this model.
