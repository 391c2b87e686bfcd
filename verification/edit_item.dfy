/** Editing an item: the form initialised from the stored record, replacing
    the image, and `handleUpdateItem` with its guards, image and status rules,
    best-effort deletion of old images and removal of undefined keys. */
module EditItem {
  import opened Common
  import opened Text
  import opened Wardrobe
  import opened ItemForm

  // ----- form state -----

  /** `processedImageUrl || originalImageUrl`. */
  function DisplayImage(item: Item): (url: string)
    ensures item.processedImageUrl.Value? && item.processedImageUrl.value != "" ==>
            url == item.processedImageUrl.value
    ensures !(item.processedImageUrl.Value? && item.processedImageUrl.value != "") ==>
            url == item.originalImageUrl
  {
    if item.processedImageUrl.Value? && item.processedImageUrl.value != "" then item.processedImageUrl.value
    else item.originalImageUrl
  }

  /** Stored tags the form's parser could have produced. */
  predicate WellFormedTags(tags: Option<seq<string>>) {
    tags.Some? ==> forall k :: 0 <= k < |tags.value| ==> WellFormedTag(tags.value[k])
  }

  /** The form as first shown: absent text fields become empty, the price is
      shown as text and the tags joined with ", ". Parsing the shown price
      and tags back gives the stored ones (an undefined price as null). */
  function InitialForm(item: Item): (f: Form)
    ensures f.category == item.category
    ensures item.brand.Some? ==> f.brand == item.brand.value
    ensures item.brand.None? ==> f.brand == ""
    ensures item.color.Some? ==> f.color == item.color.value
    ensures item.color.None? ==> f.color == ""
    ensures item.size.Some? ==> f.size == item.size.value
    ensures item.size.None? ==> f.size == ""
    ensures item.notes.Some? ==> f.notes == item.notes.value
    ensures item.notes.None? ==> f.notes == ""
    ensures WellFormedTags(item.tags) ==> ParseTags(f.tags) == item.tags.GetOr([])
    ensures (item.price.Value? ==> item.price.value.text != "") ==>
            ParsePrice(f.price) == (if item.price.Undefined? then Null else item.price)
  {
    var tags := if item.tags.Some? then JoinTags(item.tags.value) else "";
    assert WellFormedTags(item.tags) ==> ParseTags(tags) == item.tags.GetOr([]) by {
      if item.tags.Some? && WellFormedTags(item.tags) {
        TagRoundTrip(item.tags.value);
      } else if item.tags.None? {
        TagRoundTrip([]);
      }
    }
    assert (item.price.Value? ==> item.price.value.text != "") ==>
           ParsePrice(PriceText(item.price)) == (if item.price.Undefined? then Null else item.price) by {
      if item.price.Value? ==> item.price.value.text != "" {
        PriceRoundTrip(item.price);
      }
    }
    Form(
      category := item.category,
      brand := item.brand.GetOr(""),
      color := item.color.GetOr(""),
      size := item.size.GetOr(""),
      price := PriceText(item.price),
      tags := tags,
      notes := item.notes.GetOr(""))
  }

  datatype EditState = EditState(imageForDisplay: string, newLocalImageUri: Option<string>, form: Form)

  /** The screen's state when it opens: the stored image shown, no new image picked. */
  function InitialState(item: Item): EditState {
    EditState(DisplayImage(item), None, InitialForm(item))
  }

  /** Outcome of the image picker. */
  datatype Pick = Picked(path: string) | PickCancelled | PickError

  /** `handleChoosePhoto`: a picked image becomes the new image and is shown at once. */
  function ChoosePhoto(s: EditState, pick: Pick): (t: EditState)
    ensures t.form == s.form
    ensures pick.Picked? && pick.path != "" ==>
            t.newLocalImageUri == Some(pick.path) && t.imageForDisplay == pick.path
    ensures !(pick.Picked? && pick.path != "") ==> t == s
  {
    if pick.Picked? && pick.path != "" then s.(newLocalImageUri := Some(pick.path), imageForDisplay := pick.path)
    else s
  }

  // ----- the update payload -----

  /** A value in the update payload. */
  datatype Field =
    | Str(s: string)
    | NullField
    | UndefinedField
    | PriceField(price: Price)
    | TagsField(tags: seq<string>)
    | StatusField(status: Status)
    | ServerTimestamp

  /** The payload's keys. */
  datatype Key =
    | CategoryKey | BrandKey | ColorKey | SizeKey | PriceKey | TagsKey | NotesKey
    | OriginalImageUrlKey | ProcessedImageUrlKey | StatusKey | UpdatedAtKey

  /** The keys in the order the object literal lists them (`Object.keys`). */
  const PayloadKeys: seq<Key> :=
    [CategoryKey, BrandKey, ColorKey, SizeKey, PriceKey, TagsKey, NotesKey,
     OriginalImageUrlKey, ProcessedImageUrlKey, StatusKey, UpdatedAtKey]

  /** PayloadKeys lists every key. */
  lemma EveryKeyListed(k: Key)
    ensures k in PayloadKeys
  {
  }

  function UrlField(url: Nullable<string>): Field {
    match url
    case Undefined => UndefinedField
    case Null => NullField
    case Value(u) => Str(u)
  }

  function PriceValue(price: Nullable<Price>): Field {
    match price
    case Undefined => UndefinedField
    case Null => NullField
    case Value(p) => PriceField(p)
  }

  /** The value the object literal `updatedItemData` gives to key k. */
  function PayloadEntry(form: Form, imageUrl: string, processedImageUrl: Nullable<string>, status: Status, k: Key): Field {
    match k
    case CategoryKey => Str(Trim(form.category))
    case BrandKey => Str(Trim(form.brand))
    case ColorKey => Str(Trim(form.color))
    case SizeKey => Str(Trim(form.size))
    case PriceKey => PriceValue(ParsePrice(form.price))
    case TagsKey => TagsField(ParseTags(form.tags))
    case NotesKey => Str(Trim(form.notes))
    case OriginalImageUrlKey => Str(imageUrl)
    case ProcessedImageUrlKey => UrlField(processedImageUrl)
    case StatusKey => StatusField(status)
    case UpdatedAtKey => ServerTimestamp
  }

  /** The object literal `updatedItemData`: every key, with its value. */
  function UpdatePayload(form: Form, imageUrl: string, processedImageUrl: Nullable<string>, status: Status): (m: map<Key, Field>)
    ensures forall k: Key :: k in m
  {
    map k: Key :: PayloadEntry(form, imageUrl, processedImageUrl, status, k)
  }

  /** The payload without its undefined entries. */
  function DropUndefined(m: map<Key, Field>): (r: map<Key, Field>)
    ensures forall k :: k in r <==> k in m && !m[k].UndefinedField?
    ensures forall k :: k in r ==> r[k] == m[k]
  {
    map k | k in m && !m[k].UndefinedField? :: m[k]
  }

  /** `Object.keys(payload).forEach(key => payload[key] === undefined && delete payload[key])`. */
  method RemoveUndefined(payload: map<Key, Field>, keys: seq<Key>) returns (cleaned: map<Key, Field>)
    requires forall k :: k in payload <==> k in keys
    ensures cleaned == DropUndefined(payload)
  {
    cleaned := payload;
    var i := 0;
    while i < |keys|
      invariant 0 <= i <= |keys|
      invariant forall k :: k in cleaned ==> k in payload && cleaned[k] == payload[k]
      invariant forall k :: k in payload && !payload[k].UndefinedField? ==> k in cleaned
      invariant forall j :: 0 <= j < i ==> keys[j] !in cleaned || !cleaned[keys[j]].UndefinedField?
    {
      var key := keys[i];
      if key in cleaned && cleaned[key].UndefinedField? {
        cleaned := cleaned - {key};
      }
      i := i + 1;
    }
  }

  // ----- deleting the old images -----

  const GsScheme: string := "gs://"
  const StorageHost: string := "firebasestorage.googleapis.com"

  /** The test before deleting the old original image, with JavaScript's
      precedence: `(old && old !== new && old.startsWith('gs://')) || old.includes(host)`. */
  function DeletesOldOriginal(oldUrl: string, newUrl: string): (r: bool)
    ensures Contains(oldUrl, StorageHost) ==> r
    ensures !Contains(oldUrl, StorageHost) ==> (r <==> oldUrl != newUrl && StartsWith(oldUrl, GsScheme))
  {
    (oldUrl != "" && oldUrl != newUrl && StartsWith(oldUrl, GsScheme)) || Contains(oldUrl, StorageHost)
  }

  /** The test before deleting the old processed image:
      `(p && p.startsWith('gs://')) || p.includes(host)`. When p is null or
      undefined the right operand dereferences it and throws: None. */
  function DeletesOldProcessed(processed: Nullable<string>): (r: Option<bool>)
    ensures r.None? <==> !processed.Value?
    ensures processed.Value? ==>
              r == Some(Contains(processed.value, StorageHost) || StartsWith(processed.value, GsScheme))
  {
    match processed
    case Value(p) => Some((p != "" && StartsWith(p, GsScheme)) || Contains(p, StorageHost))
    case _ => None
  }

  // ----- handleUpdateItem -----

  datatype UpdateError = UploadError | NullDereference | WriteError

  /** What an update attempt did: refused up front, failed into the catch
      block, or wrote the payload. The URLs are the old images whose deletion
      was attempted (best effort, outcome ignored). */
  datatype UpdateResult =
    | Refused(reason: Refusal)
    | Failed(error: UpdateError, deletedUrls: seq<string>)
    | Updated(payload: map<Key, Field>, deletedUrls: seq<string>)

  /** The old images whose deletion is attempted after uploading `newUrl`,
      or None when the processed-image test throws. */
  function OldImageDeletions(existing: Item, newUrl: string): (r: Option<seq<string>>)
    ensures r.None? <==> !existing.processedImageUrl.Value?
    ensures r.Some? ==>
              && |r.value| <= 2
              && forall u :: u in r.value ==>
                   u == existing.originalImageUrl || u == existing.processedImageUrl.value
  {
    var first := if DeletesOldOriginal(existing.originalImageUrl, newUrl) then [existing.originalImageUrl] else [];
    match DeletesOldProcessed(existing.processedImageUrl)
    case None => None
    case Some(del) => Some(first + if del then [existing.processedImageUrl.value] else [])
  }

  /** The write of a cleaned payload, after the given deletions. */
  function WriteOutcome(payload: map<Key, Field>, deleted: seq<string>, write: Write): UpdateResult {
    if write.WriteOk? then Updated(payload, deleted) else Failed(WriteError, deleted)
  }

  /** The update, stated as one expression. The category guard comes first,
      then the login guard, and nothing else refuses; each failure names the
      step that failed. */
  function UpdateOutcome(existing: Item, form: Form, newLocalImageUri: Option<string>,
                         user: Option<AuthUser>, upload: Upload, write: Write): (r: UpdateResult)
    ensures r == Refused(MissingCategory) <==> Trim(form.category) == ""
    ensures r == Refused(NotLoggedIn) <==> Trim(form.category) != "" && user.None?
    ensures r.Refused? ==> r.reason != NoImage
    ensures r.Updated? ==> write.WriteOk?
    ensures r.Failed? && r.error == WriteError ==> write.WriteFailed?
    ensures r.Failed? && r.error == UploadError ==> Truthy(newLocalImageUri) && upload.UploadFailed?
    ensures r.Failed? && r.error == NullDereference ==>
              Truthy(newLocalImageUri) && !existing.processedImageUrl.Value?
    ensures !Truthy(newLocalImageUri) && !r.Refused? ==> r.deletedUrls == []
    ensures !r.Refused? ==>
              forall u :: u in r.deletedUrls ==> u == existing.originalImageUrl || existing.processedImageUrl == Value(u)
  {
    if Trim(form.category) == "" then Refused(MissingCategory)
    else if user.None? then Refused(NotLoggedIn)
    else if !Truthy(newLocalImageUri) then
      WriteOutcome(DropUndefined(UpdatePayload(form, existing.originalImageUrl, existing.processedImageUrl, existing.status)), [], write)
    else if upload.UploadFailed? then Failed(UploadError, [])
    else
      match OldImageDeletions(existing, upload.downloadUrl)
      case None =>
        var first := if DeletesOldOriginal(existing.originalImageUrl, upload.downloadUrl) then [existing.originalImageUrl] else [];
        Failed(NullDereference, first)
      case Some(deleted) =>
        WriteOutcome(DropUndefined(UpdatePayload(form, upload.downloadUrl, Null, PendingProcessing)), deleted, write)
  }

  /** `handleUpdateItem`, step by step as the screen runs it. */
  method UpdateItem(existing: Item, form: Form, newLocalImageUri: Option<string>,
                    user: Option<AuthUser>, upload: Upload, write: Write) returns (r: UpdateResult)
    ensures r == UpdateOutcome(existing, form, newLocalImageUri, user, upload, write)
  {
    if Trim(form.category) == "" {
      return Refused(MissingCategory);
    }
    if user.None? {
      return Refused(NotLoggedIn);
    }
    var finalImageUrl := existing.originalImageUrl;
    var finalProcessedImageUrl := existing.processedImageUrl;
    var itemStatus := existing.status;
    var deleted: seq<string> := [];
    if Truthy(newLocalImageUri) {
      if upload.UploadFailed? {
        return Failed(UploadError, []);
      }
      finalImageUrl := upload.downloadUrl;
      finalProcessedImageUrl := Null;
      itemStatus := PendingProcessing;
      if DeletesOldOriginal(existing.originalImageUrl, finalImageUrl) {
        deleted := deleted + [existing.originalImageUrl];
      }
      var test := DeletesOldProcessed(existing.processedImageUrl);
      if test.None? {
        return Failed(NullDereference, deleted);
      }
      if test.value {
        deleted := deleted + [existing.processedImageUrl.value];
      }
    }
    var payload := UpdatePayload(form, finalImageUrl, finalProcessedImageUrl, itemStatus);
    forall k: Key
      ensures k in PayloadKeys
    {
      EveryKeyListed(k);
    }
    payload := RemoveUndefined(payload, PayloadKeys);
    if write.WriteFailed? {
      return Failed(WriteError, deleted);
    }
    return Updated(payload, deleted);
  }

  // ----- what the update promises -----

  /** Without a new image the stored image URLs and status are written back
      unchanged (an undefined processed URL is left out), and nothing is deleted. */
  lemma UpdateWithoutNewImage(existing: Item, form: Form, newLocalImageUri: Option<string>,
                              user: Option<AuthUser>, upload: Upload)
    requires Trim(form.category) != "" && user.Some? && !Truthy(newLocalImageUri)
    ensures var r := UpdateOutcome(existing, form, newLocalImageUri, user, upload, WriteOk);
            && r.Updated? && r.deletedUrls == []
            && OriginalImageUrlKey in r.payload && r.payload[OriginalImageUrlKey] == Str(existing.originalImageUrl)
            && StatusKey in r.payload && r.payload[StatusKey] == StatusField(existing.status)
            && (ProcessedImageUrlKey in r.payload <==> !existing.processedImageUrl.Undefined?)
            && (ProcessedImageUrlKey in r.payload ==>
                  r.payload[ProcessedImageUrlKey] == UrlField(existing.processedImageUrl))
  {
    var (url, processed, status) := (existing.originalImageUrl, existing.processedImageUrl, existing.status);
    assert UpdateOutcome(existing, form, newLocalImageUri, user, upload, WriteOk)
        == Updated(DropUndefined(UpdatePayload(form, url, processed, status)), []);
    CleanedEntry(form, url, processed, status, OriginalImageUrlKey);
    CleanedEntry(form, url, processed, status, ProcessedImageUrlKey);
    CleanedEntry(form, url, processed, status, StatusKey);
  }

  /** A new image replaces the original URL with the uploaded one, clears the
      processed URL to null and marks the item for processing again. */
  lemma UpdateWithNewImage(existing: Item, form: Form, newLocalImageUri: Option<string>,
                           user: Option<AuthUser>, url: string)
    requires Trim(form.category) != "" && user.Some? && Truthy(newLocalImageUri)
    requires existing.processedImageUrl.Value?
    ensures var r := UpdateOutcome(existing, form, newLocalImageUri, user, Uploaded(url), WriteOk);
            && r.Updated?
            && OriginalImageUrlKey in r.payload && r.payload[OriginalImageUrlKey] == Str(url)
            && ProcessedImageUrlKey in r.payload && r.payload[ProcessedImageUrlKey] == NullField
            && StatusKey in r.payload && r.payload[StatusKey] == StatusField(PendingProcessing)
            && r.deletedUrls ==
                 (if DeletesOldOriginal(existing.originalImageUrl, url) then [existing.originalImageUrl] else [])
                 + (if DeletesOldProcessed(existing.processedImageUrl) == Some(true)
                    then [existing.processedImageUrl.value] else [])
  {
    var deleted := OldImageDeletions(existing, url);
    assert deleted.Some?;
    assert UpdateOutcome(existing, form, newLocalImageUri, user, Uploaded(url), WriteOk)
        == Updated(DropUndefined(UpdatePayload(form, url, Null, PendingProcessing)), deleted.value);
    CleanedEntry(form, url, Null, PendingProcessing, OriginalImageUrlKey);
    CleanedEntry(form, url, Null, PendingProcessing, ProcessedImageUrlKey);
    CleanedEntry(form, url, Null, PendingProcessing, StatusKey);
  }

  /** Replacing the image of an item whose processed URL is null or undefined
      (every item still awaiting processing) throws before the write: the
      update ends in the catch block and the document is not updated. */
  lemma NewImageOnUnprocessedItemFails(existing: Item, form: Form, newLocalImageUri: Option<string>,
                                       user: Option<AuthUser>, url: string, write: Write)
    requires Trim(form.category) != "" && user.Some? && Truthy(newLocalImageUri)
    requires !existing.processedImageUrl.Value?
    ensures var r := UpdateOutcome(existing, form, newLocalImageUri, user, Uploaded(url), write);
            r == Failed(NullDereference,
                        if DeletesOldOriginal(existing.originalImageUrl, url) then [existing.originalImageUrl] else [])
  {
  }

  /** The cleaned payload has no undefined value, keeps the null ones, and
      holds the trimmed text fields and the parsed tags. */
  lemma CleanedPayloadContents(form: Form, imageUrl: string, processed: Nullable<string>, status: Status)
    ensures var m := DropUndefined(UpdatePayload(form, imageUrl, processed, status));
            && (forall k :: k in m ==> !m[k].UndefinedField?)
            && PriceKey in m && (m[PriceKey] == NullField <==> form.price == "")
            && CategoryKey in m && m[CategoryKey] == Str(Trim(form.category))
            && TagsKey in m && m[TagsKey] == TagsField(ParseTags(form.tags))
            && UpdatedAtKey in m && m[UpdatedAtKey] == ServerTimestamp
            && (ProcessedImageUrlKey in m <==> !processed.Undefined?)
  {
    CleanedEntry(form, imageUrl, processed, status, PriceKey);
    CleanedEntry(form, imageUrl, processed, status, CategoryKey);
    CleanedEntry(form, imageUrl, processed, status, TagsKey);
    CleanedEntry(form, imageUrl, processed, status, UpdatedAtKey);
    CleanedEntry(form, imageUrl, processed, status, ProcessedImageUrlKey);
  }

  /** Every key of the cleaned payload holds its literal's value, and a key
      is dropped exactly when that value is undefined. */
  lemma CleanedEntry(form: Form, imageUrl: string, processed: Nullable<string>, status: Status, k: Key)
    ensures var m := DropUndefined(UpdatePayload(form, imageUrl, processed, status));
            var e := PayloadEntry(form, imageUrl, processed, status, k);
            && (k in m <==> !e.UndefinedField?)
            && (k in m ==> m[k] == e)
  {
  }

  /** Whatever path led to the write, the written payload is a cleaned one. */
  lemma UpdatedPayloadContents(existing: Item, form: Form, newLocalImageUri: Option<string>,
                               user: Option<AuthUser>, upload: Upload, write: Write)
    ensures var r := UpdateOutcome(existing, form, newLocalImageUri, user, upload, write);
            r.Updated? ==>
              && (forall k :: k in r.payload ==> !r.payload[k].UndefinedField?)
              && PriceKey in r.payload && (r.payload[PriceKey] == NullField <==> form.price == "")
              && CategoryKey in r.payload && r.payload[CategoryKey] == Str(Trim(form.category))
              && TagsKey in r.payload && r.payload[TagsKey] == TagsField(ParseTags(form.tags))
  {
    var r := UpdateOutcome(existing, form, newLocalImageUri, user, upload, write);
    if r.Updated? && !Truthy(newLocalImageUri) {
      var m := UpdatePayload(form, existing.originalImageUrl, existing.processedImageUrl, existing.status);
      assert r.payload == DropUndefined(m);
      CleanedPayloadContents(form, existing.originalImageUrl, existing.processedImageUrl, existing.status);
    } else if r.Updated? {
      var m := UpdatePayload(form, upload.downloadUrl, Null, PendingProcessing);
      assert r.payload == DropUndefined(m);
      CleanedPayloadContents(form, upload.downloadUrl, Null, PendingProcessing);
    }
  }

  /** Saving the form unchanged writes the stored tags and price back as
      they were, provided the stored tags are well-formed. */
  lemma UnchangedFormWritesSameTags(existing: Item, user: Option<AuthUser>, upload: Upload)
    requires Trim(existing.category) != "" && user.Some?
    requires WellFormedTags(existing.tags)
    requires existing.price.Value? ==> existing.price.value.text != ""
    ensures var s := InitialState(existing);
            var r := UpdateOutcome(existing, s.form, s.newLocalImageUri, user, upload, WriteOk);
            && r.Updated?
            && TagsKey in r.payload && r.payload[TagsKey] == TagsField(existing.tags.GetOr([]))
            && PriceKey in r.payload && r.payload[PriceKey] == PriceValue(if existing.price.Undefined? then Null else existing.price)
  {
    var form := InitialForm(existing);
    var m := UpdatePayload(form, existing.originalImageUrl, existing.processedImageUrl, existing.status);
    CleanedEntry(form, existing.originalImageUrl, existing.processedImageUrl, existing.status, TagsKey);
    CleanedEntry(form, existing.originalImageUrl, existing.processedImageUrl, existing.status, PriceKey);
  }
}
