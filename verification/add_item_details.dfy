/** Saving a new item: the guards, the choice between an uploaded local image
    and a remote URL, and the record written for the backend to process. */
module AddItemDetails {
  import opened Common
  import opened Text
  import opened Wardrobe
  import opened ItemForm

  /** Route params: a local file from the camera or library, or a remote image URL. */
  datatype Params = Params(imageUri: Option<string>, imageUrl: Option<string>)

  /** `localImageUri || remoteImageUrl`. */
  function ImageToDisplay(p: Params): (r: Option<string>)
    ensures Truthy(r) <==> Truthy(p.imageUri) || Truthy(p.imageUrl)
    ensures Truthy(p.imageUri) ==> r == p.imageUri
  {
    if Truthy(p.imageUri) then p.imageUri else p.imageUrl
  }

  /** The new item document (timestamps left out). */
  datatype ItemData = ItemData(
    userId: string,
    originalImageUrl: string,
    processedImageUrl: Nullable<string>,
    category: string,
    brand: string,
    color: string,
    size: string,
    price: Nullable<Price>,
    tags: seq<string>,
    notes: string,
    status: Status)

  datatype SaveResult =
    | Refused(reason: Refusal)
    | UploadError
    | NoImageUrl
    | WriteError(data: ItemData)
    | Saved(data: ItemData)

  function NewItemData(uid: string, imageUrl: string, form: Form): ItemData {
    ItemData(
      userId := uid,
      originalImageUrl := imageUrl,
      processedImageUrl := Null,
      category := Trim(form.category),
      brand := Trim(form.brand),
      color := Trim(form.color),
      size := Trim(form.size),
      price := ParsePrice(form.price),
      tags := ParseTags(form.tags),
      notes := Trim(form.notes),
      status := PendingProcessing)
  }

  /** `handleSaveItem`: the image guard, then the category guard, then the
      login guard; then the upload of a local image (whose URL wins over a
      remote one), the URL check, and the write. */
  function SaveItem(p: Params, form: Form, user: Option<AuthUser>, upload: Upload, write: Write): (r: SaveResult)
    ensures r == Refused(NoImage) <==> !Truthy(ImageToDisplay(p))
    ensures r == Refused(MissingCategory) <==> Truthy(ImageToDisplay(p)) && Trim(form.category) == ""
    ensures r == Refused(NotLoggedIn) <==>
            Truthy(ImageToDisplay(p)) && Trim(form.category) != "" && user.None?
    ensures r.UploadError? ==> Truthy(p.imageUri) && upload.UploadFailed?
    ensures r.NoImageUrl? ==> Truthy(p.imageUri) && upload == Uploaded("")
    ensures r.Saved? ==> write.WriteOk?
    ensures r.WriteError? ==> write.WriteFailed?
    ensures && Truthy(ImageToDisplay(p)) && Trim(form.category) != "" && user.Some?
            && (Truthy(p.imageUri) ==> upload.Uploaded? && upload.downloadUrl != "")
            ==> r.Saved? || r.WriteError?
    ensures (r.Saved? || r.WriteError?) ==>
            var d := r.data;
            && user.Some? && d.userId == user.value.uid
            && d.processedImageUrl == Null && d.status == PendingProcessing
            && d.originalImageUrl != ""
            && (if Truthy(p.imageUri) then upload == Uploaded(d.originalImageUrl)
                else p.imageUrl == Some(d.originalImageUrl))
            && d.category == Trim(form.category) && d.category != "" && IsTrimmed(d.category)
            && d.brand == Trim(form.brand) && d.color == Trim(form.color)
            && d.size == Trim(form.size) && d.notes == Trim(form.notes)
            && IsTrimmed(d.brand) && IsTrimmed(d.color) && IsTrimmed(d.size) && IsTrimmed(d.notes)
            && d.price == ParsePrice(form.price) && (d.price == Null <==> form.price == "")
            && d.tags == ParseTags(form.tags)
  {
    if !Truthy(ImageToDisplay(p)) then Refused(NoImage)
    else if Trim(form.category) == "" then Refused(MissingCategory)
    else if user.None? then Refused(NotLoggedIn)
    else if Truthy(p.imageUri) && upload.UploadFailed? then UploadError
    else
      var finalImageUrl := if Truthy(p.imageUri) then Some(upload.downloadUrl) else p.imageUrl;
      if !Truthy(finalImageUrl) then NoImageUrl
      else
        var data := NewItemData(user.value.uid, finalImageUrl.value, form);
        if write.WriteOk? then Saved(data) else WriteError(data)
  }
}
