/**
 * The two image-upload handlers: the `/api/upload` route used by the
 * upload dialog and the media page's `uploadImageAction`. Both check the
 * submitted part, derive the stored name from the current time and the
 * original name, and write under `public/uploads`.
 */
module Uploads {
  import opened Entities
  import Text
  import ProductActions

  /** An uploaded file: its original name, MIME type and size in bytes. */
  datatype File = File(name: string, mimeType: string, size: nat)

  /** A multipart field as `formData.get` returns it: absent (`null`), a text value, or a file. */
  datatype Part = Missing | TextPart(value: string) | FilePart(file: File)

  const UploadsUrlPrefix: string := "/uploads/"

  /** `${Date.now()}-${name.toLowerCase().replace(/\s+/g, '-')}` */
  function StoredName(now: nat, name: string): (f: string)
    ensures var stamp := Text.NatToString(now);
      && Text.StartsWith(f, stamp + "-")
      && f[|stamp| + 1..] == Text.CollapseWhitespace(Text.ToLower(name))
  {
    var stamp := Text.NatToString(now);
    assert (stamp + "-" + Text.CollapseWhitespace(Text.ToLower(name)))[..|stamp| + 1] == stamp + "-";
    stamp + "-" + Text.CollapseWhitespace(Text.ToLower(name))
  }

  function IsImageType(mimeType: string): (b: bool)
    ensures b <==> "image/" <= mimeType
  {
    Text.StartsWith(mimeType, "image/")
  }

  // ---------------------------------------------------------------------
  // The upload route

  /** The JSON body of the route, or an unhandled exception (a text part has no `type`). */
  datatype RouteResponse = Uploaded(imageUrl: string) | Refused(error: string) | Thrown

  /** The response and the stored name the route tried to write, if it tried. */
  datatype RouteRun = RouteRun(response: RouteResponse, wrote: Option<string>)

  /** `POST(request)`; `now` is `Date.now()` and `writeOk` says whether `writeFile` succeeds. */
  function PostUpload(part: Part, now: nat, writeOk: bool): (r: RouteRun)
    ensures part.Missing? || part == TextPart("") ==> r == RouteRun(Refused("No file provided."), None)
    ensures part.FilePart? && !IsImageType(part.file.mimeType) ==> r == RouteRun(Refused("Invalid file type."), None)
    ensures r.wrote.Some? <==> part.FilePart? && IsImageType(part.file.mimeType)
    ensures r.wrote.Some? ==> r.wrote.value == StoredName(now, part.file.name)
    ensures r.response.Uploaded? <==> r.wrote.Some? && writeOk
    ensures r.response.Uploaded? ==> r.response.imageUrl == UploadsUrlPrefix + r.wrote.value
    ensures r.wrote.Some? && !writeOk ==> r.response == Refused("Failed to save file.")
  {
    match part
    case Missing => RouteRun(Refused("No file provided."), None)
    case TextPart(v) => if |v| == 0 then RouteRun(Refused("No file provided."), None) else RouteRun(Thrown, None)
    case FilePart(file) =>
      if !IsImageType(file.mimeType) then RouteRun(Refused("Invalid file type."), None)
      else
        var name := StoredName(now, file.name);
        if writeOk then RouteRun(Uploaded(UploadsUrlPrefix + name), Some(name))
        else RouteRun(Refused("Failed to save file."), Some(name))
  }

  // ---------------------------------------------------------------------
  // The media page action

  const EmptyError: string := "Please select a file to upload."
  const TypeError: string := "Invalid file type. Please upload an image."
  const WriteError: string := "An unexpected error occurred while uploading the image."
  const UploadedMessage: string := "Image uploaded successfully!"

  /** `FormState`; `None` stands for `null` (and for an absent `message`). */
  datatype FormState = FormState(imageUrl: Option<string>, error: Option<string>, message: Option<string>)

  datatype ActionResponse = Returned(state: FormState) | Raised

  /** The response, the stored name written (if tried) and the paths revalidated. */
  datatype ActionRun = ActionRun(response: ActionResponse, wrote: Option<string>, revalidated: seq<string>)

  /** `uploadImageAction(prevState, formData)` */
  function UploadImage(part: Part, now: nat, writeOk: bool): (r: ActionRun)
    ensures r.response.Returned? ==> (r.response.state.imageUrl.Some? != r.response.state.error.Some?)
    ensures part.Missing? || part == TextPart("") || (part.FilePart? && part.file.size == 0) ==>
      r == ActionRun(Returned(FormState(None, Some(EmptyError), None)), None, [])
    ensures part.FilePart? && part.file.size > 0 && !IsImageType(part.file.mimeType) ==>
      r == ActionRun(Returned(FormState(None, Some(TypeError), None)), None, [])
    ensures r.wrote.Some? <==> part.FilePart? && part.file.size > 0 && IsImageType(part.file.mimeType)
    ensures r.wrote.Some? ==> r.wrote.value == StoredName(now, part.file.name)
    ensures r.wrote.Some? && writeOk ==> r.response == Returned(FormState(Some(UploadsUrlPrefix + r.wrote.value), None, Some(UploadedMessage)))
    ensures r.wrote.Some? && writeOk ==> r.revalidated == ["/admin/products/add", "/admin/products/edit/.*"]
    ensures r.wrote.None? ==> r.revalidated == []
    ensures r.wrote.Some? && !writeOk ==> r.response == Returned(FormState(None, Some(WriteError), None)) && r.revalidated == []
  {
    match part
    case Missing => ActionRun(Returned(FormState(None, Some(EmptyError), None)), None, [])
    case TextPart(v) =>
      if |v| == 0 then ActionRun(Returned(FormState(None, Some(EmptyError), None)), None, [])
      else ActionRun(Raised, None, [])
    case FilePart(image) =>
      if image.size == 0 then ActionRun(Returned(FormState(None, Some(EmptyError), None)), None, [])
      else if !IsImageType(image.mimeType) then ActionRun(Returned(FormState(None, Some(TypeError), None)), None, [])
      else
        var name := StoredName(now, image.name);
        if writeOk then
          ActionRun(Returned(FormState(Some(UploadsUrlPrefix + name), None, Some(UploadedMessage))), Some(name),
            ["/admin/products/add", "/admin/products/edit/.*"])
        else ActionRun(Returned(FormState(None, Some(WriteError), None)), Some(name), [])
  }

  // ---------------------------------------------------------------------
  // Properties

  /** The stored name has no whitespace after the timestamp and is no longer than the original name plus the prefix. */
  lemma StoredNameShape(now: nat, name: string)
    ensures var f := StoredName(now, name); var stamp := Text.NatToString(now);
      && (forall i :: |stamp| < i < |f| ==> !Text.IsSpace(f[i]))
      && |f| <= |stamp| + 1 + |name|
  {
    var f := StoredName(now, name);
    var stamp := Text.NatToString(now);
    var tail := Text.CollapseWhitespace(Text.ToLower(name));
    Text.CollapseFromFacts(Text.ToLower(name), false);
    forall i | |stamp| < i < |f| ensures !Text.IsSpace(f[i]) {
      assert f[i] == tail[i - |stamp| - 1];
    }
  }

  /** The timestamp and the name part can be read back from the stored name. */
  lemma StoredNameSplits(now: nat, name: string)
    ensures var f := StoredName(now, name); var stamp := Text.NatToString(now);
      && f[..|stamp|] == stamp && f[|stamp|] == '-'
      && (forall i :: 0 <= i < |stamp| ==> Text.IsDigit(f[i]))
  {
    var f := StoredName(now, name);
    var stamp := Text.NatToString(now);
    assert f[..|stamp| + 1] == stamp + "-";
    assert f[..|stamp|] == (stamp + "-")[..|stamp|];
  }

  /** A lower-case name without whitespace is kept as it is. */
  lemma PlainNameKept(now: nat, name: string)
    requires forall i :: 0 <= i < |name| ==> !Text.IsSpace(name[i]) && !Text.IsUpperAscii(name[i])
    ensures StoredName(now, name) == Text.NatToString(now) + "-" + name
  {
    assert Text.ToLower(name) == name;
    Text.CollapseFromFacts(name, false);
  }

  /** For an accepted non-empty image that is written, both handlers store it under the same name and URL. */
  lemma HandlersAgree(file: File, now: nat)
    requires file.size > 0 && IsImageType(file.mimeType)
    ensures PostUpload(FilePart(file), now, true).response.imageUrl ==
      UploadImage(FilePart(file), now, true).response.state.imageUrl.value
  {
  }

  /**
   * The handlers differ on an empty image: the route stores it, the action
   * refuses it.
   */
  lemma EmptyFileOnlyRouteAccepts(name: string, now: nat)
    ensures PostUpload(FilePart(File(name, "image/png", 0)), now, true).response.Uploaded?
    ensures UploadImage(FilePart(File(name, "image/png", 0)), now, true).response.state.error == Some(EmptyError)
  {
    assert IsImageType("image/png");
  }

  /**
   * Uploaded images live under `/uploads/`, while the product image listing
   * only ever yields `/products/` URLs, so an upload never appears in it.
   */
  lemma UploadsNotInProductListing(file: File, now: nat, listing: Option<seq<string>>)
    requires file.size > 0 && IsImageType(file.mimeType)
    ensures UploadImage(FilePart(file), now, true).response.state.imageUrl.value !in ProductActions.GetProductImages(listing)
  {
    var url := UploadImage(FilePart(file), now, true).response.state.imageUrl.value;
    assert url[1] == 'u';
    var urls := ProductActions.GetProductImages(listing);
    forall i | 0 <= i < |urls| ensures urls[i] != url {
      assert urls[i][1] == 'p';
    }
  }
}
