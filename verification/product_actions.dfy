/**
 * Server-side product helpers: the cache paths touched after a product
 * change, the product-image listing of the `public/products` directory,
 * and the `saveProduct` action.
 */
module ProductActions {
  import opened Entities
  import opened Effects
  import opened Validation
  import Text

  const ProductsCollection: string := "products"

  /** JavaScript truthiness of an optional string argument. */
  predicate Given(s: Option<string>) {
    s.Some? && |s.value| > 0
  }

  /** `revalidateProductPaths(id?, slug?)` */
  function RevalidateProductPaths(id: Option<string>, slug: Option<string>): (paths: seq<string>)
    ensures |paths| >= 2 && paths[..2] == ["/admin/products", "/products"]
    ensures forall p :: p in paths <==>
      || p == "/admin/products" || p == "/products"
      || (Given(id) && p == "/products/" + id.value)
      || (Given(slug) && p == "/products/" + slug.value)
  {
    ["/admin/products", "/products"]
      + (if Given(id) then ["/products/" + id.value] else [])
      + (if Given(slug) then ["/products/" + slug.value] else [])
  }

  /** The extensions the image listing keeps, compared case-insensitively. */
  const ImageExtensions: seq<string> := [".jpg", ".jpeg", ".png", ".webp", ".svg", ".gif"]

  /** `/\.(jpg|jpeg|png|webp|svg|gif)$/i.test(file)` */
  function IsImageFile(file: string): (b: bool)
    ensures b ==> |file| >= 4 && Text.ToLower(file)[|file| - 1] in "gfp"
  {
    ExtensionsEnd(Text.ToLower(file));
    exists i :: 0 <= i < |ImageExtensions| && Text.EndsWith(Text.ToLower(file), ImageExtensions[i])
  }

  /** Every image extension has at least four characters and ends in 'g', 'f' or 'p'. */
  lemma ExtensionsEnd(low: string)
    ensures forall i :: 0 <= i < |ImageExtensions| && Text.EndsWith(low, ImageExtensions[i]) ==>
      |low| >= 4 && low[|low| - 1] in "gfp"
  {
    forall i | 0 <= i < |ImageExtensions| && Text.EndsWith(low, ImageExtensions[i])
      ensures |low| >= 4 && low[|low| - 1] in "gfp"
    {
      var e := ImageExtensions[i];
      assert |e| >= 4 && e[|e| - 1] in "gfp";
      assert low[|low| - 1] == low[|low| - |e|..][|e| - 1];
    }
  }

  /** The image files of a listing, in listing order. */
  function KeepImages(files: seq<string>): (r: seq<string>)
    ensures |r| <= |files|
    ensures forall f :: f in r ==> f in files && IsImageFile(f)
  {
    if |files| == 0 then []
    else (if IsImageFile(files[0]) then [files[0]] else []) + KeepImages(files[1..])
  }

  /**
   * `getProductImages()`: `listing` is the directory read, `None` when it
   * throws, which yields no images.
   */
  function GetProductImages(listing: Option<seq<string>>): (urls: seq<string>)
    ensures listing.None? ==> urls == []
    ensures listing.Some? ==> |urls| == |KeepImages(listing.value)|
    ensures listing.Some? ==> forall i :: 0 <= i < |urls| ==> urls[i] == "/products/" + KeepImages(listing.value)[i]
  {
    match listing
    case None => []
    case Some(files) =>
      var kept := KeepImages(files);
      seq(|kept|, i requires 0 <= i < |kept| => "/products/" + kept[i])
  }

  /** The schema of `saveProduct`: an optional `id` and no `imageEffect`. */
  const SaveSchema: Schema := [
    Field("id", NoCheck, true, ""),
    Field("name", MinLength(3), false, "Name must be at least 3 characters."),
    Field("category", MinLength(1), false, "Please select a category."),
    Field("description", MinLength(10), false, "Description must be at least 10 characters."),
    Field("specifications", MinLength(10), false, "Specifications must be at least 10 characters."),
    Field("applications", MinLength(10), false, "Applications must be at least 10 characters."),
    Field("imageUrl", NoCheck, true, "")
  ]

  const ValidationFailedMessage: string := "Validation failed. Please check the fields."
  const AddedMessage: string := "Product added successfully."
  const AddFailedMessage: string := "Failed to add product. An unexpected error occurred."

  /** `ActionState` */
  datatype ActionState = ActionState(errors: map<string, seq<string>>, message: string, success: bool)

  /** The returned state, the document written (if the call was made) and the paths revalidated. */
  datatype SaveRun = SaveRun(state: ActionState, written: Option<Doc>, revalidated: seq<string>)

  /** `saveProduct(prevState, formData)` with `outcome` the result of the create call. */
  function SaveProduct(form: Form, outcome: Outcome): (r: SaveRun)
    ensures r.state.success <==> SafeParse(SaveSchema, form, AnyEmail).Success? && outcome.Succeeded?
    ensures SafeParse(SaveSchema, form, AnyEmail).Failure? ==>
      && r.written.None? && r.revalidated == []
      && r.state.message == ValidationFailedMessage
      && r.state.errors == Flatten(Issues(SaveSchema, form, AnyEmail))
      && |r.state.errors| > 0
    ensures SafeParse(SaveSchema, form, AnyEmail).Success? ==>
      r.written == Some(SafeParse(SaveSchema, form, AnyEmail).data - {"id"})
    ensures r.written.Some? ==> "id" !in r.written.value
    ensures r.written.Some? ==> forall k :: k in r.written.value ==> k != "id" && Get(form, k) == Str(r.written.value[k])
    ensures r.state.success ==> r.state.message == AddedMessage && r.revalidated == RevalidateProductPaths(None, None)
    ensures r.written.Some? && !r.state.success ==> r.state.message == AddFailedMessage && r.state.errors == map[] && r.revalidated == []
  {
    match SafeParse(SaveSchema, form, AnyEmail)
    case Failure(issues) =>
      SaveRun(ActionState(Flatten(issues), ValidationFailedMessage, false), None, [])
    case Success(data) =>
      var productData := data - {"id"};
      match outcome
      case Succeeded(_) =>
        SaveRun(ActionState(map[], AddedMessage, true), Some(productData), RevalidateProductPaths(None, None))
      case Failed(_) =>
        SaveRun(ActionState(map[], AddFailedMessage, false), Some(productData), [])
  }

  // ---------------------------------------------------------------------
  // Properties

  /** A file is listed exactly when it is in the directory and has an image extension. */
  lemma {:induction false} KeepImagesExactly(files: seq<string>, f: string)
    ensures f in KeepImages(files) <==> f in files && IsImageFile(f)
  {
    if |files| > 0 {
      KeepImagesExactly(files[1..], f);
      assert files == [files[0]] + files[1..];
    }
  }

  /** The image filter keeps relative order: it distributes over concatenation. */
  lemma {:induction false} KeepImagesAppend(a: seq<string>, b: seq<string>)
    ensures KeepImages(a + b) == KeepImages(a) + KeepImages(b)
  {
    if |a| == 0 {
      assert a + b == b;
    } else {
      assert (a + b)[0] == a[0];
      assert (a + b)[1..] == a[1..] + b;
      KeepImagesAppend(a[1..], b);
    }
  }

  /** Upper-case extensions are kept; system files and other extensions are not. */
  lemma ImageFilterExamples()
    ensures IsImageFile("Photo.JPG")
    ensures !IsImageFile(".DS_Store")
    ensures !IsImageFile("notes.jpg.txt")
  {
    assert Text.ToLower("Photo.JPG") == "photo.jpg";
    assert Text.EndsWith("photo.jpg", ImageExtensions[0]);
    NotImage(".DS_Store");
    NotImage("notes.jpg.txt");
  }

  /** A name whose lower-cased form does not end in 'g', 'f' or 'p' has none of the extensions. */
  lemma NotImage(file: string)
    requires |file| > 0
    requires var l := Text.ToLower(file)[|file| - 1]; l != 'g' && l != 'f' && l != 'p'
    ensures !IsImageFile(file)
  {
    var low := Text.ToLower(file);
    forall i | 0 <= i < |ImageExtensions| ensures !Text.EndsWith(low, ImageExtensions[i]) {
      var e := ImageExtensions[i];
      assert |e| > 0 && e[|e| - 1] in "gfp";
      LastCharDiffers(low, e);
    }
  }

  /** Different last characters rule out a suffix. */
  lemma LastCharDiffers(s: string, suffix: string)
    requires |s| > 0 && |suffix| > 0 && s[|s| - 1] != suffix[|suffix| - 1]
    ensures !Text.EndsWith(s, suffix)
  {
    if |suffix| <= |s| {
      assert s[|s| - |suffix|..][|suffix| - 1] == s[|s| - 1];
    }
  }

  /** A listing of one image and one other file yields the image's URL alone. */
  lemma OneImageOneOther(a: string, b: string)
    requires IsImageFile(a) && !IsImageFile(b)
    ensures GetProductImages(Some([a, b])) == ["/products/" + a]
  {
    assert [a, b][1..] == [b];
    assert KeepImages([b]) == [];
    assert KeepImages([a, b]) == [a];
  }
}
