/**
 * The add-product page and the edit-product form: both validate the same
 * product schema, write the validated fields plus the slug of the name,
 * revalidate the product pages and return to the product list on success.
 */
module ProductSave {
  import opened Entities
  import opened Effects
  import opened Validation
  import opened AdminSave
  import ProductActions

  /** `productSchema` of the add page and the edit form (the two declarations are identical). */
  const ProductFormSchema: Schema := [
    Field("name", MinLength(3), false, "Name must be at least 3 characters."),
    Field("category", MinLength(1), false, "Please select a category."),
    Field("description", MinLength(10), false, "Description must be at least 10 characters."),
    Field("specifications", MinLength(10), false, "Specifications must be at least 10 characters."),
    Field("applications", MinLength(10), false, "Applications must be at least 10 characters."),
    Field("imageUrl", NoCheck, true, ""),
    Field("imageEffect", NoCheck, true, "")
  ]

  const ProductsList: string := "/admin/products"

  /** The product rules, written out field by field. */
  predicate ValidProductForm(form: Form) {
    && StrAtLeast(Get(form, "name"), 3)
    && StrAtLeast(Get(form, "category"), 1)
    && StrAtLeast(Get(form, "description"), 10)
    && StrAtLeast(Get(form, "specifications"), 10)
    && StrAtLeast(Get(form, "applications"), 10)
    && OptionalStr(Get(form, "imageUrl"))
    && OptionalStr(Get(form, "imageEffect"))
  }

  function NameOf(data: map<string, string>): string {
    if "name" in data then data["name"] else ""
  }

  /** `{...validatedFields.data, slug: slugify(validatedFields.data.name)}` */
  function WithSlug(data: map<string, string>, slugify: string -> string): (d: Doc)
    ensures d.Keys == data.Keys + {"slug"}
    ensures SlugOf(d) == slugify(NameOf(data))
    ensures forall k :: k in data && k != "slug" ==> d[k] == data[k]
  {
    data["slug" := slugify(NameOf(data))]
  }

  /** The `.then` branch: revalidate the product pages, toast, go to the list. */
  function AfterWrite(id: string, d: Doc, text: string): (t: Trace)
    ensures Quiet(t)
    ensures Navigate(ProductsList) in t
  {
    Revalidations(ProductActions.RevalidateProductPaths(Some(id), Some(SlugOf(d))))
      + [Notify("Success!", text, false), Navigate(ProductsList)]
  }

  function PayloadOf(slugify: string -> string): map<string, string> -> Doc {
    data => WithSlug(data, slugify)
  }

  function OnAdded(): (string, Doc) -> Trace {
    (id, d) => AfterWrite(id, d, "Product has been added.")
  }

  function OnUpdated(productId: string): (string, Doc) -> Trace {
    (_, d) => AfterWrite(productId, d, "Product has been updated.")
  }

  /** The add page's `handleSave`; the new document's id comes from `outcome`. */
  function AddProduct(form: Form, slugify: string -> string, outcome: Outcome): (t: Trace)
    ensures |t| > 0 && t[0] == ClearErrors
    ensures Writes(t) == (if ValidProductForm(form) then 1 else 0)
    ensures PermissionEvents(t) == (if ValidProductForm(form) && outcome.Failed? then 1 else 0)
  {
    ProductSchemaMeansRules(form);
    SaveHandlerEffects(SafeParse(ProductFormSchema, form, AnyEmail), ProductActions.ProductsCollection, Create,
      PayloadOf(slugify), outcome, OnAdded(), "Add Failed", ProductsList);
    SaveHandler(SafeParse(ProductFormSchema, form, AnyEmail), ProductActions.ProductsCollection, Create,
      PayloadOf(slugify), outcome, OnAdded(), "Add Failed")
  }

  /** The edit form's `handleSave` for the product with document id `productId`. */
  function EditProduct(productId: string, form: Form, slugify: string -> string, outcome: Outcome): (t: Trace)
    ensures |t| > 0 && t[0] == ClearErrors
    ensures Writes(t) == (if ValidProductForm(form) then 1 else 0)
    ensures PermissionEvents(t) == (if ValidProductForm(form) && outcome.Failed? then 1 else 0)
  {
    ProductSchemaMeansRules(form);
    SaveHandlerEffects(SafeParse(ProductFormSchema, form, AnyEmail), ProductActions.ProductsCollection + "/" + productId, Update,
      PayloadOf(slugify), outcome, OnUpdated(productId), "Update Failed", ProductsList);
    SaveHandler(SafeParse(ProductFormSchema, form, AnyEmail), ProductActions.ProductsCollection + "/" + productId, Update,
      PayloadOf(slugify), outcome, OnUpdated(productId), "Update Failed")
  }

  // ---------------------------------------------------------------------
  // Properties

  /** The schema accepts a form exactly when the field-by-field rules hold. */
  lemma ProductSchemaMeansRules(form: Form)
    ensures SafeParse(ProductFormSchema, form, AnyEmail).Success? <==> ValidProductForm(form)
  {
    var s := ProductFormSchema;
    assert (forall i :: 0 <= i < |s| ==> FieldOk(s[i], form, AnyEmail)) <==>
      FieldOk(s[0], form, AnyEmail) && FieldOk(s[1], form, AnyEmail) && FieldOk(s[2], form, AnyEmail)
      && FieldOk(s[3], form, AnyEmail) && FieldOk(s[4], form, AnyEmail) && FieldOk(s[5], form, AnyEmail)
      && FieldOk(s[6], form, AnyEmail);
  }

  /** The written document carries the form's name and the slug of that name. */
  lemma PayloadCarriesNameAndSlug(form: Form, slugify: string -> string)
    requires ValidProductForm(form)
    ensures var d := WithSlug(SafeParse(ProductFormSchema, form, AnyEmail).data, slugify);
      && "name" in d && d["name"] == Get(form, "name").s
      && "slug" in d && d["slug"] == slugify(Get(form, "name").s)
      && "category" in d && d["category"] == Get(form, "category").s
  {
    ProductSchemaMeansRules(form);
    assert ProductFormSchema[0].key == "name" && ProductFormSchema[1].key == "category";
    DataHoldsPassingFields(ProductFormSchema, form, AnyEmail, 0);
    DataHoldsPassingFields(ProductFormSchema, form, AnyEmail, 1);
  }

  /**
   * Adding a product: an invalid form writes nothing and never sets the
   * saving flag; a valid one creates one document in `products`, emits one
   * permission event exactly when the create fails, clears the flag, and
   * navigates to the list exactly when the create succeeds.
   */
  lemma AddProductEffects(form: Form, slugify: string -> string, outcome: Outcome)
    ensures var t := AddProduct(form, slugify, outcome);
      && t[0] == ClearErrors
      && (!ValidProductForm(form) ==> Writes(t) == 0 && Count(t, IsSetSaving) == 0 && PermissionEvents(t) == 0)
      && (ValidProductForm(form) ==>
        && Writes(t) == 1
        && Write("products", Create, WithSlug(SafeParse(ProductFormSchema, form, AnyEmail).data, slugify)) in t
        && PermissionEvents(t) == (if outcome.Failed? then 1 else 0)
        && (outcome.Failed? ==>
          PermissionEvent("products", Create, Some(WithSlug(SafeParse(ProductFormSchema, form, AnyEmail).data, slugify))) in t)
        && t[|t| - 1] == SetSaving(false))
      && (Navigate(ProductsList) in t <==> ValidProductForm(form) && outcome.Succeeded?)
  {
    ProductSchemaMeansRules(form);
    SaveHandlerEffects(SafeParse(ProductFormSchema, form, AnyEmail), "products", Create, PayloadOf(slugify), outcome, OnAdded(), "Add Failed", ProductsList);
  }

  /** Editing a product: the same rules, but the write updates `products/<id>`. */
  lemma EditProductEffects(productId: string, form: Form, slugify: string -> string, outcome: Outcome)
    ensures var t := EditProduct(productId, form, slugify, outcome);
      var path := ProductActions.ProductsCollection + "/" + productId;
      && t[0] == ClearErrors
      && (!ValidProductForm(form) ==> Writes(t) == 0 && Count(t, IsSetSaving) == 0 && PermissionEvents(t) == 0)
      && (ValidProductForm(form) ==>
        var d := WithSlug(SafeParse(ProductFormSchema, form, AnyEmail).data, slugify);
        && Writes(t) == 1 && Write(path, Update, d) in t
        && PermissionEvents(t) == (if outcome.Failed? then 1 else 0)
        && (outcome.Failed? ==> PermissionEvent(path, Update, Some(d)) in t)
        && t[|t| - 1] == SetSaving(false))
      && (Navigate(ProductsList) in t <==> ValidProductForm(form) && outcome.Succeeded?)
  {
    ProductSchemaMeansRules(form);
    SaveHandlerEffects(SafeParse(ProductFormSchema, form, AnyEmail), ProductActions.ProductsCollection + "/" + productId, Update,
      PayloadOf(slugify), outcome, OnUpdated(productId), "Update Failed", ProductsList);
  }
}
