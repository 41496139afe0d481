/**
 * The add-blog-post page: validate the post, write it with the slug of its
 * title and the current time as its date, revalidate the blog pages and
 * return to the post list.
 */
module BlogSave {
  import opened Entities
  import opened Effects
  import opened Validation
  import opened AdminSave
  import BlogActions

  /** `blogPostSchema` */
  const BlogPostSchema: Schema := [
    Field("title", MinLength(3), false, "Title must be at least 3 characters."),
    Field("author", MinLength(2), false, "Author name is too short."),
    Field("category", MinLength(2), false, "Category is too short."),
    Field("summary", MinLength(10), false, "Summary must be at least 10 characters."),
    Field("content", MinLength(20), false, "Content is too short."),
    Field("imageUrl", NoCheck, true, "")
  ]

  const BlogList: string := "/admin/blog"

  /** The blog rules, written out field by field. */
  predicate ValidBlogForm(form: Form) {
    && StrAtLeast(Get(form, "title"), 3)
    && StrAtLeast(Get(form, "author"), 2)
    && StrAtLeast(Get(form, "category"), 2)
    && StrAtLeast(Get(form, "summary"), 10)
    && StrAtLeast(Get(form, "content"), 20)
    && OptionalStr(Get(form, "imageUrl"))
  }

  function TitleOf(data: map<string, string>): string {
    if "title" in data then data["title"] else ""
  }

  /** `{...validatedFields.data, slug: slugify(title), date: new Date().toISOString()}`; `now` is the timestamp. */
  function PostPayload(data: map<string, string>, slugify: string -> string, now: string): (d: Doc)
    ensures d.Keys == data.Keys + {"slug", "date"}
    ensures d["slug"] == slugify(TitleOf(data)) && d["date"] == now
    ensures forall k :: k in data && k != "slug" && k != "date" ==> d[k] == data[k]
  {
    data["slug" := slugify(TitleOf(data))]["date" := now]
  }

  function PayloadOf(slugify: string -> string, now: string): map<string, string> -> Doc {
    data => PostPayload(data, slugify, now)
  }

  function AfterWrite(d: Doc): (t: Trace)
    ensures Quiet(t)
    ensures Navigate(BlogList) in t
  {
    Revalidations(BlogActions.RevalidateBlogPaths(Some(SlugOf(d))))
      + [Notify("Success!", "Blog post has been added.", false), Navigate(BlogList)]
  }

  function OnAdded(): (string, Doc) -> Trace {
    (_, d) => AfterWrite(d)
  }

  /** The add page's `handleSave`. */
  function AddBlogPost(form: Form, slugify: string -> string, now: string, outcome: Outcome): (t: Trace)
    ensures |t| > 0 && t[0] == ClearErrors
    ensures Writes(t) == (if ValidBlogForm(form) then 1 else 0)
    ensures PermissionEvents(t) == (if ValidBlogForm(form) && outcome.Failed? then 1 else 0)
  {
    BlogSchemaMeansRules(form);
    SaveHandlerEffects(SafeParse(BlogPostSchema, form, AnyEmail), BlogActions.BlogsCollection, Create,
      PayloadOf(slugify, now), outcome, OnAdded(), "Add Failed", BlogList);
    SaveHandler(SafeParse(BlogPostSchema, form, AnyEmail), BlogActions.BlogsCollection, Create,
      PayloadOf(slugify, now), outcome, OnAdded(), "Add Failed")
  }

  // ---------------------------------------------------------------------
  // Properties

  /** The schema accepts a post exactly when the field-by-field rules hold. */
  lemma BlogSchemaMeansRules(form: Form)
    ensures SafeParse(BlogPostSchema, form, AnyEmail).Success? <==> ValidBlogForm(form)
  {
    var s := BlogPostSchema;
    assert (forall i :: 0 <= i < |s| ==> FieldOk(s[i], form, AnyEmail)) <==>
      FieldOk(s[0], form, AnyEmail) && FieldOk(s[1], form, AnyEmail) && FieldOk(s[2], form, AnyEmail)
      && FieldOk(s[3], form, AnyEmail) && FieldOk(s[4], form, AnyEmail) && FieldOk(s[5], form, AnyEmail);
  }

  /** The written post carries the form's title, the slug of that title and the given date. */
  lemma PostCarriesTitleSlugAndDate(form: Form, slugify: string -> string, now: string)
    requires ValidBlogForm(form)
    ensures var d := PostPayload(SafeParse(BlogPostSchema, form, AnyEmail).data, slugify, now);
      && "title" in d && d["title"] == Get(form, "title").s
      && d["slug"] == slugify(Get(form, "title").s)
      && d["date"] == now
  {
    BlogSchemaMeansRules(form);
    assert BlogPostSchema[0].key == "title";
    DataHoldsPassingFields(BlogPostSchema, form, AnyEmail, 0);
  }

  /**
   * Adding a post: an invalid form writes nothing and never sets the saving
   * flag; a valid one creates one document in `blogs`, emits one permission
   * event exactly when the create fails, clears the flag, and returns to the
   * post list exactly when the create succeeds.
   */
  lemma AddBlogPostEffects(form: Form, slugify: string -> string, now: string, outcome: Outcome)
    ensures var t := AddBlogPost(form, slugify, now, outcome);
      && t[0] == ClearErrors
      && (!ValidBlogForm(form) ==> Writes(t) == 0 && Count(t, IsSetSaving) == 0 && PermissionEvents(t) == 0)
      && (ValidBlogForm(form) ==>
        && Writes(t) == 1
        && Write(BlogActions.BlogsCollection, Create, PostPayload(SafeParse(BlogPostSchema, form, AnyEmail).data, slugify, now)) in t
        && PermissionEvents(t) == (if outcome.Failed? then 1 else 0)
        && (outcome.Failed? ==>
          PermissionEvent(BlogActions.BlogsCollection, Create, Some(PostPayload(SafeParse(BlogPostSchema, form, AnyEmail).data, slugify, now))) in t)
        && t[|t| - 1] == SetSaving(false))
      && (Navigate(BlogList) in t <==> ValidBlogForm(form) && outcome.Succeeded?)
  {
    BlogSchemaMeansRules(form);
    SaveHandlerEffects(SafeParse(BlogPostSchema, form, AnyEmail), BlogActions.BlogsCollection, Create,
      PayloadOf(slugify, now), outcome, OnAdded(), "Add Failed", BlogList);
  }
}
