/**
 * Server-side blog helpers: the cache paths touched after a blog change
 * and the `deleteBlogPost` action with its error-code mapping.
 */
module BlogActions {
  import opened Entities
  import opened Effects

  const BlogsCollection: string := "blogs"

  /** `revalidateBlogPaths(slug?)` */
  function RevalidateBlogPaths(slug: Option<string>): (paths: seq<string>)
    ensures |paths| >= 2 && paths[..2] == ["/admin/blog", "/blog"]
    ensures forall p :: p in paths <==>
      p == "/admin/blog" || p == "/blog" || (slug.Some? && |slug.value| > 0 && p == "/blog/" + slug.value)
  {
    ["/admin/blog", "/blog"] + (if slug.Some? && |slug.value| > 0 then ["/blog/" + slug.value] else [])
  }

  const MissingIdMessage: string := "Blog ID is missing."
  const DeletedMessage: string := "Successfully deleted blog post."
  const PermissionMessage: string := "Failed to delete blog post. You may not have the required permissions."
  const UnexpectedMessage: string := "An unexpected error occurred while deleting the blog post."

  /** The error codes the action reads as a permission failure: the string one and gRPC status 7. */
  function IsPermissionCode(code: ErrorCode): (b: bool)
    ensures b ==> !code.NoCode?
    ensures code.Named? ==> (b <==> code.name == "permission-denied")
    ensures code.Numeric? ==> (b <==> code.n == 7)
  {
    code == Named("permission-denied") || code == Numeric(7)
  }

  /** The returned message and the effects: the delete call and, on success, the two list revalidations. */
  datatype DeleteRun = DeleteRun(message: string, effects: Trace)

  /** `deleteBlogPost(id)` with `outcome` the delete call's result. */
  function DeleteBlogPost(id: string, outcome: Outcome): (r: DeleteRun)
    ensures |id| == 0 ==> r == DeleteRun(MissingIdMessage, [])
    ensures |id| > 0 ==> |r.effects| > 0 && r.effects[0] == Write(BlogsCollection + "/" + id, Delete, map[])
    ensures |id| > 0 && outcome.Succeeded? ==>
      r.message == DeletedMessage && Revalidate("/admin/blog") in r.effects && Revalidate("/blog") in r.effects
    ensures |id| > 0 && outcome.Failed? ==>
      && (r.message == PermissionMessage <==> IsPermissionCode(outcome.code))
      && (r.message == UnexpectedMessage <==> !IsPermissionCode(outcome.code))
      && |r.effects| == 1
  {
    if |id| == 0 then DeleteRun(MissingIdMessage, [])
    else
      var call := [Write(BlogsCollection + "/" + id, Delete, map[])];
      match outcome
      case Succeeded(_) => DeleteRun(DeletedMessage, call + [Revalidate("/admin/blog"), Revalidate("/blog")])
      case Failed(code) =>
        if IsPermissionCode(code) then DeleteRun(PermissionMessage, call)
        else DeleteRun(UnexpectedMessage, call)
  }

  // ---------------------------------------------------------------------
  // Properties

  /** A failed delete with gRPC status 7 gets the permission message, unlike a failed product delete. */
  lemma NumericSevenIsPermission(id: string)
    requires |id| > 0
    ensures DeleteBlogPost(id, Failed(Numeric(7))).message == PermissionMessage
  {
  }

  /** Each outcome of a delete gets its own message: the four messages are told apart by the result. */
  lemma DeleteMessagesDistinguishOutcomes(id: string, outcome: Outcome)
    ensures var m := DeleteBlogPost(id, outcome).message;
      && (m == MissingIdMessage <==> |id| == 0)
      && (m == DeletedMessage <==> |id| > 0 && outcome.Succeeded?)
      && (m == PermissionMessage <==> |id| > 0 && outcome.Failed? && IsPermissionCode(outcome.code))
  {
  }

  /** A blog's detail page is revalidated exactly when a non-empty slug is passed. */
  lemma DetailPageOnlyWithSlug(slug: Option<string>)
    ensures (slug.Some? && |slug.value| > 0) <==> |RevalidateBlogPaths(slug)| == 3
  {
  }
}
