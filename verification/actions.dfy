/**
 * `deleteProduct`: delete one product document from the client, report a
 * permission-error event on any failure, and map the error code to a
 * message.
 */
module Actions {
  import opened Entities
  import opened Effects
  import ProductActions

  const MissingIdMessage: string := "Product ID is missing."
  const DeletedMessage: string := "Successfully deleted product."
  const PermissionMessage: string := "Failed to delete product. You do not have the required permissions."
  const UnexpectedMessage: string := "An unexpected error occurred while deleting the product."

  datatype DeleteResult = DeleteResult(success: bool, message: string)

  /** The result and the effects: the delete call and, on failure, the permission event. */
  datatype DeleteRun = DeleteRun(result: DeleteResult, effects: Trace)

  /** `deleteProduct(db, id)` with `outcome` the delete call's result. */
  function DeleteProduct(id: string, outcome: Outcome): (r: DeleteRun)
    ensures r.result.success <==> |id| > 0 && outcome.Succeeded?
    ensures |id| == 0 ==> r.result.message == MissingIdMessage && r.effects == []
    ensures |id| > 0 ==> Writes(r.effects) == 1 && r.effects[0] == Write(DocPath(id), Delete, map[])
    ensures PermissionEvents(r.effects) == (if |id| > 0 && outcome.Failed? then 1 else 0)
    ensures |id| > 0 && outcome.Failed? ==>
      && PermissionEvent(DocPath(id), Delete, None) in r.effects
      && r.result.message == (if outcome.code == Named("permission-denied") then PermissionMessage else UnexpectedMessage)
  {
    if |id| == 0 then DeleteRun(DeleteResult(false, MissingIdMessage), [])
    else
      var call := Write(DocPath(id), Delete, map[]);
      match outcome
      case Succeeded(_) => DeleteRun(DeleteResult(true, DeletedMessage), [call])
      case Failed(code) =>
        var event := PermissionEvent(DocPath(id), Delete, None);
        var message := if code == Named("permission-denied") then PermissionMessage else UnexpectedMessage;
        assert [call, event][1..] == [event];
        assert Count([event], IsWrite) == 0 && Count([event], IsPermissionEvent) == 1;
        DeleteRun(DeleteResult(false, message), [call, event])
  }

  function DocPath(id: string): string {
    ProductActions.ProductsCollection + "/" + id
  }

  // ---------------------------------------------------------------------
  // Properties

  /**
   * Unlike the blog action, only the string code counts as a permission
   * failure here: numeric status 7 gets the generic message.
   */
  lemma NumericCodeIsUnexpected(id: string)
    requires |id| > 0
    ensures DeleteProduct(id, Failed(Numeric(7))).result.message == UnexpectedMessage
  {
  }
}
