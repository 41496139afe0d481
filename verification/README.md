# Swalaxon Remedies site — decision logic in Dafny

This project models the small sequential decision procedures of the
Swalaxon Remedies catalogue website and its admin panel, and proves their
properties. The site itself is a CRUD front end over a hosted document
store. The model covers these procedures:

- the pager strip of the product list (`renderPageNumbers`, Previous/Next);
- the product search, page slicing, page count and card links;
- live-edit routing: public path → admin editor path → editor pane;
- the admin route guard (`middleware`);
- the category admin page: add, rename and delete with a sorted local list;
- the admin save flows: add product, edit product, add blog post;
- the upload route and the media upload action, with the stored-name scheme;
- the contact and AI-sourcing server actions;
- the product and blog server helpers: revalidation paths, image listing,
  `saveProduct`, `deleteProduct`, `deleteBlogPost`;
- the header, admin sidebar and footer selectors.

Remote calls are not modelled as code. Each call's outcome is an input, `Effects.Outcome`:
success with the new document id, or failure with an error code. The same
holds for the AI flow's answer, the directory listing and whether a file
write succeeds. `slugify`, zod's e-mail check and `localeCompare` are
function parameters. The clock is a parameter: `Date.now()` is a `nat` and
`new Date().toISOString()` a string. A save flow is a pure function from its
inputs to the ordered trace of effects it produces (`Effects.Trace`):
- clearing and showing field errors;
- the saving flag;
- the one write;
- the permission-error event;
- toasts, cache revalidation and navigation.

The properties are stated as queries on that trace.

Module layout, one file per module:
- `text.dfy` — JavaScript string built-ins: `startsWith`, `includes`,
  `toLowerCase`, `trim`, whitespace collapsing, `String(n)`.
- `entities.dfy` — the store's documents and `Option`.
- `validation.dfy` — the part of zod the forms use.
- `effects.dfy` — the effect trace.
- One module per source component, named after it.

Three places where the code's own comments or names promise more than it
does. The model follows what the code does:
- The category handlers mark their list updates "Optimistic update"
  (src/app/admin/products/categories/page.tsx lines 121, 146 and 170). But
  each update sits inside the `.then` of the remote call, so the list changes
  only after the call succeeds.
- The edit button hides itself when there is no editor path
  (`if (!editPath) return null`, src/components/admin/edit-page-button.tsx
  line 10). That guard never fires: the path hook falls back to
  "/admin/dashboard" for every unknown page (src/hooks/use-edit-path.ts line 38).
  So a signed-in viewer sees the button on every page.
- The failure event is named 'permission-error' and carries a
  `FirestorePermissionError`. Yet every save handler emits it in its `.catch`,
  whatever the error's code (for example src/app/admin/products/add/page.tsx
  lines 73-80). So a network failure is reported as a permission error too.

The media action's comment says it revalidates so that an upload "shows up
in the picker". But the picker lists `public/products` (`getProductImages`),
while both upload handlers write to `public/uploads`.
`Uploads.UploadsNotInProductListing` proves that an uploaded image's URL is
never among the listed URLs.

## Model

| member | source | states |
|---|---|---|
| Pagination.WindowContainsCurrent | src/components/ui/pagination.tsx:27-38 | for 1 ≤ current ≤ total, the window lies in [1, total], contains the current page and spans exactly min(total, 5) pages |
| Pagination.NumberedShape | src/components/ui/pagination.tsx:47-58 | the numbered part is one link per page from start to end, in increasing order |
| Pagination.NumberedActive | src/components/ui/pagination.tsx:47-58 | the numbered part has one active link if the current page is in the window, none otherwise |
| Pagination.RenderActive | src/components/ui/pagination.tsx:30-58 | for a valid current page the whole strip has exactly one active link, and it is the current page |
| Pagination.RenderCovers | src/components/ui/pagination.tsx:40-65 | the strip starts with page 1 and ends with page total, and every gap between shown pages is marked by exactly one ellipsis |
| Pagination.JoinCovers | src/components/ui/pagination.tsx:40-65 | the leading links, any numbered run over the window and the trailing links join into a covering strip |
| Pagination.CoversIncreasing | src/components/ui/pagination.tsx:40-65 | in a covering strip the shown page numbers strictly increase |
| Pagination.RenderedPagesInRange | src/components/ui/pagination.tsx:27-65 | every shown page is in [1, total] and no page is shown twice |
| Pagination.EdgeLinks | src/components/ui/pagination.tsx:40-45 | page 1 is shown separately iff start > 1, with an ellipsis iff start > 2; page total iff end < total, with an ellipsis iff end < total − 1 |
| Pagination.PrevNextStayInRange | src/components/ui/pagination.tsx:78-88 | Previous is enabled exactly when current − 1 is a page, Next exactly when current + 1 is a page |
| Pagination.PastLastPage | src/components/ui/pagination.tsx:27-88 | a current page past the last page marks no link active, and both Previous and Next stay enabled |
| Pagination.ComputeWindow | src/components/ui/pagination.tsx:27-38 | the window never ends past the last page; for a valid current page it starts at 1 or later, contains the current page and spans min(total, 5) pages (used by WindowContainsCurrent) |
| Pagination.RenderPageNumbers | src/components/ui/pagination.tsx:40-65 | the strip holds one active link when the current page is in the window and none otherwise (see RenderActive, RenderCovers, PastLastPage) |
| Pagination.PreviousDisabled | src/components/ui/pagination.tsx:80 | Previous is disabled exactly when the current page is a page and the one before it is not (see PrevNextStayInRange) |
| Pagination.NextDisabled | src/components/ui/pagination.tsx:87 | for a valid current page Next is disabled exactly when no page follows it; past the last page it stays enabled (see PrevNextStayInRange, PastLastPage) |
| ProductsPage.FilteredProducts | src/app/products/page.tsx:92-98 | a product list that has not loaded filters to the empty list |
| ProductsPage.Filter | src/app/products/page.tsx:94-97 | the result is no longer than the input and holds only input products that match the query |
| ProductsPage.FilterKeepsExactlyMatches | src/app/products/page.tsx:94-97 | a product is kept iff it is in the list and its lower-cased name or category contains the lower-cased query |
| ProductsPage.FilterAppend | src/app/products/page.tsx:94-97 | filtering distributes over concatenation, so kept products keep their relative order |
| ProductsPage.EmptyQueryKeepsAll | src/app/products/page.tsx:94-97 | the empty query keeps every product in order |
| ProductsPage.PageSliceWindow | src/app/products/page.tsx:100-103 | page p ≥ 1 is the window [(p−1)·12, p·12) of the filtered list, cut at its end, with at most 12 items |
| ProductsPage.PageSliceBounded | src/app/products/page.tsx:100-103 | any page number, even an invalid one, yields at most 12 items |
| ProductsPage.FirstPagesPrefix | src/app/products/page.tsx:100-105 | the first k pages concatenated are the first min(12k, n) filtered products |
| ProductsPage.AllPagesReproduceList | src/app/products/page.tsx:100-105 | concatenating pages 1..totalPages gives back the filtered list exactly |
| ProductsPage.PageCountTight | src/app/products/page.tsx:100-105 | a page p ≥ 1 is non-empty iff p ≤ totalPages |
| ProductsPage.PagerIffMoreThanOnePage | src/app/products/page.tsx:105 | the pager shows iff more than 12 products match |
| ProductsPage.OnSearchChange | src/app/products/page.tsx:136-139 | a search-text change stores the text and resets the page to 1 |
| ProductsPage.OnPageChange | src/app/products/page.tsx:205 | a page change keeps the search text |
| ProductsPage.SearchShowsFirstPage | src/app/products/page.tsx:100-139 | after any search change the view shows the first 12 products matching the new text |
| ProductsPage.CardHref | src/app/products/page.tsx:161 | the card link is "/products/" followed by the slug when it is non-empty, else by the id |
| ProductsPage.Matches | src/app/products/page.tsx:94-97 | the empty query matches every product, and a query equal to the name up to letter case matches it (see FilterKeepsExactlyMatches) |
| ProductsPage.PageSlice | src/app/products/page.tsx:100-103 | a page holds at most 12 products, each taken from the filtered list (see PageSliceWindow, AllPagesReproduceList) |
| ProductsPage.TotalPages | src/app/products/page.tsx:105 | the page count is the least number of 12-product pages that hold every match (see PageCountTight) |
| ProductsPage.ShowPager | src/app/products/page.tsx:200 | the pager shows iff more than 12 products match (see PagerIffMoreThanOnePage) |
| LiveEdit.UpToSlash | src/hooks/use-edit-path.ts:28 | the segment is a prefix of the text with no '/', and is followed by '/' or the end of the text |
| LiveEdit.ProductPathEditsSegment | src/hooks/use-edit-path.ts:16-30 | a "/products/…" path edits "/admin/products/edit/" plus the segment right after the prefix, up to the next '/' |
| LiveEdit.NestedProductPathExample | src/hooks/use-edit-path.ts:27-30 | "/products/a/b" edits product "a" |
| LiveEdit.BlogPathEditsList | src/hooks/use-edit-path.ts:32-36 | every "/blog/…" path edits the blog list, whatever the slug |
| LiveEdit.TableLookup | src/hooks/use-edit-path.ts:27-38 | a path too short for "/products/" and not under "/blog/" takes its table entry |
| LiveEdit.FixedPagesUseTable | src/hooks/use-edit-path.ts:6-38 | the seven fixed pages, "/products" included, map to their table entries |
| LiveEdit.OtherPathsEditDashboard | src/hooks/use-edit-path.ts:38 | a path outside both prefixes and the table edits "/admin/dashboard" |
| LiveEdit.EditPathNeverEmpty | src/hooks/use-edit-path.ts:24-39 | the edit path is never empty and always starts with "/admin/" |
| LiveEdit.EditButtonIffSignedIn | src/components/admin/edit-page-button.tsx:7-10 | the edit button shows exactly for signed-in viewers, because the edit path is never empty |
| LiveEdit.MissingPathShowsPlaceholder | src/components/admin/editor-panel.tsx:12 | a null or empty edit path shows the "Select a page" placeholder |
| LiveEdit.SettingsKeyWins | src/components/admin/editor-panel.tsx:14 | any path containing "settings" opens the site settings pane, whatever else it contains |
| LiveEdit.ProductsContentKey | src/components/admin/editor-panel.tsx:14-15 | a path containing "products-content" and not "settings" opens the products content pane |
| LiveEdit.AboutContentKey | src/components/admin/editor-panel.tsx:14-16 | "about-content" opens the about pane when no earlier key is present |
| LiveEdit.QualityContentKey | src/components/admin/editor-panel.tsx:14-17 | "quality-content" opens the quality pane when no earlier key is present |
| LiveEdit.ServicesContentKey | src/components/admin/editor-panel.tsx:14-18 | "services-content" opens the services pane when no earlier key is present |
| LiveEdit.HomeKeyOpensSettings | src/components/admin/editor-panel.tsx:14-19 | "home", checked last, opens the site settings pane when none of the five earlier keys is present |
| LiveEdit.NoKeyNoEditor | src/components/admin/editor-panel.tsx:14-23 | a non-empty path with none of the six keys has no live editor |
| LiveEdit.SettingsAndHomeShareSettingsPane | src/components/admin/editor-panel.tsx:14-19 | both "/admin/settings" and "/admin/home" open the site settings pane |
| LiveEdit.NoPaneForBlogOrDashboard | src/components/admin/editor-panel.tsx:22-23 | "/admin/blog" and "/admin/dashboard" have no live editor |
| LiveEdit.LiveEditorOnFixedPages | src/hooks/use-edit-path.ts:6-38 | the pane each fixed public page opens; the blog list page has none (via src/components/admin/editor-panel.tsx lines 14-23) |
| LiveEdit.LiveEditorFallbacks | src/hooks/use-edit-path.ts:32-38 | blog detail pages and unknown pages have no live editor (via src/components/admin/editor-panel.tsx lines 22-23) |
| LiveEdit.ProductPageDispatchesOnSlug | src/components/admin/editor-panel.tsx:14-23 | on a product page (src/hooks/use-edit-path.ts lines 16-30) the pane depends only on the slug: the edit prefix holds no key, and no key can straddle the prefix and the slug |
| LiveEdit.ProductSlugCanOpenSettings | src/components/admin/editor-panel.tsx:19 | the product page "/products/home-remedy" opens the site settings pane |
| LiveEdit.PlainProductSlugHasNoEditor | src/components/admin/editor-panel.tsx:22-23 | the product page "/products/tonic" has no live editor |
| LiveEdit.EditPathForProduct | src/hooks/use-edit-path.ts:16 | the edit path is "/admin/products/edit/" followed by exactly the slug (see ProductPathEditsSegment) |
| LiveEdit.EditPath | src/hooks/use-edit-path.ts:24-39 | every public path gets a non-empty edit path under "/admin/" (see EditPathNeverEmpty, FixedPagesUseTable, OtherPathsEditDashboard) |
| LiveEdit.EditorComponent | src/components/admin/editor-panel.tsx:11-24 | the placeholder shows exactly for a null or empty edit path (see the key rows SettingsKeyWins to NoKeyNoEditor) |
| LiveEdit.LiveEditor | src/components/admin/editor-panel.tsx:26-28 | the panel of a public page never shows the placeholder (see LiveEditorOnFixedPages, LiveEditorFallbacks) |
| LiveEdit.EditButtonShown | src/components/admin/edit-page-button.tsx:7-10 | the edit button shows exactly for signed-in viewers (see EditButtonIffSignedIn) |
| RouteGuard.Middleware | src/middleware.ts:16-32 | a redirect goes only to "/login" or "/admin" |
| RouteGuard.SignedOutAdminGoesToLogin | src/middleware.ts:20-25 | a signed-out request is sent to "/login" iff its path starts with "/admin"; otherwise it passes |
| RouteGuard.SignedInOnlyLoginRedirects | src/middleware.ts:21-29 | a signed-in request is redirected iff its path is exactly "/login", and then to "/admin" |
| RouteGuard.EmptyCookieIsSignedOut | src/middleware.ts:6-14 | an empty cookie value is treated like a missing cookie |
| RouteGuard.NoRedirectLoop | src/middleware.ts:20-31 | the target of a redirect passes on the next request with the same cookie |
| RouteGuard.PublicPagesPass | src/middleware.ts:31 | a path outside "/admin" other than "/login" always passes |
| RouteGuard.CookieHolderPasses | src/middleware.ts:6-31 | a request with a non-empty session cookie passes on every path, "/admin" included, except "/login", which it leaves for "/admin" |
| RouteGuard.NoCookieGuarded | src/middleware.ts:6-31 | a request without a session cookie is sent to "/login" iff its path starts with "/admin", and passes otherwise |
| RouteGuard.IsAuthenticated | src/middleware.ts:6-14 | a request counts as signed in only with a session cookie, and never with an empty one; that a non-empty cookie signs in is stated on the decisions (see CookieHolderPasses, EmptyCookieIsSignedOut) |
| Validation.FieldIssue | src/app/admin/products/add/page.tsx:19-27 | an absent value fails iff the field is required, null always fails, and a string fails iff its check rejects it, with the field's message |
| Validation.Issues | src/app/admin/products/add/page.tsx:40 | at most one issue per field, and none iff every field passes |
| Validation.IssuesAreFailingFields | src/app/admin/products/add/page.tsx:40 | an issue (k, m) is reported iff schema field k fails with message m |
| Validation.FirstIssueIsFirstFailingField | src/app/contact/action.ts:30-31 | the first issue belongs to the first failing field in schema order |
| Validation.SafeParse | src/app/admin/products/add/page.tsx:40-42 | parsing succeeds iff every field passes, and a failure carries at least one issue |
| Validation.Data | src/app/admin/products/add/page.tsx:59-62 | the parsed data holds only schema keys, each with its input string; unknown keys are stripped |
| Validation.DataHoldsPassingFields | src/app/admin/products/add/page.tsx:59-62 | every required field that passes is in the parsed data with its input string |
| Validation.Flatten | src/lib/product-actions.ts:55-60 | the flattened errors have exactly the failing keys, each with a non-empty message list |
| Validation.FlattenCollectsMessages | src/lib/product-actions.ts:55-60 | a key's list holds exactly the messages reported for that key |
| Validation.FieldErrors | src/app/admin/products/add/page.tsx:43-46 | the field errors have the same keys as the flattened errors |
| Validation.FieldErrorsKeepFirst | src/app/admin/products/add/page.tsx:43-46 | each key holds the first message reported for it |
| Validation.IssueMessagesNonEmpty | src/app/contact/action.ts:5-10 | in a schema with non-empty custom messages, every issue message is non-empty |
| Effects.SavingAfterIsLastChange | src/app/admin/products/add/page.tsx:56-90 | the flag after a trace is the value of its last flag change, wherever that change stands |
| Effects.SavingAfterSkipsTail | src/app/admin/products/add/page.tsx:56-90 | effects appended after the last flag change do not move the flag |
| Effects.SavingUntouched | src/app/admin/products/add/page.tsx:42-54 | a trace with no flag change leaves the saving flag as it was |
| AdminSave.SaveHandler | src/app/admin/products/add/page.tsx:37-38 | every save starts by clearing the field errors |
| AdminSave.RejectedFormEffects | src/app/admin/products/add/page.tsx:42-54 | a rejected form shows the first message of each failing field and never writes, sets the flag or emits an event |
| AdminSave.AcceptedFormEffects | src/app/admin/products/add/page.tsx:56-90 | an accepted form writes exactly once, emits one permission event with the payload iff the write fails, and ends with the flag cleared |
| AdminSave.AcceptedNavigation | src/app/admin/products/add/page.tsx:64-72 | an accepted form reaches the success destination iff the write succeeds |
| AdminSave.SaveHandlerEffects | src/app/admin/products/add/page.tsx:37-91 | the whole handler over both verdicts: no write, event or flag change when rejected; one write, one event iff failed and that event carries the path, operation and document written, and the flag ends false when accepted; navigation iff accepted and succeeded |
| ProductSave.ProductSchemaMeansRules | src/app/admin/products/add/page.tsx:19-27 | the schema accepts iff name ≥ 3, category ≥ 1 and description, specifications, applications ≥ 10 characters, with the image fields optional |
| ProductSave.WithSlug | src/app/admin/products/add/page.tsx:59-62 | the document is the validated fields plus a slug equal to slugify(name) |
| ProductSave.PayloadCarriesNameAndSlug | src/app/admin/products/add/page.tsx:59-62 | the written document carries the submitted name and category and the slug of that name |
| ProductSave.AfterWrite | src/app/admin/products/add/page.tsx:65-72 | the success branch neither writes nor touches the flag, and navigates to "/admin/products" |
| ProductSave.AddProductEffects | src/app/admin/products/add/page.tsx:37-91 | an invalid form writes nothing; a valid one creates one "products" document with the slug, one event iff it fails (naming "products", create and that document), flag cleared, list iff it succeeds |
| ProductSave.EditProductEffects | src/components/admin/edit-product-form.tsx:40-94 | an invalid form writes nothing and emits no event; a valid one updates "products/<id>" once with the re-derived slug, one event iff it fails (naming that path, update and the document), flag cleared, list iff it succeeds |
| ProductSave.AddProduct | src/app/admin/products/add/page.tsx:37-91 | the flow starts by clearing errors, writes once iff the form is valid, and emits one event iff a valid form's create fails (see AddProductEffects) |
| ProductSave.EditProduct | src/components/admin/edit-product-form.tsx:40-94 | the flow starts by clearing errors, writes once iff the form is valid, and emits one event iff a valid form's update fails (see EditProductEffects) |
| BlogSave.BlogSchemaMeansRules | src/app/admin/blog/add/page.tsx:19-26 | the schema accepts iff title ≥ 3, author ≥ 2, category ≥ 2, summary ≥ 10 and content ≥ 20 characters, with imageUrl optional |
| BlogSave.PostPayload | src/app/admin/blog/add/page.tsx:59-63 | the post is the validated fields plus slug = slugify(title) and date = the current time |
| BlogSave.PostCarriesTitleSlugAndDate | src/app/admin/blog/add/page.tsx:59-63 | the written post carries the submitted title, its slug and the given date |
| BlogSave.AfterWrite | src/app/admin/blog/add/page.tsx:66-73 | the success branch neither writes nor touches the flag, and navigates to "/admin/blog" |
| BlogSave.AddBlogPostEffects | src/app/admin/blog/add/page.tsx:37-92 | an invalid post writes nothing; a valid one creates one "blogs" document, one event iff it fails (naming "blogs", create and that post), flag cleared, list iff it succeeds |
| BlogSave.AddBlogPost | src/app/admin/blog/add/page.tsx:37-92 | the flow starts by clearing errors, writes once iff the post is valid, and emits one event iff a valid post's create fails (see AddBlogPostEffects) |
| Categories.Insert | src/app/admin/products/categories/page.tsx:123 | inserting keeps every element and adds one, and keeps a sorted list sorted under a total comparator |
| Categories.SortByName | src/app/admin/products/categories/page.tsx:123 | the sorted list is a permutation of the input, ordered by name under a total comparator |
| Categories.SortKeepsSortedList | src/app/admin/products/categories/page.tsx:123 | sorting a list already in order leaves it unchanged |
| Categories.AddCategory | src/app/admin/products/categories/page.tsx:107-136 | a blank name only toasts; otherwise the untrimmed name is written; success adds the new category and re-sorts a loaded list, clears the input; failure changes nothing |
| Categories.AddRejectsExactlyBlankNames | src/app/admin/products/categories/page.tsx:108-111 | no write is made iff the name is whitespace only, and then the state is unchanged |
| Categories.Rename | src/app/admin/products/categories/page.tsx:148 | the categories with that id get the new name and every other category is unchanged, position by position |
| Categories.RenameTouchesOnlyThatId | src/app/admin/products/categories/page.tsx:148 | categories with other ids are kept, the old name of that id disappears, and the new one appears iff the id was present |
| Categories.UpdateCategory | src/app/admin/products/categories/page.tsx:138-161 | the rename is written to "productCategories/<id>"; success replaces a loaded list by the renamed list re-sorted; failure changes nothing |
| Categories.RenamedListContents | src/app/admin/products/categories/page.tsx:147-150 | after a successful rename, categories with other ids are present exactly as before |
| Categories.DeleteCategory | src/app/admin/products/categories/page.tsx:163-183 | the delete is issued for "productCategories/<id>", a failure leaves the state unchanged, and a list not yet loaded stays unloaded |
| Categories.RemoveId | src/app/admin/products/categories/page.tsx:172 | the list does not grow, and every remaining category was present and has another id (see RemoveIdKeepsOthers, RemoveIdAppend) |
| Categories.RemoveIdKeepsOthers | src/app/admin/products/categories/page.tsx:172 | a category remains iff it was present and has a different id |
| Categories.RemoveIdAppend | src/app/admin/products/categories/page.tsx:172 | removal distributes over concatenation, so the remaining categories keep their order |
| Categories.RemoveAbsentIdIsIdentity | src/app/admin/products/categories/page.tsx:172 | removing an id that no category has leaves the list as it is |
| Categories.DeletedListContents | src/app/admin/products/categories/page.tsx:171-173 | after a successful delete the list holds the old categories with other ids |
| Categories.CategoryPath | src/app/admin/products/categories/page.tsx:140 | the document path is "productCategories/" followed by exactly the id (see UpdateCategory, DeleteCategory, FailureEmitsOneEvent) |
| Categories.FailureEmitsOneEvent | src/app/admin/products/categories/page.tsx:107-182 | a failed rename or delete emits exactly one permission event with its operation and payload, whatever the add box holds; a failed add does too unless its name is blank, when it makes no call and emits none |
| Categories.SuccessEmitsNoEvent | src/app/admin/products/categories/page.tsx:117-174 | a successful add, rename or delete emits no permission event |
| Categories.CancelEdit | src/app/admin/products/categories/page.tsx:38-41 | cancelling leaves edit mode and restores the stored category name |
| Categories.SaveEdit | src/app/admin/products/categories/page.tsx:33-36 | saving leaves edit mode and keeps the typed name |
| Categories.CancelRestoresName | src/app/admin/products/categories/page.tsx:31-41 | after any typing, cancelling shows the same name as a fresh row |
| Uploads.StoredName | src/app/api/upload/route.ts:21 | the stored name is the decimal timestamp, '-', then the lower-cased name with whitespace runs collapsed |
| Uploads.StoredNameShape | src/app/api/upload/route.ts:21 | after the timestamp the stored name has no whitespace and is no longer than the original name plus the prefix |
| Uploads.StoredNameSplits | src/app/api/upload/route.ts:21 | the stored name starts with the timestamp's digits, followed by '-' |
| Uploads.PlainNameKept | src/app/api/upload/route.ts:21 | a lower-case name without whitespace is kept verbatim after the prefix |
| Uploads.PostUpload | src/app/api/upload/route.ts:6-33 | a missing or empty part gives "No file provided."; a non-image type gives "Invalid file type." with no write; otherwise "/uploads/<name>" or "Failed to save file." |
| Uploads.UploadImage | src/app/admin/media/action.ts:18-70 | a missing or empty file is refused before the type check; exactly one of imageUrl and error is set; success returns "/uploads/<name>" and a message and revalidates exactly "/admin/products/add" and "/admin/products/edit/.*"; nothing is revalidated otherwise |
| Uploads.HandlersAgree | src/app/admin/media/action.ts:43-52 | the media action and the upload route (src/app/api/upload/route.ts lines 21 and 27) store an accepted image under the same name and URL |
| Uploads.EmptyFileOnlyRouteAccepts | src/app/api/upload/route.ts:10-16 | a zero-byte image is stored by the route but refused by the media action (src/app/admin/media/action.ts lines 24-29) |
| Uploads.UploadsNotInProductListing | src/app/admin/media/action.ts:52-56 | an uploaded image's URL is never among the product image URLs listed from public/products (src/lib/product-actions.ts lines 38-49) |
| Uploads.IsImageType | src/app/api/upload/route.ts:14 | a type is accepted iff "image/" is a prefix of it (see PostUpload, UploadImage) |
| ContactAction.ReadFields | src/app/contact/action.ts:23-28 | each schema key reads its submitted value, or null when missing; no other key is read |
| ContactAction.SendMessage | src/app/contact/action.ts:19-53 | exactly one of message and error is set, and a message is the thank-you text |
| ContactAction.FirstFieldError | src/app/contact/action.ts:31 | no issues give no message; otherwise the message is the first issue's (see FirstFieldErrorIsFirstIssue, ErrorIsFirstFailingField) |
| ContactAction.FirstFieldErrorIsFirstIssue | src/app/contact/action.ts:31 | the first value of the field errors is the first issue's message |
| ContactAction.ThanksIffValid | src/app/contact/action.ts:5-45 | the sender is thanked iff name ≥ 2, the e-mail passes, subject ≥ 5 and message ≥ 10 |
| ContactAction.ErrorIsFirstFailingField | src/app/contact/action.ts:30-36 | a rejection reports the first failing field's message and never the generic fallback |
| SourcingAction.ReadForm | src/app/admin/ai-sourcing/action.ts:20-23 | the two descriptions read their submitted values, or null when missing, and no other key is read (see AiCalledIffValid) |
| SourcingAction.SuggestNewSources | src/app/admin/ai-sourcing/action.ts:16-45 | exactly one of suggestions and error is set; without a call there is an error; with one, suggestions are the answer and a failed call gives the fixed error |
| SourcingAction.AiCalledIffValid | src/app/admin/ai-sourcing/action.ts:6-32 | the AI is called iff both texts have at least 10 characters, and then with exactly those two texts |
| SourcingAction.ErrorPrecedence | src/app/admin/ai-sourcing/action.ts:25-29 | on rejection the product-range message takes precedence over the market-trends message |
| Actions.DeleteProduct | src/lib/actions.ts:12-39 | success iff the id is non-empty and the delete succeeds; a missing id makes no call; any failure emits one event, with the permission message only for "permission-denied" |
| Actions.NumericCodeIsUnexpected | src/lib/actions.ts:35-38 | the numeric code 7 gets the generic message |
| BlogActions.RevalidateBlogPaths | src/lib/blog-actions.ts:6-12 | the blog list pages come first, and a path is revalidated iff it is one of them or the detail page of a non-empty slug |
| BlogActions.DetailPageOnlyWithSlug | src/lib/blog-actions.ts:9-11 | the detail page is revalidated iff a non-empty slug is passed |
| BlogActions.DeleteBlogPost | src/lib/blog-actions.ts:14-31 | a missing id makes no call; success revalidates both list pages; a failure gets the permission message iff the code is "permission-denied" or 7 |
| BlogActions.DeleteMessagesDistinguishOutcomes | src/lib/blog-actions.ts:14-31 | the message identifies the outcome: missing id, deleted, or permission failure |
| BlogActions.NumericSevenIsPermission | src/lib/blog-actions.ts:27-28 | a failed delete with numeric code 7 gets the permission message (Actions.NumericCodeIsUnexpected shows the product delete does not) |
| BlogActions.IsPermissionCode | src/lib/blog-actions.ts:27 | a failure without a code is never a permission failure, and a named code is one iff it is "permission-denied", and a numeric code iff it is 7 (see DeleteBlogPost, NumericSevenIsPermission) |
| ProductActions.RevalidateProductPaths | src/lib/product-actions.ts:27-36 | the list pages come first, and a path is revalidated iff it is one of them or the page of a given id or slug |
| ProductActions.GetProductImages | src/lib/product-actions.ts:38-49 | a failed read gives no URLs; otherwise one "/products/<file>" URL per kept file, in order |
| ProductActions.IsImageFile | src/lib/product-actions.ts:44 | an accepted name has at least four characters and its lower-cased last letter is 'g', 'f' or 'p' (see NotImage, KeepImagesExactly) |
| ProductActions.KeepImages | src/lib/product-actions.ts:44 | the listing does not grow, and every kept file is in the directory and has an image extension (see KeepImagesExactly, KeepImagesAppend) |
| ProductActions.KeepImagesExactly | src/lib/product-actions.ts:44 | a file is listed iff it is in the directory and ends in an image extension, in any letter case |
| ProductActions.KeepImagesAppend | src/lib/product-actions.ts:44 | the filter distributes over concatenation, so listing order is kept |
| ProductActions.ImageFilterExamples | src/lib/product-actions.ts:42-44 | "Photo.JPG" is kept, while ".DS_Store" and "notes.jpg.txt" are not |
| ProductActions.NotImage | src/lib/product-actions.ts:44 | a name whose lower-cased last letter is not 'g', 'f' or 'p' is never listed |
| ProductActions.OneImageOneOther | src/lib/product-actions.ts:38-49 | a listing of one image and one other file yields the image's URL alone |
| ProductActions.SaveProduct | src/lib/product-actions.ts:52-81 | success iff the form validates and the create succeeds; invalid input returns all messages per key with no write; the written data omits "id" and holds input strings |
| Header.BrandName | src/components/shared/header.tsx:56 | "Loading..." while loading, else the stored non-empty brand name, else "Swalaxon Remedies" |
| Header.NavLinks | src/components/shared/header.tsx:28-57 | the links are never empty; the stored list is used iff loaded, present and non-empty, else the defaults |
| Header.EmptyStoredLinksFallBack | src/components/shared/header.tsx:57 | a stored empty or missing list shows the default links |
| Header.IsActive | src/components/shared/header.tsx:82 | an active link's href is a prefix of the path, and a path equal to the href is always active (see HomeActiveOnlyAtRoot, OtherLinksActiveByPrefix) |
| Header.HomeActiveOnlyAtRoot | src/components/shared/header.tsx:82 | the "/" link is active only on the home page itself |
| Header.OtherLinksActiveByPrefix | src/components/shared/header.tsx:82 | any other link is active iff the path starts with its href |
| Header.PrefixIsNotSegmentAware | src/components/shared/header.tsx:82 | "/blogroll" marks the "/blog" link active |
| Header.ProductPageActivatesOnlyProducts | src/components/shared/header.tsx:28-82 | with the default links, a product page activates exactly the "Products" link |
| Header.AriaCurrent | src/components/shared/header.tsx:87 | aria-current is "page" exactly when the link is active |
| Header.Logo | src/components/shared/header.tsx:93-101 | the SVG iff type is svg and the SVG is non-empty; the image iff type is url and the URL is non-empty; the brand text otherwise |
| Header.LogoFollowsType | src/components/shared/header.tsx:93-101 | a missing or other logo type always shows the brand text |
| Sidebar.LinkSource | src/components/admin/sidebar.tsx:41-59 | the stored links when loaded and present (even empty), the defaults otherwise |
| Sidebar.Render | src/components/admin/sidebar.tsx:61-71 | five skeletons iff loading, otherwise one entry per visible link |
| Sidebar.StoredEmptyListShowsNothing | src/components/admin/sidebar.tsx:59-71 | a stored empty list shows no links instead of the defaults |
| Sidebar.VisibleLinks | src/components/admin/sidebar.tsx:71 | only visible links are shown |
| Sidebar.VisibleLinksExactly | src/components/admin/sidebar.tsx:71 | a link is shown iff it is stored and visible |
| Sidebar.VisibleLinksAppend | src/components/admin/sidebar.tsx:71 | the filter distributes over concatenation, so stored order is kept |
| Sidebar.AllVisibleShownWhole | src/components/admin/sidebar.tsx:71 | a list of visible links is shown whole |
| Sidebar.EntryFor | src/components/admin/sidebar.tsx:72-73 | an entry keeps the link's target and caption and is active iff the path starts with the href |
| Sidebar.EntriesFollowLinks | src/components/admin/sidebar.tsx:71-85 | the i-th entry shows the i-th visible link with its icon and active mark |
| Sidebar.IconFor | src/components/admin/sidebar.tsx:72 | the link icon is used only for "Link" or for a name outside the icon map |
| Sidebar.KnownIconsAreDistinct | src/components/admin/icon-map.ts:16-27 | the ten icon names map to ten different icons |
| Sidebar.SidebarAgreesWithHeader | src/components/admin/sidebar.tsx:73 | for every href except "/" the sidebar and header active rules agree (src/components/shared/header.tsx line 82) |
| Footer.Content | src/components/shared/footer.tsx:54 | the defaults while loading or when no document exists, otherwise the stored settings |
| Footer.DefaultSettings | src/components/shared/footer.tsx:27-44 | only the copyright line depends on the year, and it starts with "© <year>" |
| Footer.Copyright | src/components/shared/footer.tsx:43 | the default copyright line starts with "© " followed by the year's digits |
| Footer.QuickLinksInStoredOrder | src/components/shared/footer.tsx:54-75 | the quick links are the stored list in its order when loaded, the defaults while loading |
| Footer.TelHref | src/components/shared/footer.tsx:86 | the phone link is "tel:" followed by the dialable characters of the number |
| Footer.Dialable | src/components/shared/footer.tsx:86 | the result has only digits and '+' and is no longer than the number |
| Footer.DialableKeepsExactly | src/components/shared/footer.tsx:86 | a character survives iff it is in the number and is a digit or '+' |
| Footer.DialableIsSubsequence | src/components/shared/footer.tsx:86 | the kept characters appear in their original order |
| Footer.DialableIdempotent | src/components/shared/footer.tsx:86 | a number is left unchanged iff it is all dialable, and sanitising twice equals once |
| Footer.DialableAppend | src/components/shared/footer.tsx:86 | sanitising distributes over concatenation |
| Footer.MailHref | src/components/shared/footer.tsx:85 | the mail link is "mailto:" followed by the address |
| Text.TrimEmptyIffBlank | src/app/admin/products/categories/page.tsx:108 | a trimmed string is empty iff it is whitespace only |
| Text.ContainsAcrossSeparator | src/components/admin/editor-panel.tsx:14-19 | an occurrence of a key in p + s, where p ends in a character the key lacks, lies in p or in s |
| Text.CollapseFromFacts | src/app/api/upload/route.ts:21 | collapsing whitespace runs leaves no whitespace, never lengthens, and keeps a whitespace-free string |

## Left out

- Rendering, styling, toasts' timing and the mobile menu state are not modelled. Toasts are recorded as trace effects only.
- `config.matcher` of the middleware (src/middleware.ts:34-36) is framework routing. The decision is modelled for every path.
- The `if (!firestore) return;` guards of the category handlers are not modelled. They fire only before the store client is initialised, and the model assumes it is.
- Every remote call settles exactly once and the handlers run atomically. The interleaving of a pending call with later user actions is not modelled, because the model has no concurrency.
- A failure inside a success continuation is not modelled. In the code a failing `revalidateProductPaths` after a successful `addDoc` would run the `.catch` branch. The model treats revalidation as infallible.
- Validation: zod counts string length in UTF-16 code units; the model counts `char`s.
- The e-mail check, `slugify` and `localeCompare` are parameters, because their code is not part of this model. `localeCompare` enters as `before(a, b)`, meaning `a.localeCompare(b) <= 0`.
- Categories.SortByName: the stable insertion sort stands for `Array.prototype.sort`. Sortedness is proved only for a total comparator. A `localeCompare` that is not total is not covered.
- Lower-casing and the whitespace class are ASCII only, since there is no Unicode case folding or Unicode whitespace.
- `iconMap` lookups of names inherited from `Object.prototype` (such as "constructor") are not modelled. Every other unknown name gets the link icon.
- The AI flows (prompt templates, model calls) are the `ai` input of SourcingAction. The logging in the catch branches of every action is not modelled.
- The `try`/`catch` in the contact action guards only a console call. Its error branch cannot be reached from the modelled inputs.
- File contents and the upload directory's existence are not modelled. A write either succeeds or fails, as the `writeOk` input says.
- Form values that are `File` objects are not modelled. Every entry is a string. This covers `saveProduct`'s `Object.fromEntries(formData)`, and also `formData.get` in the contact action and the sourcing action. Those two are ContactAction.ReadFields and SourcingAction.ReadForm, which read from a string map. A `File` there would make zod report an invalid-type issue for that field.
- Pagination.RenderCovers, Pagination.RenderActive, Pagination.RenderedPagesInRange, Pagination.WindowContainsCurrent, Pagination.PrevNextStayInRange: these hold only for `1 <= currentPage <= totalPages`. The products page can pass a larger page. The product list is a live query (src/app/products/page.tsx line 84), and the page resets only on a search change (line 138). So if the list shrinks while its last page is shown, the pager gets `currentPage > totalPages`. For that case the model proves only Pagination.PastLastPage: no link active, Next still enabled. It does not describe which pages the strip shows then.
