/**
 * Live-edit routing: the public path shown in the browser is mapped to an
 * admin editor path (`useEditPath`), and the editor path selects the pane
 * the floating editor panel shows (`getEditorComponent`).
 */
module LiveEdit {
  import opened Entities
  import Text

  const ProductPrefix: string := "/products/"
  const BlogPrefix: string := "/blog/"
  const ProductEditPrefix: string := "/admin/products/edit/"
  const BlogListEditor: string := "/admin/blog"
  const DefaultEditor: string := "/admin/dashboard"

  /** `pathMap`: the editor of each fixed public page. */
  function PathMap(pathname: string): Option<string> {
    if pathname == "/" then Some("/admin/home")
    else if pathname == "/about" then Some("/admin/about-content")
    else if pathname == "/products" then Some("/admin/products-content")
    else if pathname == "/services" then Some("/admin/services-content")
    else if pathname == "/quality" then Some("/admin/quality-content")
    else if pathname == "/blog" then Some("/admin/blog")
    else if pathname == "/contact" then Some("/admin/settings")
    else None
  }

  /** The text before the first `/` (all of `s` when it has none). */
  function UpToSlash(s: string): (r: string)
    ensures |r| <= |s| && r == s[..|r|]
    ensures '/' !in r
    ensures |r| < |s| ==> s[|r|] == '/'
  {
    if |s| == 0 || s[0] == '/' then [] else [s[0]] + UpToSlash(s[1..])
  }

  /** `pathname.split('/')[2]` for a path that starts with `/products/`. */
  function ProductSlug(pathname: string): string
    requires Text.StartsWith(pathname, ProductPrefix)
  {
    UpToSlash(pathname[|ProductPrefix|..])
  }

  /** `getEditPathForProduct(slug)` */
  function EditPathForProduct(slug: string): (r: string)
    ensures Text.StartsWith(r, ProductEditPrefix) && r[|ProductEditPrefix|..] == slug
  {
    ProductEditPrefix + slug
  }

  /** `useEditPath()`: prefix rules first, then the table, then the dashboard. */
  function EditPath(pathname: string): (r: string)
    ensures |r| > 0 && Text.StartsWith(r, "/admin/")
  {
    if Text.StartsWith(pathname, ProductPrefix) then EditPathForProduct(ProductSlug(pathname))
    else if Text.StartsWith(pathname, BlogPrefix) then BlogListEditor
    else match PathMap(pathname)
      case Some(e) => e
      case None => DefaultEditor
  }

  /** The components `getEditorComponent` can return. */
  datatype Pane =
    | SelectPagePlaceholder
    | SiteSettingsPane
    | ProductsContentPane
    | AboutContentPane
    | QualityContentPane
    | ServicesContentPane
    | NoLiveEditor

  /** The substring tests of `getEditorComponent`, without the null/empty check. */
  function Dispatch(editPath: string): Pane {
    if Text.Contains(editPath, "settings") then SiteSettingsPane
    else if Text.Contains(editPath, "products-content") then ProductsContentPane
    else if Text.Contains(editPath, "about-content") then AboutContentPane
    else if Text.Contains(editPath, "quality-content") then QualityContentPane
    else if Text.Contains(editPath, "services-content") then ServicesContentPane
    else if Text.Contains(editPath, "home") then SiteSettingsPane
    else NoLiveEditor
  }

  /** `getEditorComponent(editPath)`: null or empty selects the placeholder. */
  function EditorComponent(editPath: Option<string>): (p: Pane)
    ensures p == SelectPagePlaceholder <==> editPath.None? || editPath == Some("")
  {
    match editPath
    case None => SelectPagePlaceholder
    case Some(e) => if |e| == 0 then SelectPagePlaceholder else Dispatch(e)
  }

  /** The pane the editor panel shows on a public page. */
  function LiveEditor(pathname: string): (p: Pane)
    ensures p != SelectPagePlaceholder
  {
    EditorComponent(Some(EditPath(pathname)))
  }

  /** `EditorWrapper` + `EditPageButton`: signed in, and `!editPath` is false. */
  function EditButtonShown(signedIn: bool, pathname: string): (b: bool)
    ensures b <==> signedIn
  {
    signedIn && |EditPath(pathname)| > 0
  }

  // ---------------------------------------------------------------------
  // Properties of useEditPath

  /** A product detail path edits the product named by its third `/`-segment. */
  lemma ProductPathEditsSegment(pathname: string)
    requires Text.StartsWith(pathname, ProductPrefix)
    ensures exists rest ::
      && EditPath(pathname) == ProductEditPrefix + rest
      && '/' !in rest
      && Text.StartsWith(pathname[|ProductPrefix|..], rest)
      && (|rest| == |pathname| - |ProductPrefix| || pathname[|ProductPrefix| + |rest|] == '/')
  {
    var tail := pathname[|ProductPrefix|..];
    var rest := ProductSlug(pathname);
    assert EditPath(pathname) == ProductEditPrefix + rest;
    assert Text.StartsWith(tail, rest);
    if |rest| < |tail| {
      assert pathname[|ProductPrefix| + |rest|] == tail[|rest|] == '/';
    }
  }

  /** Only the segment right after `/products/` is used: `/products/a/b` edits `a`. */
  lemma NestedProductPathExample()
    ensures EditPath("/products/a/b") == "/admin/products/edit/a"
  {
    assert Text.StartsWith("/products/a/b", ProductPrefix);
    assert "/products/a/b"[|ProductPrefix|..] == "a/b";
    assert UpToSlash("a/b") == "a" by {
      assert "a/b"[1..] == "/b";
    }
  }

  /** Every blog detail path falls back to the blog list editor, whatever the slug. */
  lemma BlogPathEditsList(pathname: string)
    requires Text.StartsWith(pathname, BlogPrefix)
    ensures EditPath(pathname) == BlogListEditor
  {
    assert !Text.StartsWith(pathname, ProductPrefix) by {
      assert pathname[1] == 'b';
    }
  }

  /** A mismatch at position `k` rules out a prefix. */
  lemma MismatchNotPrefix(s: string, prefix: string, k: nat)
    requires k < |s| && k < |prefix| && s[k] != prefix[k]
    ensures !Text.StartsWith(s, prefix)
  {
    if |prefix| <= |s| {
      assert s[..|prefix|][k] == s[k];
    }
  }

  /** A fixed page path that neither prefix rule catches is looked up in the table. */
  lemma TableLookup(pathname: string, editor: string)
    requires |pathname| < |ProductPrefix|
    requires |pathname| < |BlogPrefix| || pathname[1] != BlogPrefix[1]
    requires PathMap(pathname) == Some(editor)
    ensures EditPath(pathname) == editor
  {
    if |pathname| >= |BlogPrefix| {
      MismatchNotPrefix(pathname, BlogPrefix, 1);
    }
  }

  /** The exact public pages map to their table entries; `/products` has no trailing slash and reaches the table. */
  lemma FixedPagesUseTable()
    ensures EditPath("/") == "/admin/home"
    ensures EditPath("/about") == "/admin/about-content"
    ensures EditPath("/products") == "/admin/products-content"
    ensures EditPath("/services") == "/admin/services-content"
    ensures EditPath("/quality") == "/admin/quality-content"
    ensures EditPath("/blog") == "/admin/blog"
    ensures EditPath("/contact") == "/admin/settings"
  {
    TableLookup("/", "/admin/home");
    TableLookup("/about", "/admin/about-content");
    TableLookup("/products", "/admin/products-content");
    TableLookup("/services", "/admin/services-content");
    TableLookup("/quality", "/admin/quality-content");
    TableLookup("/blog", "/admin/blog");
    TableLookup("/contact", "/admin/settings");
  }

  /** A path outside both prefixes and outside the table edits the dashboard. */
  lemma OtherPathsEditDashboard(pathname: string)
    requires !Text.StartsWith(pathname, ProductPrefix) && !Text.StartsWith(pathname, BlogPrefix)
    requires PathMap(pathname).None?
    ensures EditPath(pathname) == DefaultEditor
  {
  }

  /** The edit path is never empty and always inside `/admin/`, so the button's `!editPath` guard never hides it. */
  lemma EditPathNeverEmpty(pathname: string)
    ensures |EditPath(pathname)| > 0
    ensures Text.StartsWith(EditPath(pathname), "/admin/")
  {
  }

  /** The edit button shows exactly for signed-in viewers. */
  lemma EditButtonIffSignedIn(signedIn: bool, pathname: string)
    ensures EditButtonShown(signedIn, pathname) <==> signedIn
  {
    EditPathNeverEmpty(pathname);
  }

  // ---------------------------------------------------------------------
  // Properties of getEditorComponent and of the composition

  /** No editor path selects the placeholder. */
  lemma MissingPathShowsPlaceholder()
    ensures EditorComponent(None) == SelectPagePlaceholder
    ensures EditorComponent(Some("")) == SelectPagePlaceholder
  {
  }

  /** A string cannot contain a key that has a character the string lacks. */
  lemma Lacks(s: string, sub: string, c: char)
    requires c in sub && c !in s
    ensures !Text.Contains(s, sub)
  {
  }

  /** An editor path with "settings" anywhere in it opens the site settings pane. */
  lemma SettingsKeyWins(e: string)
    requires Text.Contains(e, "settings")
    ensures EditorComponent(Some(e)) == SiteSettingsPane
  {
  }

  /** "products-content", tested second, opens its pane when "settings" is absent. */
  lemma ProductsContentKey(e: string)
    requires !Text.Contains(e, "settings")
    requires Text.Contains(e, "products-content")
    ensures EditorComponent(Some(e)) == ProductsContentPane
  {
  }

  /** "about-content" opens its pane when neither earlier key is present. */
  lemma AboutContentKey(e: string)
    requires !Text.Contains(e, "settings") && !Text.Contains(e, "products-content")
    requires Text.Contains(e, "about-content")
    ensures EditorComponent(Some(e)) == AboutContentPane
  {
  }

  /** "quality-content" opens its pane when none of the three earlier keys is present. */
  lemma QualityContentKey(e: string)
    requires !Text.Contains(e, "settings") && !Text.Contains(e, "products-content")
    requires !Text.Contains(e, "about-content")
    requires Text.Contains(e, "quality-content")
    ensures EditorComponent(Some(e)) == QualityContentPane
  {
  }

  /** "services-content" opens its pane when none of the four earlier keys is present. */
  lemma ServicesContentKey(e: string)
    requires !Text.Contains(e, "settings") && !Text.Contains(e, "products-content")
    requires !Text.Contains(e, "about-content") && !Text.Contains(e, "quality-content")
    requires Text.Contains(e, "services-content")
    ensures EditorComponent(Some(e)) == ServicesContentPane
  {
  }

  /** "home", tested last, opens the site settings pane when none of the five earlier keys is present. */
  lemma HomeKeyOpensSettings(e: string)
    requires !Text.Contains(e, "settings") && !Text.Contains(e, "products-content")
    requires !Text.Contains(e, "about-content") && !Text.Contains(e, "quality-content")
    requires !Text.Contains(e, "services-content")
    requires Text.Contains(e, "home")
    ensures EditorComponent(Some(e)) == SiteSettingsPane
  {
  }

  /** A non-empty path containing none of the six keys has no live editor. */
  lemma NoKeyNoEditor(e: string)
    requires |e| > 0
    requires !Text.Contains(e, "settings") && !Text.Contains(e, "products-content")
    requires !Text.Contains(e, "about-content") && !Text.Contains(e, "quality-content")
    requires !Text.Contains(e, "services-content") && !Text.Contains(e, "home")
    ensures EditorComponent(Some(e)) == NoLiveEditor
  {
  }

  /** Both the settings editor and the home editor open the site settings pane. */
  lemma SettingsAndHomeShareSettingsPane()
    ensures EditorComponent(Some("/admin/settings")) == SiteSettingsPane
    ensures EditorComponent(Some("/admin/home")) == SiteSettingsPane
  {
    assert Text.OccursAt("/admin/settings", "settings", 7);
    SettingsKeyWins("/admin/settings");
    assert Text.OccursAt("/admin/home", "home", 7);
    Lacks("/admin/home", "settings", 'g');
    Lacks("/admin/home", "products-content", 'p');
    Lacks("/admin/home", "about-content", 'b');
    Lacks("/admin/home", "quality-content", 'q');
    Lacks("/admin/home", "services-content", 'v');
    HomeKeyOpensSettings("/admin/home");
  }

  /** Neither the blog list editor nor the dashboard has a live editor pane. */
  lemma NoPaneForBlogOrDashboard()
    ensures EditorComponent(Some(BlogListEditor)) == NoLiveEditor
    ensures EditorComponent(Some(DefaultEditor)) == NoLiveEditor
  {
    BlogHasNoKey(BlogListEditor);
    DashboardHasNoKey(DefaultEditor);
  }

  lemma BlogHasNoKey(e: string)
    requires |e| > 0 && 's' !in e && 'p' !in e && 'u' !in e && 'q' !in e && 'h' !in e
    ensures EditorComponent(Some(e)) == NoLiveEditor
  {
    Lacks(e, "settings", 's');
    Lacks(e, "products-content", 'p');
    Lacks(e, "about-content", 'u');
    Lacks(e, "quality-content", 'q');
    Lacks(e, "services-content", 's');
    Lacks(e, "home", 'h');
  }

  lemma DashboardHasNoKey(e: string)
    requires |e| > 0 && 'g' !in e && 'p' !in e && 'c' !in e && 'q' !in e && 'v' !in e && 'e' !in e
    ensures EditorComponent(Some(e)) == NoLiveEditor
  {
    Lacks(e, "settings", 'g');
    Lacks(e, "products-content", 'p');
    Lacks(e, "about-content", 'c');
    Lacks(e, "quality-content", 'q');
    Lacks(e, "services-content", 'v');
    Lacks(e, "home", 'e');
  }

  /**
   * The pane each fixed public page opens in the live editor; the blog list
   * has no live editor.
   */
  lemma LiveEditorOnFixedPages()
    ensures LiveEditor("/") == SiteSettingsPane
    ensures LiveEditor("/about") == AboutContentPane
    ensures LiveEditor("/products") == ProductsContentPane
    ensures LiveEditor("/services") == ServicesContentPane
    ensures LiveEditor("/quality") == QualityContentPane
    ensures LiveEditor("/blog") == NoLiveEditor
    ensures LiveEditor("/contact") == SiteSettingsPane
  {
    FixedPagesUseTable();
    SettingsAndHomeShareSettingsPane();
    AboutPane();
    ProductsPane();
    ServicesPane();
    QualityPane();
    NoPaneForBlogOrDashboard();
  }

  lemma AboutPane()
    ensures EditorComponent(Some("/admin/about-content")) == AboutContentPane
  {
    assert Text.OccursAt("/admin/about-content", "about-content", 7);
    Lacks("/admin/about-content", "settings", 'g');
    Lacks("/admin/about-content", "products-content", 'p');
    AboutContentKey("/admin/about-content");
  }

  lemma ProductsPane()
    ensures EditorComponent(Some("/admin/products-content")) == ProductsContentPane
  {
    assert Text.OccursAt("/admin/products-content", "products-content", 7);
    Lacks("/admin/products-content", "settings", 'g');
    ProductsContentKey("/admin/products-content");
  }

  lemma ServicesPane()
    ensures EditorComponent(Some("/admin/services-content")) == ServicesContentPane
  {
    assert Text.OccursAt("/admin/services-content", "services-content", 7);
    Lacks("/admin/services-content", "settings", 'g');
    Lacks("/admin/services-content", "products-content", 'p');
    Lacks("/admin/services-content", "about-content", 'b');
    Lacks("/admin/services-content", "quality-content", 'q');
    ServicesContentKey("/admin/services-content");
  }

  lemma QualityPane()
    ensures EditorComponent(Some("/admin/quality-content")) == QualityContentPane
  {
    assert Text.OccursAt("/admin/quality-content", "quality-content", 7);
    Lacks("/admin/quality-content", "settings", 'g');
    Lacks("/admin/quality-content", "products-content", 'p');
    Lacks("/admin/quality-content", "about-content", 'b');
    QualityContentKey("/admin/quality-content");
  }

  /** Blog detail pages and unknown pages have no live editor. */
  lemma LiveEditorFallbacks(pathname: string)
    requires Text.StartsWith(pathname, BlogPrefix) ||
      (!Text.StartsWith(pathname, ProductPrefix) && !Text.StartsWith(pathname, BlogPrefix) && PathMap(pathname).None?)
    ensures LiveEditor(pathname) == NoLiveEditor
  {
    if Text.StartsWith(pathname, BlogPrefix) {
      BlogPathEditsList(pathname);
    }
    NoPaneForBlogOrDashboard();
  }

  /**
   * A key with no '/' and with a character the prefix lacks occurs in
   * `prefix + slug` exactly when it occurs in the slug.
   */
  lemma KeyAfterPrefix(prefix: string, slug: string, key: string, c: char)
    requires |prefix| > 0 && prefix[|prefix| - 1] == '/' && '/' !in key
    requires c in key && c !in prefix
    ensures Text.Contains(prefix + slug, key) <==> Text.Contains(slug, key)
  {
    Text.ContainsAcrossSeparator(prefix, slug, key, '/');
    Lacks(prefix, key, c);
  }

  /**
   * On a product detail page the pane depends only on the slug: the fixed
   * prefix "/admin/products/edit/" contains none of the keys, and no key
   * contains '/', so no key can straddle the prefix and the slug.
   */
  lemma ProductPageDispatchesOnSlug(pathname: string)
    requires Text.StartsWith(pathname, ProductPrefix)
    ensures LiveEditor(pathname) == Dispatch(ProductSlug(pathname))
  {
    EditPrefixLacksKeys();
    DispatchAfterPrefix(ProductEditPrefix, ProductSlug(pathname));
  }

  /** The product editor prefix ends in '/' and lacks one letter of each key. */
  lemma EditPrefixLacksKeys()
    ensures var p := ProductEditPrefix;
      && |p| > 0 && p[|p| - 1] == '/'
      && 'g' !in p && '-' !in p && 'b' !in p && 'q' !in p && 'v' !in p && 'h' !in p
  {
  }

  lemma DispatchAfterPrefix(p: string, slug: string)
    requires |p| > 0 && p[|p| - 1] == '/'
    requires 'g' !in p && '-' !in p && 'b' !in p && 'q' !in p && 'v' !in p && 'h' !in p
    ensures |p + slug| > 0 && EditorComponent(Some(p + slug)) == Dispatch(slug)
  {
    KeyAfterPrefix(p, slug, "settings", 'g');
    KeyAfterPrefix(p, slug, "products-content", '-');
    KeyAfterPrefix(p, slug, "about-content", 'b');
    KeyAfterPrefix(p, slug, "quality-content", 'q');
    KeyAfterPrefix(p, slug, "services-content", 'v');
    KeyAfterPrefix(p, slug, "home", 'h');
  }

  /** A product whose slug mentions "home" opens the site settings pane. */
  lemma ProductSlugCanOpenSettings()
    ensures LiveEditor("/products/home-remedy") == SiteSettingsPane
  {
    SlugExample("/products/home-remedy", "home-remedy");
    HomeSlugExample();
  }

  lemma HomeSlugExample()
    ensures EditorComponent(Some("home-remedy")) == SiteSettingsPane
  {
    assert Text.OccursAt("home-remedy", "home", 0);
    Lacks("home-remedy", "settings", 'g');
    Lacks("home-remedy", "products-content", 'p');
    Lacks("home-remedy", "about-content", 'b');
    Lacks("home-remedy", "quality-content", 'q');
    Lacks("home-remedy", "services-content", 'v');
    HomeKeyOpensSettings("home-remedy");
  }

  /** A product whose slug mentions no key has no live editor. */
  lemma PlainProductSlugHasNoEditor()
    ensures LiveEditor("/products/tonic") == NoLiveEditor
  {
    SlugExample("/products/tonic", "tonic");
    BlogHasNoKey("tonic");
  }

  lemma SlugExample(pathname: string, slug: string)
    requires pathname == ProductPrefix + slug && '/' !in slug
    ensures LiveEditor(pathname) == Dispatch(slug)
  {
    assert pathname[..|ProductPrefix|] == ProductPrefix;
    assert pathname[|ProductPrefix|..] == slug;
    NoSlashWhole(slug);
    ProductPageDispatchesOnSlug(pathname);
  }

  /** A segment without '/' is kept whole. */
  lemma {:induction false} NoSlashWhole(s: string)
    requires '/' !in s
    ensures UpToSlash(s) == s
  {
    if |s| > 0 {
      assert '/' !in s[1..];
      NoSlashWhole(s[1..]);
      assert s == [s[0]] + s[1..];
    }
  }
}
