/**
 * The public site header: the brand name and navigation links read from
 * the website settings document with fallbacks, the active-link rule,
 * and the choice between an inline SVG logo, an image logo and plain text.
 */
module Header {
  import opened Entities
  import Text

  datatype NavLink = NavLink(href: string, caption: string)

  /** The `settings/website` document; every field may be absent. */
  datatype WebsiteSettings = WebsiteSettings(
    brandName: Option<string>,
    logoType: Option<string>,
    logoSvg: Option<string>,
    logoUrl: Option<string>,
    navLinks: Option<seq<NavLink>>)

  const DefaultBrand: string := "Swalaxon Remedies"
  const LoadingBrand: string := "Loading..."

  const DefaultNavLinks: seq<NavLink> := [
    NavLink("/", "Home"),
    NavLink("/about", "About Us"),
    NavLink("/products", "Products"),
    NavLink("/services", "Services"),
    NavLink("/quality", "Quality"),
    NavLink("/blog", "Blog"),
    NavLink("/contact", "Contact")
  ]

  /** `brandName` */
  function BrandName(isLoading: bool, settings: Option<WebsiteSettings>): (r: string)
    ensures isLoading ==> r == LoadingBrand
    ensures !isLoading && settings.Some? && settings.value.brandName.Some? && |settings.value.brandName.value| > 0 ==>
      r == settings.value.brandName.value
    ensures !isLoading && (settings.None? || settings.value.brandName.None? || settings.value.brandName == Some("")) ==>
      r == DefaultBrand
  {
    if isLoading then LoadingBrand
    else StringOr(if settings.Some? then settings.value.brandName else None, DefaultBrand)
  }

  /** `navLinks`: the stored list unless loading, absent or empty. */
  function NavLinks(isLoading: bool, settings: Option<WebsiteSettings>): (r: seq<NavLink>)
    ensures |r| > 0
    ensures r != DefaultNavLinks ==> !isLoading && settings.Some? && settings.value.navLinks == Some(r)
    ensures !isLoading && settings.Some? && settings.value.navLinks.Some? && |settings.value.navLinks.value| > 0 ==>
      r == settings.value.navLinks.value
  {
    if isLoading then DefaultNavLinks
    else if settings.Some? && settings.value.navLinks.Some? && |settings.value.navLinks.value| > 0 then settings.value.navLinks.value
    else DefaultNavLinks
  }

  /** The active-link rule: a prefix match, except that "/" must match exactly. */
  function IsActive(activePath: string, href: string): (b: bool)
    ensures b ==> Text.StartsWith(activePath, href)
    ensures activePath == href ==> b
  {
    (Text.StartsWith(activePath, href) && href != "/") || activePath == href
  }

  /** `aria-current`: `Some("page")` for the active link, otherwise absent. */
  function AriaCurrent(activePath: string, href: string): (r: Option<string>)
    ensures r.Some? <==> IsActive(activePath, href)
    ensures r.Some? ==> r.value == "page"
  {
    if IsActive(activePath, href) then Some("page") else None
  }

  /** What `Logo` renders. */
  datatype LogoView = SvgLogo(markup: string) | ImageLogo(src: string, alt: string) | TextLogo(text: string)

  function Logo(isLoading: bool, settings: Option<WebsiteSettings>): (r: LogoView)
    ensures r.SvgLogo? <==> (settings.Some? && settings.value.logoType == Some("svg")
      && settings.value.logoSvg.Some? && |settings.value.logoSvg.value| > 0)
    ensures r.ImageLogo? <==> (settings.Some? && settings.value.logoType == Some("url")
      && settings.value.logoUrl.Some? && |settings.value.logoUrl.value| > 0)
    ensures r.SvgLogo? ==> r.markup == settings.value.logoSvg.value
    ensures r.ImageLogo? ==> r.src == settings.value.logoUrl.value && r.alt == BrandName(isLoading, settings)
    ensures r.TextLogo? ==> r.text == BrandName(isLoading, settings)
  {
    var brand := BrandName(isLoading, settings);
    match settings
    case None => TextLogo(brand)
    case Some(s) =>
      if s.logoType == Some("svg") && s.logoSvg.Some? && |s.logoSvg.value| > 0 then SvgLogo(s.logoSvg.value)
      else if s.logoType == Some("url") && s.logoUrl.Some? && |s.logoUrl.value| > 0 then ImageLogo(s.logoUrl.value, brand)
      else TextLogo(brand)
  }

  // ---------------------------------------------------------------------
  // Properties

  /** The home link is active only on the home page itself. */
  lemma HomeActiveOnlyAtRoot(activePath: string)
    ensures IsActive(activePath, "/") <==> activePath == "/"
  {
  }

  /** For every other link, active means the path starts with its href. */
  lemma OtherLinksActiveByPrefix(activePath: string, href: string)
    requires href != "/"
    ensures IsActive(activePath, href) <==> Text.StartsWith(activePath, href)
  {
    if activePath == href {
      assert activePath[..|href|] == activePath;
    }
  }

  /**
   * The prefix test is on characters, not path segments: a page whose path
   * only begins like a link's href also marks that link active.
   */
  lemma PrefixIsNotSegmentAware()
    ensures IsActive("/blogroll", "/blog")
  {
    assert "/blogroll"[..5] == "/blog";
  }

  /** A default link other than "/products" differs from "/products/…" at its second character. */
  lemma NotProductsLink(activePath: string, i: int)
    requires Text.StartsWith(activePath, "/products/")
    requires 0 <= i < |DefaultNavLinks| && i != 2
    ensures !IsActive(activePath, DefaultNavLinks[i].href)
  {
    var href := DefaultNavLinks[i].href;
    assert activePath[1] == 'p';
    if i == 0 {
      assert |activePath| > 1;
    } else {
      assert href[1] != 'p';
      assert activePath[..|href|][1] == activePath[1];
    }
  }

  /** With the default links, a product page activates exactly the "Products" link. */
  lemma ProductPageActivatesOnlyProducts(activePath: string)
    requires Text.StartsWith(activePath, "/products/")
    ensures forall i :: 0 <= i < |DefaultNavLinks| ==> (IsActive(activePath, DefaultNavLinks[i].href) <==> i == 2)
  {
    forall i | 0 <= i < |DefaultNavLinks|
      ensures IsActive(activePath, DefaultNavLinks[i].href) <==> i == 2
    {
      if i == 2 {
        assert activePath[..9] == "/products" by {
          assert activePath[..10][..9] == activePath[..9];
        }
      } else {
        NotProductsLink(activePath, i);
      }
    }
  }

  /** A stored empty list and a missing list both show the defaults. */
  lemma EmptyStoredLinksFallBack(s: WebsiteSettings)
    requires s.navLinks.None? || s.navLinks == Some([])
    ensures NavLinks(false, Some(s)) == DefaultNavLinks
  {
  }

  /** A missing logo type, or one other than "svg" and "url", shows the brand text whatever SVG or URL is stored. */
  lemma LogoFollowsType(s: WebsiteSettings)
    requires s.logoType.None? || (s.logoType != Some("svg") && s.logoType != Some("url"))
    ensures Logo(false, Some(s)) == TextLogo(BrandName(false, Some(s)))
  {
  }
}
