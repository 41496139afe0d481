/**
 * The admin sidebar: links come from the admin settings document or the
 * defaults, only visible links render, in stored order, each with its
 * icon (or the link icon for an unknown name) and an active mark.
 */
module Sidebar {
  import opened Entities
  import Text
  import Header

  datatype AdminLink = AdminLink(href: string, caption: string, icon: string, visible: bool)

  /** The `settings/admin` document. */
  datatype AdminSettings = AdminSettings(navLinks: Option<seq<AdminLink>>)

  const DefaultLinks: seq<AdminLink> := [
    AdminLink("/admin/dashboard", "Dashboard", "LayoutDashboard", true),
    AdminLink("/admin/products", "Products", "Package", true),
    AdminLink("/admin/blog", "Blog", "Newspaper", true),
    AdminLink("/admin/ai-sourcing", "AI Sourcing", "Bot", true),
    AdminLink("/admin/settings", "Site Settings", "Settings", true)
  ]

  const SkeletonCount: nat := 5

  /** The icons of `iconMap`. */
  datatype Icon =
    | LayoutDashboard | Package | Bot | LogOut | ArrowLeftSquare
    | Settings | Upload | FilePenLine | Newspaper | LinkIcon

  /** `iconMap[name] || iconMap.Link` */
  function IconFor(name: string): (r: Icon)
    ensures r == LinkIcon <==> name == "Link" || name !in IconNames
  {
    if name == "LayoutDashboard" then LayoutDashboard
    else if name == "Package" then Package
    else if name == "Bot" then Bot
    else if name == "LogOut" then LogOut
    else if name == "ArrowLeftSquare" then ArrowLeftSquare
    else if name == "Settings" then Settings
    else if name == "Upload" then Upload
    else if name == "FilePenLine" then FilePenLine
    else if name == "Newspaper" then Newspaper
    else LinkIcon
  }

  /** The keys of `iconMap` (`allIcons`), in declaration order. */
  const IconNames: seq<string> := [
    "LayoutDashboard", "Package", "Bot", "LogOut", "ArrowLeftSquare",
    "Settings", "Upload", "FilePenLine", "Newspaper", "Link"]

  /** `navLinks`: the stored list when loaded and present, even an empty one. */
  function LinkSource(isLoading: bool, settings: Option<AdminSettings>): (r: seq<AdminLink>)
    ensures !isLoading && settings.Some? && settings.value.navLinks.Some? ==> r == settings.value.navLinks.value
    ensures isLoading || settings.None? || settings.value.navLinks.None? ==> r == DefaultLinks
  {
    if !isLoading && settings.Some? && settings.value.navLinks.Some? then settings.value.navLinks.value
    else DefaultLinks
  }

  /** `navLinks.filter(link => link.visible)` */
  function VisibleLinks(links: seq<AdminLink>): (r: seq<AdminLink>)
    ensures |r| <= |links|
    ensures forall l :: l in r ==> l.visible
  {
    if |links| == 0 then []
    else (if links[0].visible then [links[0]] else []) + VisibleLinks(links[1..])
  }

  /** A rendered link: target, caption, icon and whether it is marked active. */
  datatype Entry = Entry(href: string, caption: string, icon: Icon, active: bool)

  /** What `SidebarNavLinks` renders: placeholders while loading, otherwise the entries. */
  datatype SidebarView = Skeletons(count: nat) | Entries(entries: seq<Entry>)

  function EntryFor(pathname: string, link: AdminLink): (e: Entry)
    ensures e.href == link.href && e.caption == link.caption
    ensures e.active <==> Text.StartsWith(pathname, link.href)
  {
    Entry(link.href, link.caption, IconFor(link.icon), Text.StartsWith(pathname, link.href))
  }

  function Render(pathname: string, isLoading: bool, settings: Option<AdminSettings>): (r: SidebarView)
    ensures r.Skeletons? <==> isLoading
    ensures r.Skeletons? ==> r.count == SkeletonCount
    ensures r.Entries? ==> |r.entries| == |VisibleLinks(LinkSource(isLoading, settings))|
  {
    if isLoading then Skeletons(SkeletonCount)
    else
      var shown := VisibleLinks(LinkSource(isLoading, settings));
      Entries(seq(|shown|, i requires 0 <= i < |shown| => EntryFor(pathname, shown[i])))
  }

  // ---------------------------------------------------------------------
  // Properties

  /** A link is shown iff it is stored and visible. */
  lemma {:induction false} VisibleLinksExactly(links: seq<AdminLink>, l: AdminLink)
    ensures l in VisibleLinks(links) <==> l in links && l.visible
  {
    if |links| > 0 {
      VisibleLinksExactly(links[1..], l);
      assert links == [links[0]] + links[1..];
    }
  }

  /** Filtering distributes over concatenation, so the shown links keep their stored order. */
  lemma {:induction false} VisibleLinksAppend(a: seq<AdminLink>, b: seq<AdminLink>)
    ensures VisibleLinks(a + b) == VisibleLinks(a) + VisibleLinks(b)
  {
    if |a| == 0 {
      assert a + b == b;
    } else {
      assert (a + b)[0] == a[0];
      assert (a + b)[1..] == a[1..] + b;
      VisibleLinksAppend(a[1..], b);
    }
  }

  /** A list whose links are all visible is shown whole. */
  lemma {:induction false} AllVisibleShownWhole(links: seq<AdminLink>)
    requires forall i :: 0 <= i < |links| ==> links[i].visible
    ensures VisibleLinks(links) == links
  {
    if |links| > 0 {
      AllVisibleShownWhole(links[1..]);
      assert links == [links[0]] + links[1..];
    }
  }

  /** The i-th entry shows the i-th visible link, with its icon and active mark. */
  lemma EntriesFollowLinks(pathname: string, settings: Option<AdminSettings>, i: int)
    requires 0 <= i < |VisibleLinks(LinkSource(false, settings))|
    ensures var shown := VisibleLinks(LinkSource(false, settings));
      var e := Render(pathname, false, settings).entries[i];
      && e.href == shown[i].href && e.caption == shown[i].caption
      && e.icon == IconFor(shown[i].icon)
      && (e.active <==> Text.StartsWith(pathname, shown[i].href))
  {
  }

  /** A stored empty list shows no links at all; it does not fall back to the defaults. */
  lemma StoredEmptyListShowsNothing(pathname: string)
    ensures Render(pathname, false, Some(AdminSettings(Some([])))) == Entries([])
  {
  }

  /** Every name in the icon map gets its own icon; only "Link" and unknown names get the link icon. */
  lemma KnownIconsAreDistinct(i: int, j: int)
    requires 0 <= i < |IconNames| && 0 <= j < |IconNames|
    ensures IconFor(IconNames[i]) == IconFor(IconNames[j]) <==> i == j
  {
  }

  /** The sidebar and header active rules agree on every href except "/". */
  lemma SidebarAgreesWithHeader(pathname: string, href: string)
    requires href != "/"
    ensures EntryFor(pathname, AdminLink(href, "", "", true)).active <==> Header.IsActive(pathname, href)
  {
    Header.OtherLinksActiveByPrefix(pathname, href);
  }
}
