/**
 * The public site footer: the stored footer settings or the defaults, and
 * the `tel:` link built from the phone number's dialable characters.
 */
module Footer {
  import opened Entities
  import Text

  datatype FooterLink = FooterLink(href: string, caption: string)

  /** The `settings/footer` document. */
  datatype FooterSettings = FooterSettings(
    brandName: string,
    description: string,
    ctaLabel: string,
    ctaHref: string,
    quickLinksTitle: string,
    quickLinks: seq<FooterLink>,
    contactInfoTitle: string,
    address: string,
    email: string,
    phone: string,
    copyright: string)

  /** The built-in content apart from the copyright line. */
  const BaseDefaults: FooterSettings := FooterSettings(
    "Swalaxon Remedies",
    "Your trusted global partner for high-quality pharmaceutical and chemical raw materials, ensuring quality, compliance, and reliability.",
    "Request a Quote",
    "/contact",
    "Quick Links",
    [FooterLink("/products", "Products"), FooterLink("/about", "About Us"),
     FooterLink("/quality", "Quality"), FooterLink("/contact", "Contact")],
    "Contact Info",
    "Nagpur, Maharashtra, India",
    "info.swalaxonremedies@gmail.com",
    "+91-9766208402",
    "")

  /** The copyright line for the current year. */
  function Copyright(year: nat): (r: string)
    ensures Text.StartsWith(r, "\U{A9} " + Text.NatToString(year))
  {
    var y := "\U{A9} " + Text.NatToString(year);
    assert (y + " Swalaxon Remedies Pvt Ltd. All rights reserved.")[..|y|] == y;
    y + " Swalaxon Remedies Pvt Ltd. All rights reserved."
  }

  /** The built-in content; only the copyright line depends on the year. */
  function DefaultSettings(year: nat): (d: FooterSettings)
    ensures d.(copyright := "") == BaseDefaults
    ensures Text.StartsWith(d.copyright, "\U{A9} " + Text.NatToString(year))
  {
    BaseDefaults.(copyright := Copyright(year))
  }

  /** `content`: the defaults while loading or when no document exists. */
  function Content(isLoading: bool, stored: Option<FooterSettings>, year: nat): (c: FooterSettings)
    ensures isLoading || stored.None? ==> c == DefaultSettings(year)
    ensures !isLoading && stored.Some? ==> c == stored.value
  {
    if isLoading then DefaultSettings(year)
    else match stored
      case None => DefaultSettings(year)
      case Some(s) => s
  }

  predicate IsDialable(c: char) {
    Text.IsDigit(c) || c == '+'
  }

  /** `phone.replace(/[^0-9+]/g, '')`: the digits and plus signs, in order. */
  function Dialable(phone: string): (r: string)
    ensures |r| <= |phone|
    ensures forall i :: 0 <= i < |r| ==> IsDialable(r[i])
  {
    if |phone| == 0 then []
    else (if IsDialable(phone[0]) then [phone[0]] else []) + Dialable(phone[1..])
  }

  /** The phone link's target. */
  function TelHref(phone: string): (h: string)
    ensures Text.StartsWith(h, "tel:")
    ensures h[4..] == Dialable(phone)
  {
    assert ("tel:" + Dialable(phone))[..4] == "tel:";
    "tel:" + Dialable(phone)
  }

  /** The email link's target. */
  function MailHref(email: string): (h: string)
    ensures Text.StartsWith(h, "mailto:") && h[7..] == email
  {
    assert ("mailto:" + email)[..7] == "mailto:";
    "mailto:" + email
  }

  // ---------------------------------------------------------------------
  // Properties

  /** `s` is `t` with some characters dropped, the rest kept in order. */
  predicate Subsequence(s: string, t: string)
    decreases |t|
  {
    if |s| == 0 then true
    else if |t| == 0 then false
    else if s[0] == t[0] then Subsequence(s[1..], t[1..])
    else Subsequence(s, t[1..])
  }

  /** The dialable characters are taken from the phone number in their original order. */
  lemma {:induction false} DialableIsSubsequence(phone: string)
    ensures Subsequence(Dialable(phone), phone)
  {
    if |phone| > 0 {
      DialableIsSubsequence(phone[1..]);
      var rest := Dialable(phone[1..]);
      if IsDialable(phone[0]) {
        assert ([phone[0]] + rest)[1..] == rest;
      } else {
        assert [] + rest == rest;
        SubsequenceSkip(rest, phone);
      }
    }
  }

  lemma SubsequenceSkip(s: string, t: string)
    requires |t| > 0 && Subsequence(s, t[1..])
    requires |s| > 0 ==> s[0] != t[0]
    ensures Subsequence(s, t)
  {
  }

  /** Every dialable character of the phone number is kept, and nothing else. */
  lemma {:induction false} DialableKeepsExactly(phone: string, c: char)
    ensures c in Dialable(phone) <==> c in phone && IsDialable(c)
  {
    if |phone| > 0 {
      DialableKeepsExactly(phone[1..], c);
      assert phone == [phone[0]] + phone[1..];
    }
  }

  /** A number that is already dialable is used as it is, so sanitising twice changes nothing. */
  lemma {:induction false} DialableIdempotent(phone: string)
    ensures Dialable(phone) == phone <==> forall i :: 0 <= i < |phone| ==> IsDialable(phone[i])
    ensures Dialable(Dialable(phone)) == Dialable(phone)
  {
    if |phone| > 0 {
      DialableIdempotent(phone[1..]);
      if forall i :: 0 <= i < |phone| ==> IsDialable(phone[i]) {
        assert forall i :: 0 <= i < |phone[1..]| ==> IsDialable(phone[1..][i]) by {
          forall i | 0 <= i < |phone[1..]| ensures IsDialable(phone[1..][i]) {
            assert phone[1..][i] == phone[i + 1];
          }
        }
        assert phone == [phone[0]] + phone[1..];
      }
    }
    DialableAllDialable(Dialable(phone));
  }

  lemma {:induction false} DialableAllDialable(s: string)
    requires forall i :: 0 <= i < |s| ==> IsDialable(s[i])
    ensures Dialable(s) == s
  {
    if |s| > 0 {
      assert forall i :: 0 <= i < |s[1..]| ==> IsDialable(s[1..][i]) by {
        forall i | 0 <= i < |s[1..]| ensures IsDialable(s[1..][i]) {
          assert s[1..][i] == s[i + 1];
        }
      }
      DialableAllDialable(s[1..]);
      assert s == [s[0]] + s[1..];
    }
  }

  /** Removal distributes over concatenation. */
  lemma {:induction false} DialableAppend(a: string, b: string)
    ensures Dialable(a + b) == Dialable(a) + Dialable(b)
  {
    if |a| == 0 {
      assert a + b == b;
    } else {
      assert (a + b)[0] == a[0];
      assert (a + b)[1..] == a[1..] + b;
      DialableAppend(a[1..], b);
    }
  }

  /** The quick links render in stored order, whatever the source. */
  lemma QuickLinksInStoredOrder(stored: FooterSettings, year: nat)
    ensures Content(false, Some(stored), year).quickLinks == stored.quickLinks
    ensures Content(true, Some(stored), year).quickLinks == DefaultSettings(year).quickLinks
  {
  }
}
