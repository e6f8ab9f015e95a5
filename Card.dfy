/**
  The link-preview card of a message attachment: which image it shows, the
  host name it prints for its link (`trimUrl`), and which of its three
  forms it takes (the "could not be displayed" fallback, nothing, or the card).
 */
module Card {
  import opened Js

  /** `s` begins with `p`, ignoring the case of ASCII letters. */
  predicate StartsWithIgnoreCase(s: string, p: string)
  {
    |p| <= |s| && Lower(s[..|p|]) == Lower(p)
  }

  /** Drops one leading `https://` or `http://`, in any case. */
  function StripScheme(s: string): (r: string)
    ensures r == s || (StartsWithIgnoreCase(s, "https://") && r == s[8..])
                   || (StartsWithIgnoreCase(s, "http://") && r == s[7..])
  {
    if StartsWithIgnoreCase(s, "https://") then s[8..]
    else if StartsWithIgnoreCase(s, "http://") then s[7..]
    else s
  }

  /** Drops one leading `www.`, in any case. */
  function StripWww(s: string): (r: string)
    ensures r == s || (StartsWithIgnoreCase(s, "www.") && r == s[4..])
  {
    if StartsWithIgnoreCase(s, "www.") then s[4..] else s
  }

  /** `s.split('/')[0]`: the text before the first `/`, or all of `s`. */
  function BeforeSlash(s: string): (r: string)
    ensures StartsWith(s, r)
    ensures '/' !in r
    ensures r == s || s[|r|] == '/'
  {
    var i := IndexOf(s, "/");
    if i == -1 then
      assert forall k | 0 <= k < |s| :: s[k..k + 1] == [s[k]] && !OccursAt(s, "/", k);
      s
    else
      assert forall k | 0 <= k < i :: s[k..k + 1] == [s[k]] && !OccursAt(s, "/", k);
      assert forall k | 0 <= k < i :: s[..i][k] == s[k];
      assert s[i] == s[i..i + 1][0] == '/';
      s[..i]
  }

  /**
    `trimUrl(url)`: `null` for a missing url; otherwise the url without one
    leading scheme and then one leading `www.`, cut at its first `/`. The
    result is a prefix of the stripped url that contains no `/` and ends
    where the stripped url ends or at a `/`.
   */
  function TrimUrl(url: Option<string>): (r: Option<string>)
    ensures r.None? <==> url.None?
    ensures r.Some? ==>
      var stripped := StripWww(StripScheme(url.value));
      && StartsWith(stripped, r.value)
      && '/' !in r.value
      && (r.value == stripped || stripped[|r.value|] == '/')
  {
    if url.None? then None
    else Some(BeforeSlash(StripWww(StripScheme(url.value))))
  }

  /** A url with no scheme, no `www.` and no `/` is printed as it is. */
  lemma TrimUrlPlain(u: string)
    requires !StartsWithIgnoreCase(u, "https://") && !StartsWithIgnoreCase(u, "http://")
    requires !StartsWithIgnoreCase(u, "www.") && '/' !in u
    ensures TrimUrl(Some(u)) == Some(u)
  {
  }

  /** Either scheme, in any letter case, is stripped from the front of a url. */
  lemma StripSchemeOf(scheme: string, rest: string)
    requires Lower(scheme) == "https://" || Lower(scheme) == "http://"
    ensures StripScheme(scheme + rest) == rest
  {
    var u := scheme + rest;
    assert |scheme| == |Lower(scheme)|;
    if Lower(scheme) == "https://" {
      assert u[..8] == scheme;
    } else {
      assert u[..7] == scheme;
      if |u| >= 8 {
        assert Lower(u[..8])[4] == LowerChar(u[4]) == LowerChar(scheme[4]) == Lower(scheme)[4] == ':';
      }
    }
  }

  /** A leading `www.`, in any letter case, is stripped. */
  lemma StripWwwOf(w: string, rest: string)
    requires Lower(w) == "www."
    ensures StripWww(w + rest) == rest
  {
    assert |w| == |Lower(w)|;
    assert (w + rest)[..4] == w;
  }

  /** Cutting at the first `/` keeps a host that has none, whatever path follows. */
  lemma BeforeSlashOf(host: string, path: string)
    requires '/' !in host
    requires path == [] || path[0] == '/'
    ensures BeforeSlash(host + path) == host
  {
    var s := host + path;
    var r := BeforeSlash(s);
    assert forall k | 0 <= k < |host| :: s[k] == host[k] && s[k] != '/';
    assert forall k | 0 <= k < |r| :: r[k] == s[k] && r[k] != '/';
    assert path != [] ==> s[|host|] == '/';
    assert r == s[..|r|];
    assert s[..|host|] == host;
  }

  /**
    A url made of a scheme, `www.`, a host and a path (in any letter case)
    is printed as its host.
   */
  lemma TrimUrlHost(scheme: string, w: string, host: string, path: string)
    requires Lower(scheme) == "https://" || Lower(scheme) == "http://"
    requires Lower(w) == "www."
    requires '/' !in host
    requires path == [] || path[0] == '/'
    ensures TrimUrl(Some(scheme + w + host + path)) == Some(host)
  {
    assert scheme + w + host + path == scheme + (w + (host + path));
    StripSchemeOf(scheme, w + (host + path));
    StripWwwOf(w, host + path);
    BeforeSlashOf(host, path);
  }

  /** The attachment fields the card reads, each possibly missing. */
  datatype CardProps = CardProps(
    image_url: Option<string>,
    og_scrape_url: Option<string>,
    text: Option<string>,
    thumb_url: Option<string>,
    title: Option<string>,
    title_link: Option<string>,
    cardType: Option<string>)

  /** `thumb_url || image_url`. */
  function CardImage(p: CardProps): (r: Option<string>)
    ensures Truthy(p.thumb_url) ==> r == p.thumb_url
    ensures !Truthy(p.thumb_url) ==> r == p.image_url
  {
    OrElse(p.thumb_url, p.image_url)
  }

  /** `title_link || og_scrape_url`: the link of the card. */
  function CardLink(p: CardProps): Option<string>
  {
    OrElse(p.title_link, p.og_scrape_url)
  }

  /** A field the card prints only when it is truthy. */
  function Shown(s: Option<string>): Option<string>
  {
    if Truthy(s) then s else None
  }

  /** What the card renders. */
  datatype CardView =
    | Unavailable(cardType: Option<string>)
    | Nothing
    | Preview(image: Option<string>, title: Option<string>, text: Option<string>,
              href: string, linkText: string, giphyLogo: bool)

  /**
    The card: the fallback when it has no title, no title link and no image;
    else nothing when it has no link at all; else the preview, whose anchor
    points at the title link in preference to the scraped url and is
    labelled with that link's host.
   */
  function RenderCard(p: CardProps): (v: CardView)
    ensures v.Unavailable? <==> !Truthy(p.title) && !Truthy(p.title_link) && !Truthy(CardImage(p))
    ensures v.Nothing? <==> !v.Unavailable? && !Truthy(p.title_link) && !Truthy(p.og_scrape_url)
    ensures v.Preview? ==>
      && Some(v.href) == (if Truthy(p.title_link) then p.title_link else p.og_scrape_url)
      && v.href != ""
      && Some(v.linkText) == TrimUrl(Some(v.href))
      && (v.image.Some? <==> Truthy(CardImage(p)))
      && v.image == (if Truthy(CardImage(p)) then CardImage(p) else None)
      && v.title == (if Truthy(p.title) then p.title else None)
      && v.text == (if Truthy(p.text) then p.text else None)
      && (v.giphyLogo <==> p.cardType == Some("giphy"))
  {
    if !Truthy(p.title) && !Truthy(p.title_link) && !Truthy(CardImage(p)) then Unavailable(p.cardType)
    else if !Truthy(p.title_link) && !Truthy(p.og_scrape_url) then Nothing
    else
      var href := CardLink(p).value;
      Preview(Shown(CardImage(p)), Shown(p.title), Shown(p.text), href,
              TrimUrl(Some(href)).value, p.cardType == Some("giphy"))
  }

  /** A previewed card's label is a host name: it never contains `/`. */
  lemma PreviewLabelHasNoSlash(p: CardProps)
    requires RenderCard(p).Preview?
    ensures '/' !in RenderCard(p).linkText
  {
  }

  /** A card with only a title and a link still renders its preview. */
  lemma TitleAndLinkSuffice(p: CardProps)
    requires Truthy(p.title) && Truthy(p.title_link)
    ensures RenderCard(p).Preview? && RenderCard(p).href == p.title_link.value
  {
  }
}
