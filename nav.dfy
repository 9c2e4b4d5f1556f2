/** Active-link selection of nav.js: `setActiveNav` marks the navigation links whose
    `href` names the current page. */
module Nav {
  import opened Strings

  const ActiveClass := "active"

  /** A `.nav-link` element: its `href` attribute, if any, and its class list. */
  datatype Link = Link(href: Option<string>, classes: set<string>)

  /** The current page: the last `/`-separated piece of the path, or `index.html` when that
      piece is empty. */
  function CurrentPage(pathname: string): (c: string)
    ensures c != [] && '/' !in c
  {
    var seg := LastPiece(pathname, '/');
    if seg == [] then "index.html" else seg
  }

  /** The test of the second loop: a missing `href` counts as the empty one. */
  predicate Matches(href: Option<string>, current: string) {
    var base := LastPiece(if href.Some? then href.value else [], '/');
    base == current || (current == [] && base == "index.html")
  }

  /** What the two loops of `setActiveNav` do to one link. */
  function Highlight(link: Link, current: string): Link {
    var cleared := link.classes - {ActiveClass};
    link.(classes := if Matches(link.href, current) then cleared + {ActiveClass} else cleared)
  }

  /** `setActiveNav()`: first `active` is removed from every link, then it is added to each
      link whose `href` matches the current page. */
  method SetActiveNav(links: array<Link>, pathname: string)
    modifies links
    ensures forall i :: 0 <= i < links.Length ==> links[i] == Highlight(old(links[i]), CurrentPage(pathname))
  {
    var current := CurrentPage(pathname);
    for i := 0 to links.Length
      invariant forall k :: 0 <= k < i ==> links[k] == old(links[k]).(classes := old(links[k]).classes - {ActiveClass})
      invariant forall k :: i <= k < links.Length ==> links[k] == old(links[k])
    {
      links[i] := links[i].(classes := links[i].classes - {ActiveClass});
    }
    for i := 0 to links.Length
      invariant forall k :: 0 <= k < i ==> links[k] == Highlight(old(links[k]), current)
      invariant forall k :: i <= k < links.Length ==>
                  links[k] == old(links[k]).(classes := old(links[k]).classes - {ActiveClass})
    {
      if Matches(links[i].href, current) {
        links[i] := links[i].(classes := links[i].classes + {ActiveClass});
      }
    }
  }

  /** A link is active afterwards exactly when the last `/` piece of its `href` is the
      current page; the `current === ''` case of the test never applies. Its other classes
      and its `href` are untouched. */
  lemma HighlightRule(link: Link, pathname: string)
    ensures var r := Highlight(link, CurrentPage(pathname));
            && (ActiveClass in r.classes <==>
                 link.href.Some? && LastPiece(link.href.value, '/') == CurrentPage(pathname))
            && r.classes - {ActiveClass} == link.classes - {ActiveClass}
            && r.href == link.href
  {
    var current := CurrentPage(pathname);
    assert LastPiece([], '/') == [] by {
      assert Split([], "/") == [[]];
    }
  }

  /** A link without `href` (or with an empty one) is never active. */
  lemma NoHrefNeverActive(classes: set<string>, pathname: string)
    ensures ActiveClass !in Highlight(Link(None, classes), CurrentPage(pathname)).classes
    ensures ActiveClass !in Highlight(Link(Some([]), classes), CurrentPage(pathname)).classes
  {
    HighlightRule(Link(None, classes), pathname);
    HighlightRule(Link(Some([]), classes), pathname);
  }

  /** Running it again changes nothing. */
  lemma HighlightIdempotent(link: Link, current: string)
    ensures Highlight(Highlight(link, current), current) == Highlight(link, current)
  {
  }

  /** Nothing enforces a single active link: links in different directories that name the
      same page are all marked, and when no link matches none is. */
  lemma ActiveIsNotUnique(dirA: string, dirB: string, page: string, classes: set<string>)
    requires page != [] && '/' !in page
    ensures ActiveClass in Highlight(Link(Some(dirA + "/" + page), classes), page).classes
    ensures ActiveClass in Highlight(Link(Some(dirB + "/" + page), classes), page).classes
    ensures CurrentPage("/" + page) == page
  {
    LastPieceAfter(dirA, '/', page);
    LastPieceAfter(dirB, '/', page);
    LastPieceAfter([], '/', page);
    assert "/" + page == [] + ['/'] + page;
  }

  /** `SetActiveNav` called twice leaves the links as one call does. */
  method SetActiveNavTwice(links: array<Link>, pathname: string)
    modifies links
    ensures forall i :: 0 <= i < links.Length ==> links[i] == Highlight(old(links[i]), CurrentPage(pathname))
  {
    SetActiveNav(links, pathname);
    ghost var once := links[..];
    SetActiveNav(links, pathname);
    forall i | 0 <= i < links.Length
      ensures links[i] == Highlight(old(links[i]), CurrentPage(pathname))
    {
      HighlightIdempotent(old(links[i]), CurrentPage(pathname));
      assert links[i] == Highlight(once[i], CurrentPage(pathname));
    }
  }
}
