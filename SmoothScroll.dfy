/**
 * `initSmoothScroll`: which clicked links are turned into a smooth scroll to an element of
 * this page, and which are left to the browser's own navigation.
 */
module SmoothScroll {
  import opened Optional
  import opened JsString
  import ScrollSpy

  /** What the document-level click listener does with a click. */
  datatype Action =
    | FollowDefault
      /** `preventDefault`, then scroll to the element with this id if the page has one. */
    | Intercept(id: string)

  /** `isHomePage`, computed once from `location.pathname`. */
  predicate IsHomePage(pathname: string) {
    pathname == "/" || pathname == "/index.html" || EndsWith(pathname, "/")
  }

  /** The placeholders `#` and `#!`, and the empty or missing `href`, are never intercepted. */
  predicate IsPlaceholder(href: string) {
    href == "" || href == "#" || href == "#!"
  }

  /**
   * The listener for a click whose nearest enclosing `<a>` has the given `href` (`None` when
   * there is no such link or it has no `href`). A same-page fragment `#id` is always
   * intercepted, a root fragment `/#id` only on the home page, and the id is what follows.
   */
  function OnClick(href: Option<string>, pathname: string): (a: Action)
    ensures a.Intercept? <==>
      (href.Some? && !IsPlaceholder(href.value)
       && (StartsWith(href.value, "#") || (StartsWith(href.value, "/#") && IsHomePage(pathname))))
    ensures a.Intercept? ==> href.value == "#" + a.id || (href.value == "/#" + a.id && IsHomePage(pathname))
  {
    match href
    case None => FollowDefault
    case Some(h) =>
      if IsPlaceholder(h) then FollowDefault
      else if StartsWith(h, "#") then
        assert h == "#" + h[1..];
        Intercept(h[1..])
      else if StartsWith(h, "/#") && IsHomePage(pathname) then
        assert h == "/#" + h[2..];
        Intercept(h[2..])
      else FollowDefault
  }

  /**
   * Writing a link as `#id` or `/#id` and clicking it leads back to `id`: always for `#id`
   * (unless it is a placeholder), and for `/#id` exactly on the home page.
   */
  lemma FragmentRoundTrip(id: string, pathname: string)
    ensures id != "" && id != "!" ==> OnClick(Some("#" + id), pathname) == Intercept(id)
    ensures IsHomePage(pathname) ==> OnClick(Some("/#" + id), pathname) == Intercept(id)
    ensures !IsHomePage(pathname) ==> OnClick(Some("/#" + id), pathname) == FollowDefault
  {
    assert StartsWith("#" + id, "#");
    assert !StartsWith("/#" + id, "#") by {
      assert ("/#" + id)[..1][0] == '/';
    }
    assert StartsWith("/#" + id, "/#");
    assert id != "" ==> "#" + id != "#";
    assert ("#" + id)[1..] == id;
    assert "/#" + id != "" && "/#" + id != "#" && "/#" + id != "#!" by {
      assert ("/#" + id)[0] == '/';
    }
  }

  /**
   * On the home page, clicking any link the scroll spy tracks (other than a placeholder)
   * scrolls to the very section whose presence marks that link active.
   */
  lemma ClickAgreesWithSpy(href: string, pathname: string)
    requires StartsWith(href, "#") || StartsWith(href, "/#")
    requires !IsPlaceholder(href) && IsHomePage(pathname)
    ensures OnClick(Some(href), pathname) == Intercept(ScrollSpy.LinkId(href))
  {
    if StartsWith(href, "/#") {
      assert href[0] == '/';
    }
  }
}
