/**
 * `initScrollSpy`: on scroll, find the section that holds the scroll offset plus a 100-pixel
 * look-ahead, then mark exactly the navigation links that point at it.
 */
module ScrollSpy {
  import opened Optional
  import opened JsString

  /** An element carrying an `id`, with its `offsetTop` and `offsetHeight`. */
  datatype Section = Section(id: string, top: int, height: int)

  /** How far below the top of the viewport the spy looks, in pixels. */
  const Lookahead := 100

  /** The half-open span `[top, top + height)` of the section holds `pos`. */
  predicate Spans(s: Section, pos: int) {
    s.top <= pos < s.top + s.height
  }

  /** The id of the last section that spans `pos`, or "" when none does. */
  function LastSpanning(sections: seq<Section>, pos: int): string {
    if sections == [] then ""
    else if Spans(sections[|sections| - 1], pos) then sections[|sections| - 1].id
    else LastSpanning(sections[..|sections| - 1], pos)
  }

  /** When no section spans `pos`, no section is current. */
  lemma {:induction false} NoneSpanning(sections: seq<Section>, pos: int)
    requires forall k :: 0 <= k < |sections| ==> !Spans(sections[k], pos)
    ensures LastSpanning(sections, pos) == ""
  {
    if sections != [] {
      NoneSpanning(sections[..|sections| - 1], pos);
    }
  }

  /** When section `k` spans `pos` and no later one does, `k` is current: the last match wins. */
  lemma {:induction false} LastMatchWins(sections: seq<Section>, pos: int, k: int)
    requires 0 <= k < |sections| && Spans(sections[k], pos)
    requires forall j :: k < j < |sections| ==> !Spans(sections[j], pos)
    ensures LastSpanning(sections, pos) == sections[k].id
  {
    if k < |sections| - 1 {
      LastMatchWins(sections[..|sections| - 1], pos, k);
    }
  }

  /** The scan of the callback: every section is looked at, and a later match overrides an earlier one. */
  method CurrentSection(sections: seq<Section>, pageYOffset: int) returns (current: string)
    ensures current == LastSpanning(sections, pageYOffset + Lookahead)
  {
    var pos := pageYOffset + Lookahead;
    current := "";
    for i := 0 to |sections|
      invariant current == LastSpanning(sections[..i], pos)
    {
      assert sections[..i + 1][..i] == sections[..i];
      if Spans(sections[i], pos) {
        current := sections[i].id;
      }
    }
    assert sections[..|sections|] == sections;
  }

  // ---------------------------------------------------------------------------
  // Navigation links

  /** A `.nav-link` whose `href` starts with `#` or `/#`: its `active` class and `aria-current` attribute. */
  datatype NavLink = NavLink(href: string, active: bool, ariaCurrent: Option<string>)

  /** The section id a link points at: what follows `/#`, or else what follows the first character. */
  function LinkId(href: string): string {
    if StartsWith(href, "/#") then href[2..]
    else if href == [] then []
    else href[1..]
  }

  /** Both link forms the spy looks at give back the id they were written with. */
  lemma LinkIdOfFragment(id: string)
    ensures LinkId("#" + id) == id
    ensures LinkId("/#" + id) == id
  {
    assert !StartsWith("#" + id, "/#") by {
      if |"#" + id| >= 2 { assert ("#" + id)[..2][0] == '#'; }
    }
    assert StartsWith("/#" + id, "/#");
  }

  /** The link after the callback: both markers removed, then set again when the link points at `current`. */
  function Marked(link: NavLink, current: string): NavLink {
    if LinkId(link.href) == current then link.(active := true, ariaCurrent := Some("page"))
    else link.(active := false, ariaCurrent := None)
  }

  /**
   * The link loop: every link is rewritten in place; afterwards a link is active, with
   * `aria-current="page"`, exactly when its id is `current`, and nothing else about it changes.
   */
  method MarkLinks(links: array<NavLink>, current: string)
    modifies links
    ensures forall i :: 0 <= i < links.Length ==> links[i] == Marked(old(links[i]), current)
    ensures forall i :: 0 <= i < links.Length ==>
      links[i].href == old(links[i].href)
      && (links[i].active <==> LinkId(links[i].href) == current)
      && links[i].ariaCurrent == (if links[i].active then Some("page") else None)
  {
    for i := 0 to links.Length
      invariant forall k :: 0 <= k < i ==> links[k] == Marked(old(links[k]), current)
      invariant forall k :: i <= k < links.Length ==> links[k] == old(links[k])
    {
      links[i] := Marked(links[i], current);
    }
  }

  /**
   * The throttled scroll callback. The script installs it only when the page has at least one
   * element with an id and at least one such link; otherwise nothing ever changes.
   */
  method OnScroll(sections: seq<Section>, links: array<NavLink>, pageYOffset: int)
    modifies links
    ensures |sections| == 0 || links.Length == 0 ==> links[..] == old(links[..])
    ensures |sections| > 0 && links.Length > 0 ==>
      forall i :: 0 <= i < links.Length ==> links[i] == Marked(old(links[i]), LastSpanning(sections, pageYOffset + Lookahead))
  {
    if |sections| == 0 || links.Length == 0 {
      return;
    }
    var current := CurrentSection(sections, pageYOffset);
    MarkLinks(links, current);
  }

  /**
   * When no section holds the offset the current id is "", and a link whose `href` is just
   * `#` (or `/#`) has that id too: such a link is marked active even though no section is current.
   */
  lemma BareHashLinkMarkedWhenNoneCurrent(sections: seq<Section>, pos: int, link: NavLink)
    requires forall k :: 0 <= k < |sections| ==> !Spans(sections[k], pos)
    requires link.href == "#" || link.href == "/#"
    ensures Marked(link, LastSpanning(sections, pos)).active
  {
    NoneSpanning(sections, pos);
    LinkIdOfFragment("");
    assert "#" + "" == "#" && "/#" + "" == "/#";
  }
}
