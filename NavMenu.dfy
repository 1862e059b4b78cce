/**
 * `initBurgerMenu`: the collapsible navigation panel. The open flag lives in
 * `appState.menuOpen`; the panel's `show` class, the toggler's `aria-expanded` and the
 * body's `overflow` style are the presentation that opening and closing keep in step with it.
 * When the toggler or the panel is missing the script registers nothing, and no `Menu` exists.
 */
module NavMenu {
  import opened Page

  /** Viewport width, in CSS pixels, from which a resize closes the menu. */
  const DesktopBreakpoint := 1024

  /** Where a click landed: on the toggler, on a `.nav-link`, or elsewhere (inside the panel or not). */
  datatype ClickTarget = OnToggler | OnNavLink | Elsewhere(inPanel: bool)

  class Menu {
    const app: AppState
    /** The `show` class on `.navbar-collapse`. */
    var shown: bool
    /** The `aria-expanded` attribute of `.navbar-toggler`. */
    var ariaExpanded: string
    /** `document.body.style.overflow`. */
    var bodyOverflow: string

    /** The presentation agrees with the open flag. */
    ghost predicate Consistent()
      reads this, app
    {
      shown == app.menuOpen
      && ariaExpanded == (if app.menuOpen then "true" else "false")
      && bodyOverflow == (if app.menuOpen then "hidden" else "")
    }

    /** The menu as the markup leaves it when the script starts; `app` is the page's state record. */
    constructor (app: AppState, shown: bool, ariaExpanded: string, bodyOverflow: string)
      ensures this.app == app && this.shown == shown
      ensures this.ariaExpanded == ariaExpanded && this.bodyOverflow == bodyOverflow
    {
      this.app := app;
      this.shown := shown;
      this.ariaExpanded := ariaExpanded;
      this.bodyOverflow := bodyOverflow;
    }

    /** `openMenu`: show the panel, mark the toggler expanded, stop the page from scrolling. */
    method Open()
      modifies this, app
      ensures app.menuOpen && Consistent()
      ensures app.formSubmitting == old(app.formSubmitting)
    {
      shown := true;
      ariaExpanded := "true";
      bodyOverflow := "hidden";
      app.menuOpen := true;
    }

    /** `closeMenu`: the inverse of every effect of `Open`. */
    method Close()
      modifies this, app
      ensures !app.menuOpen && Consistent()
      ensures app.formSubmitting == old(app.formSubmitting)
    {
      shown := false;
      ariaExpanded := "false";
      bodyOverflow := "";
      app.menuOpen := false;
    }

    /** `toggleMenu`: flips the open flag, and the presentation follows. */
    method Toggle()
      modifies this, app
      ensures app.menuOpen == !old(app.menuOpen) && Consistent()
      ensures app.formSubmitting == old(app.formSubmitting)
    {
      if app.menuOpen {
        Close();
      } else {
        Open();
      }
    }

    /**
     * The shape of every close trigger: it closes the menu only when the menu is open and
     * the trigger's own condition holds; otherwise nothing changes at all.
     */
    method CloseWhen(condition: bool)
      modifies this, app
      ensures old(app.menuOpen) && condition ==> !app.menuOpen && Consistent() && app.formSubmitting == old(app.formSubmitting)
      ensures !(old(app.menuOpen) && condition) ==> unchanged(this, app)
    {
      if condition && app.menuOpen {
        Close();
      }
    }

    /** A click on a `.nav-link` closes an open menu. */
    method OnNavLinkClick()
      modifies this, app
      ensures old(app.menuOpen) ==> !app.menuOpen && Consistent() && app.formSubmitting == old(app.formSubmitting)
      ensures !old(app.menuOpen) ==> unchanged(this, app)
    {
      CloseWhen(true);
    }

    /** The Escape key closes an open menu; any other key does nothing. */
    method OnKeyDown(key: string)
      modifies this, app
      ensures old(app.menuOpen) && key == "Escape" ==> !app.menuOpen && Consistent() && app.formSubmitting == old(app.formSubmitting)
      ensures !(old(app.menuOpen) && key == "Escape") ==> unchanged(this, app)
    {
      CloseWhen(key == "Escape");
    }

    /** The document-level click listener: a click outside both the panel and the toggler closes an open menu. */
    method OnDocumentClick(inPanel: bool, inToggler: bool)
      modifies this, app
      ensures old(app.menuOpen) && !inPanel && !inToggler ==> !app.menuOpen && Consistent() && app.formSubmitting == old(app.formSubmitting)
      ensures !(old(app.menuOpen) && !inPanel && !inToggler) ==> unchanged(this, app)
    {
      CloseWhen(!inPanel && !inToggler);
    }

    /** The resize listener (after its debounce): a viewport at least 1024 pixels wide closes an open menu. */
    method OnResize(width: int)
      modifies this, app
      ensures old(app.menuOpen) && width >= DesktopBreakpoint ==> !app.menuOpen && Consistent() && app.formSubmitting == old(app.formSubmitting)
      ensures !(old(app.menuOpen) && width >= DesktopBreakpoint) ==> unchanged(this, app)
    {
      CloseWhen(width >= DesktopBreakpoint);
    }

    /**
     * One click, with the listeners it reaches in the order they run: the toggler's or the
     * link's own listener first, then the document's. A click on the toggler always flips the
     * menu (the document listener skips clicks inside the toggler); a click on a link or
     * outside the panel leaves the menu closed; a click inside the panel elsewhere changes nothing.
     */
    method Click(target: ClickTarget)
      modifies this, app
      ensures app.formSubmitting == old(app.formSubmitting)
      ensures target == OnToggler ==> app.menuOpen == !old(app.menuOpen) && Consistent()
      ensures target == OnNavLink || target == Elsewhere(false) ==>
        if old(app.menuOpen) then !app.menuOpen && Consistent() else unchanged(this, app)
      ensures target == Elsewhere(true) ==> unchanged(this, app)
    {
      match target
      case OnToggler =>
        Toggle();
        OnDocumentClick(false, true);
      case OnNavLink =>
        OnNavLinkClick();
        OnDocumentClick(true, false);
      case Elsewhere(inPanel) =>
        OnDocumentClick(inPanel, false);
    }
  }

  /**
   * Opening the menu, pressing Escape and then clicking a link: the menu ends closed and
   * consistent, and the second close does nothing further.
   */
  method EscapeThenLinkScenario(app: AppState, menu: Menu)
    requires menu.app == app && !app.menuOpen
    modifies menu, app
    ensures !app.menuOpen && menu.Consistent()
    ensures app.formSubmitting == old(app.formSubmitting)
  {
    menu.Click(OnToggler);
    assert app.menuOpen;
    menu.OnKeyDown("Escape");
    label closed:
    menu.Click(OnNavLink);
    assert unchanged@closed(menu, app);
  }
}
