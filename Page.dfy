/** The page-wide state record `appState`, created once when the script loads. */
module Page {

  /**
   * `appState`: whether the navigation menu is open and whether a form submission is in
   * flight. `scrollPosition` is initialised and never read again, so it is not kept here.
   */
  class AppState {
    var menuOpen: bool
    var formSubmitting: bool

    constructor ()
      ensures !menuOpen && !formSubmitting
    {
      menuOpen := false;
      formSubmitting := false;
    }
  }
}
