# Site script: forms, navigation menu, scroll spy, smooth scroll and FAQ filter

This is a Dafny model of the interactive core of the site's `script.js`. The model covers five parts:

- **Form validation.** `validateField` runs an ordered chain of rules on one control:
  - required;
  - e-mail, name and phone formats;
  - the minimum message length;
  - required check box and required radio group.

  `validateForm` runs it on every control of a form. The `blur` and `input` listeners re-validate a single control.
- **The submit listener.** It uses the page-wide `appState.formSubmitting` lock. A valid form gets a disabled, relabelled button for the length of the request. The notice and redirect depend on how the request ends. The `finally` block restores everything.
- **The burger menu.** It keeps `appState.menuOpen` in step with three things: the panel's `show` class, the toggler's `aria-expanded` and the body's `overflow`. The model covers every close trigger: a link click, Escape, a click outside, and a resize to 1024 px or wider.
- **Smooth scroll and scroll spy.**
  - The smooth-scroll listener decides which link clicks become an in-page scroll. Its `isHomePage` test decides when `/#id` links count.
  - The scroll spy picks the current section at scroll offset + 100 px. It then marks exactly the links that point at that section.
- **The FAQ filter.** An item stays visible when its lower-cased text contains the lower-cased, trimmed query.

The JavaScript string operations that these parts rely on are written out over `seq<char>` in `JsString`:

- `trim` with the ECMAScript white-space set;
- `toLowerCase`;
- `includes`, `startsWith` and `endsWith`.

The three regular expressions are written as predicates in `Patterns`. The e-mail test is an executable scan. It is proved to accept exactly the strings that the regular expression's `[^\s@]+@[^\s@]+\.[^\s@]+` decomposition matches.

The modules, in dependency order:

1. `Optional`
2. `JsString`
3. `Patterns`
4. `FieldValidation`
5. `Page`, which holds the `appState` object as a class
6. `FormSubmission`
7. `NavMenu`
8. `ScrollSpy`
9. `SmoothScroll`
10. `FaqSearch`

The objects the script mutates are classes with `modifies` clauses:

- `appState`;
- the menu's presentation;
- the submit button.

The node lists it rewrites in place are arrays:

- the scroll spy's links;
- the FAQ items.

Where the code and its informal description differ, the model follows the code:

- **The name pattern is narrower than "letters".** The class `À-ÿ` stops at U+00FF. So a Slovak name such as "Ana Kováč" is rejected (`č` is U+010D). The class also admits `×` and `÷` (`Patterns.NameExamples`, `Patterns.NameAdmitsSigns`).
- **The scroll spy can mark a link when no section is current.** When no section holds the offset, the current id is the empty string. A link written `#` or `/#` has that id too, so it is marked active (`ScrollSpy.BareHashLinkMarkedWhenNoneCurrent`).
- **The connection-failure notice is in Russian.** Every other message is Slovak. The model keeps the text as written (`FormSubmission.ConnectionNotice`).
- **The submit lock is one flag for the whole page.** A submit of any form is ignored while another form's request is in flight (`FormSubmission.SharedLockScenario`).

## Model

| member | source | states |
|---|---|---|
| JsString.TrimStartSpec | script.js:210 | Dropping leading white space keeps a suffix. What is removed is all white space, and the result does not start with white space. |
| JsString.TrimEndSpec | script.js:210 | Dropping trailing white space keeps a prefix. What is removed is all white space, and the result does not end with white space. |
| JsString.Trim | script.js:210 | `trim` returns a slice of its input with only white space on either side. The slice neither starts nor ends with white space. It is empty exactly when the input is all white space. |
| JsString.TrimTight | script.js:210 | A string with no white space at either end is left unchanged by `trim`. |
| JsString.TrimFramed | script.js:210 | Trimming white space around a non-empty tight core gives back exactly that core, which makes the core unique. |
| JsString.TrimPadded | script.js:395 | Adding white space on either side of any string does not change what `trim` returns. |
| JsString.TrimIdempotent | script.js:210 | Trimming twice is the same as trimming once. |
| JsString.LowerChar | script.js:395 | Lower-casing one code point: ASCII capitals map to small letters, and small letters and white space are unchanged. Every code point except U+0130 maps to exactly one code point. A non-space never becomes white space. |
| JsString.ToLower | script.js:398 | `toLowerCase` never shortens a string. |
| JsString.LowerCharIdempotent | script.js:395 | The lower case of a lower-cased code point is itself. |
| JsString.ToLowerAppend | script.js:398 | `toLowerCase` distributes over concatenation. |
| JsString.ToLowerIdempotent | script.js:395-398 | Lower-casing twice is the same as lower-casing once. |
| JsString.ToLowerAllSpace | script.js:395 | A string is all white space exactly when its lower-cased form is. |
| JsString.Includes | script.js:399 | `includes` holds exactly when the query occurs at some position of the text. |
| JsString.IndexOf | script.js:182 | The step of the e-mail scan that locates the first `@`: the position it returns holds the character and no earlier one does. `None` means the character is absent. |
| Patterns.EmailScanMatchesPattern | script.js:182 | The e-mail scan accepts a string exactly when the string splits into a non-empty `[^\s@]` run, `@`, a non-empty run, `.`, and a non-empty run. |
| Patterns.ScanGivesSplit | script.js:182 | A value the e-mail scan accepts has a split the regular expression matches: its first `@` and a dot inside the domain. |
| Patterns.SplitPassesScan | script.js:182 | Every split the regular expression allows is accepted by the scan. Its `@` is the first one. |
| Patterns.EmailSplitChars | script.js:182 | In any match of the e-mail pattern no character is white space, and the only `@` is the separating one. |
| Patterns.EmailRejectsSpace | script.js:182 | A value containing white space fails the e-mail test. |
| Patterns.EmailRejectsSecondAt | script.js:182 | A value containing two `@` fails the e-mail test. |
| Patterns.EmailExamples | script.js:182 | "a@b" is rejected and "a@b.com" is accepted. |
| Patterns.NameExamples | script.js:183 | One letter is too short, and Latin-1 names with `'` and `-` pass. A name with a letter above U+00FF fails. |
| Patterns.NameAdmitsSigns | script.js:183 | The name class admits the signs U+00D7 and U+00F7. |
| Patterns.PhoneExamples | script.js:184 | The phone pattern rejects values shorter than 7 or longer than 20 characters, and values containing a letter. Numbers with `+`, spaces, brackets and `-` are accepted. |
| FieldValidation.ValidateField | script.js:208-265 | A control is valid exactly when it passes every rule. Otherwise the verdict names the first rule in source order that the control fails, and every earlier rule passes. |
| FieldValidation.Message | script.js:215-262 | The required rule and the required check-box rule share the text "Toto pole je povinné". No other rule uses it. |
| FieldValidation.RequiredBlankFails | script.js:215-218 | A required control whose value is blank after trimming fails the required rule. |
| FieldValidation.OptionalBlankPasses | script.js:220-262 | A blank control that is not required is valid, because every format rule skips a blank value. |
| FieldValidation.EmailFieldVerdict | script.js:220-225 | Take any non-blank control identified as an e-mail field by its type, id or name. It fails the e-mail rule exactly when its trimmed value does not match the e-mail pattern. When no later rule applies, it is valid exactly when the value matches. |
| FieldValidation.EmailRuleByAnyIdentifier | script.js:220 | Type "email" alone, id "email" alone and name "email" alone each put a control under the e-mail rule. |
| FieldValidation.EmailFieldRejectsUndotted | script.js:220-225 | An e-mail input holding "a@b" shows the e-mail error. |
| FieldValidation.EmailFieldAcceptsPadded | script.js:210-225 | An input whose type, id and name are all "email", holding "a@b.com" with any white space around it, is valid, because the value is trimmed first. |
| FieldValidation.NameFieldVerdict | script.js:227-232 | Take a non-blank control identified as the name field by its id or name, that passes the e-mail rule. It fails the name rule exactly when its trimmed value does not match the name pattern. When no later rule applies, it is valid exactly when the value matches. |
| FieldValidation.NameRuleByAnyIdentifier | script.js:227 | Id "name" alone and name "name" alone each put a control under the name rule. |
| FieldValidation.PhoneFieldVerdict | script.js:234-239 | Take a non-blank control identified as a phone field by type "tel", id or name, that passes the earlier rules. It fails the phone rule exactly when its trimmed value does not match the phone pattern. When no later rule applies, it is valid exactly when the value matches. |
| FieldValidation.PhoneRuleByAnyIdentifier | script.js:234 | Type "tel" alone, id "phone" alone and name "phone" alone each put a control under the phone rule. |
| FieldValidation.MessageBoundary | script.js:241-246 | Take the message text area, identified by id or name, that passes the earlier rules. It fails the length rule exactly when its trimmed value is non-empty and shorter than 10 characters. So 9 characters fail, and 10 or more are valid when no later rule applies. |
| FieldValidation.MessageRuleByAnyIdentifier | script.js:241 | Id "message" alone and name "message" alone each put a text area under the length rule. |
| FieldValidation.MessageRuleNeedsTextArea | script.js:241 | No element other than a text area ever fails the length rule. A non-blank text input (type "text") with id and name "message" is valid at any length. |
| FieldValidation.ShownErrorIsCurrent | script.js:316-322 | After a blur and any number of `input` events, an error that is still shown is the error of the latest value. It disappears once the value is valid. |
| FieldValidation.StaysCurrent | script.js:318-322 | Re-validating only controls marked invalid keeps every shown error current. |
| FieldValidation.NoErrorWhileTyping | script.js:318-322 | Typing into a control that shows no error never makes an error appear. |
| FormSubmission.ValidateForm | script.js:267-278 | Every control is validated, including those after a failure. The form is valid exactly when every control is. |
| FormSubmission.BlankRequiredBlocksForm | script.js:330 | A form with a blank required control is not valid. |
| FormSubmission.Settle | script.js:357-373 | Only a positive answer gives the success notice and the redirect, and the redirect is to `thank_you.html`. A refusal gives the retry notice, and a failed request gives the connection notice. |
| Page.AppState.constructor | script.js:4-8 | The page starts with the menu closed and no submission in flight. |
| FormSubmission.Submit | script.js:325-343 | While a submission is in flight a submit is ignored and nothing changes. An invalid form shows the form notice and leaves the lock and the button alone. A valid form takes the lock and disables the button, which shows "Odosielanie...". The original text is kept for later. |
| FormSubmission.Finish | script.js:374-380 | On every outcome the button is re-enabled, its original text is restored and the lock is released. |
| FormSubmission.SharedLockScenario | script.js:328-380 | A second form's submit during the first request is ignored. After the first request ends, whatever its outcome, the second form can be submitted. |
| NavMenu.Menu.Open | script.js:36-41 | Opening sets the flag. The panel, `aria-expanded` and body overflow agree with it. |
| NavMenu.Menu.Close | script.js:43-48 | Closing clears the flag. The panel, `aria-expanded` and body overflow agree with it. |
| NavMenu.Menu.Toggle | script.js:50-52 | Toggling flips the open flag and keeps the presentation consistent. |
| NavMenu.Menu.CloseWhen | script.js:61-82 | A close trigger closes an open menu when its condition holds. Otherwise it changes nothing. |
| NavMenu.Menu.OnNavLinkClick | script.js:59-63 | A link click closes an open menu and does nothing to a closed one. |
| NavMenu.Menu.OnKeyDown | script.js:65-67 | Escape closes an open menu, and no other key has any effect. |
| NavMenu.Menu.OnDocumentClick | script.js:69-77 | Only a click outside both the panel and the toggler closes an open menu. |
| NavMenu.Menu.OnResize | script.js:79-84 | A viewport at least 1024 px wide closes an open menu. A narrower one changes nothing. |
| NavMenu.Menu.Click | script.js:54-77 | A click on the toggler flips the menu even after the document listener runs. A click on a link or outside the panel leaves the menu closed. A click elsewhere inside the panel changes nothing. |
| NavMenu.EscapeThenLinkScenario | script.js:54-67 | After opening and pressing Escape the menu is closed. A following link click leaves it unchanged. |
| ScrollSpy.NoneSpanning | script.js:131-140 | When no section holds the offset, the current id is empty. |
| ScrollSpy.LastMatchWins | script.js:134-140 | When a section holds the offset and no later section does, that section is current, even if earlier sections also hold it. |
| ScrollSpy.CurrentSection | script.js:131-140 | The scan returns the id of the last section whose span holds the offset plus 100 px. |
| ScrollSpy.LinkIdOfFragment | script.js:146 | A link written `#id` or `/#id` is read back as `id`. |
| ScrollSpy.MarkLinks | script.js:142-151 | Afterwards a link is active with `aria-current="page"` exactly when it points at the current section. Every other link has neither marker, and the hrefs are unchanged. |
| ScrollSpy.OnScroll | script.js:128-152 | Without sections or links nothing changes. Otherwise the links are marked for the last section holding the offset plus 100 px. |
| ScrollSpy.BareHashLinkMarkedWhenNoneCurrent | script.js:131-151 | When no section is current, a link written `#` or `/#` is still marked active. |
| SmoothScroll.OnClick | script.js:93-109 | A click is intercepted exactly when the link's href is present and not `#` or `#!`, and it is either a fragment or a root fragment on the home page. The scroll target is the text after `#` or `/#`. |
| SmoothScroll.FragmentRoundTrip | script.js:97-108 | A `#id` link scrolls to `id`. A `/#id` link scrolls to `id` on the home page and navigates normally elsewhere. |
| SmoothScroll.ClickAgreesWithSpy | script.js:100-108 | On the home page, clicking a link the scroll spy tracks scrolls to the section that marks that link active. |
| FaqSearch.ShowVisible | script.js:397-404 | Each item keeps its text. Its `display` becomes "" when the normalised query is empty or occurs in the item's lower-cased text, and "none" otherwise. |
| FaqSearch.OnSearchInput | script.js:394-405 | After an input event, each item is shown exactly when it matches what was typed and is hidden otherwise. Item texts are unchanged. |
| FaqSearch.BlankQueryShowsAll | script.js:399 | A query that is empty or all white space shows every item. |
| FaqSearch.MatchMeansOccurrence | script.js:395-399 | A non-blank query shows exactly the items whose lower-cased text contains the lower-cased, trimmed query. |
| FaqSearch.MatchIgnoresCase | script.js:395-398 | Lower-casing the query or the text first does not change which items are shown. |
| FaqSearch.MatchIgnoresSurroundingBlanks | script.js:395 | White space before and after the query does not change which items are shown. This holds in any amounts, and also on one side alone. |

## Left out

- FieldValidation.Message: the contract fixes only which rules share the "required" text. The other texts are written in the body as script.js:222-260 has them, and no contract pins them.
- Timing:
  - the `debounce` (150 ms, 300 ms) and `throttle` (100 ms) wrappers;
  - the 500 ms delay before the request;
  - the 1.5 s delay before the redirect;
  - the notification timers.

  Each debounced listener is modelled as the call it makes once its timer fires.
- `showError` and `clearError` are modelled by the verdict a control shows. The error element they create or empty is not modelled.
- `showNotification` is modelled as the `Notice` (tone and text) it is given. Its container, alert markup and close button are not modelled.
- The request itself is not modelled: `FormData`, the JSON body, `fetch` to `process.php`, and reading the JSON answer. Its outcome is a `Response` parameter. A body of `null` makes `data.success` throw, so it counts as `Failed`.
- Navigation is not modelled. The redirect is reported as the page name, and `scrollToElement` (header height, bounding box, `scrollTo`) is not modelled. A click is reduced to the id it scrolls to; whether the page has an element with that id is not modelled.
- The DOM queries are not modelled (`querySelectorAll`, `closest('a')`, `contains`). Fields, sections, links and items arrive as sequences or arrays, and where a click landed arrives as booleans.
- The early returns when the menu markup, the forms or the FAQ search input are missing leave nothing registered, so nothing is modelled for them. A page without FAQ items still gets the search listener. Its loop then has nothing to do: `FaqSearch.OnSearchInput` on an empty array changes nothing.
- `appState.scrollPosition` is initialised and never read, so it is not kept.
- These features of the script are outside the modelled core: the scroll-to-top button, the count-up counters, lazy image loading, modals, the ripple effect and the page-load wiring.
- FieldValidation.ValidateField: a radio group's "some input with this name is checked" is a field of the control (`groupChecked`). The document-wide query that computes it is not modelled.
- FieldValidation.ValidateField: lengths count code points. JavaScript's `length` and the `{2,50}`/`{7,20}` quantifiers count UTF-16 code units. So a value with characters outside the Basic Multilingual Plane is counted shorter here than in the browser.
- JsString.ToLower: the case mapping covers Basic Latin, Latin-1 Supplement and Latin Extended-A. Other code points are left unchanged.
- FormSubmission.Submit: the button's busy content is recorded as its text "Odosielanie...". The spinner `<span>` that `innerHTML` inserts before it is not kept.
- ScrollSpy.OnScroll: offsets and heights are integers. Fractional `pageYOffset` values are not modelled.
- ScrollSpy.OnScroll: models one run of the callback. `throttle` (script.js:18-27) runs the first call at once and drops every call in the next 100 ms, with no trailing call. So once scrolling stops, the marked link can belong to an earlier scroll position than the final one. The model does not capture which scroll events are dropped.
