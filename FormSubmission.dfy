/**
 * `validateForm` and the forms' `submit` listener: the whole-form check, the page-wide
 * in-flight lock on `appState.formSubmitting`, and the clean-up that runs however the
 * request ends. The request itself is not modelled; its outcome arrives as a `Response`.
 */
module FormSubmission {
  import opened Optional
  import opened JsString
  import opened FieldValidation
  import opened Page

  /** Every control of the form passes `validateField`. */
  predicate FormValid(fields: seq<Field>) {
    forall i :: 0 <= i < |fields| ==> ValidateField(fields[i]).Valid?
  }

  /** `verdicts` holds, in order, the verdict of every control: each one was validated and shows its own error. */
  predicate AllValidated(fields: seq<Field>, verdicts: seq<Verdict>) {
    |verdicts| == |fields| && forall i :: 0 <= i < |fields| ==> verdicts[i] == ValidateField(fields[i])
  }

  /**
   * `validateForm`: validates every control, also after one has failed, so that every
   * error is shown at once; the form is valid exactly when every control is.
   */
  method ValidateForm(fields: seq<Field>) returns (valid: bool, verdicts: seq<Verdict>)
    ensures AllValidated(fields, verdicts)
    ensures valid <==> FormValid(fields)
  {
    valid := true;
    verdicts := [];
    for i := 0 to |fields|
      invariant |verdicts| == i
      invariant forall j :: 0 <= j < i ==> verdicts[j] == ValidateField(fields[j])
      invariant valid <==> forall j :: 0 <= j < i ==> ValidateField(fields[j]).Valid?
    {
      var v := ValidateField(fields[i]);
      if !v.Valid? {
        valid := false;
      }
      verdicts := verdicts + [v];
    }
  }

  /** A form with a required control left blank (or holding only white space) cannot be submitted. */
  lemma BlankRequiredBlocksForm(fields: seq<Field>, i: int)
    requires 0 <= i < |fields| && fields[i].required && AllSpace(fields[i].value)
    ensures !FormValid(fields)
  {
    RequiredBlankFails(fields[i]);
  }

  // ---------------------------------------------------------------------------
  // Notifications, the busy label and the request outcome

  datatype Tone = Success | Danger

  /** A notification as `showNotification(message, type)` shows it. */
  datatype Notice = Notice(tone: Tone, text: string)

  const InvalidFormNotice := Notice(Danger, "Opravte chyby vo formul\U{E1}ri")
  const SentNotice := Notice(Success, "\U{10E}akujeme! Va\U{161}a spr\U{E1}va bola \U{FA}spe\U{161}ne odoslan\U{E1}.")
  const RefusedNotice := Notice(Danger, "Nastala chyba pri odosielan\U{ED}. Sk\U{FA}ste to pros\U{ED}m znova.")
  /** The connection-failure text, which the script writes in Russian unlike every other message. */
  const ConnectionNotice := Notice(Danger,
    "\U{41E}\U{448}\U{438}\U{431}\U{43A}\U{430} \U{441}\U{43E}\U{435}\U{434}\U{438}\U{43D}\U{435}\U{43D}\U{438}\U{44F}, "
    + "\U{43F}\U{43E}\U{43F}\U{440}\U{43E}\U{431}\U{443}\U{439}\U{442}\U{435} \U{43F}\U{43E}\U{437}\U{436}\U{435}")

  /** The text the submit button shows, after a spinner element, while the request is in flight. */
  const BusyLabel := "Odosielanie..."

  const ThankYouPage := "thank_you.html"

  /**
   * How the request ended: `Answered(success)` when the response was OK and its JSON body
   * was read (`success` is the truth of `data.success`); `Failed` when the fetch was rejected,
   * the status was not OK, or the body was not JSON or was `null`.
   */
  datatype Response = Answered(success: bool) | Failed

  /** The notification shown when the request ends, and the page navigated to afterwards, if any. */
  datatype Completion = Completion(notice: Notice, redirect: Option<string>)

  /**
   * The `then`/`catch` branches: only a positive answer is reported as a success, and only
   * it leads to the thank-you page; a refusal and a failure each show their own danger text.
   */
  function Settle(r: Response): (c: Completion)
    ensures c.notice.tone == Success <==> r == Answered(true)
    ensures c.redirect.Some? <==> r == Answered(true)
    ensures c.redirect.Some? ==> c.redirect.value == ThankYouPage
    ensures r == Answered(true) ==> c.notice == SentNotice
    ensures r == Answered(false) ==> c.notice == RefusedNotice
    ensures r == Failed ==> c.notice == ConnectionNotice
  {
    match r
    case Answered(true) => Completion(SentNotice, Some(ThankYouPage))
    case Answered(false) => Completion(RefusedNotice, None)
    case Failed => Completion(ConnectionNotice, None)
  }

  // ---------------------------------------------------------------------------
  // The submit listener

  /** The form's `button[type="submit"]`: whether it is disabled, and its text content. */
  class SubmitButton {
    var disabled: bool
    var text: string

    constructor (text: string)
      ensures !disabled && this.text == text
    {
      disabled := false;
      this.text := text;
    }
  }

  /** What the asynchronous part of the listener holds on to: the button (if any) and its original text. */
  datatype Pending = Pending(button: SubmitButton?, originalText: string)

  /** What a `submit` event led to: nothing, a rejected form, or a request on its way. */
  datatype SubmitStart =
    | Ignored
    | Rejected(verdicts: seq<Verdict>, notice: Notice)
    | Started(verdicts: seq<Verdict>, pending: Pending)

  /**
   * The synchronous part of the `submit` listener. While any form's submission is in flight
   * the event is ignored. Otherwise every control is validated; an invalid form shows the
   * danger notice and leaves the lock and the button alone; a valid one disables the button,
   * shows the busy label and takes the page-wide lock.
   */
  method Submit(app: AppState, fields: seq<Field>, button: SubmitButton?) returns (r: SubmitStart)
    modifies app, button
    ensures app.menuOpen == old(app.menuOpen)
    ensures old(app.formSubmitting) ==> r == Ignored && app.formSubmitting && (button != null ==> unchanged(button))
    ensures !old(app.formSubmitting) ==> !r.Ignored? && AllValidated(fields, r.verdicts)
    ensures !old(app.formSubmitting) && !FormValid(fields) ==>
      r.Rejected? && r.notice == InvalidFormNotice && !app.formSubmitting && (button != null ==> unchanged(button))
    ensures !old(app.formSubmitting) && FormValid(fields) ==>
      r.Started? && app.formSubmitting
      && r.pending == Pending(button, if button == null then "" else old(button.text))
      && (button != null ==> button.disabled && button.text == BusyLabel)
  {
    if app.formSubmitting {
      return Ignored;
    }
    var valid, verdicts := ValidateForm(fields);
    if !valid {
      return Rejected(verdicts, InvalidFormNotice);
    }
    var originalText := if button == null then "" else button.text;
    if button != null {
      button.disabled := true;
      button.text := BusyLabel;
    }
    app.formSubmitting := true;
    r := Started(verdicts, Pending(button, originalText));
  }

  /**
   * The end of the request, on every path: the notice and redirect depend on the response,
   * and the `finally` block re-enables the button, restores its text and releases the lock.
   */
  method Finish(app: AppState, p: Pending, response: Response) returns (c: Completion)
    modifies app, p.button
    ensures c == Settle(response)
    ensures !app.formSubmitting && app.menuOpen == old(app.menuOpen)
    ensures p.button != null ==> !p.button.disabled && p.button.text == p.originalText
  {
    c := Settle(response);
    if p.button != null {
      p.button.disabled := false;
      p.button.text := p.originalText;
    }
    app.formSubmitting := false;
  }

  /**
   * The lock is one flag for the whole page: while one form's request is in flight a
   * submit of another form is ignored, and once the request ends, whatever its outcome,
   * the other form can be submitted and the first button is back to its original state.
   */
  method SharedLockScenario(first: seq<Field>, second: seq<Field>, a: SubmitButton, b: SubmitButton, response: Response)
    returns (during: SubmitStart, after: SubmitStart)
    requires FormValid(first) && FormValid(second) && a != b
    modifies a, b
    ensures during == Ignored && after.Started?
    ensures !a.disabled && a.text == old(a.text)
    ensures b.disabled && b.text == BusyLabel
  {
    var app := new AppState();
    var started := Submit(app, first, a);
    during := Submit(app, second, b);
    var _ := Finish(app, started.pending, response);
    after := Submit(app, second, b);
  }
}
