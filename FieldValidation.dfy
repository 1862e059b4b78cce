/**
 * `validateField`: the ordered rule chain that decides whether one form control is valid,
 * and the re-validation that its `blur` and `input` listeners perform.
 *
 * The error element that `showError`/`clearError` insert or empty is abstracted to the
 * verdict itself: a field shows the message of `Invalid(rule)` and shows none when `Valid`.
 */
module FieldValidation {
  import opened JsString
  import opened Patterns

  datatype Tag = Input | TextArea | Select

  /**
   * What `validateField` reads from a control: its tag name, `type`, `id`, `name`, raw
   * `value`, the `required` attribute and `checked`. `groupChecked` stands for the
   * document-wide query "some input with this name is checked" used for radio groups.
   */
  datatype Field = Field(
    tag: Tag,
    kind: string,
    id: string,
    name: string,
    value: string,
    required: bool,
    checked: bool,
    groupChecked: bool)

  /** The rules, in the order `validateField` tries them. */
  datatype Rule = RequiredRule | EmailRule | NameRule | PhoneRule | MessageRule | CheckboxRule | RadioRule

  function Rank(r: Rule): nat {
    match r
    case RequiredRule => 0
    case EmailRule => 1
    case NameRule => 2
    case PhoneRule => 3
    case MessageRule => 4
    case CheckboxRule => 5
    case RadioRule => 6
  }

  datatype Verdict = Valid | Invalid(rule: Rule)

  const MessageMinLength := 10

  predicate IsEmailField(f: Field) { f.kind == "email" || f.id == "email" || f.name == "email" }
  predicate IsNameField(f: Field) { f.id == "name" || f.name == "name" }
  predicate IsPhoneField(f: Field) { f.kind == "tel" || f.id == "phone" || f.name == "phone" }
  predicate IsMessageField(f: Field) { f.tag == TextArea && (f.id == "message" || f.name == "message") }

  /** Whether `f` satisfies rule `r` taken on its own; every format rule skips a blank value. */
  predicate Passes(f: Field, r: Rule) {
    var value := Trim(f.value);
    match r
    case RequiredRule => !(f.required && value == [])
    case EmailRule => !(IsEmailField(f) && value != [] && !IsEmail(value))
    case NameRule => !(IsNameField(f) && value != [] && !IsName(value))
    case PhoneRule => !(IsPhoneField(f) && value != [] && !IsPhone(value))
    case MessageRule => !(IsMessageField(f) && value != [] && |value| < MessageMinLength)
    case CheckboxRule => !(f.kind == "checkbox" && f.required && !f.checked)
    case RadioRule => !(f.kind == "radio" && f.required && !f.groupChecked)
  }

  /**
   * `validateField`: the field is valid exactly when it passes every rule, and otherwise
   * the verdict names a failing rule all of whose predecessors pass (the first failure).
   */
  function ValidateField(f: Field): (v: Verdict)
    ensures v.Invalid? ==> !Passes(f, v.rule) && forall r :: Rank(r) < Rank(v.rule) ==> Passes(f, r)
    ensures v.Valid? <==> forall r :: Passes(f, r)
  {
    if !Passes(f, RequiredRule) then Invalid(RequiredRule)
    else if !Passes(f, EmailRule) then Invalid(EmailRule)
    else if !Passes(f, NameRule) then Invalid(NameRule)
    else if !Passes(f, PhoneRule) then Invalid(PhoneRule)
    else if !Passes(f, MessageRule) then Invalid(MessageRule)
    else if !Passes(f, CheckboxRule) then Invalid(CheckboxRule)
    else if !Passes(f, RadioRule) then Invalid(RadioRule)
    else Valid
  }

  /** The message shown under a field that fails rule `r`; the two "required" rules share one text. */
  function Message(r: Rule): (m: string)
    ensures (m == "Toto pole je povinn\U{E9}") <==> (r == RequiredRule || r == CheckboxRule)
  {
    match r
    case RequiredRule => "Toto pole je povinn\U{E9}"
    case EmailRule => "Neplatn\U{FD} form\U{E1}t e-mailu"
    case NameRule => "Meno mus\U{ED} obsahova\U{165} 2-50 znakov (len p\U{ED}smen\U{E1}, medzery, poml\U{10D}ky)"
    case PhoneRule => "Neplatn\U{FD} form\U{E1}t telef\U{F3}nneho \U{10D}\U{ED}sla"
    case MessageRule => "Spr\U{E1}va mus\U{ED} ma\U{165} aspo\U{148} 10 znakov"
    case CheckboxRule => "Toto pole je povinn\U{E9}"
    case RadioRule => "Vyberte jednu mo\U{17E}nos\U{165}"
  }

  // ---------------------------------------------------------------------------
  // Consequences of the rule order

  /** A required field whose trimmed value is empty fails the required rule, before any format rule. */
  lemma RequiredBlankFails(f: Field)
    requires f.required && AllSpace(f.value)
    ensures ValidateField(f) == Invalid(RequiredRule)
  {
  }

  /** A field that is not required and blank (after trimming) passes: every other rule is skipped. */
  lemma OptionalBlankPasses(f: Field)
    requires !f.required && AllSpace(f.value)
    ensures ValidateField(f) == Valid
  {
  }

  /**
   * On any control identified as an e-mail field (by its type, its id or its name), a non-blank
   * value fails the e-mail rule exactly when its trimmed form does not match the e-mail pattern;
   * when no later rule applies, the control is valid exactly when it does.
   */
  lemma EmailFieldVerdict(f: Field)
    requires IsEmailField(f) && !AllSpace(f.value)
    ensures ValidateField(f) == Invalid(EmailRule) <==> !EmailPattern(Trim(f.value))
    ensures (Passes(f, NameRule) && Passes(f, PhoneRule) && Passes(f, MessageRule)
             && Passes(f, CheckboxRule) && Passes(f, RadioRule)) ==>
      (ValidateField(f) == Valid <==> EmailPattern(Trim(f.value)))
  {
    EmailScanMatchesPattern(Trim(f.value));
  }

  /** Each one of type "email", id "email" and name "email" alone puts a control under the e-mail rule. */
  lemma EmailRuleByAnyIdentifier(v: string)
    requires !AllSpace(v) && !EmailPattern(Trim(v))
    ensures ValidateField(Field(Input, "email", "", "contact", v, false, false, false)) == Invalid(EmailRule)
    ensures ValidateField(Field(Input, "text", "email", "", v, false, false, false)) == Invalid(EmailRule)
    ensures ValidateField(Field(Input, "text", "", "email", v, false, false, false)) == Invalid(EmailRule)
  {
    EmailFieldVerdict(Field(Input, "email", "", "contact", v, false, false, false));
    EmailFieldVerdict(Field(Input, "text", "email", "", v, false, false, false));
    EmailFieldVerdict(Field(Input, "text", "", "email", v, false, false, false));
  }

  /** An e-mail input holding "a@b" (no dot in the domain) shows the e-mail error. */
  lemma EmailFieldRejectsUndotted()
    ensures ValidateField(Field(Input, "email", "email", "email", "a@b", true, false, false)) == Invalid(EmailRule)
  {
    var f := Field(Input, "email", "email", "email", "a@b", true, false, false);
    TrimTight("a@b");
    assert f.value[0] == 'a';
    EmailFieldVerdict(f);
    EmailExamples();
    EmailScanMatchesPattern("a@b");
  }

  /** An input whose type, id and name are all "email", holding "a@b.com" with any white space around it, is valid: the value is trimmed first. */
  lemma EmailFieldAcceptsPadded(p: string, q: string)
    requires AllSpace(p) && AllSpace(q)
    ensures ValidateField(Field(Input, "email", "email", "email", p + "a@b.com" + q, true, false, false)) == Valid
  {
    var f := Field(Input, "email", "email", "email", p + "a@b.com" + q, true, false, false);
    assert !IsNameField(f) && !IsPhoneField(f) && !IsMessageField(f);
    assert Passes(f, NameRule) && Passes(f, PhoneRule) && Passes(f, MessageRule);
    assert Passes(f, CheckboxRule) && Passes(f, RadioRule);
    assert f.value[|p|] == 'a';
    TrimFramed(p, "a@b.com", q);
    EmailExamples();
    EmailScanMatchesPattern("a@b.com");
    EmailFieldVerdict(f);
  }

  /**
   * On a control identified as the name field (by its id or its name) that the e-mail rule lets
   * through, a non-blank value fails the name rule exactly when its trimmed form does not match
   * the name pattern; when no later rule applies, the control is valid exactly when it does.
   */
  lemma NameFieldVerdict(f: Field)
    requires IsNameField(f) && Passes(f, EmailRule) && !AllSpace(f.value)
    ensures ValidateField(f) == Invalid(NameRule) <==> !IsName(Trim(f.value))
    ensures Passes(f, PhoneRule) && Passes(f, MessageRule) && Passes(f, CheckboxRule) && Passes(f, RadioRule) ==>
      (ValidateField(f) == Valid <==> IsName(Trim(f.value)))
  {
  }

  /** Id "name" alone and name "name" alone each put a control under the name rule. */
  lemma NameRuleByAnyIdentifier(v: string)
    requires !AllSpace(v) && !IsName(Trim(v))
    ensures ValidateField(Field(Input, "text", "name", "", v, false, false, false)) == Invalid(NameRule)
    ensures ValidateField(Field(Input, "text", "", "name", v, false, false, false)) == Invalid(NameRule)
  {
    NameFieldVerdict(Field(Input, "text", "name", "", v, false, false, false));
    NameFieldVerdict(Field(Input, "text", "", "name", v, false, false, false));
  }

  /**
   * On a control identified as a phone field (by type "tel", its id or its name) that the earlier
   * rules let through, a non-blank value fails the phone rule exactly when its trimmed form does not
   * match the phone pattern; when no later rule applies, the control is valid exactly when it does.
   */
  lemma PhoneFieldVerdict(f: Field)
    requires IsPhoneField(f) && Passes(f, EmailRule) && Passes(f, NameRule) && !AllSpace(f.value)
    ensures ValidateField(f) == Invalid(PhoneRule) <==> !IsPhone(Trim(f.value))
    ensures Passes(f, MessageRule) && Passes(f, CheckboxRule) && Passes(f, RadioRule) ==>
      (ValidateField(f) == Valid <==> IsPhone(Trim(f.value)))
  {
  }

  /** Each one of type "tel", id "phone" and name "phone" alone puts a control under the phone rule. */
  lemma PhoneRuleByAnyIdentifier(v: string)
    requires !AllSpace(v) && !IsPhone(Trim(v))
    ensures ValidateField(Field(Input, "tel", "", "", v, false, false, false)) == Invalid(PhoneRule)
    ensures ValidateField(Field(Input, "text", "phone", "", v, false, false, false)) == Invalid(PhoneRule)
    ensures ValidateField(Field(Input, "text", "", "phone", v, false, false, false)) == Invalid(PhoneRule)
  {
    PhoneFieldVerdict(Field(Input, "tel", "", "", v, false, false, false));
    PhoneFieldVerdict(Field(Input, "text", "phone", "", v, false, false, false));
    PhoneFieldVerdict(Field(Input, "text", "", "phone", v, false, false, false));
  }

  /**
   * On the message text area (id or name "message") that the earlier rules let through, the length
   * rule fails exactly when the trimmed value is non-empty and shorter than 10: 9 characters fail,
   * and 10 or more are valid when no later rule applies.
   */
  lemma MessageBoundary(f: Field)
    requires IsMessageField(f) && Passes(f, EmailRule) && Passes(f, NameRule) && Passes(f, PhoneRule)
    ensures ValidateField(f) == Invalid(MessageRule) <==> 0 < |Trim(f.value)| < MessageMinLength
    ensures |Trim(f.value)| == MessageMinLength - 1 ==> ValidateField(f) == Invalid(MessageRule)
    ensures |Trim(f.value)| >= MessageMinLength && Passes(f, CheckboxRule) && Passes(f, RadioRule) ==>
      ValidateField(f) == Valid
  {
  }

  /** Id "message" alone and name "message" alone each put a text area under the length rule. */
  lemma MessageRuleByAnyIdentifier(v: string)
    requires 0 < |Trim(v)| < MessageMinLength
    ensures ValidateField(Field(TextArea, "textarea", "message", "", v, false, false, false)) == Invalid(MessageRule)
    ensures ValidateField(Field(TextArea, "textarea", "", "message", v, false, false, false)) == Invalid(MessageRule)
  {
    MessageBoundary(Field(TextArea, "textarea", "message", "", v, false, false, false));
    MessageBoundary(Field(TextArea, "textarea", "", "message", v, false, false, false));
  }

  /**
   * The length rule belongs to the text area alone: no other element ever fails it, and a text input
   * (type "text") with id and name "message" and a non-blank value is valid whatever its length.
   */
  lemma MessageRuleNeedsTextArea(f: Field)
    requires f.tag != TextArea
    ensures ValidateField(f) != Invalid(MessageRule)
    ensures f.tag == Input && f.kind == "text" && f.id == "message" && f.name == "message" && !AllSpace(f.value) ==>
      ValidateField(f) == Valid
  {
  }

  // ---------------------------------------------------------------------------
  // blur and input listeners

  /**
   * The error state after an `input` event: the field is re-validated only when it is
   * currently marked invalid, and otherwise left as it is.
   */
  function OnInput(f: Field, shown: Verdict): Verdict {
    if shown.Invalid? then ValidateField(f) else shown
  }

  /** The error state after a series of `input` events, each carrying the field as it then is. */
  function AfterInputs(shown: Verdict, edits: seq<Field>): Verdict
    decreases |edits|
  {
    if edits == [] then shown else AfterInputs(OnInput(edits[0], shown), edits[1..])
  }

  /** A shown error is not stale: it is the error of the field `f` as it now is. */
  predicate Current(shown: Verdict, f: Field) {
    shown.Invalid? ==> shown == ValidateField(f)
  }

  /**
   * After a `blur` (which shows `ValidateField(f)`) and any series of edits, an error that is
   * showing is the error of the latest value; so once the value is valid again, no error shows.
   */
  lemma {:induction false} ShownErrorIsCurrent(f: Field, edits: seq<Field>)
    ensures var last := if edits == [] then f else edits[|edits| - 1];
      Current(AfterInputs(ValidateField(f), edits), last)
      && (ValidateField(last).Valid? ==> AfterInputs(ValidateField(f), edits) == Valid)
  {
    StaysCurrent(ValidateField(f), f, edits);
  }

  lemma {:induction false} StaysCurrent(shown: Verdict, f: Field, edits: seq<Field>)
    requires Current(shown, f)
    ensures Current(AfterInputs(shown, edits), if edits == [] then f else edits[|edits| - 1])
    decreases |edits|
  {
    if edits != [] {
      var next := OnInput(edits[0], shown);
      assert Current(next, edits[0]);
      StaysCurrent(next, edits[0], edits[1..]);
      assert AfterInputs(shown, edits) == AfterInputs(next, edits[1..]);
      var last := if edits[1..] == [] then edits[0] else edits[1..][|edits| - 2];
      assert last == edits[|edits| - 1];
    }
  }

  /** Typing into a field that shows no error never makes one appear: only `blur` does. */
  lemma {:induction false} NoErrorWhileTyping(edits: seq<Field>)
    ensures AfterInputs(Valid, edits) == Valid
    decreases |edits|
  {
    if edits != [] {
      NoErrorWhileTyping(edits[1..]);
    }
  }
}
