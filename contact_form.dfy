/**
 * Client-side validation of the contact form and the checks that gate its submission.
 *
 * A field is validated on its trimmed value: a required field must not be empty, the email
 * field must match the address pattern, and the name and surname fields must be at least two
 * code units long.  The form is valid when all its required fields are; submission further
 * needs a solved CAPTCHA (when the CAPTCHA script is loaded) and a configured form action.
 */
module ContactForm {
  import opened Optional
  import opened JsText

  /** A form control: its `name` attribute, its current value and whether it carries `required`. */
  datatype Field = Field(name: JsString, value: JsString, required: bool)

  /** The three errors `validateField` can report. */
  datatype FieldError = Required | InvalidEmail | TooShort

  /** What validation leaves on the field: the error class and its message, or the error cleared. */
  datatype FieldUi = ShowError(error: FieldError) | ClearError

  const EmailFieldName: JsString := [0x65, 0x6D, 0x61, 0x69, 0x6C]            // "email"
  const NameFieldName: JsString := [0x6E, 0x61, 0x6D, 0x65]                   // "name"
  const SurnameFieldName: JsString := [0x73, 0x75, 0x72, 0x6E, 0x61, 0x6D, 0x65] // "surname"

  const AtSign: CodeUnit := 0x40
  const Dot: CodeUnit := 0x2E

  /** The text shown under the field for each error; none of them is empty. */
  function Message(e: FieldError): (m: string)
    ensures m != ""
  {
    match e
    case Required => "This field is required"
    case InvalidEmail => "Please enter a valid email address"
    case TooShort => "Must be at least 2 characters"
  }

  /** Matched by the class `[^\s@]`. */
  predicate AddressChar(c: CodeUnit) {
    !IsSpace(c) && c != AtSign
  }

  /** Every code unit of `t` is matched by `[^\s@]`. */
  ghost predicate AllAddressChars(t: JsString) {
    forall k :: 0 <= k < |t| ==> AddressChar(t[k])
  }

  /**
   * `/^[^\s@]+@[^\s@]+\.[^\s@]+$/` read as a concatenation: `s` splits at an `@` (index `i`)
   * and a later `.` (index `j`) into three non-empty runs of `[^\s@]`.
   */
  ghost predicate SplitsAsEmail(s: JsString, i: int, j: int) {
    && 0 < i && i + 1 < j && j + 1 < |s|
    && s[i] == AtSign && s[j] == Dot
    && AllAddressChars(s[..i]) && AllAddressChars(s[i + 1..j]) && AllAddressChars(s[j + 1..])
  }

  ghost predicate MatchesEmailPattern(s: JsString) {
    exists i, j :: SplitsAsEmail(s, i, j)
  }

  /**
   * The same pattern in plain words, as the validation evaluates it: no white space, exactly
   * one `@` and not at the start, and after it a `.` with at least one code unit on each side.
   */
  predicate IsEmailAddress(s: JsString) {
    && (forall k :: 0 <= k < |s| ==> !IsSpace(s[k]))
    && exists a :: 0 < a < |s| && OnlyAtSignAt(s, a) && DotInDomain(s, a)
  }

  /** Index `a`, not the first, holds the one and only `@` of `s`. */
  predicate OnlyAtSignAt(s: JsString, a: int) {
    && 0 < a < |s| && s[a] == AtSign
    && forall k :: 0 <= k < |s| && k != a ==> s[k] != AtSign
  }

  /** After index `a` there is a `.` with at least one code unit on either side of it. */
  predicate DotInDomain(s: JsString, a: int) {
    exists d :: 0 <= a && a + 1 < d < |s| - 1 && s[d] == Dot
  }

  /** The plain-words check accepts exactly the strings the regular expression matches. */
  lemma EmailCheckMatchesPattern(s: JsString)
    ensures IsEmailAddress(s) <==> MatchesEmailPattern(s)
  {
    if IsEmailAddress(s) {
      var a :| 0 < a < |s| && OnlyAtSignAt(s, a) && DotInDomain(s, a);
      var d :| 0 <= a && a + 1 < d < |s| - 1 && s[d] == Dot;
      assert forall k :: 0 <= k < |s| && k != a ==> AddressChar(s[k]);
      var local, domain, top := s[..a], s[a + 1..d], s[d + 1..];
      assert AllAddressChars(local) by {
        forall k | 0 <= k < |local| ensures AddressChar(local[k]) {
          assert local[k] == s[k];
        }
      }
      assert AllAddressChars(domain) by {
        forall k | 0 <= k < |domain| ensures AddressChar(domain[k]) {
          assert domain[k] == s[a + 1 + k];
        }
      }
      assert AllAddressChars(top) by {
        forall k | 0 <= k < |top| ensures AddressChar(top[k]) {
          assert top[k] == s[d + 1 + k];
        }
      }
      assert SplitsAsEmail(s, a, d);
    }
    if MatchesEmailPattern(s) {
      var i, j :| SplitsAsEmail(s, i, j);
      forall k | 0 <= k < |s| && k != i ensures AddressChar(s[k]) {
        if k < i {
          assert s[..i][k] == s[k];
        } else if k < j {
          assert s[i + 1..j][k - i - 1] == s[k];
        } else if j < k {
          assert s[j + 1..][k - j - 1] == s[k];
        }
      }
      assert !IsSpace(s[i]);
      assert OnlyAtSignAt(s, i) && DotInDomain(s, i);
    }
  }

  /**
   * `validateField`: the checks run in order on the trimmed value, each later one overwriting
   * an earlier message (`None` stands for the empty message), and the field is valid exactly
   * when no message is left.  Because the
   * three conditions exclude one another, each message appears exactly when its own
   * condition holds.
   */
  function ValidateField(f: Field): (r: (bool, FieldUi))
    ensures r.0 <==> r.1 == ClearError
    ensures r.1 == ShowError(Required) <==> f.required && Trim(f.value) == []
    ensures r.1 == ShowError(InvalidEmail)
        <==> f.name == EmailFieldName && Trim(f.value) != [] && !MatchesEmailPattern(Trim(f.value))
    ensures r.1 == ShowError(TooShort)
        <==> (f.name == NameFieldName || f.name == SurnameFieldName) && 0 < |Trim(f.value)| < 2
  {
    var value := Trim(f.value);
    var m0: Option<FieldError> := None;
    var m1 := if f.required && value == [] then Some(Required) else m0;
    EmailCheckMatchesPattern(value);
    var m2 := if f.name == EmailFieldName && value != [] && !IsEmailAddress(value) then Some(InvalidEmail) else m1;
    var m3 := if (f.name == NameFieldName || f.name == SurnameFieldName) && value != [] && |value| < 2
              then Some(TooShort) else m2;
    if m3.Some? then (false, ShowError(m3.value)) else (true, ClearError)
  }

  /**
   * The fields `querySelectorAll('[required]')` returns: every required field of the form as
   * often as it occurs there and no other field; `RequiredFieldsAppend` gives the order.
   */
  function RequiredFields(form: seq<Field>): (r: seq<Field>)
    ensures |r| <= |form|
    ensures forall f :: f in r <==> f in form && f.required
    ensures forall f :: multiset(r)[f] == if f.required then multiset(form)[f] else 0
  {
    if form == [] then []
    else
      var rest := RequiredFields(form[1..]);
      assert form == [form[0]] + form[1..];
      assert forall f :: f in form <==> f == form[0] || f in form[1..];
      if form[0].required then [form[0]] + rest else rest
  }

  /**
   * The list is in document order: the required fields of two consecutive stretches of the
   * form are those of the first followed by those of the second.
   */
  lemma {:induction false} RequiredFieldsAppend(a: seq<Field>, b: seq<Field>)
    ensures RequiredFields(a + b) == RequiredFields(a) + RequiredFields(b)
    decreases |a|
  {
    if a == [] {
      assert a + b == b;
    } else {
      assert (a + b)[0] == a[0] && (a + b)[1..] == a[1..] + b;
      RequiredFieldsAppend(a[1..], b);
    }
  }

  /** Every required field of the form passes `validateField`. */
  ghost predicate FormIsValid(form: seq<Field>) {
    forall f :: f in form && f.required ==> ValidateField(f).0
  }

  /**
   * The loop of `validateForm`: runs `check` on every field in order without stopping at the
   * first failure, collects what it leaves on each field, and reports whether all passed.
   */
  method ValidateEach(fields: seq<Field>, check: Field -> (bool, FieldUi)) returns (allValid: bool, updates: seq<FieldUi>)
    ensures |updates| == |fields|
    ensures forall k :: 0 <= k < |fields| ==> updates[k] == check(fields[k]).1
    ensures allValid <==> forall k :: 0 <= k < |fields| ==> check(fields[k]).0
  {
    allValid := true;
    updates := [];
    var i := 0;
    while i < |fields|
      invariant 0 <= i <= |fields|
      invariant |updates| == i
      invariant forall k :: 0 <= k < i ==> updates[k] == check(fields[k]).1
      invariant allValid <==> forall k :: 0 <= k < i ==> check(fields[k]).0
    {
      var r := check(fields[i]);
      if !r.0 {
        allValid := false;
      }
      updates := updates + [r.1];
      i := i + 1;
    }
  }

  /**
   * `validateForm`: validates every required field in order, without stopping at the first
   * failure, so every one of them gets its error shown or cleared; the result is true exactly
   * when all of them pass.
   */
  method ValidateForm(form: seq<Field>) returns (isValid: bool, updates: seq<FieldUi>)
    ensures isValid <==> FormIsValid(form)
    ensures |updates| == |RequiredFields(form)|
    ensures forall k :: 0 <= k < |updates| ==> updates[k] == ValidateField(RequiredFields(form)[k]).1
  {
    isValid, updates := ValidateEach(RequiredFields(form), ValidateField);
    RequiredFieldsDecideValidity(form);
  }

  /** The form is valid exactly when each field `querySelectorAll('[required]')` yields passes. */
  lemma RequiredFieldsDecideValidity(form: seq<Field>)
    ensures FormIsValid(form)
        <==> forall k :: 0 <= k < |RequiredFields(form)| ==> ValidateField(RequiredFields(form)[k]).0
  {
    RequiredFieldsCover(form, f => ValidateField(f).0);
  }

  /** A property holds of every required field of the form exactly when it holds of each element of `RequiredFields`. */
  lemma RequiredFieldsCover(form: seq<Field>, p: Field -> bool)
    ensures (forall f :: f in form && f.required ==> p(f))
        <==> forall k :: 0 <= k < |RequiredFields(form)| ==> p(RequiredFields(form)[k])
  {
    var fields := RequiredFields(form);
    if forall f :: f in form && f.required ==> p(f) {
      forall k | 0 <= k < |fields| ensures p(fields[k]) {
        assert fields[k] in fields;
      }
    } else {
      var f :| f in form && f.required && !p(f);
      assert f in fields;
      var k :| 0 <= k < |fields| && fields[k] == f;
      assert !p(fields[k]);
    }
  }

  /** Whether the CAPTCHA script is on the page and, if so, the response token it holds. */
  datatype Captcha = NotLoaded | Loaded(response: JsString)

  /** The outcome of the checks before anything is sent: an error message, or the URL to post to. */
  datatype Submission = Rejected(message: string) | Send(url: JsString)

  const CorrectErrorsMessage := "Please correct the errors above"
  const CaptchaMessage := "Please complete the CAPTCHA"
  const NotConfiguredMessage := "Form not configured. Please set up Formspree."

  /** The placeholder left in an unconfigured form action. */
  const FormIdPlaceholder: JsString := [0x59, 0x4F, 0x55, 0x52, 0x5F, 0x46, 0x4F, 0x52, 0x4D, 0x5F, 0x49, 0x44] // "YOUR_FORM_ID"

  /** `s.includes(sub)`. */
  predicate Includes(s: JsString, sub: JsString) {
    exists k :: 0 <= k <= |s| - |sub| && OccursAt(s, sub, k)
  }

  /** `sub` occurs in `s` starting at index `k`. */
  predicate OccursAt(s: JsString, sub: JsString, k: int) {
    0 <= k <= |s| - |sub| && s[k..k + |sub|] == sub
  }

  /** The CAPTCHA does not block: its script is absent, or it holds a non-empty token. */
  predicate CaptchaPasses(captcha: Captcha) {
    captcha.NotLoaded? || captcha.response != []
  }

  /** The `action` attribute is present, non-empty and not the placeholder. */
  predicate ActionConfigured(action: Option<JsString>) {
    action.Some? && action.value != [] && !Includes(action.value, FormIdPlaceholder)
  }

  /**
   * `handleFormSubmit` up to the network request: validate the whole form first, then the
   * CAPTCHA, then the form action, and stop at the first check that fails with its own
   * message; only when all pass is the form sent, to the configured action.
   */
  method CheckSubmission(form: seq<Field>, captcha: Captcha, action: Option<JsString>)
    returns (outcome: Submission, updates: seq<FieldUi>)
    ensures !FormIsValid(form) ==> outcome == Rejected(CorrectErrorsMessage)
    ensures FormIsValid(form) && !CaptchaPasses(captcha) ==> outcome == Rejected(CaptchaMessage)
    ensures FormIsValid(form) && CaptchaPasses(captcha) && !ActionConfigured(action)
        ==> outcome == Rejected(NotConfiguredMessage)
    ensures outcome.Send? <==> FormIsValid(form) && CaptchaPasses(captcha) && ActionConfigured(action)
    ensures outcome.Send? ==> action == Some(outcome.url)
    ensures |updates| == |RequiredFields(form)|
    ensures forall k :: 0 <= k < |updates| ==> updates[k] == ValidateField(RequiredFields(form)[k]).1
  {
    var valid;
    valid, updates := ValidateForm(form);
    if !valid {
      return Rejected(CorrectErrorsMessage), updates;
    }
    if captcha.Loaded? && captcha.response == [] {
      return Rejected(CaptchaMessage), updates;
    }
    if action.None? || action.value == [] || Includes(action.value, FormIdPlaceholder) {
      return Rejected(NotConfiguredMessage), updates;
    }
    outcome := Send(action.value);
  }
}
