// The sign-up page's form: four text fields, an error message and a success flag. Submitting
// checks the two passwords against each other and then the password's length.

module SignUp {
  import opened Common

  const MismatchError: string := "Passwords do not match."
  const LengthError: string := "Password must be at least 6 characters."
  const MinPasswordLength: nat := 6

  /** The `name` attributes of the form's inputs. */
  datatype Field = Username | Email | Password | ConfirmPassword

  datatype Form = Form(username: string, email: string, password: string, confirmPassword: string)

  /** The form with one field replaced (`{ ...form, [name]: value }`). */
  function WithField(form: Form, field: Field, value: string): (r: Form)
    ensures FieldValue(r, field) == value
    ensures forall other :: other != field ==> FieldValue(r, other) == FieldValue(form, other)
  {
    match field
    case Username => form.(username := value)
    case Email => form.(email := value)
    case Password => form.(password := value)
    case ConfirmPassword => form.(confirmPassword := value)
  }

  function FieldValue(form: Form, field: Field): string
  {
    match field
    case Username => form.username
    case Email => form.email
    case Password => form.password
    case ConfirmPassword => form.confirmPassword
  }

  /** A form is accepted when both passwords agree and are long enough. */
  predicate Acceptable(form: Form)
  {
    form.password == form.confirmPassword && |form.password| >= MinPasswordLength
  }

  /** A character of the local part of a valid e-mail address (HTML's `type="email"`). */
  predicate LocalChar(c: char)
  {
    ('a' <= c <= 'z') || ('A' <= c <= 'Z') || ('0' <= c <= '9') || c in ".!#$%&'*+/=?^_`{|}~-"
  }

  predicate AlphaNum(c: char)
  {
    ('a' <= c <= 'z') || ('A' <= c <= 'Z') || ('0' <= c <= '9')
  }

  /** A domain label: 1 to 63 letters, digits and hyphens, starting and ending with a letter or
      digit. */
  predicate ValidLabel(name: string)
  {
    1 <= |name| <= 63 && AlphaNum(name[0]) && AlphaNum(name[|name| - 1])
    && forall i :: 0 <= i < |name| ==> AlphaNum(name[i]) || name[i] == '-'
  }

  /** A valid e-mail address as HTML defines it for `type="email"`: a non-empty local part,
      one "@", and one or more labels joined by dots. */
  predicate ValidEmail(email: string)
  {
    var parts := Split(email, '@');
    |parts| == 2 && |parts[0]| > 0 && (forall c :: c in parts[0] ==> LocalChar(c))
    && forall name :: name in Split(parts[1], '.') ==> ValidLabel(name)
  }

  /** The browser lets the form be submitted: all four inputs are `required`, and the email
      input must hold a valid e-mail address. */
  predicate BrowserValid(form: Form)
  {
    form.username != "" && form.email != "" && form.password != "" && form.confirmPassword != ""
    && ValidEmail(form.email)
  }

  /** An address is accepted only with a non-empty local part and domain around its one "@". */
  lemma ValidEmailShape(email: string)
    requires ValidEmail(email)
    ensures exists k :: 0 < k < |email| - 1 && email[k] == '@' && '@' !in email[..k] && '@' !in email[k + 1..]
  {
    var parts := Split(email, '@');
    JoinSplit(email, '@');
    assert parts[1..] == [parts[1]];
    assert JoinWith(parts[1..], "@") == parts[1];
    assert Join(parts, '@') == parts[0] + "@" + parts[1];
    assert email == parts[0] + "@" + parts[1];
    var k := |parts[0]|;
    assert Split(parts[1], '.') != [] && ValidLabel(Split(parts[1], '.')[0]);
    assert |parts[1]| > 0;
    assert email[..k] == parts[0] && email[k + 1..] == parts[1];
  }

  class SignUpForm {
    var form: Form
    var error: string
    var success: bool

    constructor ()
      ensures form == Form("", "", "", "") && error == "" && !success
    {
      form := Form("", "", "", "");
      error := "";
      success := false;
    }

    /** `handleChange`: only the named field takes the new value. */
    method HandleChange(field: Field, value: string)
      modifies this
      ensures form == WithField(old(form), field, value)
      ensures error == old(error) && success == old(success)
    {
      form := WithField(form, field, value);
    }

    /** `handleSubmit`: clears the previous outcome, reports a mismatch before a short password,
        and succeeds exactly when the form is acceptable. */
    method HandleSubmit()
      modifies this
      ensures form == old(form)
      ensures success <==> Acceptable(form)
      ensures success ==> error == ""
      ensures form.password != form.confirmPassword ==> error == MismatchError
      ensures form.password == form.confirmPassword && |form.password| < MinPasswordLength ==>
        error == LengthError
    {
      error := "";
      success := false;
      if form.password != form.confirmPassword {
        error := MismatchError;
        return;
      }
      if |form.password| < MinPasswordLength {
        error := LengthError;
        return;
      }
      success := true;
    }

    /** The form's submit event. The browser checks the `required` inputs and the email
        input's format first and, when one fails, reports it itself: `handleSubmit` is not
        called and nothing changes. Otherwise `handleSubmit` runs. */
    method Submit()
      modifies this
      ensures form == old(form)
      ensures !BrowserValid(form) ==> error == old(error) && success == old(success)
      ensures BrowserValid(form) ==> (success <==> Acceptable(form))
      ensures BrowserValid(form) && form.password != form.confirmPassword ==> error == MismatchError
      ensures BrowserValid(form) && form.password == form.confirmPassword && |form.password| < MinPasswordLength ==>
        error == LengthError
    {
      if BrowserValid(form) {
        HandleSubmit();
      }
    }
  }
}
