/**
 * The add-member dialog: the name and e-mail validators, the form's error
 * map, and the dialog state its handlers update.
 */
module AddMemberModal {
  import opened Domain
  import opened Text

  const NameRequired := "Name is required"
  const NameTooShort := "Name must be at least 2 characters long"
  const NameTooLong := "Name must be less than 50 characters"
  const EmailRequired := "Email is required"
  const EmailInvalid := "Please enter a valid email address"
  const SubmitFailed := "Failed to add member. Please try again."

  /** `validateName`; None is JavaScript's null, "no error". Errors are tried
      in the order required, too short, too long, and lengths are JavaScript
      lengths (UTF-16 code units). */
  function ValidateName(name: string): (err: Option<string>)
    ensures err.None? <==> 2 <= Utf16Length(Trim(name)) <= 50
    ensures err == Some(NameRequired) <==> Trim(name) == ""
    ensures err == Some(NameTooShort) <==> Utf16Length(Trim(name)) == 1
    ensures err == Some(NameTooLong) <==> Utf16Length(Trim(name)) > 50
  {
    var t := Trim(name);
    var n := Utf16Length(t);
    if t == "" then Some(NameRequired)
    else if n < 2 then Some(NameTooShort)
    else if n > 50 then Some(NameTooLong)
    else None
  }

  /** One emoji is two UTF-16 code units, so a single-emoji name is long
      enough, while a single letter is not. */
  lemma SingleEmojiNameAccepted()
    ensures ValidateName("\U{1F600}").None?
    ensures ValidateName("a") == Some(NameTooShort)
  {
    TrimNoWhitespace("\U{1F600}");
    TrimNoWhitespace("a");
  }

  /** The character class `[^\s@]`. */
  predicate Plain(c: char) {
    c != '@' && !IsWhitespace(c)
  }

  /** `[^\s@]+` matches exactly this. */
  predicate PlainRun(s: string) {
    |s| > 0 && forall k :: 0 <= k < |s| ==> Plain(s[k])
  }

  /** The whole string matches `^[^\s@]+@[^\s@]+\.[^\s@]+$`: it splits at an
      '@' at index `at` and a '.' at index `dot` into three plain runs. */
  ghost predicate MatchesAt(s: string, at: int, dot: int) {
    0 < at < dot - 1 && dot < |s| - 1 && s[at] == '@' && s[dot] == '.'
    && PlainRun(s[..at]) && PlainRun(s[at + 1..dot]) && PlainRun(s[dot + 1..])
  }

  ghost predicate MatchesEmailPattern(s: string) {
    exists at, dot :: MatchesAt(s, at, dot)
  }

  /** Index of the first '@', if any. */
  function FirstAt(s: string): (r: Option<nat>)
    ensures r.Some? ==> r.value < |s| && s[r.value] == '@' && '@' !in s[..r.value]
    ensures r.None? ==> '@' !in s
  {
    if s == [] then None
    else if s[0] == '@' then Some(0)
    else
      match FirstAt(s[1..])
      case None => None
      case Some(k) =>
        assert s[..k + 1] == [s[0]] + s[1..][..k];
        Some(k + 1)
  }

  /** An '@' with none before it is the first one. */
  lemma {:induction false} FirstAtIs(s: string, i: nat)
    requires i < |s| && s[i] == '@' && '@' !in s[..i]
    ensures FirstAt(s) == Some(i)
    decreases i
  {
    if i > 0 {
      assert s[..i] == [s[0]] + s[1..][..i - 1];
      FirstAtIs(s[1..], i - 1);
    }
  }

  /** There is a '.' that is neither the first nor the last character. */
  predicate HasInnerDot(d: string) {
    exists k | 0 < k < |d| - 1 :: d[k] == '.'
  }

  /** The shape the pattern accepts, checked directly: no white space, a
      single '@' with something before it, and a '.' inside the part after it. */
  predicate IsEmailShape(s: string) {
    NoWhitespace(s) &&
    match FirstAt(s)
    case None => false
    case Some(at) => 0 < at && '@' !in s[at + 1..] && HasInnerDot(s[at + 1..])
  }

  /** The direct check accepts exactly what the pattern matches. */
  lemma EmailShapeIsPattern(s: string)
    ensures IsEmailShape(s) <==> MatchesEmailPattern(s)
  {
    if IsEmailShape(s) {
      var at := FirstAt(s).value;
      var d := s[at + 1..];
      var k :| 0 < k < |d| - 1 && d[k] == '.';
      var dot := at + 1 + k;
      assert s[at + 1..dot] == d[..k];
      assert s[dot + 1..] == d[k + 1..];
      forall m | 0 <= m < at ensures Plain(s[m]) {
        assert s[m] == s[..at][m];
      }
      forall m | 0 <= m < k ensures Plain(d[m]) {
        assert d[m] in d;
      }
      forall m | k + 1 <= m < |d| ensures Plain(d[m]) {
        assert d[m] in d;
      }
      assert MatchesAt(s, at, dot);
    }
    if MatchesEmailPattern(s) {
      var at, dot :| MatchesAt(s, at, dot);
      PatternShape(s, at, dot);
    }
  }

  lemma PatternShape(s: string, at: int, dot: int)
    requires MatchesAt(s, at, dot)
    ensures IsEmailShape(s)
  {
    PatternHasNoWhitespace(s, at, dot);
    assert '@' !in s[..at] by {
      forall m | 0 <= m < at ensures s[..at][m] != '@' { assert Plain(s[..at][m]); }
    }
    FirstAtIs(s, at);
    PatternAfterAt(s, at, dot);
  }

  /** A matching string holds no white space: every character is in one of
      the three runs or is the '@' or the '.'. */
  lemma PatternHasNoWhitespace(s: string, at: int, dot: int)
    requires MatchesAt(s, at, dot)
    ensures NoWhitespace(s)
  {
    forall m | 0 <= m < |s| ensures !IsWhitespace(s[m]) {
      if m < at { assert s[m] == s[..at][m]; }
      else if at < m < dot { assert s[m] == s[at + 1..dot][m - at - 1]; }
      else if dot < m { assert s[m] == s[dot + 1..][m - dot - 1]; }
    }
  }

  /** After the '@' of a match there is no other '@' and there is an inner '.'. */
  lemma PatternAfterAt(s: string, at: int, dot: int)
    requires MatchesAt(s, at, dot)
    ensures '@' !in s[at + 1..] && HasInnerDot(s[at + 1..])
  {
    var d := s[at + 1..];
    assert d[dot - at - 1] == '.';
    forall m | 0 <= m < |d| ensures d[m] != '@' {
      if m < dot - at - 1 { assert d[m] == s[at + 1..dot][m]; }
      else if m > dot - at - 1 { assert d[m] == s[dot + 1..][m - (dot - at)]; }
    }
  }

  /** `validateEmail`: the trimmed value must be present and match the pattern. */
  function ValidateEmail(email: string): (err: Option<string>)
    ensures err == Some(EmailRequired) <==> Trim(email) == ""
    ensures err.Some? ==> err == Some(EmailRequired) || err == Some(EmailInvalid)
  {
    var t := Trim(email);
    if t == "" then Some(EmailRequired)
    else if !IsEmailShape(t) then Some(EmailInvalid)
    else None
  }

  /** An address passes exactly when its trimmed form matches the pattern. */
  lemma ValidateEmailMatchesPattern(email: string)
    ensures ValidateEmail(email).None? <==> MatchesEmailPattern(Trim(email))
  {
    EmailShapeIsPattern(Trim(email));
  }

  /** The `newErrors` map `validateForm` builds: a key for each failing field. */
  function FormErrors(name: string, email: string): (errs: map<string, string>)
    ensures errs.Keys <= {"name", "email"}
    ensures "name" in errs <==> ValidateName(name).Some?
    ensures "email" in errs <==> ValidateEmail(email).Some?
    ensures "name" in errs ==> Some(errs["name"]) == ValidateName(name)
    ensures "email" in errs ==> Some(errs["email"]) == ValidateEmail(email)
  {
    var withName := if ValidateName(name).Some? then map["name" := ValidateName(name).value] else map[];
    if ValidateEmail(email).Some? then withName["email" := ValidateEmail(email).value] else withName
  }

  /** Both validators accept the values. */
  predicate Acceptable(name: string, email: string) {
    ValidateName(name).None? && ValidateEmail(email).None?
  }

  /** `isFormValid`, which enables the submit button. */
  predicate LooksValid(name: string, email: string) {
    Utf16Length(Trim(name)) >= 2 && ValidateEmail(email).None?
  }

  /** The button check is weaker than the form validation: it agrees with it
      except that it does not enforce the 50-character limit on the name. */
  lemma LooksValidIgnoresLengthLimit(name: string, email: string)
    ensures FormErrors(name, email) == map[] ==> LooksValid(name, email)
    ensures LooksValid(name, email) && Utf16Length(Trim(name)) <= 50 ==> FormErrors(name, email) == map[]
    ensures LooksValid(name, email) && Utf16Length(Trim(name)) > 50 ==> FormErrors(name, email) == map["name" := NameTooLong]
  {
    if FormErrors(name, email) == map[] {
      assert "name" !in FormErrors(name, email) && "email" !in FormErrors(name, email);
    }
  }

  /** A 51-letter name with a good address enables the button and is still
      rejected on submit. */
  lemma LongNameEnablesButton()
    ensures var name := seq(51, _ => 'a');
            LooksValid(name, "a@b.co") && FormErrors(name, "a@b.co") == map["name" := NameTooLong]
  {
    var name := seq(51, _ => 'a');
    TrimNoWhitespace(name);
    assert Utf16Length(name) == 51;
    TrimNoWhitespace("a@b.co");
    assert MatchesAt("a@b.co", 1, 3);
    ValidateEmailMatchesPattern("a@b.co");
    LooksValidIgnoresLengthLimit(name, "a@b.co");
  }

  /** What a successful validation sends to the store. */
  datatype NewMember = NewMember(name: string, email: string, teamId: string, sentiment: Sentiment)

  /** How the awaited `addMember` call ended: a result with `success`, a
      result without it, or a thrown error (with its message, if an Error). */
  datatype SubmitOutcome = Added | NotAdded | Threw(message: Option<string>)

  /** The dialog's state. */
  class AddMemberForm {
    const teamId: string
    var name: string
    var email: string
    var sentiment: Sentiment
    var errors: map<string, string>
    var success: bool
    var isPending: bool

    constructor (teamId: string)
      ensures this.teamId == teamId
      ensures name == "" && email == "" && sentiment == Neutral
      ensures errors == map[] && !success && !isPending
    {
      this.teamId := teamId;
      name, email, sentiment := "", "", Neutral;
      errors, success, isPending := map[], false, false;
    }

    /** `handleFieldChange`: clears a non-empty error of the edited field
        (and no other), then stores the value if the field is name or email. */
    method FieldChange(field: string, value: string)
      modifies this
      ensures errors == if field in old(errors) && old(errors)[field] != ""
                        then old(errors)[field := ""] else old(errors)
      ensures forall f :: f in old(errors) && f != field ==> f in errors && errors[f] == old(errors)[f]
      ensures errors.Keys == old(errors).Keys
      ensures name == (if field == "name" then value else old(name))
      ensures email == (if field == "email" then value else old(email))
      ensures sentiment == old(sentiment) && success == old(success) && isPending == old(isPending)
    {
      if field in errors && errors[field] != "" {
        errors := errors[field := ""];
      }
      if field == "name" { name := value; }
      if field == "email" { email := value; }
    }

    /** A click on a sentiment option: ignored while a submit is pending. */
    method ChooseSentiment(value: Sentiment)
      modifies this`sentiment
      ensures sentiment == if isPending then old(sentiment) else value
    {
      if !isPending {
        sentiment := value;
      }
    }

    /** `validateForm`: replaces the errors by those of the current values
        and reports whether there are none. */
    method ValidateForm() returns (ok: bool)
      modifies this`errors
      ensures errors == FormErrors(name, email)
      ensures ok <==> Acceptable(name, email)
    {
      errors := FormErrors(name, email);
      ok := |errors| == 0;
      assert ok <==> errors == map[] by {
        if !ok { assert errors != map[]; }
      }
      if errors == map[] {
        assert "name" !in errors && "email" !in errors;
      }
    }

    /** `resetForm` */
    method Reset()
      modifies this
      ensures name == "" && email == "" && sentiment == Neutral
      ensures errors == map[] && !success && isPending == old(isPending)
    {
      name, email, sentiment := "", "", Neutral;
      errors, success := map[], false;
    }

    /** `handleClose`: resets and closes unless a submit is pending. */
    method Close() returns (closed: bool)
      modifies this
      ensures closed == !old(isPending)
      ensures closed ==> name == "" && email == "" && sentiment == Neutral && errors == map[] && !success
      ensures !closed ==> name == old(name) && email == old(email) && sentiment == old(sentiment)
                          && errors == old(errors) && success == old(success)
      ensures isPending == old(isPending)
    {
      closed := !isPending;
      if closed {
        Reset();
      }
    }

    /** `handleSubmit` up to the awaited call: sends nothing when the form
        does not validate, otherwise marks the dialog pending and sends the
        trimmed name and e-mail. */
    method BeginSubmit() returns (request: Option<NewMember>)
      modifies this
      ensures errors == FormErrors(name, email)
      ensures name == old(name) && email == old(email) && sentiment == old(sentiment)
      ensures request.Some? <==> Acceptable(name, email)
      ensures request.Some? ==> request.value == NewMember(Trim(name), Trim(email), teamId, sentiment)
                                && isPending && !success
      ensures request.None? ==> isPending == old(isPending) && success == old(success)
    {
      var ok := ValidateForm();
      if !ok {
        return None;
      }
      success, isPending := false, true;
      request := Some(NewMember(Trim(name), Trim(email), teamId, sentiment));
    }

    /** `handleSubmit` after the awaited call: success is shown, a thrown
        error becomes the only error, and the dialog is no longer pending. */
    method FinishSubmit(outcome: SubmitOutcome)
      modifies this
      ensures !isPending
      ensures success == (outcome.Added? || old(success))
      ensures errors == if outcome.Threw?
                        then map["submit" := if outcome.message.Some? then outcome.message.value else SubmitFailed]
                        else old(errors)
      ensures name == old(name) && email == old(email) && sentiment == old(sentiment)
    {
      match outcome {
        case Added => success := true;
        case NotAdded =>
        case Threw(message) =>
          errors := map["submit" := if message.Some? then message.value else SubmitFailed];
      }
      isPending := false;
    }
  }
}
