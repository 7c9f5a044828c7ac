/** The login form: its two fields, the error map `validateForm` builds,
    and the submit guard. There is no back end; a valid form navigates home. */
module Login {
  import opened Wrappers
  import opened JsText

  // ---------------------------------------------------------------------
  // The email pattern `/\S+@\S+\.\S+/`, tested without anchors

  /** The pattern matches `s[lo..hi]` with its `@` at `at` and its `.` at
      `dot`: three non-empty runs of non-space characters around them. */
  predicate LooseMatchAt(s: string, lo: int, at: int, dot: int, hi: int) {
    0 <= lo < at && at + 1 < dot && dot + 1 < hi <= |s|
    && NoSpace(s[lo..at]) && s[at] == '@'
    && NoSpace(s[at + 1..dot]) && s[dot] == '.'
    && NoSpace(s[dot + 1..hi])
  }

  /** `/\S+@\S+\.\S+/.test(s)`: some substring of `s` matches. */
  predicate LooseEmail(s: string): (b: bool)
    ensures b ==> |s| >= 5 && '@' in s && '.' in s
  {
    exists lo, at, dot, hi | 0 <= lo < |s| && 0 <= at < |s| && 0 <= dot < |s| && 0 <= hi <= |s| ::
      LooseMatchAt(s, lo, at, dot, hi)
  }

  /** A cheaper witness: an `@` with a non-space character before it, and a
      later `.` with at least one character between them and one after it,
      all of `s[at - 1..dot + 2]` free of white space. */
  predicate TightMatchAt(s: string, at: int, dot: int) {
    1 <= at && at + 1 < dot && dot + 2 <= |s|
    && s[at] == '@' && s[dot] == '.' && NoSpace(s[at - 1..dot + 2])
  }

  /** One match is enough for the test to pass. */
  lemma MatchIsEmail(s: string, lo: int, at: int, dot: int, hi: int)
    requires LooseMatchAt(s, lo, at, dot, hi)
    ensures LooseEmail(s)
  {
    assert 0 <= lo < |s| && 0 <= at < |s| && 0 <= dot < |s| && 0 <= hi <= |s|;
  }

  /** A match shrinks to its tightest form around the same `@` and `.`. */
  lemma LooseToTight(s: string, lo: int, at: int, dot: int, hi: int)
    requires LooseMatchAt(s, lo, at, dot, hi)
    ensures TightMatchAt(s, at, dot)
  {
    forall k | at - 1 <= k < dot + 2
      ensures !IsSpace(s[k])
    {
      if k < at {
        assert s[k] == s[lo..at][k - lo];
      } else if at < k < dot {
        assert s[k] == s[at + 1..dot][k - at - 1];
      } else if k > dot {
        assert s[k] == s[dot + 1..hi][k - dot - 1];
      }
    }
  }

  /** A tight form is a match of one character on each outer side. */
  lemma TightToLoose(s: string, at: int, dot: int)
    requires TightMatchAt(s, at, dot)
    ensures LooseMatchAt(s, at - 1, at, dot, dot + 2)
  {
    var w := s[at - 1..dot + 2];
    assert s[at - 1..at] == w[..1];
    assert s[dot + 1..dot + 2] == w[dot - at + 2..];
    var mid := s[at + 1..dot];
    forall i | 0 <= i < |mid|
      ensures !IsSpace(mid[i])
    {
      assert mid[i] == w[i + 2];
    }
  }

  /** Every match can be shrunk to its tightest form and every tight form is
      a match, so the pattern needs only one character on each outer side. */
  lemma LooseEmailTight(s: string)
    ensures LooseEmail(s) <==> exists at, dot :: TightMatchAt(s, at, dot)
  {
    if LooseEmail(s) {
      var lo, at, dot, hi :| 0 <= lo < |s| && 0 <= at < |s| && 0 <= dot < |s| && 0 <= hi <= |s| && LooseMatchAt(s, lo, at, dot, hi);
      LooseToTight(s, lo, at, dot, hi);
    }
    if exists at, dot :: TightMatchAt(s, at, dot) {
      var at, dot :| TightMatchAt(s, at, dot);
      TightToLoose(s, at, dot);
      MatchIsEmail(s, at - 1, at, dot, dot + 2);
    }
  }

  /** A match needs at least five characters, so it is never empty. */
  lemma LooseEmailNonEmpty(s: string)
    requires LooseEmail(s)
    ensures |s| >= 5
  {
  }

  /** A stretch of `s` reads the same inside `pre + s + post`. */
  lemma SliceShift(pre: string, s: string, post: string, i: int, j: int)
    requires 0 <= i <= j <= |s|
    ensures (pre + s + post)[|pre| + i..|pre| + j] == s[i..j]
  {
    var t := pre + s + post;
    forall k | 0 <= k < j - i
      ensures t[|pre| + i..|pre| + j][k] == s[i..j][k]
    {
      assert t[|pre| + i + k] == s[i + k];
    }
  }

  /** A tight match stays one inside `pre + s + post`, shifted by `pre`. */
  lemma TightShift(pre: string, s: string, post: string, at: int, dot: int)
    requires TightMatchAt(s, at, dot)
    ensures TightMatchAt(pre + s + post, |pre| + at, |pre| + dot)
  {
    var t, d := pre + s + post, |pre|;
    SliceShift(pre, s, post, at - 1, dot + 2);
    assert t[d + at] == s[at] && t[d + dot] == s[dot];
  }

  /** The test is unanchored: a match survives any text around it. */
  lemma LooseEmailUnanchored(pre: string, s: string, post: string)
    requires LooseEmail(s)
    ensures LooseEmail(pre + s + post)
  {
    LooseEmailTight(s);
    var at, dot :| TightMatchAt(s, at, dot);
    var t, d := pre + s + post, |pre|;
    TightShift(pre, s, post, at, dot);
    TightToLoose(t, d + at, d + dot);
    MatchIsEmail(t, d + at - 1, d + at, d + dot, d + dot + 2);
  }

  // ---------------------------------------------------------------------
  // Validation

  datatype Field = Email | Password

  const EmailRequired := "Email is required"
  const EmailInvalid := "Email is invalid"
  const PasswordRequired := "Password is required"
  const PasswordTooShort := "Password must be at least 6 characters"

  /** The `newErrors` object `validateForm` builds. */
  function ValidationErrors(email: string, password: string): (r: map<Field, string>)
    ensures email == "" ==> Email in r && r[Email] == EmailRequired
    ensures email != "" ==> (Email in r <==> !LooseEmail(email))
    ensures email != "" && Email in r ==> r[Email] == EmailInvalid
    ensures password == "" ==> Password in r && r[Password] == PasswordRequired
    ensures 0 < Utf16Length(password) < 6 ==> Password in r && r[Password] == PasswordTooShort
    ensures Utf16Length(password) >= 6 ==> Password !in r
  {
    var withEmail: map<Field, string> :=
      if email == "" then map[Email := EmailRequired]
      else if !LooseEmail(email) then map[Email := EmailInvalid]
      else map[];
    if password == "" then withEmail[Password := PasswordRequired]
    else if Utf16Length(password) < 6 then withEmail[Password := PasswordTooShort]
    else withEmail
  }

  /** The form validates exactly when the email matches the pattern and the
      password is at least six UTF-16 code units long. */
  lemma ValidIff(email: string, password: string)
    ensures |ValidationErrors(email, password)| == 0 <==> LooseEmail(email) && Utf16Length(password) >= 6
  {
    var r := ValidationErrors(email, password);
    if |r| == 0 {
      assert Email !in r && Password !in r;
    } else {
      var f :| f in r;
    }
  }

  /** Three emoji are six code units, so they make a long enough password
      although they are only three characters. */
  lemma AstralPasswordLongEnough(email: string)
    ensures Password !in ValidationErrors(email, "\U{1F600}\U{1F600}\U{1F600}")
  {
    var e := "\U{1F600}";
    Utf16LengthAppend(e, e);
    Utf16LengthAppend(e + e, e);
    assert e + e + e == "\U{1F600}\U{1F600}\U{1F600}";
  }

  /** The form's state. */
  class LoginForm {
    var email: string
    var password: string
    var errors: map<Field, string>

    constructor ()
      ensures email == "" && password == "" && errors == map[]
    {
      email, password, errors := "", "", map[];
    }

    function Value(f: Field): string
      reads this
    {
      match f
      case Email => email
      case Password => password
    }

    /** `handleChange`: sets the named field, and blanks that field's error
        only if it was showing one. */
    method HandleChange(name: Field, value: string)
      modifies this
      ensures Value(name) == value
      ensures forall f :: f != name ==> Value(f) == old(Value(f))
      ensures name in old(errors) && old(errors)[name] != "" ==> errors == old(errors)[name := ""]
      ensures !(name in old(errors) && old(errors)[name] != "") ==> errors == old(errors)
    {
      match name {
        case Email => email := value;
        case Password => password := value;
      }
      if name in errors && errors[name] != "" {
        errors := errors[name := ""];
      }
    }

    /** `validateForm`: stores the computed errors and reports whether
        there are none. */
    method ValidateForm() returns (ok: bool)
      modifies this
      ensures email == old(email) && password == old(password)
      ensures errors == ValidationErrors(email, password)
      ensures ok <==> LooseEmail(email) && Utf16Length(password) >= 6
    {
      errors := ValidationErrors(email, password);
      ValidIff(email, password);
      ok := |errors| == 0;
    }

    /** `handleSubmit`: navigates to `/` only when the form validates. */
    method HandleSubmit() returns (destination: Option<string>)
      modifies this
      ensures email == old(email) && password == old(password)
      ensures errors == ValidationErrors(email, password)
      ensures destination == (if LooseEmail(email) && Utf16Length(password) >= 6 then Some("/") else None)
    {
      var ok := ValidateForm();
      destination := if ok then Some("/") else None;
    }
  }
}
