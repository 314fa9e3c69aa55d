/**
 * The login screen: the e-mail check, the two-step flow from entering an
 * address to the simulated magic-link click, and the error messages.
 */
module LoginPage {
  import opened Types
  import opened Text
  import opened UseStore

  /** A character of the class `[^\s@]`. */
  predicate PlainChar(c: char) {
    !IsWhitespace(c) && c != '@'
  }

  /** A run matched by `[^\s@]+`. */
  predicate Plain(t: string) {
    |t| > 0 && forall i :: 0 <= i < |t| ==> PlainChar(t[i])
  }

  /** The address splits at an `@` at `a` and a later `.` at `b` into three non-empty plain runs. */
  predicate SplitsAt(s: string, a: int, b: int) {
    0 <= a < b < |s| && s[a] == '@' && s[b] == '.' && Plain(s[..a]) && Plain(s[a + 1..b]) && Plain(s[b + 1..])
  }

  /** The regular expression `^[^\s@]+@[^\s@]+\.[^\s@]+$`. */
  predicate ValidEmail(s: string) {
    exists a, b | 0 <= a < |s| && a < b < |s| :: SplitsAt(s, a, b)
  }

  /** A domain part: no whitespace or `@`, and a `.` strictly inside it. */
  predicate Domain(d: string) {
    (forall i :: 0 <= i < |d| ==> PlainChar(d[i])) && exists j | 0 < j < |d| - 1 :: d[j] == '.'
  }

  /** A local part, an `@` and a domain part, with the `@` at `a`. */
  predicate LocalAtDomain(s: string, a: int) {
    0 <= a < |s| && s[a] == '@' && Plain(s[..a]) && Domain(s[a + 1..])
  }

  lemma SplitIsLocalAtDomain(s: string, a: int, b: int)
    requires SplitsAt(s, a, b)
    ensures LocalAtDomain(s, a)
  {
    var d := s[a + 1..];
    forall i | 0 <= i < |d|
      ensures PlainChar(d[i])
    {
      if i < b - a - 1 {
        assert d[i] == s[a + 1..b][i];
      } else if i > b - a - 1 {
        assert d[i] == s[b + 1..][i - (b - a)];
      } else {
        assert d[i] == '.';
      }
    }
    assert d[b - a - 1] == '.';
  }

  lemma LocalAtDomainSplits(s: string, a: int) returns (b: int)
    requires LocalAtDomain(s, a)
    ensures SplitsAt(s, a, b)
  {
    var d := s[a + 1..];
    var j :| 0 < j < |d| - 1 && d[j] == '.';
    b := a + 1 + j;
    assert s[a + 1..b] == d[..j];
    assert s[b + 1..] == d[j + 1..];
  }

  /** An address is valid exactly when it is a non-empty plain local part, an `@` and a domain part. */
  lemma ValidEmailSplit(s: string)
    ensures ValidEmail(s) <==> exists a | 0 <= a < |s| :: LocalAtDomain(s, a)
  {
    if ValidEmail(s) {
      var a, b :| SplitsAt(s, a, b);
      SplitIsLocalAtDomain(s, a, b);
    }
    if exists a | 0 <= a < |s| :: LocalAtDomain(s, a) {
      var a :| LocalAtDomain(s, a);
      var b := LocalAtDomainSplits(s, a);
    }
  }

  /** A valid address has exactly one `@` and no whitespace. */
  lemma ValidEmailOneAt(s: string)
    requires ValidEmail(s)
    ensures Count(s, '@') == 1
    ensures forall i :: 0 <= i < |s| ==> !IsWhitespace(s[i])
  {
    var a, b :| SplitsAt(s, a, b);
    SplitIsLocalAtDomain(s, a, b);
    var d := s[a + 1..];
    assert s == s[..a] + [s[a]] + d;
    CountAbsent(s[..a], '@');
    CountAbsent(d, '@');
    CountAppend(s[..a] + [s[a]], d, '@');
    CountAppend(s[..a], [s[a]], '@');
    assert Count([s[a]], '@') == 1 by {
      assert [s[a]][1..] == [];
    }
    forall i | 0 <= i < |s|
      ensures PlainChar(s[i]) || i == a
    {
      if i < a {
        assert s[i] == s[..a][i];
      } else if i > a {
        assert s[i] == d[i - a - 1];
      }
    }
  }

  /** Addresses the pattern accepts; the middle run may itself hold dots. */
  lemma ValidEmailExamples()
    ensures ValidEmail("owner@kopi.id")
    ensures ValidEmail("a@b.c.d")
  {
    var s := "owner@kopi.id";
    assert s[..5] == "owner" && s[6..10] == "kopi" && s[11..] == "id";
    assert SplitsAt(s, 5, 10);
    var t := "a@b.c.d";
    assert t[..1] == "a" && t[2..3] == "b" && t[4..] == "c.d";
    assert SplitsAt(t, 1, 3);
  }

  /** No dot after the `@`. */
  lemma NoDotIsInvalid()
    ensures !ValidEmail("owner@kopi")
  {
    var u := "owner@kopi";
    assert forall b :: 0 <= b < |u| ==> u[b] != '.';
  }

  /** An empty local part, or an empty run between `@` and dot. */
  lemma EmptyRunIsInvalid()
    ensures !ValidEmail("")
    ensures !ValidEmail("@kopi.id")
    ensures !ValidEmail("owner@.id")
  {
    var v := "owner@.id";
    assert forall a, b :: 0 <= a < b < |v| && v[a] == '@' && v[b] == '.' ==> a == 5 && b == 6;
    assert v[6..6] == [];
  }

  /** A space in the address. */
  lemma SpaceIsInvalid()
    ensures !ValidEmail("ow ner@kopi.id")
  {
    var w := "ow ner@kopi.id";
    assert forall a :: 0 <= a < |w| && w[a] == '@' ==> a == 6;
    assert w[..6][2] == ' ';
  }

  datatype Step = EmailStep | VerifyStep

  const EmailRequired := "Email is required"
  const InvalidEmail := "Please enter a valid email address"

  /** The login screen's state. */
  class Page {
    var email: string
    var error: string
    var showToast: bool
    var step: Step
    const store: Store

    /** The verification step is reached only with a valid address, which then stays put. */
    ghost predicate Valid()
      reads this
    {
      step == VerifyStep ==> ValidEmail(email)
    }

    constructor (store: Store)
      ensures Valid() && this.store == store
      ensures email == "" && error == "" && !showToast && step == EmailStep
    {
      this.store := store;
      email, error, showToast, step := "", "", false, EmailStep;
    }

    /** Typing in the address field, which exists only in the first step; the error is cleared. */
    method EditEmail(text: string)
      requires Valid() && step == EmailStep
      modifies this
      ensures Valid()
      ensures email == text && error == ""
      ensures step == old(step) && showToast == old(showToast)
    {
      email, error := text, "";
    }

    /** `handleEmailSubmit`. */
    method SubmitEmail()
      requires Valid() && step == EmailStep
      modifies this
      ensures Valid()
      ensures email == old(email) && showToast == old(showToast)
      ensures email == "" ==> error == EmailRequired && step == EmailStep
      ensures email != "" && !ValidEmail(email) ==> error == InvalidEmail && step == EmailStep
      ensures ValidEmail(email) ==> error == "" && step == VerifyStep
    {
      error := "";
      if email == "" {
        error := EmailRequired;
        return;
      }
      if !ValidEmail(email) {
        error := InvalidEmail;
        return;
      }
      step := VerifyStep;
    }

    /** `handleVerify`, with the random token given; the button is disabled while the toast shows. */
    method Verify(token: string)
      requires Valid() && step == VerifyStep
      modifies this, store
      ensures Valid()
      ensures old(showToast) ==> store.auth == old(store.auth) && showToast
      ensures !old(showToast) ==> store.auth == AuthState(true, Some(token), Some(email)) && showToast
      ensures store.auth.isAuthenticated && store.auth.email.Some? ==> ValidEmail(store.auth.email.value) || old(showToast)
      ensures store.inventory == old(store.inventory) && store.recipes == old(store.recipes)
      ensures email == old(email) && error == old(error) && step == old(step)
    {
      if !showToast {
        store.SetAuth(AuthState(true, Some(token), Some(email)));
        showToast := true;
      }
    }

    /** The toast's close handler. */
    method DismissToast()
      requires Valid()
      modifies this
      ensures Valid() && !showToast
      ensures email == old(email) && error == old(error) && step == old(step)
    {
      showToast := false;
    }
  }
}
