/** The footer's newsletter form: the anchored email pattern and the
    subscribe state (the address, the submitting flag and the status line). */
module Footer {
  import opened JsText
  import Login

  /** A character `[^\s@]` matches. */
  predicate Plain(c: char) {
    !IsSpace(c) && c != '@'
  }

  predicate AllPlain(t: string) {
    forall i :: 0 <= i < |t| ==> Plain(t[i])
  }

  /** `^[^\s@]+@[^\s@]+\.[^\s@]+$` matches `s` with its `@` at `at` and
      its `.` at `dot`. */
  predicate AnchoredMatchAt(s: string, at: int, dot: int) {
    0 < at && at + 1 < dot && dot + 1 < |s|
    && AllPlain(s[..at]) && s[at] == '@'
    && AllPlain(s[at + 1..dot]) && s[dot] == '.'
    && AllPlain(s[dot + 1..])
  }

  /** `isValidEmail(value)`. */
  predicate IsValidEmail(s: string): (b: bool)
    ensures b ==> |s| >= 5 && s[0] != '@' && s[|s| - 1] != '@'
  {
    exists at, dot | 0 <= at < |s| && 0 <= dot < |s| :: AnchoredMatchAt(s, at, dot)
  }

  /** `s` has its only `@` at `at`, a non-empty local part, no white space,
      and a `.` in the domain that is neither its first nor its last
      character. */
  predicate SplitsAt(s: string, at: int) {
    0 < at < |s| && s[at] == '@'
    && (forall k :: 0 <= k < |s| && k != at ==> s[k] != '@')
    && NoSpace(s)
    && exists dot | at + 1 < dot < |s| - 1 :: s[dot] == '.'
  }

  /** The pattern accepts exactly the strings with one `@`, something
      before it, no white space, and an inner `.` after it. */
  lemma ValidEmailIff(s: string)
    ensures IsValidEmail(s) <==> exists at | 0 <= at < |s| :: SplitsAt(s, at)
  {
    if IsValidEmail(s) {
      var at, dot :| 0 <= at < |s| && 0 <= dot < |s| && AnchoredMatchAt(s, at, dot);
      forall k | 0 <= k < |s| && k != at && k != dot
        ensures Plain(s[k])
      {
        if k < at {
          assert s[k] == s[..at][k];
        } else if k < dot {
          assert s[k] == s[at + 1..dot][k - at - 1];
        } else {
          assert s[k] == s[dot + 1..][k - dot - 1];
        }
      }
      assert SplitsAt(s, at);
    }
    if exists at | 0 <= at < |s| :: SplitsAt(s, at) {
      var at :| 0 <= at < |s| && SplitsAt(s, at);
      var dot :| at + 1 < dot < |s| - 1 && s[dot] == '.';
      var local, mid, top := s[..at], s[at + 1..dot], s[dot + 1..];
      forall i | 0 <= i < |local| ensures Plain(local[i]) {
        assert local[i] == s[i];
      }
      forall i | 0 <= i < |mid| ensures Plain(mid[i]) {
        assert mid[i] == s[at + 1 + i];
      }
      forall i | 0 <= i < |top| ensures Plain(top[i]) {
        assert top[i] == s[dot + 1 + i];
      }
      assert AnchoredMatchAt(s, at, dot);
    }
  }

  /** Every address the newsletter accepts also passes the login form's
      looser check. */
  lemma ValidEmailPassesLogin(s: string)
    requires IsValidEmail(s)
    ensures Login.LooseEmail(s)
  {
    var at, dot :| 0 <= at < |s| && 0 <= dot < |s| && AnchoredMatchAt(s, at, dot);
    var local, mid, top := s[..at], s[at + 1..dot], s[dot + 1..|s|];
    assert s[dot + 1..] == top;
    assert NoSpace(local) by {
      forall i | 0 <= i < |local| ensures !IsSpace(local[i]) {
        assert Plain(local[i]);
      }
    }
    assert NoSpace(mid) by {
      forall i | 0 <= i < |mid| ensures !IsSpace(mid[i]) {
        assert Plain(mid[i]);
      }
    }
    assert NoSpace(top) by {
      forall i | 0 <= i < |top| ensures !IsSpace(top[i]) {
        assert Plain(top[i]);
      }
    }
    assert s[0..at] == local;
    assert Login.LooseMatchAt(s, 0, at, dot, |s|);
  }

  const InvalidStatus := "Please enter a valid email address"
  const SubscribingStatus := "Subscribing..."
  const SubscribedStatus := "Successfully subscribed to CryptoHub Insights!"

  /** The subscribe button's enabled condition. */
  function SubmitEnabled(isSubmitting: bool, email: string): (r: bool)
    ensures r <==> !isSubmitting && |email| > 0
  {
    !isSubmitting && email != ""
  }

  class Newsletter {
    var email: string
    var isSubmitting: bool
    var status: string

    /** While a subscription is in flight, the address being sent is a
        valid one. (The status line is not part of this: the timer that
        clears a success message may fire during a later subscription.) */
    ghost predicate Valid()
      reads this
    {
      isSubmitting ==> IsValidEmail(email)
    }

    constructor ()
      ensures Valid() && email == "" && !isSubmitting && status == ""
    {
      email, isSubmitting, status := "", false, "";
    }

    /** Typing into the address field; the field is disabled, and so
        ignores typing, while a subscription is in flight. */
    method TypeEmail(value: string)
      requires Valid()
      modifies this
      ensures Valid()
      ensures email == if old(isSubmitting) then old(email) else value
      ensures isSubmitting == old(isSubmitting) && status == old(status)
    {
      if !isSubmitting {
        email := value;
      }
    }

    /** `handleSubscribe`: an invalid address only sets the error status; a
        valid one starts the subscription. */
    method HandleSubscribe()
      requires Valid()
      modifies this
      ensures Valid() && email == old(email)
      ensures !IsValidEmail(email) ==> status == InvalidStatus && isSubmitting == old(isSubmitting)
      ensures IsValidEmail(email) ==> isSubmitting && status == SubscribingStatus
      ensures IsValidEmail(email) ==> !SubmitEnabled(isSubmitting, email)
    {
      if !IsValidEmail(email) {
        status := InvalidStatus;
        return;
      }
      isSubmitting := true;
      status := SubscribingStatus;
    }

    /** The simulated request completes: success status, cleared address,
        form enabled again. */
    method FinishSubscribe()
      modifies this
      ensures Valid()
      ensures status == SubscribedStatus && email == "" && !isSubmitting
    {
      status := SubscribedStatus;
      email := "";
      isSubmitting := false;
    }

    /** The success message's timer clears the status line. */
    method ClearStatus()
      requires Valid()
      modifies this
      ensures Valid()
      ensures status == "" && email == old(email) && isSubmitting == old(isSubmitting)
    {
      status := "";
    }
  }
}
