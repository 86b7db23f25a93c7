/**
 * The two pure helpers of src/utils.js that the screens rely on: the email validator
 * (`/^[^\s@]+@[^\s@]+\.[^\s@]+$/`) and the form cleaner that trims string fields.
 */
module Utils {
  import opened JsValues

  // ---------------------------------------------------------------------------
  // isValidEmail

  /** A character of the class `[^\s@]`. */
  predicate EmailChar(c: char) {
    !IsWhitespace(c) && c != '@'
  }

  /** `s[lo..hi]` is a run of `[^\s@]`. */
  predicate EmailRun(s: string, lo: nat, hi: nat)
    requires lo <= hi <= |s|
  {
    forall i :: lo <= i < hi ==> EmailChar(s[i])
  }

  /**
   * What the regular expression accepts: `s` splits as L "@" D "." T with L, D and T
   * non-empty runs of `[^\s@]` (the '@' at index `at`, the '.' at index `dot`).
   */
  ghost predicate MatchesEmailRegex(s: string) {
    exists at: nat, dot: nat :: 0 < at && at + 1 < dot && dot + 1 < |s| && s[at] == '@' && s[dot] == '.'
      && EmailRun(s, 0, at) && EmailRun(s, at + 1, dot) && EmailRun(s, dot + 1, |s|)
  }

  /** The index of the first `c` in `s`, or `|s|` when there is none. */
  function IndexOf(s: string, c: char): (k: nat)
    ensures k <= |s| && (k < |s| ==> s[k] == c)
    ensures forall i :: 0 <= i < k ==> s[i] != c
  {
    if s == [] then 0 else if s[0] == c then 0 else 1 + IndexOf(s[1..], c)
  }

  /** `isValidEmail(email)`, as an executable test split at the first '@': a non-empty run
      of `[^\s@]` before it, and after it a run of `[^\s@]` holding a '.' that is neither
      its first nor its last character. */
  predicate IsValidEmail(s: string)
    // An accepted address has no whitespace, and a single '@' with at least one character
    // before it and three after it.
    ensures IsValidEmail(s) ==> forall i :: 0 <= i < |s| ==> !IsWhitespace(s[i])
    ensures IsValidEmail(s) ==>
      0 < IndexOf(s, '@') && IndexOf(s, '@') + 3 < |s|
      && forall i :: 0 <= i < |s| && i != IndexOf(s, '@') ==> s[i] != '@'
  {
    var at := IndexOf(s, '@');
    0 < at && at + 3 < |s| && EmailRun(s, 0, at) && EmailRun(s, at + 1, |s|)
    && exists dot :: at + 2 <= dot < |s| - 1 && s[dot] == '.'
  }

  /** The executable test accepts exactly what the regular expression matches. */
  lemma IsValidEmailMatchesRegex(s: string)
    ensures IsValidEmail(s) <==> MatchesEmailRegex(s)
  {
    var at := IndexOf(s, '@');
    if IsValidEmail(s) {
      var dot :| at + 2 <= dot < |s| - 1 && s[dot] == '.';
      assert EmailRun(s, at + 1, dot) && EmailRun(s, dot + 1, |s|);
    }
    if MatchesEmailRegex(s) {
      var a: nat, dot: nat :| 0 < a && a + 1 < dot && dot + 1 < |s| && s[a] == '@' && s[dot] == '.'
        && EmailRun(s, 0, a) && EmailRun(s, a + 1, dot) && EmailRun(s, dot + 1, |s|);
      assert at < a ==> !EmailChar(s[at]);
      assert EmailRun(s, a + 1, |s|) by {
        forall i | a + 1 <= i < |s| ensures EmailChar(s[i]) {
          if i < dot {
            assert EmailRun(s, a + 1, dot);
          } else if i > dot {
            assert EmailRun(s, dot + 1, |s|);
          }
        }
      }
    }
  }

  /**
   * The validator in plain words: no whitespace anywhere; exactly one '@', with something
   * before it; and after it a '.' that is neither the first nor the last character.
   */
  ghost predicate PlainEmailRule(s: string) {
    (forall i :: 0 <= i < |s| ==> !IsWhitespace(s[i]))
    && (exists at :: 0 < at < |s| && s[at] == '@'
          && (forall i :: 0 <= i < |s| && i != at ==> s[i] != '@')
          && exists dot :: at + 1 < dot < |s| - 1 && s[dot] == '.')
  }

  lemma IsValidEmailIffPlainRule(s: string)
    ensures IsValidEmail(s) <==> PlainEmailRule(s)
  {
    var at := IndexOf(s, '@');
    if IsValidEmail(s) {
      forall i | 0 <= i < |s| && i != at ensures EmailChar(s[i]) {
        if i < at {
          assert EmailRun(s, 0, at);
        } else {
          assert EmailRun(s, at + 1, |s|);
        }
      }
      var dot :| at + 2 <= dot < |s| - 1 && s[dot] == '.';
      assert at + 1 < dot < |s| - 1;
    }
    if PlainEmailRule(s) {
      var a :| 0 < a < |s| && s[a] == '@'
        && (forall i :: 0 <= i < |s| && i != a ==> s[i] != '@')
        && exists dot :: a + 1 < dot < |s| - 1 && s[dot] == '.';
      assert at == a;
      var dot :| a + 1 < dot < |s| - 1 && s[dot] == '.';
      assert at + 2 <= dot;
    }
  }

  /** Whitespace anywhere, including at either end, makes an email invalid. */
  lemma WhitespaceMakesEmailInvalid(s: string, i: nat)
    requires i < |s| && IsWhitespace(s[i])
    ensures !IsValidEmail(s)
  {
    IsValidEmailIffPlainRule(s);
  }

  /** Sample addresses the regular expression accepts. */
  lemma EmailExamplesAccepted()
    ensures IsValidEmail("a@b.co") && IsValidEmail("a@.b.c")
  {
    assert IndexOf("a@b.co", '@') == 1 && "a@b.co"[3] == '.';
    assert IndexOf("a@.b.c", '@') == 1 && "a@.b.c"[4] == '.';
  }

  /** Sample addresses the regular expression rejects. */
  lemma EmailExamplesRejected()
    ensures !IsValidEmail("a@b") && !IsValidEmail("a b@c.com") && !IsValidEmail("@c.com")
    ensures !IsValidEmail("a@b.") && !IsValidEmail("a@.b") && !IsValidEmail("")
  {
    assert IndexOf("a@b", '@') == 1;
    WhitespaceMakesEmailInvalid("a b@c.com", 1);
    assert IndexOf("@c.com", '@') == 0;
    assert IndexOf("a@b.", '@') == 1;
    assert IndexOf("a@.b", '@') == 1;
  }

  // ---------------------------------------------------------------------------
  // cleanFormData

  /** What `cleanFormData` stores for one value: strings trimmed, anything else as is. */
  function CleanValue(v: Scalar): (r: Scalar)
    ensures v.Str? <==> r.Str?
    ensures v.Str? ==> r.s == Trim(v.s)
    ensures !v.Str? ==> r == v
  {
    if v.Str? then Str(Trim(v.s)) else v
  }

  /** The object `cleanFormData(formData)` returns. */
  function Cleaned(formData: Entries): (r: Entries)
    ensures |r| == |formData|
    ensures forall i :: 0 <= i < |r| ==> r[i] == (formData[i].0, CleanValue(formData[i].1))
  {
    seq(|formData|, i requires 0 <= i < |formData| => (formData[i].0, CleanValue(formData[i].1)))
  }

  /** `cleanFormData(formData)`: a fresh object filled entry by entry. */
  method CleanFormData(formData: Entries) returns (cleaned: Entries)
    requires DistinctKeys(formData)
    ensures cleaned == Cleaned(formData)
    ensures Keys(cleaned) == Keys(formData) && DistinctKeys(cleaned)
  {
    cleaned := [];
    var i := 0;
    while i < |formData|
      invariant 0 <= i <= |formData|
      invariant cleaned == Cleaned(formData[..i])
    {
      var (key, value) := formData[i];
      cleaned := cleaned + [(key, if value.Str? then Str(Trim(value.s)) else value)];
      i := i + 1;
    }
    assert formData[..i] == formData;
  }

  /** Every value of the result is the input's value under the same key, trimmed when it is
      a string; null ids and numbers are kept, not stripped. */
  lemma CleanedGet(formData: Entries, key: string)
    ensures Get(Cleaned(formData), key) == CleanValue(Get(formData, key))
  {
    if formData != [] {
      assert Cleaned(formData)[1..] == Cleaned(formData[1..]);
      CleanedGet(formData[1..], key);
    }
  }

  /** Each key of the input reads, in the result, its own value cleaned: no key is lost or
      takes another key's value. */
  lemma CleanedGetAt(formData: Entries, i: nat)
    requires DistinctKeys(formData) && i < |formData|
    ensures Get(Cleaned(formData), formData[i].0) == CleanValue(formData[i].1)
  {
    CleanedGet(formData, formData[i].0);
    GetAt(formData, i);
  }

  /** Cleaning twice is cleaning once. */
  lemma CleanedIdempotent(formData: Entries)
    ensures Cleaned(Cleaned(formData)) == Cleaned(formData)
  {
    forall i | 0 <= i < |formData|
      ensures Cleaned(Cleaned(formData))[i] == Cleaned(formData)[i]
    {
      if formData[i].1.Str? {
        TrimIdempotent(formData[i].1.s);
      }
    }
  }
}
