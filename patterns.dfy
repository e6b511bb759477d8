/**
 * The character classes and the anchored scheme pattern of the two regular expressions
 * `^[|[:alpha:]]+://` (fetch.rb:101) and `^[|[:alpha]]+://` (fetch.rb:92).
 * Inputs hold no newline, so `^` anchors at the start of the string only.
 */
module Patterns {
  import opened Wrappers
  import opened RubyStrings

  predicate IsAlpha(c: char) {
    ('a' <= c <= 'z') || ('A' <= c <= 'Z')
  }

  predicate IsDigit(c: char) {
    '0' <= c <= '9'
  }

  predicate IsAlnum(c: char) {
    IsAlpha(c) || IsDigit(c)
  }

  /** `[|[:alpha:]]`: a bar or a letter. */
  predicate IsSchemeChar(c: char) {
    c == '|' || IsAlpha(c)
  }

  /**
   * `[|[:alpha]]`: lacking the closing colon, `[:alpha]` is a nested class of the
   * literal characters ':', 'a', 'l', 'p', 'h', so only six characters belong to it.
   */
  predicate IsSchemeCharAsWritten(c: char) {
    c == '|' || c == ':' || c == 'a' || c == 'l' || c == 'p' || c == 'h'
  }

  /** `[./]` */
  predicate IsDotOrSlash(c: char) {
    c == '.' || c == '/'
  }

  /** `[-_./[:alnum:]]`: the characters a localized path may keep. */
  predicate IsPathChar(c: char) {
    c == '-' || c == '_' || c == '.' || c == '/' || IsAlnum(c)
  }

  /** The three bracket classes the crawler's patterns use. */
  datatype CharClass = Scheme | SchemeAsWritten | DotOrSlash

  predicate InClass(cls: CharClass, c: char) {
    match cls
    case Scheme => IsSchemeChar(c)
    case SchemeAsWritten => IsSchemeCharAsWritten(c)
    case DotOrSlash => IsDotOrSlash(c)
  }

  /** Length of the longest prefix of `s` whose characters all belong to `p`: what a greedy `[…]+` consumes first. */
  function LeadingRun(s: string, p: CharClass): nat {
    if s == [] || !InClass(p, s[0]) then 0 else 1 + LeadingRun(s[1..], p)
  }

  /** The run is as long as possible: every character in it is in the class and the next one is not. */
  lemma {:induction false} LeadingRunSpec(s: string, p: CharClass)
    ensures LeadingRun(s, p) <= |s|
    ensures forall i :: 0 <= i < LeadingRun(s, p) ==> InClass(p, s[i])
    ensures LeadingRun(s, p) < |s| ==> !InClass(p, s[LeadingRun(s, p)])
  {
    if s != [] && InClass(p, s[0]) {
      LeadingRunSpec(s[1..], p);
      assert forall i :: 1 <= i < |s| ==> s[i] == s[1..][i - 1];
    }
  }

  /** `^[p]+://` matches `s` with the class run covering exactly `s[..k]`. */
  predicate SchemeAt(s: string, p: CharClass, k: nat) {
    1 <= k && OccursAt(s, "://", k) && forall i :: 0 <= i < k ==> InClass(p, s[i])
  }

  /** The regex engine's backtracking: try the run lengths k, k-1, …, 1 in turn. */
  function BackOff(s: string, k: nat): Option<nat> {
    if k == 0 then None
    else if OccursAt(s, "://", k) then Some(k)
    else BackOff(s, k - 1)
  }

  /** Backing off from a run of class characters finds the longest run length at which the pattern matches. */
  lemma {:induction false} BackOffSpec(s: string, p: CharClass, k: nat)
    requires forall i :: 0 <= i < k && i < |s| ==> InClass(p, s[i])
    ensures var r := BackOff(s, k);
            && (r.Some? ==> r.value <= k && SchemeAt(s, p, r.value))
            && (r.Some? ==> forall j :: r.value < j <= k ==> !SchemeAt(s, p, j))
            && (r.None? ==> forall j: nat :: j <= k ==> !SchemeAt(s, p, j))
  {
    if k > 0 && !OccursAt(s, "://", k) {
      BackOffSpec(s, p, k - 1);
    }
  }

  /**
   * The run length of the match of `^[p]+://` against `s`, if it matches; the matched
   * text is `s[..k + 3]`.
   */
  function SchemeMatch(s: string, p: CharClass): Option<nat> {
    BackOff(s, LeadingRun(s, p))
  }

  /** The match found is the longest, and when there is none no run length matches. */
  lemma SchemeMatchSpec(s: string, p: CharClass)
    ensures var m := SchemeMatch(s, p);
            && (m.Some? ==> SchemeAt(s, p, m.value))
            && (m.Some? ==> forall k :: m.value < k ==> !SchemeAt(s, p, k))
            && (m.None? ==> forall k :: !SchemeAt(s, p, k))
  {
    var n := LeadingRun(s, p);
    LeadingRunSpec(s, p);
    BackOffSpec(s, p, n);
    forall k: nat | n < k
      ensures !SchemeAt(s, p, k)
    {
      if n < |s| {
        assert !InClass(p, s[n]);
      }
    }
  }

  /**
   * With the POSIX class, which excludes ':', the pattern matches exactly when a
   * non-empty run of letters and bars is followed by "://".
   */
  lemma SchemeMatchPosix(s: string)
    ensures SchemeMatch(s, Scheme).Some?
        <==> LeadingRun(s, Scheme) >= 1 && OccursAt(s, "://", LeadingRun(s, Scheme))
    ensures SchemeMatch(s, Scheme).Some? ==> SchemeMatch(s, Scheme).value == LeadingRun(s, Scheme)
  {
    var n := LeadingRun(s, Scheme);
    var m := SchemeMatch(s, Scheme);
    SchemeMatchSpec(s, Scheme);
    LeadingRunSpec(s, Scheme);
    if n >= 1 && OccursAt(s, "://", n) {
      assert SchemeAt(s, Scheme, n);
    }
    if m.Some? {
      var k := m.value;
      assert s[k] == ':' by { assert s[k..k + 3][0] == ':'; }
    }
  }

  /**
   * With the class as written, a string that starts with "ht" (every "http://" and
   * "https://" URL) does not match, so no scheme is stripped from it.
   */
  lemma HttpNotMatchedAsWritten(s: string)
    requires |s| >= 2 && s[0] == 'h' && s[1] == 't'
    ensures SchemeMatch(s, SchemeAsWritten).None?
  {
    SchemeMatchSpec(s, SchemeAsWritten);
    forall k: nat
      ensures !SchemeAt(s, SchemeAsWritten, k)
    {
      if k >= 2 {
        assert !IsSchemeCharAsWritten(s[1]);
      } else if k == 1 && 4 <= |s| {
        assert s[1..4][0] != ':';
      }
    }
  }
}
