/**
 * The few `String` methods of Ruby's core library that `WebpageCrawler` relies on:
 * `chomp`, `tr`, `sub`, `partition` and slicing with an exclusive range.
 * Strings are sequences of characters; no encoding is modelled.
 */
module RubyStrings {
  import opened Wrappers

  predicate StartsWith(s: string, p: string) {
    |p| <= |s| && s[..|p|] == p
  }

  /** `pat` occurs in `s` starting at index `i`. */
  predicate OccursAt(s: string, pat: string, i: nat) {
    i + |pat| <= |s| && s[i..i + |pat|] == pat
  }

  /** Index of the first occurrence of `pat` in `s` at or after `from`, as `String#index`. */
  function IndexFrom(s: string, pat: string, from: nat): Option<nat>
    decreases |s| - from
  {
    if from + |pat| > |s| then None
    else if OccursAt(s, pat, from) then Some(from)
    else IndexFrom(s, pat, from + 1)
  }

  /** `IndexFrom` finds the leftmost occurrence at or after `from`, and None means there is none. */
  lemma {:induction false} IndexFromSpec(s: string, pat: string, from: nat)
    decreases |s| - from
    ensures var r := IndexFrom(s, pat, from);
            && (r.Some? ==> from <= r.value && OccursAt(s, pat, r.value))
            && (r.Some? ==> forall j :: from <= j < r.value ==> !OccursAt(s, pat, j))
            && (r.None? ==> forall j :: from <= j ==> !OccursAt(s, pat, j))
  {
    if from + |pat| <= |s| && !OccursAt(s, pat, from) {
      IndexFromSpec(s, pat, from + 1);
    }
  }

  function IndexOf(s: string, pat: string): Option<nat> {
    IndexFrom(s, pat, 0)
  }

  /** A pattern found at index 0 is the first occurrence. */
  lemma IndexOfPrefix(s: string, pat: string)
    requires StartsWith(s, pat)
    ensures IndexOf(s, pat) == Some(0)
  {
    assert OccursAt(s, pat, 0);
  }

  /** `s.chomp(c)` for a one-character argument: drop one trailing `c`, if there is one. */
  function Chomp(s: string, c: char): (r: string)
    ensures |s| > 0 && s[|s| - 1] == c ==> r + [c] == s
    ensures !(|s| > 0 && s[|s| - 1] == c) ==> r == s
  {
    if |s| > 0 && s[|s| - 1] == c then s[..|s| - 1] else s
  }

  /** `s.tr(from, to)` for single characters. */
  function Tr(s: string, from: char, to: char): string {
    if s == [] then [] else [if s[0] == from then to else s[0]] + Tr(s[1..], from, to)
  }

  /** `tr` replaces every `from` by `to` and leaves every other character where it was. */
  lemma {:induction false} TrSpec(s: string, from: char, to: char)
    ensures |Tr(s, from, to)| == |s|
    ensures forall i :: 0 <= i < |s| && s[i] != from ==> Tr(s, from, to)[i] == s[i]
    ensures forall i :: 0 <= i < |s| && s[i] == from ==> Tr(s, from, to)[i] == to
  {
    if s != [] {
      TrSpec(s[1..], from, to);
      var r := Tr(s, from, to);
      assert forall i :: 1 <= i < |s| ==> r[i] == Tr(s[1..], from, to)[i - 1] && s[i] == s[1..][i - 1];
    }
  }

  /** `s.sub(pat, rep)` with a literal string pattern: only the first occurrence is replaced. */
  function SubFirst(s: string, pat: string, rep: string): string {
    match IndexOf(s, pat)
    case None => s
    case Some(i) => if i + |pat| <= |s| then s[..i] + rep + s[i + |pat|..] else s
  }

  /** `s.partition(sep).last`: what follows the first `sep`, or "" when `sep` does not occur. */
  function PartitionLast(s: string, sep: string): string {
    match IndexOf(s, sep)
    case None => ""
    case Some(i) => if i + |sep| <= |s| then s[i + |sep|..] else ""
  }

  /** `s[0...n]`: the first `n` characters, or all of `s` when it is shorter. */
  function Truncate(s: string, n: nat): (r: string)
    ensures |r| <= n && StartsWith(s, r)
    ensures |s| <= n ==> r == s
    ensures |s| > n ==> |r| == n
  {
    if |s| <= n then s else s[..n]
  }
}
