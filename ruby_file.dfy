/**
 * `File.join` with two arguments and `File.dirname`, on POSIX paths whose separator is '/'.
 */
module RubyFile {
  import opened Wrappers
  import opened RubyStrings

  /** `s` without its trailing run of '/'. */
  function StripTrailingSlashes(s: string): string {
    if s != [] && s[|s| - 1] == '/' then StripTrailingSlashes(s[..|s| - 1]) else s
  }

  lemma {:induction false} StripTrailingSlashesSpec(s: string)
    ensures var r := StripTrailingSlashes(s);
            && StartsWith(s, r)
            && (r == [] || r[|r| - 1] != '/')
            && forall i :: |r| <= i < |s| ==> s[i] == '/'
  {
    if s != [] && s[|s| - 1] == '/' {
      var t := s[..|s| - 1];
      StripTrailingSlashesSpec(t);
      var r := StripTrailingSlashes(t);
      assert s[..|r|] == t[..|r|];
    }
  }

  /** Index of the last '/' in `s`. */
  function LastSlash(s: string): Option<nat> {
    if s == [] then None
    else if s[|s| - 1] == '/' then Some(|s| - 1)
    else LastSlash(s[..|s| - 1])
  }

  lemma {:induction false} LastSlashSpec(s: string)
    ensures var r := LastSlash(s);
            && (r.Some? ==> r.value < |s| && s[r.value] == '/')
            && (r.Some? ==> forall j :: r.value < j < |s| ==> s[j] != '/')
            && (r.None? ==> forall j :: 0 <= j < |s| ==> s[j] != '/')
  {
    if s != [] && s[|s| - 1] != '/' {
      var t := s[..|s| - 1];
      LastSlashSpec(t);
      assert forall j :: 0 <= j < |t| ==> s[j] == t[j];
    }
  }

  /**
   * `File.join(a, b)`: exactly one separator between the two parts unless `a` already
   * ends with one; a `b` with a leading '/' absorbs every trailing '/' of `a`.
   */
  function Join(a: string, b: string): string {
    if b != [] && b[0] == '/' then StripTrailingSlashes(a) + b
    else if a != [] && a[|a| - 1] == '/' then a + b
    else a + "/" + b
  }

  /**
   * `b` always ends the joined path and `a` without its trailing separators always
   * starts it; a `b` that does not start with '/' is preceded by a separator.
   */
  lemma JoinSpec(a: string, b: string)
    ensures var r := Join(a, b);
            && |b| <= |r| && r[|r| - |b|..] == b
            && StartsWith(r, StripTrailingSlashes(a))
            && ((b == [] || b[0] != '/') ==> |b| < |r| && r[|r| - |b| - 1] == '/')
            && ((b == [] || b[0] != '/') && (a == [] || a[|a| - 1] != '/') ==> r == a + "/" + b)
            && ((b == [] || b[0] != '/') && a != [] && a[|a| - 1] == '/' ==> r == a + b)
            && (b != [] && b[0] == '/' ==> r == StripTrailingSlashes(a) + b)
  {
    StripTrailingSlashesSpec(a);
    var r := Join(a, b);
    var t := StripTrailingSlashes(a);
    if b != [] && b[0] == '/' {
      assert r[..|t|] == t;
    } else if a != [] && a[|a| - 1] == '/' {
      assert r[..|t|] == a[..|t|];
    } else {
      assert r[..|t|] == a[..|t|];
    }
  }

  /**
   * `File.dirname(s)`: trailing separators are ignored, then everything before the last
   * separator, itself without trailing separators; "." when there is no separator and
   * "/" when only the root is left. Unlike Ruby, a run of several leading separators is
   * kept rather than collapsed to one ("//a/b" gives "//a"); the crawler's paths never
   * start with one.
   */
  function Dirname(s: string): string {
    var t := StripTrailingSlashes(s);
    if t == [] then (if s == [] then "." else "/")
    else
      match LastSlash(t)
      case None => "."
      case Some(i) =>
        if i <= |t| then
          var d := StripTrailingSlashes(t[..i]);
          if d == [] then "/" else d
        else "."
  }

  /**
   * The directory is ".", "/" or a proper prefix of `s` that ends just before a separator.
   */
  lemma DirnameSpec(s: string)
    ensures var r := Dirname(s);
            r == "." || r == "/" || (0 < |r| < |s| && StartsWith(s, r) && s[|r|] == '/' && r[|r| - 1] != '/')
  {
    var t := StripTrailingSlashes(s);
    StripTrailingSlashesSpec(s);
    if t != [] {
      LastSlashSpec(t);
      match LastSlash(t)
      case None =>
      case Some(i) =>
        var d := StripTrailingSlashes(t[..i]);
        StripTrailingSlashesSpec(t[..i]);
        if d != [] {
          assert s[..|d|] == t[..i][..|d|];
          assert s[|d|] == t[|d|];
        }
    }
  }

  /** The empty path has "." as its directory and a path of separators only has "/". */
  lemma DirnameOfRoot(s: string)
    ensures s == [] ==> Dirname(s) == "."
    ensures s != [] && StripTrailingSlashes(s) == [] ==> Dirname(s) == "/"
  {
  }

  /** A path with no separator but trailing ones has "." as its directory. */
  lemma DirnameNoSlash(s: string)
    requires var t := StripTrailingSlashes(s);
             t != [] && forall j :: 0 <= j < |t| ==> t[j] != '/'
    ensures Dirname(s) == "."
  {
    LastSlashSpec(StripTrailingSlashes(s));
  }

  /**
   * The cut is at the last separator `i` of the path without its trailing separators `t`:
   * "/" when only separators precede it, otherwise a non-empty prefix of `t` that does
   * not end in '/' and is followed by separators only, up to and including `i`.
   */
  lemma DirnameAtLastSlash(s: string, i: nat)
    requires var t := StripTrailingSlashes(s);
             i < |t| && t[i] == '/' && forall j :: i < j < |t| ==> t[j] != '/'
    ensures var t := StripTrailingSlashes(s);
            (forall j :: 0 <= j < i ==> t[j] == '/') ==> Dirname(s) == "/"
    ensures var t := StripTrailingSlashes(s);
            var r := Dirname(s);
            !(forall j :: 0 <= j < i ==> t[j] == '/') ==>
              && 0 < |r| <= i && StartsWith(t, r) && r[|r| - 1] != '/'
              && forall j :: |r| <= j <= i ==> t[j] == '/'
  {
    var t := StripTrailingSlashes(s);
    LastSlashSpec(t);
    assert LastSlash(t).Some?;
    var k := LastSlash(t).value;
    assert !(k < i) && !(i < k);
    var d := StripTrailingSlashes(t[..i]);
    StripTrailingSlashesSpec(t[..i]);
    if d == [] {
      assert forall j :: 0 <= j < i ==> t[j] == t[..i][j];
    } else {
      assert t[..|d|] == t[..i][..|d|];
      assert forall j :: |d| <= j < i ==> t[j] == t[..i][j];
    }
  }

  /** The directory of `a/c` is `a` when `c` is a single non-empty segment. */
  lemma DirnameOfChild(a: string, c: string)
    requires a != [] && a[|a| - 1] != '/'
    requires c != [] && forall j :: 0 <= j < |c| ==> c[j] != '/'
    ensures Dirname(a + "/" + c) == a
  {
    var s := a + "/" + c;
    assert StripTrailingSlashes(s) == s;
    LastSlashSpec(s);
    assert LastSlash(s) == Some(|a|) by {
      assert s[|a|] == '/';
      assert forall j :: |a| < j < |s| ==> s[j] == c[j - |a| - 1];
    }
    assert s[..|a|] == a;
    assert StripTrailingSlashes(a) == a;
  }
}
