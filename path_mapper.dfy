/**
 * The deterministic string layer of `WebpageCrawler`: the page record built by
 * `initialize`, the fetch URL of an asset (`url_for`), its local path (`localize_url`)
 * and the page's file and folder names (`save_contents`).
 */
module PathMapper {
  import opened Wrappers
  import opened RubyStrings
  import opened RubyFile
  import opened Patterns

  const SOURCE_FOLDER := "sources"

  /**
   * The page being mirrored: its URL string after `chomp('/')`, and the host and path
   * that `URI.parse` gives for that string (host "" when the URI has none).
   */
  datatype Page = Page(url: string, host: string, path: string)

  /** `initialize`: one trailing '/' of the argument is dropped before parsing. */
  function NewPage(arg: string, host: string, path: string): (p: Page)
    ensures p.host == host && p.path == path
    ensures arg != [] && arg[|arg| - 1] == '/' ==> p.url + "/" == arg
    ensures !(arg != [] && arg[|arg| - 1] == '/') ==> p.url == arg
  {
    Page(Chomp(arg, '/'), host, path)
  }

  // ---------------------------------------------------------------- url_for

  /** What a relative reference is joined onto: the whole URL when the path is empty, else its directory. */
  function FetchBase(page: Page): string {
    if page.path == [] then page.url else Dirname(page.url)
  }

  /**
   * `url_for`: a reference that starts with a scheme (`^[|[:alpha:]]+://`) is already a
   * fetch URL; any other is joined onto the page's base with `File.join`.
   */
  function UrlFor(page: Page, ref: string): string {
    if SchemeMatch(ref, Scheme).Some? then ref else Join(FetchBase(page), ref)
  }

  /**
   * The reference always ends the fetch URL; it is the whole URL exactly when it carries
   * a scheme, and otherwise it is joined onto the base.
   */
  lemma UrlForSpec(page: Page, ref: string)
    ensures var r := UrlFor(page, ref);
            && |ref| <= |r| && r[|r| - |ref|..] == ref
            && ((exists k :: SchemeAt(ref, Scheme, k)) ==> r == ref)
            && ((forall k :: !SchemeAt(ref, Scheme, k)) ==> r == Join(FetchBase(page), ref))
  {
    SchemeMatchSpec(ref, Scheme);
    JoinSpec(FetchBase(page), ref);
  }

  /**
   * On a page `dir/last` with a non-empty path, a reference without a scheme lands in
   * `dir`, not under `dir/last`; a root-relative `/x` becomes `dir/x`.
   */
  lemma UrlForOnDirectory(page: Page, ref: string, dir: string, last: string)
    requires page.path != [] && page.url == dir + "/" + last
    requires dir != [] && dir[|dir| - 1] != '/'
    requires last != [] && forall j :: 0 <= j < |last| ==> last[j] != '/'
    requires forall k :: !SchemeAt(ref, Scheme, k)
    ensures ref != [] && ref[0] == '/' ==> UrlFor(page, ref) == dir + ref
    ensures (ref == [] || ref[0] != '/') ==> UrlFor(page, ref) == dir + "/" + ref
  {
    DirnameOfChild(dir, last);
    UrlForSpec(page, ref);
    JoinSpec(dir, ref);
    assert StripTrailingSlashes(dir) == dir;
  }

  // ----------------------------------------------------------- localize_url

  /** First pass of `localize_url` (fetch.rb:92), with its character class as written. */
  function StripScheme(url: string): string {
    match SchemeMatch(url, SchemeAsWritten)
    case None => url
    case Some(k) => if k + 3 <= |url| then url[k + 3..] else url
  }

  /**
   * A URL without a match is kept; otherwise the longest `[|:alph]+://` prefix is cut off
   * the front, as the anchored `gsub` removes the one (greedy) match.
   */
  lemma StripSchemeSpec(url: string)
    ensures var r := StripScheme(url);
            && ((forall k :: !SchemeAt(url, SchemeAsWritten, k)) ==> r == url)
            && ((exists k :: SchemeAt(url, SchemeAsWritten, k)) ==> |r| + 3 < |url| && r == url[|url| - |r|..])
            && ((exists k :: SchemeAt(url, SchemeAsWritten, k)) ==>
                  && SchemeAt(url, SchemeAsWritten, |url| - |r| - 3)
                  && forall k :: |url| - |r| - 3 < k ==> !SchemeAt(url, SchemeAsWritten, k))
  {
    SchemeMatchSpec(url, SchemeAsWritten);
  }

  /** Second pass: `^[./]+` removed. */
  function StripLeadingDots(s: string): string {
    LeadingRunSpec(s, DotOrSlash);
    s[LeadingRun(s, DotOrSlash)..]
  }

  /** Only a prefix of dots and slashes goes, and all of it goes. */
  lemma StripLeadingDotsSpec(s: string)
    ensures var r := StripLeadingDots(s);
            && |r| <= |s| && r == s[|s| - |r|..]
            && (r == [] || !IsDotOrSlash(r[0]))
            && forall i :: 0 <= i < |s| - |r| ==> IsDotOrSlash(s[i])
  {
    LeadingRunSpec(s, DotOrSlash);
  }

  function SanitizeChar(c: char): char {
    if IsPathChar(c) then c else '_'
  }

  /** Third pass: every character outside `[-_./[:alnum:]]` becomes '_', one for one. */
  function Sanitize(s: string): string {
    if s == [] then [] else [SanitizeChar(s[0])] + Sanitize(s[1..])
  }

  /** Sanitising keeps the length, keeps every path character and turns every other one into '_'. */
  lemma {:induction false} SanitizeSpec(s: string)
    ensures |Sanitize(s)| == |s|
    ensures forall i :: 0 <= i < |s| ==> IsPathChar(Sanitize(s)[i])
    ensures forall i :: 0 <= i < |s| && IsPathChar(s[i]) ==> Sanitize(s)[i] == s[i]
    ensures forall i :: 0 <= i < |s| && !IsPathChar(s[i]) ==> Sanitize(s)[i] == '_'
  {
    if s != [] {
      SanitizeSpec(s[1..]);
      assert forall i :: 1 <= i < |s| ==> Sanitize(s)[i] == Sanitize(s[1..])[i - 1] && s[i] == s[1..][i - 1];
    }
  }

  lemma {:induction false} SanitizeIdempotent(s: string)
    ensures Sanitize(Sanitize(s)) == Sanitize(s)
  {
    if s != [] {
      SanitizeIdempotent(s[1..]);
      assert Sanitize(s)[1..] == Sanitize(s[1..]);
    }
  }

  /** The relative path `localize_url` puts under the category directory. */
  function RelativePart(url: string): string {
    Sanitize(StripLeadingDots(StripScheme(url)))
  }

  /** `localize_url(url, dir)`. */
  function LocalizeUrl(url: string, dir: string): string {
    Join(dir, RelativePart(url))
  }

  /**
   * The relative part is the sanitised form of a suffix of the reference, holds only
   * path characters and never starts with '.' or '/'.
   */
  lemma RelativePartShape(url: string)
    ensures exists j :: 0 <= j <= |url| && RelativePart(url) == Sanitize(url[j..])
    ensures |RelativePart(url)| <= |url|
    ensures forall i :: 0 <= i < |RelativePart(url)| ==> IsPathChar(RelativePart(url)[i])
    ensures RelativePart(url) == [] || (RelativePart(url)[0] != '.' && RelativePart(url)[0] != '/')
  {
    var a := StripScheme(url);
    var b := StripLeadingDots(a);
    StripSchemeSpec(url);
    StripLeadingDotsSpec(a);
    SanitizeSpec(b);
    var j := |url| - |b|;
    assert url[j..] == b by {
      assert a == url[|url| - |a|..];
      assert b == a[|a| - |b|..];
    }
    if b != [] {
      assert !IsDotOrSlash(b[0]);
    }
  }

  /**
   * `localize_url` puts the relative part under `dir`: right after `dir` when it already
   * ends with '/', after `dir + "/"` otherwise.
   */
  lemma LocalizeUrlUnderDir(url: string, dir: string)
    ensures dir != [] && dir[|dir| - 1] == '/' ==> LocalizeUrl(url, dir) == dir + RelativePart(url)
    ensures (dir == [] || dir[|dir| - 1] != '/') ==> LocalizeUrl(url, dir) == dir + "/" + RelativePart(url)
  {
    RelativePartShape(url);
    JoinSpec(dir, RelativePart(url));
  }

  /**
   * Because of the class on fetch.rb:92, an "http://" or "https://" reference keeps its
   * scheme: only its ':' is sanitised away.
   */
  lemma HttpSchemeKept(url: string)
    requires |url| >= 2 && url[0] == 'h' && url[1] == 't'
    ensures RelativePart(url) == Sanitize(url)
  {
    HttpNotMatchedAsWritten(url);
    assert LeadingRun(url, DotOrSlash) == 0;
  }

  /** So "http://" followed by a clean path is mapped to "http_//" followed by that path. */
  lemma HttpReferenceLocalized(rest: string)
    requires forall i :: 0 <= i < |rest| ==> IsPathChar(rest[i])
    ensures RelativePart("http://" + rest) == "http_//" + rest
  {
    var url := "http://" + rest;
    HttpSchemeKept(url);
    SanitizeSpec(url);
    var r := Sanitize(url);
    var want := "http_//" + rest;
    assert |r| == |want|;
    forall i | 0 <= i < 7 ensures r[i] == want[i] {
      assert url[i] == "http://"[i];
      assert want[i] == "http_//"[i];
      if i == 4 {
        assert !IsPathChar(url[i]);
      } else {
        assert IsPathChar(url[i]);
      }
    }
    forall i | 7 <= i < |url| ensures r[i] == want[i] {
      assert url[i] == rest[i - 7];
      assert want[i] == rest[i - 7];
    }
  }

  // ------------------------------------------------- file and folder names

  /** `"#{host}#{path}.html".tr('/', '_')`: the name of the saved page. */
  function FileName(page: Page): string {
    Tr(page.host + page.path + ".html", '/', '_')
  }

  /** The page file name is a single path segment as long as host, path and ".html" together. */
  lemma FileNameSpec(page: Page)
    ensures |FileName(page)| == |page.host| + |page.path| + 5
    ensures forall i :: 0 <= i < |FileName(page)| ==> FileName(page)[i] != '/'
  {
    TrSpec(page.host + page.path + ".html", '/', '_');
  }

  /** The file name with its first ".html" removed. */
  function FolderName(page: Page): string {
    SubFirst(FileName(page), ".html", "")
  }

  /** Removing ".html" cannot bring in a '/', so the folder name is a single path segment. */
  lemma FolderNameNoSlash(page: Page)
    ensures forall i :: 0 <= i < |FolderName(page)| ==> FolderName(page)[i] != '/'
  {
    var f := FileName(page);
    var r := FolderName(page);
    FileNameSpec(page);
    IndexFromSpec(f, ".html", 0);
    match IndexOf(f, ".html")
    case None =>
    case Some(k) =>
      assert r == f[..k] + f[k + 5..];
      forall i | 0 <= i < |r| ensures r[i] != '/' {
        if i < k { assert r[i] == f[i]; } else { assert r[i] == f[i + 5]; }
      }
  }

  /** `@source_path`: the page's folder under "sources". */
  function SourcePath(page: Page): string {
    SOURCE_FOLDER + "/" + FolderName(page)
  }

  /** The source path is "sources/" followed by one path segment. */
  lemma SourcePathSpec(page: Page)
    ensures StartsWith(SourcePath(page), SOURCE_FOLDER + "/")
    ensures forall i :: |SOURCE_FOLDER| < i < |SourcePath(page)| ==> SourcePath(page)[i] != '/'
  {
    FolderNameNoSlash(page);
    var r := SourcePath(page);
    assert forall i :: |SOURCE_FOLDER| < i < |r| ==> r[i] == FolderName(page)[i - |SOURCE_FOLDER| - 1];
  }

  /** `tr` only rewrites '/', so it neither creates nor destroys an occurrence of ".html". */
  lemma TrKeepsNoHtml(hp: string)
    requires forall j :: !OccursAt(hp, ".html", j)
    ensures forall j :: !OccursAt(Tr(hp, '/', '_'), ".html", j)
  {
    var x := Tr(hp, '/', '_');
    TrSpec(hp, '/', '_');
    forall j | OccursAt(x, ".html", j)
      ensures OccursAt(hp, ".html", j)
    {
      forall i | 0 <= i < 5 ensures hp[j + i] == ".html"[i] {
        assert x[j + i] == ".html"[i];
      }
    }
  }

  /** ".html" has no proper border, so in `x + ".html"` with no ".html" inside `x` the first occurrence is the appended one. */
  lemma FirstHtmlAtEnd(x: string)
    requires forall j :: !OccursAt(x, ".html", j)
    ensures IndexOf(x + ".html", ".html") == Some(|x|)
  {
    var f := x + ".html";
    IndexFromSpec(f, ".html", 0);
    forall j | 0 <= j < |x|
      ensures !OccursAt(f, ".html", j)
    {
      if j + 5 <= |x| {
        assert f[j..j + 5] == x[j..j + 5];
        assert !OccursAt(x, ".html", j);
        assert !OccursAt(f, ".html", j);
      } else if j + 5 <= |f| {
        var k := |x| - j;
        assert f[j..j + 5][k] == '.';
        assert f[j..j + 5] != ".html" by {
          if k == 1 { assert ".html"[1] == 'h'; }
          else if k == 2 { assert ".html"[2] == 't'; }
          else if k == 3 { assert ".html"[3] == 'm'; }
          else { assert ".html"[4] == 'l'; }
        }
        assert !OccursAt(f, ".html", j);
      }
    }
    assert OccursAt(f, ".html", |x|);
  }

  lemma FileNameSplit(page: Page)
    ensures FileName(page) == Tr(page.host + page.path, '/', '_') + ".html"
  {
    var hp := page.host + page.path;
    var f := FileName(page);
    var y := hp + ".html";
    TrSpec(y, '/', '_');
    TrSpec(hp, '/', '_');
    forall i | 0 <= i < |f| ensures f[i] == (Tr(hp, '/', '_') + ".html")[i] {
      if i < |hp| { assert y[i] == hp[i]; } else { assert y[i] == ".html"[i - |hp|]; }
    }
  }

  /** Removing the first ".html" from `x + ".html"` gives back `x` when `x` holds none. */
  lemma SubFirstHtmlAtEnd(x: string)
    requires forall j :: !OccursAt(x, ".html", j)
    ensures SubFirst(x + ".html", ".html", "") == x
  {
    FirstHtmlAtEnd(x);
    var f := x + ".html";
    assert f[..|x|] == x;
    assert f[|x| + 5..] == [];
  }

  /**
   * For a host and path without ".html", the folder is host and path with every '/'
   * turned into '_', and the page file is that name plus ".html".
   */
  lemma SourcePathPlain(page: Page)
    requires forall j :: !OccursAt(page.host + page.path, ".html", j)
    ensures FileName(page) == Tr(page.host + page.path, '/', '_') + ".html"
    ensures SourcePath(page) == "sources/" + Tr(page.host + page.path, '/', '_')
  {
    var x := Tr(page.host + page.path, '/', '_');
    FileNameSplit(page);
    TrKeepsNoHtml(page.host + page.path);
    SubFirstHtmlAtEnd(x);
    assert FolderName(page) == x;
    assert SOURCE_FOLDER + "/" == "sources/";
  }
}
