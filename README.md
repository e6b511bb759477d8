# WebpageCrawler in Dafny

A model of the page mirror `fetch.rb`. Its class `WebpageCrawler` takes a page URL
and fetches the HTML, following at most one redirect. It then downloads every image,
script and stylesheet the page references into a folder under `sources/`, and
rewrites each of those tags to point at the local copy. This project models that
class's deterministic core and proves properties of it:

- building the page record, with one trailing '/' chomped;
- the choice of the second request in `get_html`;
- `url_for`, `localize_url` and the Ruby `File.join` / `File.dirname` they rely on;
- the page's file and folder names;
- `localize_asset`;
- the `save_asset` loop that survives failures;
- the fields that `fetch` and `save_contents` set.

Modules:

- `RubyStrings`: `chomp`, `tr`, `sub`, `partition` and slicing.
- `RubyFile`: `File.join`, `File.dirname`.
- `Patterns`: the bracket classes and the anchored `^[…]+://` match, with the regex engine's backtracking.
- `PathMapper`: the page record, `url_for`, `localize_url` and the file and folder names.
- `Fetcher`: `get_html`, with the network as a function from URL to response.
- `Crawler`: the tag rewrite, the per-category loop and the `WebpageCrawler` class. The class's arrays of tags are updated in place.

Two behaviours of the code are modelled as written.

**The scheme pattern in `localize_url`.** On fetch.rb:92 the class reads `[|[:alpha]]`, not `[|[:alpha:]]` as on fetch.rb:101. It therefore holds only the six characters `|`, `:`, `a`, `l`, `p`, `h`. So "http://" and "https://" prefixes are *not* removed: the ':' is sanitised to '_', and `http://cdn.example/x.js` is stored under `<dir>/http_//cdn.example/x.js`. Only a scheme spelt from those six characters is stripped (`Patterns.HttpNotMatchedAsWritten`, `PathMapper.HttpReferenceLocalized`). The source's own comment on that line, "Remove URL scheme", therefore holds only for such schemes.

**`get_html` does not fail on an error status.** The second request uses `Net::HTTP.get`, which returns the body whatever the status. So a 404 or 500 page is returned as the page's HTML, and a second redirect's body is returned as is. In the model `get_html` fails in two cases: the host cannot be reached, or a 301/302/307 answer has no Location (`URI.parse(nil)` raises). Other failures of the redirect hop are folded into an unreachable answer for the Location (see "## Left out"). `Fetcher.GetHtml` states exactly this.

## Model

| member | source | states |
|---|---|---|
| RubyStrings.Chomp | fetch.rb:13 | one trailing character equal to the argument is removed, and nothing else changes |
| RubyStrings.Tr | fetch.rb:55 | `tr` with single characters; its contract is `RubyStrings.TrSpec` |
| RubyStrings.TrSpec | fetch.rb:55 | `tr` keeps the length, replaces every `from` by `to` and keeps every other character in place |
| RubyStrings.IndexFromSpec | fetch.rb:56 | the index found is the leftmost occurrence at or after the start; None means there is no occurrence at all |
| RubyStrings.IndexOfPrefix | fetch.rb:87 | a separator that starts the string is found at index 0 |
| RubyStrings.SubFirst | fetch.rb:56 | `sub` with a literal pattern replaces only the first occurrence found by `IndexOf`; `PathMapper.SubFirstHtmlAtEnd` states it for the folder name |
| RubyStrings.PartitionLast | fetch.rb:87 | `partition(sep).last`, the text after the first `sep`; `Crawler.RewrittenValueUnderCategory` states it for the rewritten value |
| RubyStrings.Truncate | fetch.rb:75 | `message[0...n]` is a prefix of the message, at most n long; the whole message when it is short enough, exactly n characters otherwise |
| RubyFile.StripTrailingSlashesSpec | fetch.rb:96 | stripping leaves a prefix that does not end in '/', and everything removed was '/' |
| RubyFile.LastSlashSpec | fetch.rb:103 | the index found holds a '/' with no '/' after it; None means the string has no '/' |
| RubyFile.Join | fetch.rb:96 | `File.join` with two parts, used here and on fetch.rb:103; its contract is `RubyFile.JoinSpec` |
| RubyFile.JoinSpec | fetch.rb:96 | `File.join(a, b)` ends with `b` and begins with `a` minus its trailing separators; exactly one '/' separates them unless `b` starts with '/' or `a` ends with one, and a leading '/' in `b` absorbs all trailing '/' of `a` |
| RubyFile.Dirname | fetch.rb:103 | `File.dirname`, used here and on fetch.rb:87; its contract is `RubyFile.DirnameSpec` with `RubyFile.DirnameOfRoot`, `RubyFile.DirnameNoSlash` and `RubyFile.DirnameAtLastSlash` |
| RubyFile.DirnameSpec | fetch.rb:103 | the directory is ".", "/" or a proper prefix of the path that ends just before a '/' and does not itself end with '/' |
| RubyFile.DirnameOfRoot | fetch.rb:103 | the empty path gives "." and a path of separators only gives "/" |
| RubyFile.DirnameNoSlash | fetch.rb:103 | a path with no separator apart from trailing ones gives "." |
| RubyFile.DirnameAtLastSlash | fetch.rb:103 | the directory is cut at the last separator of the path without its trailing separators: "/" when only separators precede it, else a non-empty prefix not ending in '/' followed only by separators up to that last one |
| RubyFile.DirnameOfChild | fetch.rb:87 | the directory of `a/c` is `a` when `c` is one non-empty segment and `a` does not end with '/' |
| Patterns.LeadingRunSpec | fetch.rb:92-93 | the greedy run of a bracket class covers a prefix of class characters and stops at the first character outside the class |
| Patterns.BackOffSpec | fetch.rb:101 | backtracking from a run of class characters finds the longest run length followed by "://", or proves that no length up to the run matches |
| Patterns.SchemeMatch | fetch.rb:92 | the anchored `^[…]+://` match, here and on fetch.rb:101; its contract is `Patterns.SchemeMatchSpec` |
| Patterns.SchemeMatchSpec | fetch.rb:92 | `^[class]+://` matches at the longest class run followed by "://", and when it fails no run length matches |
| Patterns.SchemeMatchPosix | fetch.rb:101 | with the letter-or-bar class, the pattern matches exactly when the leading run is non-empty and followed by "://", and then the run is the whole leading run |
| Patterns.HttpNotMatchedAsWritten | fetch.rb:92 | with the class as written, no string that starts with "ht" matches, so "http://" and "https://" keep their scheme |
| PathMapper.NewPage | fetch.rb:12-14 | the page URL is the argument with one trailing '/' removed, or the argument itself when it has none; host and path are taken as given |
| PathMapper.UrlFor | fetch.rb:100-104 | `url_for`; its contract is `PathMapper.UrlForSpec` with `PathMapper.UrlForOnDirectory` |
| PathMapper.UrlForSpec | fetch.rb:100-104 | a reference with a scheme is returned unchanged; any other is `File.join` of the base and the reference, where the base is the page URL for an empty path and its dirname otherwise; the reference always ends the result |
| PathMapper.UrlForOnDirectory | fetch.rb:103 | on a page `dir/last` with a path, a relative reference resolves to `dir/ref`, and a root-relative `/x` to `dir/x` |
| PathMapper.StripScheme | fetch.rb:92 | first pass of `localize_url`; its contract is `PathMapper.StripSchemeSpec` |
| PathMapper.StripSchemeSpec | fetch.rb:92 | a URL without a match of `^[|:alph]+://` is kept; otherwise exactly the longest such prefix is cut off, leaving a suffix at least four characters shorter |
| PathMapper.StripLeadingDots | fetch.rb:93 | second pass; its contract is `PathMapper.StripLeadingDotsSpec` |
| PathMapper.StripLeadingDotsSpec | fetch.rb:93 | exactly the leading run of '.' and '/' is removed, so what remains does not start with either |
| PathMapper.Sanitize | fetch.rb:94 | third pass; its contract is `PathMapper.SanitizeSpec` with `PathMapper.SanitizeIdempotent` |
| PathMapper.SanitizeSpec | fetch.rb:94 | sanitising keeps the length, keeps every character of `[-_./[:alnum:]]` and turns every other character into '_' |
| PathMapper.SanitizeIdempotent | fetch.rb:94 | sanitising a sanitised string changes nothing |
| PathMapper.RelativePart | fetch.rb:92-94 | the three passes in order; its contract is `PathMapper.RelativePartShape` |
| PathMapper.LocalizeUrl | fetch.rb:91-97 | `localize_url`; its contract is `PathMapper.LocalizeUrlUnderDir` |
| PathMapper.RelativePartShape | fetch.rb:92-94 | the relative part is the sanitised form of a suffix of the reference, no longer than it, made only of path characters, and never starts with '.' or '/' |
| PathMapper.LocalizeUrlUnderDir | fetch.rb:96 | the local path is `dir/part`, or `dir` followed directly by `part` when `dir` already ends with '/' |
| PathMapper.HttpSchemeKept | fetch.rb:92-94 | for a reference starting with "ht", the relative part is the sanitised reference itself |
| PathMapper.HttpReferenceLocalized | fetch.rb:92-94 | "http://" followed by a clean path maps to "http_//" followed by that path |
| PathMapper.FileName | fetch.rb:55 | the page file name; its contract is `PathMapper.FileNameSpec` with `PathMapper.FileNameSplit` |
| PathMapper.FileNameSpec | fetch.rb:55 | the page file name is as long as host, path and ".html" together, and has no '/' |
| PathMapper.FolderName | fetch.rb:56 | the file name with its first ".html" removed; its contract is `PathMapper.FolderNameNoSlash` |
| PathMapper.FolderNameNoSlash | fetch.rb:56 | removing the first ".html" leaves a name without '/' |
| PathMapper.SourcePath | fetch.rb:56 | `@source_path`; its contract is `PathMapper.SourcePathSpec` with `PathMapper.SourcePathPlain` |
| PathMapper.SourcePathSpec | fetch.rb:56 | the source path is "sources/" followed by one path segment |
| PathMapper.TrKeepsNoHtml | fetch.rb:55 | turning '/' into '_' creates no occurrence of ".html" |
| PathMapper.FirstHtmlAtEnd | fetch.rb:56 | in `x + ".html"`, with no ".html" inside `x`, the first ".html" is the appended one |
| PathMapper.FileNameSplit | fetch.rb:55 | the page file name is host and path with '/' turned into '_', followed by ".html" |
| PathMapper.SubFirstHtmlAtEnd | fetch.rb:56 | `sub('.html', '')` on `x + ".html"` gives `x` back when `x` holds no ".html" |
| PathMapper.SourcePathPlain | fetch.rb:55-56 | for a host and path without ".html", the folder is "sources/" followed by host and path with '/' turned into '_' |
| Fetcher.IsRedirect | fetch.rb:35 | the redirect codes are exactly "301", "302" and "307"; `Fetcher.SecondTarget` and `Fetcher.PermanentRedirectNotFollowed` state its use |
| Fetcher.SecondTarget | fetch.rb:35 | the second request goes to the Location exactly when the code is 301, 302 or 307 and a Location is present, and to the original URL for every other code; a redirect without a Location is an error |
| Fetcher.PermanentRedirectNotFollowed | fetch.rb:35 | a 308 answer is not followed |
| Fetcher.GetHtml | fetch.rb:32-38 | an unreachable host fails; without a redirect code the page's own body is returned; a redirect without a Location fails with the `URI.parse(nil)` message; a redirect is followed one hop and that answer's body is returned whatever its status |
| Crawler.Tag.Set | fetch.rb:87 | setting an attribute gives it the new value and leaves the other attribute alone |
| Crawler.UrlAttribute | fetch.rb:82 | `src` is chosen exactly when the tag has a `src` |
| Crawler.LocalizeAsset | fetch.rb:81-88 | `localize_asset`; its contract is `Crawler.LocalizeAssetSpec` with `Crawler.RewriteIsDestination` |
| Crawler.RewrittenValue | fetch.rb:87 | the value written back; its contract is `Crawler.RewrittenValueUnderCategory` |
| Crawler.LocalizeAssetSpec | fetch.rb:81-88 | a tag is localized exactly when it has a URL and downloading the URL's fetch address to its local destination succeeds; a missing URL fails with `File.join`'s TypeError message and a failed download with its own message; only the chosen attribute changes |
| Crawler.RewrittenValueUnderCategory | fetch.rb:87 | under `sp/category`, the partition at `File.dirname(dir) + "/"` leaves the part after `sp/`, so the rewritten value is the destination itself |
| Crawler.RewriteIsDestination | fetch.rb:82-87 | with a non-empty folder name, a localized tag's chosen attribute becomes exactly the destination `localize_url` gave |
| Crawler.SavedTags | fetch.rb:72-77 | the loop leaves as many tags as it was given |
| Crawler.LogLine | fetch.rb:75 | the line names the directory and carries a prefix of the error message at most `ERROR_MAX_LENGTH` (100, fetch.rb:10) characters long |
| Crawler.SaveLog | fetch.rb:72-77 | at most one line is printed per tag |
| Crawler.SavedTagsAt | fetch.rb:72-77 | every tag gets its turn whatever happened before it: a failed tag keeps its old value, a localized one takes the rewritten value |
| Crawler.SaveLogEmptyIffAllSaved | fetch.rb:72-77 | nothing is printed exactly when every tag of the category was localized |
| Crawler.SaveLogFromFailures | fetch.rb:74-75 | every printed line is the truncated error of a tag whose turn failed |
| Crawler.Failures | fetch.rb:72-77 | the number of tags whose turn fails; `Crawler.SaveLogCountsFailures` ties it to the log |
| Crawler.FailuresSnoc | fetch.rb:72-77 | counting failures from the front or from the back gives the same number |
| Crawler.SaveLogCountsFailures | fetch.rb:72-77 | `save_asset` prints exactly as many lines as there are failed tags |
| Crawler.FailureLoggedAt | fetch.rb:74-75 | the failed tag at index i prints its line at the position after the lines of the failures before it; with `Crawler.SaveLogCountsFailures` the log is exactly the failures' lines, once each, in tag order |
| Crawler.SaveEach | fetch.rb:72-77 | the array afterwards holds each tag as its own turn left it, and the lines printed are those of the failed turns, in order |
| Crawler.TagArray | fetch.rb:21 | the selected tags are held in a fresh array, in the order the selection returned them |
| Crawler.WebpageCrawler.constructor | fetch.rb:12-14 | the page is the chomped argument with its host and path; no tags are selected yet |
| Crawler.WebpageCrawler.SaveAsset | fetch.rb:71-78 | every tag of the category is localized in place under `dir` with this page's source path, and one line is printed per failure |
| Crawler.WebpageCrawler.SaveContents | fetch.rb:50-62 | `@source_path` is set from the page, then images, scripts and stylesheets are saved in this order under `images`, `js` and `css` |
| Crawler.WebpageCrawler.Fetch | fetch.rb:16-27 | on a fetch error, only the error line is printed and no field changes; otherwise the selected tags are stored, localized and the run ends with "Done" |

## Left out

- Network: `Net::HTTP.get_response` and `Net::HTTP.get` are the `server` parameter of `Fetcher.GetHtml`. It is a function, so the two requests `get_html` makes to the same URL get the same answer.
- `download_asset` (fetch.rb:107-114) is the `download` parameter. It stands for the directory creation, the `URI.parse`, the nested `get_html` and the file write, and it reports whether they succeeded or raised with which message.
- HTML parsing, the XPath selections of `get_asset_tags` (fetch.rb:41-47) and serialisation are left out because they are a foreign library. They become the `select` parameter, which returns the three tag lists.
- Order of the script selection: `xpath` with two expressions (fetch.rb:43) returns the matches of the first, then those of the second, not document order. `select` returns the lists as the selection orders them; the model does not compute that order.
- Shared tags: a `<link rel="stylesheet" as="script">` is selected both as a script and as a stylesheet. Ruby then localizes the same node twice, and the css pass reads the href the js pass already rewrote. The model holds the two selections by value, so the second pass sees the original href.
- Tags as array elements: a tag is a record with optional `src` and `href`, held by value in the crawler's arrays. The rewritten tag therefore does not reach the parsed document, and the HTML file written at fetch.rb:65-67 is not modelled.
- `URI.parse` is left out because it is a library call. The page is given as its URL string, host and path, and a missing host is the empty string.
- `URI#to_s` normalisation: the crawler prints and resolves against `@uri.to_s` (fetch.rb:17, 26, 103), which lower-cases the scheme and drops a default port. The model uses the chomped argument itself, which is the same string only for an argument already in that normal form.
- `URI.parse` of a Location header (fetch.rb:35) also raises on a malformed Location, and `Net::HTTP.get` raises on a relative one such as "/login" (it has no host). The model does not tell these apart from an unreachable host: all of them are an `Unreachable` answer of `server` for that Location, with its message.
- Filesystem effects (`mkdir_p`, `rm_rf`, the page file) are left out as I/O. Their failures inside `save_contents`, which `fetch` would report, are not modelled either.
- Console output is modelled as returned lines rather than written out. The `ARGV` loop (fetch.rb:118-120) is left out.
- `[:alpha:]` and `[:alnum:]` are modelled for ASCII letters and digits only. Ruby also accepts other Unicode letters and digits.
- Inputs are taken to hold no newline, so `^` anchors at the start of the string only.
- Crawler.SavedTags: its own contract gives only the length; what each element is, and that every tag gets its turn, is stated by `Crawler.SavedTagsAt`.
- Crawler.SaveLog: its own contract gives only the bound on the number of lines; the exact lines, once per failure and in tag order, are stated by `Crawler.SaveLogCountsFailures` and `Crawler.FailureLoggedAt`, and `Crawler.SaveLogFromFailures` shows that no other line appears.
- RubyFile.Dirname: a run of several leading separators is kept, where Ruby collapses it to one ("//a/b" gives "//a" rather than "/a"). The crawler's page URLs start with a scheme and its category directories with "sources/", so it never reaches that case.
