/**
 * `WebpageCrawler`'s asset pass: choosing a tag's URL attribute, downloading the asset and
 * rewriting the attribute (`localize_asset`), the per-category loop that survives failures
 * (`save_asset`), and the object whose fields `fetch` and `save_contents` set.
 */
module Crawler {
  import opened Wrappers
  import opened RubyStrings
  import opened RubyFile
  import opened PathMapper
  import opened Fetcher

  const ERROR_MAX_LENGTH := 100

  /** What `File.join` raises when a tag has neither `src` nor `href`. */
  const NIL_URL_MESSAGE := "no implicit conversion of nil into String"

  datatype Attr = Src | Href

  /** An asset element, as far as the crawler looks at it: its `src` and `href` attributes. */
  datatype Tag = Tag(src: Option<string>, href: Option<string>) {
    function Get(a: Attr): Option<string> {
      if a == Src then src else href
    }

    function Set(a: Attr, v: string): (t: Tag)
      ensures t.Get(a) == Some(v)
      ensures a == Src ==> t.href == href
      ensures a == Href ==> t.src == src
    {
      if a == Src then this.(src := Some(v)) else this.(href := Some(v))
    }
  }

  /** What `download_asset(asset_url, destination)` did: saved the file, or raised. */
  datatype Outcome = Saved | Raised(message: string)

  /** The selections of fetch.rb:41-47, each list in the order the selection returns it. */
  datatype AssetTags = AssetTags(images: seq<Tag>, scripts: seq<Tag>, stylesheets: seq<Tag>)

  /** `tag[:src] ? :src : :href`: a present `src`, even an empty one, wins. */
  function UrlAttribute(t: Tag): (a: Attr)
    ensures a == Src <==> t.src.Some?
  {
    if t.src.Some? then Src else Href
  }

  /** The value written back: the source path, '/', and what follows `File.dirname(dir) + "/"` in the destination. */
  function RewrittenValue(sourcePath: string, dir: string, destination: string): string {
    sourcePath + "/" + PartitionLast(destination, Dirname(dir) + "/")
  }

  /**
   * `localize_asset(tag, dir)`: the tag's URL is resolved and mapped to a destination, the
   * asset is downloaded, and only then is the chosen attribute rewritten. A missing URL
   * or a failed download is an error, and the tag is then left as it was.
   */
  function LocalizeAsset(t: Tag, page: Page, sourcePath: string, dir: string,
                         download: (string, string) -> Outcome): Result<Tag>
  {
    var a := UrlAttribute(t);
    match t.Get(a)
    case None => Err(NIL_URL_MESSAGE)
    case Some(url) =>
      var destination := LocalizeUrl(url, dir);
      match download(UrlFor(page, url), destination)
      case Raised(m) => Err(m)
      case Saved => Ok(t.Set(a, RewrittenValue(sourcePath, dir, destination)))
  }

  /**
   * A tag is localized exactly when it has a URL and the download of that URL's fetch
   * address to its local destination succeeds; a missing URL fails with `File.join`'s
   * message and a failed download with the download's own. Only the chosen attribute
   * is rewritten.
   */
  lemma LocalizeAssetSpec(t: Tag, page: Page, sourcePath: string, dir: string,
                          download: (string, string) -> Outcome)
    ensures var r := LocalizeAsset(t, page, sourcePath, dir, download);
            var a := UrlAttribute(t);
            && (r.Ok? <==> (t.Get(a).Some? &&
                            download(UrlFor(page, t.Get(a).value), LocalizeUrl(t.Get(a).value, dir)) == Saved))
            && (t.Get(a).None? ==> r == Err(NIL_URL_MESSAGE))
            && (t.Get(a).Some? && r.Err? ==>
                  download(UrlFor(page, t.Get(a).value), LocalizeUrl(t.Get(a).value, dir)) == Raised(r.error))
            && (r.Ok? ==> UrlAttribute(r.value) == a)
            && (r.Ok? && a == Src ==> r.value.href == t.href)
            && (r.Ok? && a == Href ==> r.value.src == t.src)
  {
  }

  /**
   * Under a category directory `sp/category`, the partition at `File.dirname(dir) + "/"`
   * finds `sp/` at the very start of a destination `dir/part`, so the rewritten value is
   * the destination itself.
   */
  lemma RewrittenValueUnderCategory(sp: string, category: string, part: string)
    requires sp != [] && sp[|sp| - 1] != '/'
    requires category != [] && forall j :: 0 <= j < |category| ==> category[j] != '/'
    ensures RewrittenValue(sp, sp + "/" + category, sp + "/" + category + "/" + part)
              == sp + "/" + category + "/" + part
  {
    var dir := sp + "/" + category;
    var destination := dir + "/" + part;
    var prefix := sp + "/";
    var rest := category + "/" + part;
    DirnameOfChild(sp, category);
    assert destination == prefix + rest;
    assert StartsWith(destination, prefix) by { assert (prefix + rest)[..|prefix|] == prefix; }
    IndexOfPrefix(destination, prefix);
    assert (prefix + rest)[|prefix|..] == rest;
    assert PartitionLast(destination, prefix) == rest;
  }

  /**
   * With the page's own source path and a category directory under it, the rewritten
   * attribute is exactly the destination `localize_url` chose.
   */
  lemma RewriteIsDestination(page: Page, category: string, t: Tag, download: (string, string) -> Outcome)
    requires FolderName(page) != []
    requires category != [] && forall j :: 0 <= j < |category| ==> category[j] != '/'
    ensures var dir := SourcePath(page) + "/" + category;
            var r := LocalizeAsset(t, page, SourcePath(page), dir, download);
            r.Ok? ==> r.value.Get(UrlAttribute(t)) == Some(LocalizeUrl(t.Get(UrlAttribute(t)).value, dir))
  {
    var sp := SourcePath(page);
    var dir := sp + "/" + category;
    LocalizeAssetSpec(t, page, sp, dir, download);
    if t.Get(UrlAttribute(t)).None? {
      return;
    }
    var url := t.Get(UrlAttribute(t)).value;
    FolderNameNoSlash(page);
    assert sp[|sp| - 1] == FolderName(page)[|FolderName(page)| - 1];
    LocalizeUrlUnderDir(url, dir);
    RewrittenValueUnderCategory(sp, category, RelativePart(url));
  }

  /** `localize_asset` with everything but the tag fixed: one turn of `save_asset`. */
  function LocalizeStep(page: Page, sourcePath: string, dir: string,
                        download: (string, string) -> Outcome): Tag -> Result<Tag> {
    t => LocalizeAsset(t, page, sourcePath, dir, download)
  }

  /** A tag after its turn: rewritten on success, untouched on failure. */
  function AfterTurn(t: Tag, step: Tag -> Result<Tag>): Tag {
    match step(t)
    case Ok(t') => t'
    case Err(_) => t
  }

  /** The tags after `save_asset` has given each of them its turn, in order. */
  function SavedTags(tags: seq<Tag>, step: Tag -> Result<Tag>): (r: seq<Tag>)
    ensures |r| == |tags|
  {
    if tags == [] then [] else SavedTags(tags[..|tags| - 1], step) + [AfterTurn(tags[|tags| - 1], step)]
  }

  /** The line printed for a failed asset: the message cut to `ERROR_MAX_LENGTH` characters. */
  function LogLine(dir: string, message: string): (line: string)
    ensures var p := Truncate(message, ERROR_MAX_LENGTH);
            line == "One asset failed to save to " + dir + ": " + p && |p| <= 100 && StartsWith(message, p)
  {
    "One asset failed to save to " + dir + ": " + Truncate(message, ERROR_MAX_LENGTH)
  }

  /** What one turn prints: nothing on success, one line on failure. */
  function TurnLog(t: Tag, dir: string, step: Tag -> Result<Tag>): seq<string> {
    match step(t)
    case Ok(_) => []
    case Err(m) => [LogLine(dir, m)]
  }

  /** The lines `save_asset` prints: one per failed tag, in order. */
  function SaveLog(tags: seq<Tag>, dir: string, step: Tag -> Result<Tag>): (log: seq<string>)
    ensures |log| <= |tags|
  {
    if tags == [] then [] else SaveLog(tags[..|tags| - 1], dir, step) + TurnLog(tags[|tags| - 1], dir, step)
  }

  /**
   * Every tag gets its turn whatever happened to the others: the i-th tag afterwards is
   * the i-th tag as its own turn left it, unchanged when that turn failed.
   */
  lemma {:induction false} SavedTagsAt(tags: seq<Tag>, step: Tag -> Result<Tag>, i: nat)
    requires i < |tags|
    ensures step(tags[i]).Err? ==> SavedTags(tags, step)[i] == tags[i]
    ensures step(tags[i]).Ok? ==> SavedTags(tags, step)[i] == step(tags[i]).value
  {
    if i < |tags| - 1 {
      SavedTagsAt(tags[..|tags| - 1], step, i);
    }
  }

  /** Nothing is printed exactly when every tag of the category was localized. */
  lemma {:induction false} SaveLogEmptyIffAllSaved(tags: seq<Tag>, dir: string, step: Tag -> Result<Tag>)
    ensures SaveLog(tags, dir, step) == [] <==> forall i :: 0 <= i < |tags| ==> step(tags[i]).Ok?
  {
    if tags != [] {
      var init := tags[..|tags| - 1];
      SaveLogEmptyIffAllSaved(init, dir, step);
      assert forall i :: 0 <= i < |init| ==> init[i] == tags[i];
    }
  }

  /**
   * The loop of `save_asset`: each tag in turn is given to `step`; a success replaces the
   * tag in place, a failure is logged and the loop goes on with the next tag.
   */
  method SaveEach(tags: array<Tag>, dir: string, step: Tag -> Result<Tag>) returns (log: seq<string>)
    modifies tags
    ensures tags[..] == SavedTags(old(tags[..]), step)
    ensures log == SaveLog(old(tags[..]), dir, step)
  {
    ghost var before := tags[..];
    log := [];
    var i := 0;
    while i < tags.Length
      invariant 0 <= i <= tags.Length
      invariant tags[..i] == SavedTags(before[..i], step)
      invariant tags[i..] == before[i..]
      invariant log == SaveLog(before[..i], dir, step)
    {
      assert before[..i + 1][..i] == before[..i];
      assert tags[i] == before[i];
      match step(tags[i]) {
        case Ok(t) =>
          tags[i] := t;
        case Err(m) =>
          log := log + [LogLine(dir, m)];
      }
      assert tags[..i + 1] == tags[..i] + [tags[i]];
      i := i + 1;
    }
    assert before[..i] == before;
    assert tags[..i] == tags[..];
  }

  /** A fresh array holding the selected tags, in the order the selection returned them. */
  method TagArray(tags: seq<Tag>) returns (a: array<Tag>)
    ensures fresh(a) && a[..] == tags
  {
    a := new Tag[|tags|](i requires 0 <= i < |tags| => tags[i]);
  }

  /** Every line printed is the truncated error of a tag of the category whose turn failed. */
  lemma {:induction false} SaveLogFromFailures(tags: seq<Tag>, dir: string, step: Tag -> Result<Tag>)
    ensures forall k :: 0 <= k < |SaveLog(tags, dir, step)| ==>
              exists i :: 0 <= i < |tags| && step(tags[i]).Err? && SaveLog(tags, dir, step)[k] == LogLine(dir, step(tags[i]).error)
  {
    if tags != [] {
      var init := tags[..|tags| - 1];
      var last := tags[|tags| - 1];
      SaveLogFromFailures(init, dir, step);
      var log := SaveLog(tags, dir, step);
      assert log == SaveLog(init, dir, step) + TurnLog(last, dir, step);
      forall k | 0 <= k < |log|
        ensures exists i :: 0 <= i < |tags| && step(tags[i]).Err? && log[k] == LogLine(dir, step(tags[i]).error)
      {
        if k < |SaveLog(init, dir, step)| {
          var i :| 0 <= i < |init| && step(init[i]).Err? && SaveLog(init, dir, step)[k] == LogLine(dir, step(init[i]).error);
          assert init[i] == tags[i];
        } else {
          assert step(last).Err? && log[k] == LogLine(dir, step(last).error);
          assert tags[|tags| - 1] == last;
        }
      }
    } else {
      assert SaveLog(tags, dir, step) == [];
    }
  }

  /** The number of tags whose turn fails, counted from the front. */
  function Failures(tags: seq<Tag>, step: Tag -> Result<Tag>): nat {
    if tags == [] then 0 else (if step(tags[0]).Err? then 1 else 0) + Failures(tags[1..], step)
  }

  /** Counting from the front or from the back gives the same number of failures. */
  lemma {:induction false} FailuresSnoc(tags: seq<Tag>, step: Tag -> Result<Tag>)
    requires tags != []
    ensures Failures(tags, step)
              == Failures(tags[..|tags| - 1], step) + (if step(tags[|tags| - 1]).Err? then 1 else 0)
  {
    if |tags| > 1 {
      FailuresSnoc(tags[1..], step);
      assert tags[1..][..|tags[1..]| - 1] == tags[..|tags| - 1][1..];
    }
  }

  /** `save_asset` prints exactly as many lines as there are failed tags. */
  lemma {:induction false} SaveLogCountsFailures(tags: seq<Tag>, dir: string, step: Tag -> Result<Tag>)
    ensures |SaveLog(tags, dir, step)| == Failures(tags, step)
  {
    if tags != [] {
      SaveLogCountsFailures(tags[..|tags| - 1], dir, step);
      FailuresSnoc(tags, step);
    }
  }

  /**
   * The failed tag at index i prints its own line, right after the lines of the failures
   * before it; with `SaveLogCountsFailures`, the log is the failures' lines in tag order.
   */
  lemma {:induction false} FailureLoggedAt(tags: seq<Tag>, dir: string, step: Tag -> Result<Tag>, i: nat)
    requires i < |tags| && step(tags[i]).Err?
    ensures Failures(tags[..i], step) < |SaveLog(tags, dir, step)|
    ensures SaveLog(tags, dir, step)[Failures(tags[..i], step)] == LogLine(dir, step(tags[i]).error)
  {
    var init := tags[..|tags| - 1];
    assert SaveLog(tags, dir, step) == SaveLog(init, dir, step) + TurnLog(tags[|tags| - 1], dir, step);
    if i == |tags| - 1 {
      assert tags[..i] == init;
      SaveLogCountsFailures(init, dir, step);
    } else {
      FailureLoggedAt(init, dir, step, i);
      assert init[..i] == tags[..i];
      assert init[i] == tags[i];
    }
  }

  /** The crawler for one page: `initialize` fixes the page; `fetch` and `save_contents` set the rest. */
  class WebpageCrawler {
    const uri: Page
    var imgTags: array<Tag>
    var jsTags: array<Tag>
    var cssTags: array<Tag>
    var sourcePath: string

    /** The three categories are separate selections. */
    ghost predicate Valid()
      reads this
    {
      imgTags != jsTags && jsTags != cssTags && imgTags != cssTags
    }

    /** `initialize(uri)`: host and path are what `URI.parse` gives for the chomped argument. */
    constructor (arg: string, host: string, path: string)
      ensures uri == NewPage(arg, host, path)
      ensures Valid() && sourcePath == ""
      ensures imgTags[..] == [] && jsTags[..] == [] && cssTags[..] == []
    {
      uri := NewPage(arg, host, path);
      imgTags := new Tag[0];
      jsTags := new Tag[0];
      cssTags := new Tag[0];
      sourcePath := "";
    }

    /** `save_asset(tags, dir)`: every tag of one category is localized under `dir` with this page's source path. */
    method SaveAsset(tags: array<Tag>, dir: string, download: (string, string) -> Outcome)
      returns (log: seq<string>)
      modifies tags
      ensures tags[..] == SavedTags(old(tags[..]), LocalizeStep(uri, sourcePath, dir, download))
      ensures log == SaveLog(old(tags[..]), dir, LocalizeStep(uri, sourcePath, dir, download))
    {
      log := SaveEach(tags, dir, LocalizeStep(uri, sourcePath, dir, download));
    }

    /** `save_contents`: the page folder is named, then images, scripts and stylesheets are localized under it. */
    method SaveContents(download: (string, string) -> Outcome) returns (log: seq<string>)
      requires Valid()
      modifies this, imgTags, jsTags, cssTags
      ensures Valid() && imgTags == old(imgTags) && jsTags == old(jsTags) && cssTags == old(cssTags)
      ensures sourcePath == SourcePath(uri)
      ensures imgTags[..] == SavedTags(old(imgTags[..]), LocalizeStep(uri, sourcePath, sourcePath + "/images", download))
      ensures jsTags[..] == SavedTags(old(jsTags[..]), LocalizeStep(uri, sourcePath, sourcePath + "/js", download))
      ensures cssTags[..] == SavedTags(old(cssTags[..]), LocalizeStep(uri, sourcePath, sourcePath + "/css", download))
      ensures log == SaveLog(old(imgTags[..]), sourcePath + "/images", LocalizeStep(uri, sourcePath, sourcePath + "/images", download))
                   + SaveLog(old(jsTags[..]), sourcePath + "/js", LocalizeStep(uri, sourcePath, sourcePath + "/js", download))
                   + SaveLog(old(cssTags[..]), sourcePath + "/css", LocalizeStep(uri, sourcePath, sourcePath + "/css", download))
    {
      sourcePath := SourcePath(uri);
      var images := SaveAsset(imgTags, sourcePath + "/images", download);
      var scripts := SaveAsset(jsTags, sourcePath + "/js", download);
      var stylesheets := SaveAsset(cssTags, sourcePath + "/css", download);
      log := images + scripts + stylesheets;
    }

    /**
     * `fetch`: get the page, let the HTML library select the asset tags, save them; an
     * error on the page is reported and ends the run for this page.
     */
    method Fetch(server: string -> Response, select: string -> AssetTags, download: (string, string) -> Outcome)
      returns (log: seq<string>)
      requires Valid()
      modifies this
      ensures Valid()
      ensures GetHtml(uri.url, server).Err? ==>
                && log == ["\nFetching " + uri.url + "..."]
                          + ["\U{274C} Error while fetching " + uri.url + ": " + GetHtml(uri.url, server).error]
                && imgTags == old(imgTags) && jsTags == old(jsTags) && cssTags == old(cssTags)
                && sourcePath == old(sourcePath)
      ensures GetHtml(uri.url, server).Ok? ==>
                var found := select(GetHtml(uri.url, server).value);
                && fresh(imgTags) && fresh(jsTags) && fresh(cssTags)
                && sourcePath == SourcePath(uri)
                && imgTags[..] == SavedTags(found.images, LocalizeStep(uri, sourcePath, sourcePath + "/images", download))
                && jsTags[..] == SavedTags(found.scripts, LocalizeStep(uri, sourcePath, sourcePath + "/js", download))
                && cssTags[..] == SavedTags(found.stylesheets, LocalizeStep(uri, sourcePath, sourcePath + "/css", download))
                && log == ["\nFetching " + uri.url + "..."]
                          + (SaveLog(found.images, sourcePath + "/images", LocalizeStep(uri, sourcePath, sourcePath + "/images", download))
                             + SaveLog(found.scripts, sourcePath + "/js", LocalizeStep(uri, sourcePath, sourcePath + "/js", download))
                             + SaveLog(found.stylesheets, sourcePath + "/css", LocalizeStep(uri, sourcePath, sourcePath + "/css", download)))
                          + ["\U{2705} Done"]
    {
      log := ["\nFetching " + uri.url + "..."];
      var page := GetHtml(uri.url, server);
      if page.Err? {
        log := log + ["\U{274C} Error while fetching " + uri.url + ": " + page.error];
        return;
      }
      var found := select(page.value);
      imgTags := TagArray(found.images);
      jsTags := TagArray(found.scripts);
      cssTags := TagArray(found.stylesheets);
      var saved := SaveContents(download);
      log := log + saved + ["\U{2705} Done"];
    }
  }
}
