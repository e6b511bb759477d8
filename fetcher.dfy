/**
 * `get_html` (fetch.rb:32-38): one `get_response`, at most one redirect hop, then one
 * `get` whose body is returned. The network is a parameter: `server` answers each URL.
 */
module Fetcher {
  import opened Wrappers

  /**
   * What the network gives back for one request: a status code, the Location header
   * when there is one, and the body; or the exception raised when the host cannot be reached.
   */
  datatype Response = Response(code: string, location: Option<string>, body: string)
                    | Unreachable(message: string)

  /** `URI.parse(nil)` raises with this message when a redirect carries no Location. */
  const NIL_LOCATION_MESSAGE := "bad URI(is not URI?): nil"

  /** `%w[301 302 307].include?(code)` */
  predicate IsRedirect(code: string) {
    code == "301" || code == "302" || code == "307"
  }

  /** The URL of the second request, chosen from the first response (fetch.rb:35). */
  function SecondTarget(url: string, first: Response): (r: Result<string>)
    requires first.Response?
    ensures r.Ok? && r.value != url ==> IsRedirect(first.code) && first.location == Some(r.value)
    ensures IsRedirect(first.code) && first.location.Some? ==> r == Ok(first.location.value)
    ensures !IsRedirect(first.code) ==> r == Ok(url)
    ensures r.Err? <==> IsRedirect(first.code) && first.location.None?
  {
    if IsRedirect(first.code) then
      match first.location
      case None => Err(NIL_LOCATION_MESSAGE)
      case Some(l) => Ok(l)
    else Ok(url)
  }

  /** A 308 answer is not followed: the second request goes to the original URL. */
  lemma PermanentRedirectNotFollowed(url: string, l: string, b: string)
    ensures SecondTarget(url, Response("308", Some(l), b)) == Ok(url)
  {
    assert !IsRedirect("308") by { assert "308"[2] != "301"[2] && "308"[2] != "302"[2] && "308"[2] != "307"[2]; }
  }

  /**
   * `get_html(url)`: without a redirect code the page's own body (asked for twice, answered
   * alike); with one, the body at the Location, whatever that answer's own status: a
   * second redirect is not followed. Reaching no host, or a redirect without a Location, fails.
   */
  function GetHtml(url: string, server: string -> Response): (r: Result<string>)
    ensures server(url).Unreachable? ==> r == Err(server(url).message)
    ensures server(url).Response? && !IsRedirect(server(url).code) ==> r == Ok(server(url).body)
    ensures server(url).Response? && IsRedirect(server(url).code) && server(url).location.None? ==>
              r == Err(NIL_LOCATION_MESSAGE)
    ensures server(url).Response? && IsRedirect(server(url).code) && server(url).location.Some? ==>
              var l := server(url).location.value;
              r == (if server(l).Response? then Ok(server(l).body) else Err(server(l).message))
  {
    match server(url)
    case Unreachable(m) => Err(m)
    case Response(_, _, _) =>
      match SecondTarget(url, server(url))
      case Err(m) => Err(m)
      case Ok(t) =>
        match server(t)
        case Unreachable(m) => Err(m)
        case Response(_, _, body) => Ok(body)
  }
}
