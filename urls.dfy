/** The parts of the `url.URL` class that the user agent relies on. Parsing a
    string and printing a URL back are left abstract: they are the two functions
    of a `UrlSyntax` value, so every property proved here holds for any parser. */
module Urls {
  import opened Wrappers
  import Text

  /** A split URL: `scheme`, `host`, `port` (None when the URL names none) and
      the path-plus-query `request_uri` sent on the request line. */
  datatype Url = Url(scheme: string, host: string, port: Option<nat>, requestUri: string) {

    /** `URL.netloc`: the host, followed by `:port` when a port is given. */
    function Netloc(): (r: string)
      ensures r == "" <==> host == "" && port.None?
    {
      if port.None? then host else host + ":" + Text.Decimal(port.value)
    }

    /** The part a relative redirect inherits from the request it answers. */
    function Origin(): (string, string, Option<nat>) {
      (scheme, host, port)
    }
  }

  /** `URL(text)` and `str(url)`. */
  datatype UrlSyntax = UrlSyntax(parse: string -> Url, show: Url -> string)

  /** What `CompatRequest.set_url` accepts: a string, or an already split URL. */
  datatype UrlLike = Address(text: string) | Parsed(url: Url)

  /** The `url` and `url_split` attributes that `set_url` stores for `target`. */
  function Fields(target: UrlLike, syntax: UrlSyntax): (r: (string, Url))
    ensures target.Parsed? ==> r.1 == target.url && r.0 == syntax.show(r.1)
    ensures target.Address? ==> r.0 == target.text && r.1 == syntax.parse(r.0)
  {
    match target
    case Address(text) => (text, syntax.parse(text))
    case Parsed(url) => (syntax.show(url), url)
  }

  /** The target of a redirect: the `location` value parsed, and, when it names
      no network location, given the scheme, host and port of `current`. */
  function Resolve(current: Url, location: string, syntax: UrlSyntax): (r: Url)
    ensures r.requestUri == syntax.parse(location).requestUri
    ensures syntax.parse(location).Netloc() != "" ==> r == syntax.parse(location)
    ensures syntax.parse(location).Netloc() == "" ==> r.Origin() == current.Origin()
    ensures current.Netloc() != "" ==> r.Netloc() != ""
  {
    var u := syntax.parse(location);
    if u.Netloc() == "" then u.(scheme := current.scheme, host := current.host, port := current.port)
    else u
  }

  /** Following a chain of `location` values one hop after another. */
  function ResolveAll(current: Url, locations: seq<string>, syntax: UrlSyntax): Url
    decreases |locations|
  {
    if locations == [] then current
    else ResolveAll(Resolve(current, locations[0], syntax), locations[1..], syntax)
  }

  /** The origin a chain of redirects ends at: that of the last location that
      names a network location, or the starting URL's when none does. */
  function ChainOrigin(current: Url, locations: seq<string>, syntax: UrlSyntax): (string, string, Option<nat>)
    decreases |locations|
  {
    if locations == [] then current.Origin()
    else
      var last := syntax.parse(locations[|locations| - 1]);
      if last.Netloc() != "" then last.Origin()
      else ChainOrigin(current, locations[..|locations| - 1], syntax)
  }

  lemma {:induction false} ResolveAllSnoc(current: Url, locations: seq<string>, location: string, syntax: UrlSyntax)
    ensures ResolveAll(current, locations + [location], syntax)
         == Resolve(ResolveAll(current, locations, syntax), location, syntax)
    decreases |locations|
  {
    if locations != [] {
      assert (locations + [location])[1..] == locations[1..] + [location];
      ResolveAllSnoc(Resolve(current, locations[0], syntax), locations[1..], location, syntax);
    }
  }

  /** Redirects chain: every relative hop inherits from the request it answers,
      which is the previous hop's target and not the URL first asked for. */
  lemma {:induction false} ResolveAllOrigin(current: Url, locations: seq<string>, syntax: UrlSyntax)
    ensures ResolveAll(current, locations, syntax).Origin() == ChainOrigin(current, locations, syntax)
    decreases |locations|
  {
    if locations != [] {
      var init := locations[..|locations| - 1];
      var last := locations[|locations| - 1];
      assert locations == init + [last];
      ResolveAllSnoc(current, init, last, syntax);
      ResolveAllOrigin(current, init, syntax);
    }
  }
}
