/** The request side: the payload kinds `_make_request` distinguishes, its
    header decision table, and `CompatRequest`, the mutable request object that
    `urlopen` re-targets in place on every redirect. */
module Requests {
  import opened Wrappers
  import Text
  import Urls
  import Errors

  type Headers = map<string, string>

  /** A request body as the source sees it: nothing, a dict of form fields, a
      string, or some other object, known here by what `str()` makes of it and by
      its Python truth value. */
  datatype Payload =
    | NoPayload
    | Form(fields: map<string, string>)
    | Chars(text: string)
    | Object(shown: string, truthy: bool)

  /** The two foreign functions request construction calls: `urlencode(dict)`
      and `str(dict)`. */
  datatype Encoders = Encoders(urlencode: map<string, string> -> string, show: map<string, string> -> string)

  const FormUrlEncoded := "application/x-www-form-urlencoded; charset=utf-8"
  const OctetStream := "application/octet-stream"
  const Multipart := "multipart/form-data"

  /** `if payload:` */
  predicate Truthy(p: Payload) {
    match p
    case NoPayload => false
    case Form(fields) => |fields| > 0
    case Chars(text) => |text| > 0
    case Object(_, truthy) => truthy
  }

  /** `payload if isinstance(payload, basestring) else str(payload)` */
  function Stringified(p: Payload, enc: Encoders): string {
    match p
    case NoPayload => "None"
    case Form(fields) => enc.show(fields)
    case Chars(text) => text
    case Object(shown, _) => shown
  }

  /** Keyword arguments of `urlopen` become the payload when there is none, are
      merged into a dict payload (keywords win), and are dropped otherwise. */
  function WithKeywords(p: Payload, keywords: map<string, string>): (r: Payload)
    ensures |keywords| == 0 ==> r == p
    ensures |keywords| > 0 && !Truthy(p) ==> r == Form(keywords)
    ensures |keywords| > 0 && Truthy(p) && p.Form? ==>
              r.Form? && r.fields.Keys == p.fields.Keys + keywords.Keys &&
              (forall k :: k in keywords ==> r.fields[k] == keywords[k]) &&
              (forall k :: k in p.fields && k !in keywords ==> r.fields[k] == p.fields[k])
    ensures |keywords| > 0 && Truthy(p) && !p.Form? ==> r == p
  {
    if |keywords| == 0 then p
    else if !Truthy(p) then Form(keywords)
    else if p.Form? then Form(p.fields + keywords)
    else p
  }

  /** `req_headers.get('content-type', None)`, with both None and the empty
      string standing for "not set", as `not content_type` treats them. */
  function ContentType(h: Headers): string {
    if "content-type" in h then h["content-type"] else ""
  }

  datatype Prepared = Prepared(headers: Headers, payload: Payload)

  /** The decision table of `_make_request`: the call's headers are laid over
      the defaults, then the payload decides `content-type` and `content-length`. */
  function Prepare(defaults: Headers, headers: Headers, payload: Payload, enc: Encoders): (r: Result<Prepared, Errors.Failure>)
    // Without a payload the merged headers and the payload go through untouched.
    ensures !Truthy(payload) ==> r == Success(Prepared(defaults + headers, payload))
    // Only a payload under a preset multipart content-type fails, and it fails fast.
    ensures r.Failure? <==>
              Truthy(payload) && StartsWith(ContentType(defaults + headers), Multipart)
    ensures r.Failure? ==> r.error == Errors.NotImplemented
    // Every header of the call wins over a default, and only the two content
    // headers can differ from the merge.
    ensures r.Success? ==>
              (forall k :: k in defaults || k in headers ==> k in r.value.headers) &&
              (forall k :: k in r.value.headers && k != "content-type" && k != "content-length" ==>
                 (k in headers && r.value.headers[k] == headers[k]) ||
                 (k !in headers && k in defaults && r.value.headers[k] == defaults[k]))
    // A payload always leaves as a string whose length is declared.
    ensures r.Success? && Truthy(payload) ==>
              r.value.payload.Chars? &&
              "content-length" in r.value.headers &&
              r.value.headers["content-length"] == Text.Decimal(|r.value.payload.text|)
    ensures r.Success? && Truthy(payload) && ContentType(defaults + headers) == "" && payload.Form? ==>
              "content-type" in r.value.headers && r.value.headers["content-type"] == FormUrlEncoded &&
              r.value.payload.text == enc.urlencode(payload.fields)
    ensures r.Success? && Truthy(payload) && ContentType(defaults + headers) == "" && !payload.Form? ==>
              "content-type" in r.value.headers && r.value.headers["content-type"] == OctetStream &&
              r.value.payload.text == Stringified(payload, enc)
    ensures r.Success? && Truthy(payload) && ContentType(defaults + headers) != "" ==>
              r.value.headers["content-type"] == ContentType(defaults + headers) &&
              r.value.payload.text == Stringified(payload, enc)
  {
    var merged := defaults + headers;
    if !Truthy(payload) then Success(Prepared(merged, payload))
    else
      var contentType := ContentType(merged);
      if contentType == "" && payload.Form? then
        var body := enc.urlencode(payload.fields);
        Success(Prepared(merged["content-type" := FormUrlEncoded]["content-length" := Text.Decimal(|body|)], Chars(body)))
      else if contentType == "" then
        var body := Stringified(payload, enc);
        Success(Prepared(merged["content-type" := OctetStream]["content-length" := Text.Decimal(|body|)], Chars(body)))
      else if StartsWith(contentType, Multipart) then
        Failure(Errors.NotImplemented)
      else
        var body := Stringified(payload, enc);
        Success(Prepared(merged["content-length" := Text.Decimal(|body|)], Chars(body)))
  }

  /** `s.startswith(prefix)` */
  predicate StartsWith(s: string, prefix: string) {
    |prefix| <= |s| && s[..|prefix|] == prefix
  }

  /** The declared length of a prepared body reads back, with the same `int()`
      the response side uses, as the number of characters in the body. */
  lemma ContentLengthReadsBack(defaults: Headers, headers: Headers, payload: Payload, enc: Encoders)
    requires Truthy(payload)
    requires Prepare(defaults, headers, payload, enc).Success?
    ensures var p := Prepare(defaults, headers, payload, enc).value;
            Text.ParseInt(p.headers["content-length"]) == Some(|p.payload.text|)
  {
    var p := Prepare(defaults, headers, payload, enc).value;
    Text.IntTextRoundTrip(|p.payload.text|);
  }

  /** A snapshot of a `CompatRequest`: what the transport and the cookie jar see. */
  datatype Req = Req(url: string, urlSplit: Urls.Url, originalHost: string,
                     verb: string, headers: Headers, payload: Payload)

  /** The request object (`verb` is the source's `method` attribute, a
      reserved word here). `original_host` is taken from the first URL and never
      assigned again, so it is a constant here. */
  class CompatRequest {
    var url: string
    var urlSplit: Urls.Url
    const originalHost: string
    var verb: string
    var headers: Headers
    var payload: Payload

    constructor (target: Urls.UrlLike, verb: string, headers: Headers, payload: Payload, syntax: Urls.UrlSyntax)
      ensures (url, urlSplit) == Urls.Fields(target, syntax)
      ensures originalHost == urlSplit.Netloc()
      ensures this.verb == verb && this.headers == headers && this.payload == payload
    {
      var fields := Urls.Fields(target, syntax);
      url, urlSplit := fields.0, fields.1;
      originalHost := fields.1.Netloc();
      this.verb, this.headers, this.payload := verb, headers, payload;
    }

    function Snapshot(): (r: Req)
      reads this
    {
      Req(url, urlSplit, originalHost, verb, headers, payload)
    }

    /** `set_url`: `url` and `url_split` always change together. */
    method SetUrl(target: Urls.UrlLike, syntax: Urls.UrlSyntax)
      modifies this`url, this`urlSplit
      ensures (url, urlSplit) == Urls.Fields(target, syntax)
      ensures target.Parsed? ==> url == syntax.show(urlSplit)
    {
      var fields := Urls.Fields(target, syntax);
      url, urlSplit := fields.0, fields.1;
    }

    /** `for item in names: req.headers.discard(item)` */
    method DiscardHeaders(names: seq<string>)
      modifies this`headers
      ensures forall k :: k in headers <==> k in old(headers) && k !in names
      ensures forall k :: k in headers ==> headers[k] == old(headers)[k]
    {
      for i := 0 to |names|
        invariant forall k :: k in headers <==> k in old(headers) && k !in names[..i]
        invariant forall k :: k in headers ==> headers[k] == old(headers)[k]
      {
        headers := headers - {names[i]};
      }
    }
  }
}
