/** The response side: header lookup on the ordered multi-valued header list,
    the `content-encoding` dispatch of `_content`/`unzipped`, and
    `CompatResponse`, whose decoded body is computed once and then kept. */
module Responses {
  import opened Wrappers
  import Text

  type Bytes = seq<bv8>

  /** One header line as received: name and value. */
  type Header = (string, string)

  predicate Names(h: Header, name: string) {
    Text.Lower(h.0) == Text.Lower(name)
  }

  /** `headers.getheaders(name)`: every value whose name matches `name` without
      regard to case, in the order received. */
  function GetHeaders(hs: seq<Header>, name: string): (vs: seq<string>)
    ensures |vs| <= |hs|
  {
    if hs == [] then []
    else if Names(hs[0], name) then [hs[0].1] + GetHeaders(hs[1..], name)
    else GetHeaders(hs[1..], name)
  }

  /** The lookup finds nothing exactly when no header has that name, finds
      only values of headers with that name, and puts first the value of the
      first such header. */
  lemma {:induction false} GetHeadersSpec(hs: seq<Header>, name: string)
    ensures var vs := GetHeaders(hs, name);
            (vs == [] <==> forall i :: 0 <= i < |hs| ==> !Names(hs[i], name)) &&
            (forall v :: v in vs ==> exists i :: 0 <= i < |hs| && Names(hs[i], name) && hs[i].1 == v) &&
            (vs != [] ==> exists i :: 0 <= i < |hs| && Names(hs[i], name) && hs[i].1 == vs[0] &&
                                      forall j :: 0 <= j < i ==> !Names(hs[j], name))
  {
    if hs != [] {
      GetHeadersSpec(hs[1..], name);
      assert forall i :: 1 <= i < |hs| ==> hs[i] == hs[1..][i - 1];
      var vs := GetHeaders(hs, name);
      var rest := GetHeaders(hs[1..], name);
      if !Names(hs[0], name) && rest != [] {
        var i :| 0 <= i < |hs[1..]| && Names(hs[1..][i], name) && hs[1..][i].1 == rest[0] &&
                 forall j :: 0 <= j < i ==> !Names(hs[1..][j], name);
        assert Names(hs[i + 1], name) && hs[i + 1].1 == vs[0];
        assert forall j :: 0 <= j < i + 1 ==> !Names(hs[j], name) by {
          forall j | 0 <= j < i + 1 ensures !Names(hs[j], name) {
            if j > 0 { assert hs[j] == hs[1..][j - 1]; }
          }
        }
      }
    }
  }

  /** The three `zlib.decompress` modes the adapter uses, each one partial:
      gzip framing (`16 + MAX_WBITS`), raw deflate (`-MAX_WBITS`) and the zlib
      wrapper (the default). None stands for `zlib.error`. */
  datatype Zlib = Zlib(gunzip: Bytes -> Option<Bytes>,
                       inflateRaw: Bytes -> Option<Bytes>,
                       inflateWrapped: Bytes -> Option<Bytes>)

  datatype DecodeError =
    /** `zlib.error` */
    | ZlibError
    /** `ValueError("Compression type not supported: %s", ...)` */
    | Unsupported(encoding: string)
    /** `ValueError("Unknown content encoding: %s", ...)` */
    | UnknownEncoding(encoding: string)

  /** The first `content-encoding` value, lower-cased; `identity` when there is none. */
  function ContentEncoding(hs: seq<Header>): (r: string)
    ensures GetHeaders(hs, "content-encoding") == [] ==> r == "identity"
    ensures GetHeaders(hs, "content-encoding") != [] ==> r == Text.Lower(GetHeaders(hs, "content-encoding")[0])
  {
    var values := GetHeaders(hs, "content-encoding");
    if values == [] then "identity" else Text.Lower(values[0])
  }

  /** `unzipped`: gzip framing, or raw deflate with the zlib wrapper as fallback. */
  function Inflated(body: Bytes, gzip: bool, z: Zlib): (r: Result<Bytes, DecodeError>)
    ensures gzip ==> (r.Success? <==> z.gunzip(body).Some?)
    ensures gzip && z.gunzip(body).Some? ==> r == Success(z.gunzip(body).value)
    ensures !gzip ==> (r.Success? <==> z.inflateRaw(body).Some? || z.inflateWrapped(body).Some?)
    ensures !gzip && z.inflateRaw(body).Some? ==> r == Success(z.inflateRaw(body).value)
    ensures !gzip && z.inflateRaw(body).None? && z.inflateWrapped(body).Some? ==>
              r == Success(z.inflateWrapped(body).value)
    ensures r.Failure? ==> r.error == ZlibError
  {
    if gzip then
      match z.gunzip(body)
      case Some(data) => Success(data)
      case None => Failure(ZlibError)
    else
      match z.inflateRaw(body)
      case Some(data) => Success(data)
      case None =>
        match z.inflateWrapped(body)
        case Some(data) => Success(data)
        case None => Failure(ZlibError)
  }

  /** Whether `_content` reads the stream for this encoding. */
  predicate ReadsBody(encoding: string) {
    encoding == "gzip" || encoding == "deflate" || encoding == "identity"
  }

  /** What `_content` yields for an encoding and the body it reads. */
  function Decoded(encoding: string, body: Bytes, z: Zlib): (r: Result<Bytes, DecodeError>)
    ensures encoding == "identity" ==> r == Success(body)
    ensures encoding == "gzip" ==> r == Inflated(body, true, z)
    ensures encoding == "deflate" ==> r == Inflated(body, false, z)
    ensures encoding == "compress" ==> r == Failure(Unsupported(encoding))
    ensures !ReadsBody(encoding) && encoding != "compress" ==> r == Failure(UnknownEncoding(encoding))
  {
    if encoding == "gzip" then Inflated(body, true, z)
    else if encoding == "deflate" then Inflated(body, false, z)
    else if encoding == "identity" then Success(body)
    else if encoding == "compress" then Failure(Unsupported(encoding))
    else Failure(UnknownEncoding(encoding))
  }

  /** An encoding header that is absent decodes like `identity`: the body comes
      back unchanged. */
  lemma IdentityByDefault(hs: seq<Header>, body: Bytes, z: Zlib)
    requires forall i :: 0 <= i < |hs| ==> !Names(hs[i], "content-encoding")
    ensures Decoded(ContentEncoding(hs), body, z) == Success(body)
  {
    GetHeadersSpec(hs, "content-encoding");
  }

  /** `int(headers.getheaders('content-length')[0])`, None when the header is
      missing (IndexError) or not a numeral (ValueError). */
  function DeclaredLength(hs: seq<Header>): (r: Option<int>)
    ensures GetHeaders(hs, "content-length") == [] ==> r == None
    ensures GetHeaders(hs, "content-length") != [] ==> r == Text.ParseInt(GetHeaders(hs, "content-length")[0])
  {
    var values := GetHeaders(hs, "content-length");
    if values == [] then None else Text.ParseInt(values[0])
  }

  /** The adapter around one transport response. The transport's stream is
      `unread`; `cached` is the memoised decoded body. */
  class CompatResponse {
    const statusCode: int
    const headers: seq<Header>
    const zlib: Zlib
    var unread: Bytes
    var cached: Option<Bytes>
    /** How many times the stream has been read. */
    ghost var streamReads: nat

    constructor (statusCode: int, headers: seq<Header>, body: Bytes, zlib: Zlib)
      ensures this.statusCode == statusCode && this.headers == headers && this.zlib == zlib
      ensures unread == body && cached == None && streamReads == 0
    {
      this.statusCode, this.headers, this.zlib := statusCode, headers, zlib;
      unread, cached := body, None;
      streamReads := 0;
    }

    /** `read()` with the default `n = -1`: everything left in the stream. */
    method Read() returns (data: Bytes)
      modifies this`unread, this`streamReads
      ensures data == old(unread) && unread == []
      ensures streamReads == old(streamReads) + 1
    {
      data := unread;
      unread := [];
      streamReads := streamReads + 1;
    }

    /** `unzipped(gzip)` */
    method Unzipped(gzip: bool) returns (r: Result<Bytes, DecodeError>)
      modifies this`unread, this`streamReads
      ensures r == Inflated(old(unread), gzip, zlib) && unread == []
      ensures streamReads == old(streamReads) + 1
    {
      var body := Read();
      if gzip {
        var data := zlib.gunzip(body);
        r := if data.Some? then Success(data.value) else Failure(ZlibError);
      } else {
        var data := zlib.inflateRaw(body);
        if data.None? {
          data := zlib.inflateWrapped(body);
        }
        r := if data.Some? then Success(data.value) else Failure(ZlibError);
      }
    }

    /** `_content`: dispatch on the content encoding; an unsupported or unknown
      encoding fails before the stream is touched. */
    method ComputeContent() returns (r: Result<Bytes, DecodeError>)
      modifies this`unread, this`streamReads
      ensures r == Decoded(ContentEncoding(headers), old(unread), zlib)
      ensures ReadsBody(ContentEncoding(headers)) ==> unread == [] && streamReads == old(streamReads) + 1
      ensures !ReadsBody(ContentEncoding(headers)) ==> unread == old(unread) && streamReads == old(streamReads)
    {
      var encoding := ContentEncoding(headers);
      if encoding == "gzip" {
        r := Unzipped(true);
      } else if encoding == "deflate" {
        r := Unzipped(false);
      } else if encoding == "identity" {
        var data := Read();
        r := Success(data);
      } else if encoding == "compress" {
        r := Failure(Unsupported(encoding));
      } else {
        r := Failure(UnknownEncoding(encoding));
      }
    }

    /** `content()`: decode once, keep the result, and answer every later call
      from the kept value without touching the stream. A failed decoding keeps
      nothing. */
    method Content() returns (r: Result<Bytes, DecodeError>)
      modifies this`unread, this`streamReads, this`cached
      ensures old(cached).Some? ==> r == Success(old(cached).value) &&
                                    unread == old(unread) && cached == old(cached) && streamReads == old(streamReads)
      ensures old(cached).None? ==> r == Decoded(ContentEncoding(headers), old(unread), zlib)
      ensures old(cached).None? ==> cached == (if r.Success? then Some(r.value) else None)
      ensures old(cached).None? && ReadsBody(ContentEncoding(headers)) ==> unread == [] && streamReads == old(streamReads) + 1
      ensures old(cached).None? && !ReadsBody(ContentEncoding(headers)) ==> unread == old(unread) && streamReads == old(streamReads)
    {
      if cached.Some? {
        return Success(cached.value);
      }
      r := ComputeContent();
      if r.Success? {
        cached := Some(r.value);
      }
    }

    /** `__len__`: the declared `content-length` when it is a numeral, otherwise
      the length of the decoded body. */
    method Length() returns (r: Result<int, DecodeError>)
      modifies this`unread, this`streamReads, this`cached
      ensures DeclaredLength(headers).Some? ==>
                r == Success(DeclaredLength(headers).value) &&
                unread == old(unread) && cached == old(cached) && streamReads == old(streamReads)
      ensures DeclaredLength(headers).None? && old(cached).Some? ==>
                r == Success(|old(cached).value|) &&
                unread == old(unread) && cached == old(cached) && streamReads == old(streamReads)
      ensures DeclaredLength(headers).None? && old(cached).None? ==>
                r == (match Decoded(ContentEncoding(headers), old(unread), zlib)
                      case Success(data) => Success(|data|)
                      case Failure(e) => Failure(e)) &&
                cached == (match Decoded(ContentEncoding(headers), old(unread), zlib)
                           case Success(data) => Some(data)
                           case Failure(_) => None)
      ensures DeclaredLength(headers).None? && old(cached).None? && ReadsBody(ContentEncoding(headers)) ==>
                unread == [] && streamReads == old(streamReads) + 1
      ensures DeclaredLength(headers).None? && old(cached).None? && !ReadsBody(ContentEncoding(headers)) ==>
                unread == old(unread) && streamReads == old(streamReads)
    {
      var declared := DeclaredLength(headers);
      if declared.Some? {
        return Success(declared.value);
      }
      var content := Content();
      r := if content.Success? then Success(|content.value|) else Failure(content.error);
    }
  }

  /** Two successive `content()` calls on a fresh response: the second returns
      what the first did without reading the stream again; after a failed
      decoding the second call decodes what is left of the stream. */
  method ContentTwice(statusCode: int, headers: seq<Header>, body: Bytes, z: Zlib)
    returns (first: Result<Bytes, DecodeError>, second: Result<Bytes, DecodeError>, ghost readCount: nat)
    ensures first == Decoded(ContentEncoding(headers), body, z)
    ensures first.Success? ==> second == first && readCount == 1
    ensures first.Failure? && ReadsBody(ContentEncoding(headers)) ==>
              second == Decoded(ContentEncoding(headers), [], z) && readCount == 2
    ensures !ReadsBody(ContentEncoding(headers)) ==> second == first && readCount == 0
  {
    var response := new CompatResponse(statusCode, headers, body, z);
    first := response.Content();
    second := response.Content();
    readCount := response.streamReads;
  }

  /** What a plain `CompatResponse` raises from `content()` or `__len__` as the
      source stands. */
  datatype Raised = DecodeFailed(error: DecodeError) | AttributeError | TypeError

  /** `content()` as written: `__slots__` reserves `_content_cached` but the
      method reads and writes `_cached_content`, so the read raises
      AttributeError, `_content()` runs, and storing its result raises again. */
  function ContentAsWritten(hs: seq<Header>, body: Bytes, z: Zlib): (r: Result<Bytes, Raised>)
    ensures r.Failure?
    ensures Decoded(ContentEncoding(hs), body, z).Success? ==> r == Failure(AttributeError)
  {
    match Decoded(ContentEncoding(hs), body, z)
    case Success(_) => Failure(AttributeError)
    case Failure(e) => Failure(DecodeFailed(e))
  }

  /** A plain identity response: the intended body comes back from `content()`,
      while the code as written raises AttributeError. */
  lemma SlotsMismatchExample(body: Bytes, z: Zlib)
    ensures Decoded(ContentEncoding([]), body, z) == Success(body)
    ensures ContentAsWritten([], body, z) == Failure(AttributeError)
  {
    assert GetHeaders([], "content-encoding") == [];
  }

  /** `__len__` as written: the fallback takes `len` of the bound method
      `self.content`, which raises TypeError whatever the body. */
  function LengthAsWritten(hs: seq<Header>): (r: Result<int, Raised>)
    ensures DeclaredLength(hs).Some? ==> r == Success(DeclaredLength(hs).value)
    ensures DeclaredLength(hs).None? ==> r == Failure(TypeError)
  {
    match DeclaredLength(hs)
    case Some(n) => Success(n)
    case None => Failure(TypeError)
  }

  /** A response without `content-length`: the intended length is that of the
      decoded body, while the code as written raises TypeError. */
  method LengthWithoutDeclaration(body: Bytes, z: Zlib) returns (intended: Result<int, DecodeError>)
    ensures intended == Success(|body|)
    ensures LengthAsWritten([]) == Failure(TypeError)
  {
    var response := new CompatResponse(200, [], body, z);
    assert GetHeaders([], "content-length") == [] && GetHeaders([], "content-encoding") == [];
    intended := response.Length();
  }
}
