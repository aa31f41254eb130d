/**
 * HTTP responses: rendering the body, synthesising the raw header list and
 * emitting the two ASGI messages. A response is a value once built; the
 * constructors return `Err` where Python's Latin-1 encoding of a header
 * raises `UnicodeEncodeError`.
 */
module Responses {
  import opened Base
  import opened Text
  import opened Encoding
  import opened Dicts
  import opened Asgi

  /** The `charset` class attribute. */
  const Charset := "utf-8"

  /** What `Response(content=...)` accepts: nothing, bytes or text. */
  datatype Content = NoContent | BytesContent(bytes: seq<byte>) | TextContent(text: string)

  /** `Response.render`: None is empty, bytes pass through, text is UTF-8 encoded. */
  function Render(content: Content): (r: seq<byte>)
    ensures content.NoContent? ==> r == []
    ensures content.BytesContent? ==> r == content.bytes
    ensures content.TextContent? ==> |content.text| <= |r| <= 4 * |content.text|
  {
    match content
    case NoContent => []
    case BytesContent(b) => b
    case TextContent(t) => Utf8(t)
  }

  /** Text whose code points are all below 256 as Latin-1 bytes. */
  function AsciiBytes(s: string): (r: seq<byte>)
    requires IsLatin1(s)
    ensures |r| == |s|
  {
    Latin1(s).value
  }

  /** `str(n).encode("latin-1")`: the decimal digits of `n`, which read back as `n`. */
  function DecimalBytes(n: nat): (r: seq<byte>)
    ensures Latin1Decode(r) == DecimalString(n)
    ensures IsDigitString(Latin1Decode(r)) && ParseDigits(Latin1Decode(r)) == n
  {
    DecimalIsCanonical(n);
    ParseDecimal(n);
    Latin1RoundTrip(DecimalString(n));
    AsciiBytes(DecimalString(n))
  }

  const ContentLengthName: seq<byte> := AsciiBytes("content-length")
  const ContentTypeName: seq<byte> := AsciiBytes("content-type")
  /** The name under which the media type is actually sent, spelled as in the source. */
  const ContentTpyeName: seq<byte> := AsciiBytes("content-tpye")

  datatype EncodeError = UnicodeEncodeError(text: string)

  function HeaderNames(raw: seq<Header>): (r: seq<seq<byte>>)
    ensures |r| == |raw| && forall i :: 0 <= i < |raw| ==> r[i] == raw[i].0
  {
    seq(|raw|, i requires 0 <= i < |raw| => raw[i].0)
  }

  /** The caller's mapping, each name lower-cased, both sides Latin-1 encoded. */
  function CallerHeaders(hs: Dict<string, string>): Result<seq<Header>, EncodeError>
  {
    if hs == [] then Ok([])
    else
      var k := Lower(hs[|hs| - 1].0);
      var v := hs[|hs| - 1].1;
      match CallerHeaders(hs[..|hs| - 1])
      case Err(e) => Err(e)
      case Ok(c) =>
        if !IsLatin1(k) then Err(UnicodeEncodeError(k))
        else if !IsLatin1(v) then Err(UnicodeEncodeError(v))
        else Ok(c + [(AsciiBytes(k), AsciiBytes(v))])
  }

  /**
   * Encoding the caller's headers succeeds exactly when every lower-cased
   * name and every value is Latin-1; the result then has one header per
   * entry, in mapping order.
   */
  lemma {:induction false} CallerHeadersSpec(hs: Dict<string, string>)
    ensures CallerHeaders(hs).Ok? <==> forall i :: 0 <= i < |hs| ==> IsLatin1(Lower(hs[i].0)) && IsLatin1(hs[i].1)
    ensures CallerHeaders(hs).Ok? ==> |CallerHeaders(hs).value| == |hs| && forall i :: 0 <= i < |hs| ==>
      CallerHeaders(hs).value[i] == (AsciiBytes(Lower(hs[i].0)), AsciiBytes(hs[i].1))
    decreases |hs|
  {
    if hs != [] {
      var init := hs[..|hs| - 1];
      CallerHeadersSpec(init);
      assert forall i :: 0 <= i < |init| ==> init[i] == hs[i];
    }
  }

  lemma {:induction false} CallerHeadersLength(hs: Dict<string, string>)
    ensures CallerHeaders(hs).Ok? ==> |CallerHeaders(hs).value| == |hs|
    decreases |hs|
  {
    if hs != [] {
      CallerHeadersLength(hs[..|hs| - 1]);
    }
  }

  /** Statuses that carry no `content-length`: informational, 204 and 304. */
  predicate OmitsLength(status: int)
  {
    status < 200 || status == 204 || status == 304
  }

  /** The media type as sent: `text/` media types get `; charset=utf-8`. */
  function ContentTypeValue(mediaType: string): string
  {
    if StartsWith(mediaType, "text/") then mediaType + "; charset=" + Charset else mediaType
  }

  /** The derived `content-length` header, if any. */
  function LengthHeader(populate: bool, status: int, body: seq<byte>): seq<Header>
  {
    if populate && !OmitsLength(status) then [(ContentLengthName, DecimalBytes(|body|))] else []
  }

  /** The derived media type header, if any. */
  function TypeHeader(populate: bool, mediaType: Option<string>): Result<seq<Header>, EncodeError>
  {
    if mediaType.Some? && populate then
      var value := ContentTypeValue(mediaType.value);
      if IsLatin1(value) then Ok([(ContentTpyeName, AsciiBytes(value))]) else Err(UnicodeEncodeError(value))
    else Ok([])
  }

  /** The raw header list `init_headers` assigns. */
  function ExpectedHeaders(headers: Option<Dict<string, string>>, body: seq<byte>, status: int,
                           mediaType: Option<string>): Result<seq<Header>, EncodeError>
  {
    var caller := if headers.None? then Ok([]) else CallerHeaders(headers.value);
    if caller.Err? then Err(caller.error)
    else
      var c := caller.value;
      var populateLength := headers.None? || ContentLengthName !in HeaderNames(c);
      var populateType := headers.None? || ContentTypeName !in HeaderNames(c);
      var t := TypeHeader(populateType, mediaType);
      if t.Err? then Err(t.error)
      else Ok(c + LengthHeader(populateLength, status, body) + t.value)
  }

  lemma {:induction false} CallerHeadersErrPersists(hs: Dict<string, string>, more: Dict<string, string>)
    requires CallerHeaders(hs).Err?
    ensures CallerHeaders(hs + more) == CallerHeaders(hs)
    decreases |more|
  {
    if more == [] {
      assert hs + more == hs;
    } else {
      var init := more[..|more| - 1];
      CallerHeadersErrPersists(hs, init);
      var all := hs + more;
      assert all[..|all| - 1] == hs + init;
      assert CallerHeaders(all[..|all| - 1]).Err?;
    }
  }

  /** `init_headers(headers)` for a response with this body, status and media type. */
  method InitHeaders(headers: Option<Dict<string, string>>, body: seq<byte>, status: int,
                     mediaType: Option<string>) returns (r: Result<seq<Header>, EncodeError>)
    ensures r == ExpectedHeaders(headers, body, status, mediaType)
  {
    var raw: seq<Header> := [];
    var populateLength := true;
    var populateType := true;
    if headers.Some? {
      var hs := headers.value;
      for i := 0 to |hs|
        invariant CallerHeaders(hs[..i]) == Ok(raw)
      {
        assert hs[..i + 1][..i] == hs[..i];
        var name := Lower(hs[i].0);
        if !IsLatin1(name) {
          CallerHeadersErrPersists(hs[..i + 1], hs[i + 1..]);
          assert hs[..i + 1] + hs[i + 1..] == hs;
          return Err(UnicodeEncodeError(name));
        }
        if !IsLatin1(hs[i].1) {
          CallerHeadersErrPersists(hs[..i + 1], hs[i + 1..]);
          assert hs[..i + 1] + hs[i + 1..] == hs;
          return Err(UnicodeEncodeError(hs[i].1));
        }
        raw := raw + [(AsciiBytes(name), AsciiBytes(hs[i].1))];
      }
      assert hs[..|hs|] == hs;
      var keys := HeaderNames(raw);
      populateLength := ContentLengthName !in keys;
      populateType := ContentTypeName !in keys;
    }
    ghost var caller := raw;
    if populateLength && !(status < 200 || status == 204 || status == 304) {
      raw := raw + [(ContentLengthName, DecimalBytes(|body|))];
    }
    assert raw == caller + LengthHeader(populateLength, status, body);
    ghost var withLength := raw;
    if mediaType.Some? && populateType {
      var contentType := mediaType.value;
      if StartsWith(contentType, "text/") {
        contentType := contentType + "; charset=" + Charset;
      }
      if !IsLatin1(contentType) {
        return Err(UnicodeEncodeError(contentType));
      }
      raw := raw + [(ContentTpyeName, AsciiBytes(contentType))];
    }
    assert raw == withLength + TypeHeader(populateType, mediaType).value;
    r := Ok(raw);
  }

  // ---------------------------------------------------------------------
  // What the header list contains

  /** Whether the caller's mapping has a key that lower-cases to `name`. */
  predicate CallerHas(headers: Option<Dict<string, string>>, name: string)
  {
    headers.Some? && exists i :: 0 <= i < |headers.value| && Lower(headers.value[i].0) == name
  }

  function CallerCount(headers: Option<Dict<string, string>>): nat
  {
    if headers.None? then 0 else |headers.value|
  }

  lemma Latin1Injective(a: string, b: string)
    requires IsLatin1(a) && IsLatin1(b) && AsciiBytes(a) == AsciiBytes(b)
    ensures a == b
  {
    Latin1RoundTrip(a);
    Latin1RoundTrip(b);
  }

  /** A derived header is suppressed exactly by a caller key that lower-cases to its name. */
  lemma CandidateIff(headers: Option<Dict<string, string>>, name: string)
    requires headers.Some? ==> CallerHeaders(headers.value).Ok?
    requires IsLatin1(name)
    ensures headers.Some? ==>
      (AsciiBytes(name) in HeaderNames(CallerHeaders(headers.value).value) <==> CallerHas(headers, name))
  {
    if headers.Some? {
      var hs := headers.value;
      CallerHeadersSpec(hs);
      var names := HeaderNames(CallerHeaders(hs).value);
      if AsciiBytes(name) in names {
        var i :| 0 <= i < |names| && names[i] == AsciiBytes(name);
        Latin1Injective(Lower(hs[i].0), name);
      }
      if CallerHas(headers, name) {
        var i :| 0 <= i < |hs| && Lower(hs[i].0) == name;
        assert names[i] == AsciiBytes(name);
      }
    }
  }

  /** A successful header list, with the candidate flags as `init_headers` computes them. */
  lemma ExpectedOk(headers: Option<Dict<string, string>>, body: seq<byte>, status: int, mediaType: Option<string>)
    requires ExpectedHeaders(headers, body, status, mediaType).Ok?
    ensures headers.Some? ==> CallerHeaders(headers.value).Ok?
    ensures var c := if headers.None? then [] else CallerHeaders(headers.value).value;
      var populateLength := headers.None? || ContentLengthName !in HeaderNames(c);
      var populateType := headers.None? || ContentTypeName !in HeaderNames(c);
      && TypeHeader(populateType, mediaType).Ok?
      && ExpectedHeaders(headers, body, status, mediaType).value
           == c + LengthHeader(populateLength, status, body) + TypeHeader(populateType, mediaType).value
  {
  }

  /** A successful header list is the caller's headers followed by the derived ones. */
  lemma HeaderParts(headers: Option<Dict<string, string>>, body: seq<byte>, status: int, mediaType: Option<string>)
    requires ExpectedHeaders(headers, body, status, mediaType).Ok?
    ensures var r := ExpectedHeaders(headers, body, status, mediaType).value; var n := CallerCount(headers);
      && n <= |r|
      && (headers.Some? ==> CallerHeaders(headers.value).Ok? && r[..n] == CallerHeaders(headers.value).value)
      && TypeHeader(!CallerHas(headers, "content-type"), mediaType).Ok?
      && r[n..] == LengthHeader(!CallerHas(headers, "content-length"), status, body)
                   + TypeHeader(!CallerHas(headers, "content-type"), mediaType).value
  {
    ExpectedOk(headers, body, status, mediaType);
    PopulateFlags(headers);
    var c: seq<Header> := if headers.None? then [] else CallerHeaders(headers.value).value;
    if headers.Some? {
      CallerHeadersLength(headers.value);
    }
    var l := LengthHeader(!CallerHas(headers, "content-length"), status, body);
    var t := TypeHeader(!CallerHas(headers, "content-type"), mediaType).value;
    var r := ExpectedHeaders(headers, body, status, mediaType).value;
    assert r == c + l + t;
    SplitAt(c, l, t, r);
  }

  /** The candidate flags of `init_headers` in terms of the caller's own keys. */
  lemma PopulateFlags(headers: Option<Dict<string, string>>)
    requires headers.Some? ==> CallerHeaders(headers.value).Ok?
    ensures var c := if headers.None? then [] else CallerHeaders(headers.value).value;
      && (headers.None? || ContentLengthName !in HeaderNames(c)) == !CallerHas(headers, "content-length")
      && (headers.None? || ContentTypeName !in HeaderNames(c)) == !CallerHas(headers, "content-type")
  {
    CandidateIff(headers, "content-length");
    CandidateIff(headers, "content-type");
  }

  lemma SplitAt<T>(c: seq<T>, l: seq<T>, t: seq<T>, r: seq<T>)
    requires r == c + l + t
    ensures |c| <= |r| && r[..|c|] == c && r[|c|..] == l + t
  {
  }

  /** What the derived part of the header list holds. */
  lemma DerivedHeaders(populateLength: bool, status: int, body: seq<byte>, populateType: bool, mediaType: Option<string>)
    requires TypeHeader(populateType, mediaType).Ok?
    ensures var d := LengthHeader(populateLength, status, body) + TypeHeader(populateType, mediaType).value;
      && |d| <= 2
      && (ContentLengthName in HeaderNames(d) <==> populateLength && !OmitsLength(status))
      && (ContentTpyeName in HeaderNames(d) <==> mediaType.Some? && populateType)
      && (forall j :: 0 <= j < |d| ==> d[j].0 == ContentLengthName || d[j].0 == ContentTpyeName)
      && (forall j :: 0 <= j < |d| && d[j].0 == ContentLengthName ==> d[j].1 == DecimalBytes(|body|))
      && (forall j :: 0 <= j < |d| && d[j].0 == ContentTpyeName ==>
            mediaType.Some? && Latin1Decode(d[j].1) == ContentTypeValue(mediaType.value))
  {
    DistinctNames();
    var l := LengthHeader(populateLength, status, body);
    var t := TypeHeader(populateType, mediaType).value;
    var d := l + t;
    if mediaType.Some? && populateType {
      Latin1RoundTrip(ContentTypeValue(mediaType.value));
      assert d[|d| - 1].0 == ContentTpyeName;
    }
    if populateLength && !OmitsLength(status) {
      assert d[0].0 == ContentLengthName;
    }
  }

  lemma DistinctNames()
    ensures ContentLengthName != ContentTpyeName
    ensures ContentTypeName != ContentTpyeName
    ensures ContentTypeName != ContentLengthName
  {
    assert ContentLengthName[8] != ContentTpyeName[8];
    assert ContentTypeName[10] != ContentTpyeName[10];
    assert ContentTypeName[8] != ContentLengthName[8];
  }

  /**
   * Header order and provenance: first the caller's headers in mapping
   * order, names lower-cased; then at most two derived headers, each either
   * `content-length` or the misspelled `content-tpye`. Nothing else is added,
   * and in particular no correctly spelled `content-type`.
   */
  lemma HeaderLayout(headers: Option<Dict<string, string>>, body: seq<byte>, status: int, mediaType: Option<string>)
    requires ExpectedHeaders(headers, body, status, mediaType).Ok?
    ensures var r := ExpectedHeaders(headers, body, status, mediaType).value; var n := CallerCount(headers);
      && n <= |r| <= n + 2
      && (forall i :: 0 <= i < n ==>
            Latin1Decode(r[i].0) == Lower(headers.value[i].0) && Latin1Decode(r[i].1) == headers.value[i].1)
      && (forall i :: n <= i < |r| ==> r[i].0 == ContentLengthName || r[i].0 == ContentTpyeName)
      && (forall i :: n <= i < |r| ==> r[i].0 != ContentTypeName)
  {
    CallerPart(headers, body, status, mediaType);
    DerivedPart(headers, body, status, mediaType);
  }

  lemma CallerPart(headers: Option<Dict<string, string>>, body: seq<byte>, status: int, mediaType: Option<string>)
    requires ExpectedHeaders(headers, body, status, mediaType).Ok?
    ensures var r := ExpectedHeaders(headers, body, status, mediaType).value; var n := CallerCount(headers);
      && n <= |r|
      && (forall i :: 0 <= i < n ==>
            Latin1Decode(r[i].0) == Lower(headers.value[i].0) && Latin1Decode(r[i].1) == headers.value[i].1)
  {
    HeaderParts(headers, body, status, mediaType);
    var r := ExpectedHeaders(headers, body, status, mediaType).value;
    var n := CallerCount(headers);
    if headers.Some? {
      CallerHeadersSpec(headers.value);
      forall i | 0 <= i < n
        ensures Latin1Decode(r[i].0) == Lower(headers.value[i].0) && Latin1Decode(r[i].1) == headers.value[i].1
      {
        assert r[i] == r[..n][i];
        Latin1RoundTrip(Lower(headers.value[i].0));
        Latin1RoundTrip(headers.value[i].1);
      }
    }
  }

  lemma DerivedPart(headers: Option<Dict<string, string>>, body: seq<byte>, status: int, mediaType: Option<string>)
    requires ExpectedHeaders(headers, body, status, mediaType).Ok?
    ensures var r := ExpectedHeaders(headers, body, status, mediaType).value; var n := CallerCount(headers);
      && n <= |r| <= n + 2
      && (forall i :: n <= i < |r| ==> r[i].0 == ContentLengthName || r[i].0 == ContentTpyeName)
      && (forall i :: n <= i < |r| ==> r[i].0 != ContentTypeName)
  {
    HeaderParts(headers, body, status, mediaType);
    DerivedHeaders(!CallerHas(headers, "content-length"), status, body, !CallerHas(headers, "content-type"), mediaType);
    DistinctNames();
    var r := ExpectedHeaders(headers, body, status, mediaType).value;
    SuffixNames(r, CallerCount(headers));
  }

  lemma SuffixNames(r: seq<Header>, n: nat)
    requires n <= |r|
    requires forall j :: 0 <= j < |r[n..]| ==> r[n..][j].0 == ContentLengthName || r[n..][j].0 == ContentTpyeName
    ensures forall i :: n <= i < |r| ==> r[i].0 == ContentLengthName || r[i].0 == ContentTpyeName
  {
    forall i | n <= i < |r| ensures r[i].0 == ContentLengthName || r[i].0 == ContentTpyeName {
      assert r[i] == r[n..][i - n];
    }
  }

  /**
   * `content-length` is derived exactly when no caller key names it and the
   * status allows a body length; its value is the body length in decimal.
   */
  lemma ContentLengthRule(headers: Option<Dict<string, string>>, body: seq<byte>, status: int, mediaType: Option<string>)
    requires ExpectedHeaders(headers, body, status, mediaType).Ok?
    ensures var r := ExpectedHeaders(headers, body, status, mediaType).value; var n := CallerCount(headers);
      && n <= |r|
      && (ContentLengthName in HeaderNames(r[n..]) <==> !CallerHas(headers, "content-length") && !OmitsLength(status))
      && (forall i :: n <= i < |r| && r[i].0 == ContentLengthName ==>
            r[i].1 == DecimalBytes(|body|) && ParseDigits(Latin1Decode(r[i].1)) == |body|)
  {
    HeaderParts(headers, body, status, mediaType);
    DerivedHeaders(!CallerHas(headers, "content-length"), status, body, !CallerHas(headers, "content-type"), mediaType);
    var r := ExpectedHeaders(headers, body, status, mediaType).value;
    var n := CallerCount(headers);
    forall i | n <= i < |r| && r[i].0 == ContentLengthName ensures r[i].1 == DecimalBytes(|body|) {
      assert r[i] == r[n..][i - n];
    }
  }

  /**
   * The media type header is derived exactly when a media type is set and no
   * caller key is `content-type`; it is sent as `content-tpye`, with
   * `; charset=utf-8` appended for `text/` media types.
   */
  lemma ContentTypeRule(headers: Option<Dict<string, string>>, body: seq<byte>, status: int, mediaType: Option<string>)
    requires ExpectedHeaders(headers, body, status, mediaType).Ok?
    ensures var r := ExpectedHeaders(headers, body, status, mediaType).value; var n := CallerCount(headers);
      && n <= |r|
      && (ContentTpyeName in HeaderNames(r[n..]) <==> mediaType.Some? && !CallerHas(headers, "content-type"))
      && (forall i :: n <= i < |r| && r[i].0 == ContentTpyeName ==>
            mediaType.Some? && Latin1Decode(r[i].1) == ContentTypeValue(mediaType.value))
  {
    HeaderParts(headers, body, status, mediaType);
    DerivedHeaders(!CallerHas(headers, "content-length"), status, body, !CallerHas(headers, "content-type"), mediaType);
    var r := ExpectedHeaders(headers, body, status, mediaType).value;
    var n := CallerCount(headers);
    forall i | n <= i < |r| && r[i].0 == ContentTpyeName
      ensures mediaType.Some? && Latin1Decode(r[i].1) == ContentTypeValue(mediaType.value)
    {
      assert r[i] == r[n..][i - n];
    }
  }

  /** Encoding fails exactly on a caller header or media type outside Latin-1. */
  lemma EncodeErrorIff(headers: Option<Dict<string, string>>, body: seq<byte>, status: int, mediaType: Option<string>)
    ensures ExpectedHeaders(headers, body, status, mediaType).Err? <==>
      || (headers.Some? &&
            exists i :: 0 <= i < |headers.value| && !(IsLatin1(Lower(headers.value[i].0)) && IsLatin1(headers.value[i].1)))
      || (mediaType.Some? && !CallerHas(headers, "content-type") && !IsLatin1(ContentTypeValue(mediaType.value)))
  {
    if headers.Some? {
      CallerHeadersSpec(headers.value);
      if CallerHeaders(headers.value).Ok? {
        CandidateIff(headers, "content-type");
      }
    }
  }

  // ---------------------------------------------------------------------
  // Responses

  /** The classes with a `media_type` class attribute of their own, and the base class. */
  datatype ResponseClass = BaseResponse | HTMLResponse | PlainTextResponse | JSONResponse | RedirectResponse

  function ClassMediaType(c: ResponseClass): Option<string>
  {
    match c
    case BaseResponse => None
    case HTMLResponse => Some("text/html")
    case PlainTextResponse => Some("text/plain")
    case JSONResponse => Some("application/json")
    case RedirectResponse => None
  }

  datatype Response = Response(statusCode: int, mediaType: Option<string>, body: seq<byte>, rawHeaders: seq<Header>)

  /** `__init__` once the body is rendered: an explicit media type overrides the class one. */
  method Build(cls: ResponseClass, body: seq<byte>, status: int, headers: Option<Dict<string, string>>,
               mediaType: Option<string>) returns (r: Result<Response, EncodeError>)
    ensures var media := if mediaType.Some? then mediaType else ClassMediaType(cls);
      var expected := ExpectedHeaders(headers, body, status, media);
      && (r.Ok? <==> expected.Ok?)
      && (r.Err? ==> r.error == expected.error)
      && (r.Ok? ==> r.value == Response(status, media, body, expected.value))
  {
    var media := ClassMediaType(cls);
    if mediaType.Some? {
      media := mediaType;
    }
    var raw := InitHeaders(headers, body, status, media);
    if raw.Err? {
      return Err(raw.error);
    }
    r := Ok(Response(status, media, body, raw.value));
  }

  /**
   * `Response`, `HTMLResponse` or `PlainTextResponse` built from content,
   * with the source's defaults: no content, status 200, no headers and the
   * class media type.
   */
  method NewResponse(cls: ResponseClass, content: Content := NoContent, status: int := 200,
                     headers: Option<Dict<string, string>> := None, mediaType: Option<string> := None)
    returns (r: Result<Response, EncodeError>)
    requires cls == BaseResponse || cls == HTMLResponse || cls == PlainTextResponse
    ensures var media := if mediaType.Some? then mediaType else ClassMediaType(cls);
      var expected := ExpectedHeaders(headers, Render(content), status, media);
      && (r.Ok? <==> expected.Ok?)
      && (r.Err? ==> r.error == expected.error)
      && (r.Ok? ==> r.value == Response(status, media, Render(content), expected.value))
  {
    r := Build(cls, Render(content), status, headers, mediaType);
  }

  /**
   * `JSONResponse`, given the text `json.dumps` produced for the content,
   * with status 200, no headers and `application/json` by default.
   */
  method NewJSONResponse(dumped: string, status: int := 200, headers: Option<Dict<string, string>> := None,
                         mediaType: Option<string> := None)
    returns (r: Result<Response, EncodeError>)
    ensures var media := if mediaType.Some? then mediaType else Some("application/json");
      var expected := ExpectedHeaders(headers, Utf8(dumped), status, media);
      && (r.Ok? <==> expected.Ok?)
      && (r.Err? ==> r.error == expected.error)
      && (r.Ok? ==> r.value == Response(status, media, Utf8(dumped), expected.value))
  {
    r := Build(JSONResponse, Utf8(dumped), status, headers, mediaType);
  }

  const RedirectDefaultStatus := 307

  /**
   * `RedirectResponse(url, status_code, headers)` up to its `location`
   * header, with status 307 and no headers by default.
   */
  method NewRedirectResponse(status: int := RedirectDefaultStatus, headers: Option<Dict<string, string>> := None)
    returns (r: Result<Response, EncodeError>)
    ensures var expected := ExpectedHeaders(headers, [], status, None);
      && (r.Ok? <==> expected.Ok?)
      && (r.Err? ==> r.error == expected.error)
      && (r.Ok? ==> r.value == Response(status, None, [], expected.value))
    ensures status == RedirectDefaultStatus && headers.None? ==>
      r == Ok(Response(RedirectDefaultStatus, None, [], [(ContentLengthName, AsciiBytes("0"))]))
  {
    RedirectHeaders();
    r := Build(RedirectResponse, Render(BytesContent([])), status, headers, None);
  }

  /** A default redirect without caller headers sends exactly `content-length: 0`. */
  lemma RedirectHeaders()
    ensures ExpectedHeaders(None, [], RedirectDefaultStatus, None) == Ok([(ContentLengthName, AsciiBytes("0"))])
  {
    assert DecimalString(0) == "0";
    assert DecimalBytes(0) == AsciiBytes("0");
    assert LengthHeader(true, RedirectDefaultStatus, []) == [(ContentLengthName, AsciiBytes("0"))];
    assert TypeHeader(true, None) == Ok([]);
    var e := ExpectedHeaders(None, [], RedirectDefaultStatus, None);
    var l := LengthHeader(true, RedirectDefaultStatus, []);
    assert e == Ok([] + l + []);
    assert [] + l + [] == l;
  }

  /** Without caller headers, a `text/` response gets both derived headers. */
  lemma TextResponseHeaders(text: string, status: int, mediaType: string)
    requires !OmitsLength(status) && StartsWith(mediaType, "text/") && IsLatin1(mediaType)
    ensures var body := Utf8(text);
      ExpectedHeaders(None, body, status, Some(mediaType))
        == Ok([(ContentLengthName, DecimalBytes(|body|)),
               (ContentTpyeName, AsciiBytes(mediaType + "; charset=utf-8"))])
  {
    var v := mediaType + "; charset=utf-8";
    assert ContentTypeValue(mediaType) == v;
    var body := Utf8(text);
    var l := LengthHeader(true, status, body);
    assert IsLatin1(v) by {
      forall i | 0 <= i < |v| ensures v[i] as int < 256 {
        if i >= |mediaType| { assert v[i] == "; charset=utf-8"[i - |mediaType|]; }
      }
    }
    var t := [(ContentTpyeName, AsciiBytes(v))];
    assert [] + l + t == l + t;
    assert TypeHeader(true, Some(mediaType)) == Ok(t);
    assert l + t == [(ContentLengthName, DecimalBytes(|body|)), (ContentTpyeName, AsciiBytes(v))];
  }

  /** `await response(scope, receive, send)`: the start message, then the body. */
  method Emit(response: Response, log: SendLog)
    modifies log
    ensures log.sent == old(log.sent) + [ResponseStart(response.statusCode, response.rawHeaders), ResponseBody(response.body)]
  {
    log.Send(ResponseStart(response.statusCode, response.rawHeaders));
    log.Send(ResponseBody(response.body));
  }
}
