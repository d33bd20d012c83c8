/**
 * Vocabulary shared by both router macros: request methods (HTTPRequest.Method),
 * content types (Route.ContentType), static results (Route.Result) and response
 * statuses (HTTPResponse.Status) with the macros' status-name table.
 */
module Http {
  import opened Wrappers
  import opened Encoding

  /** HTTPRequest.Method, identified by its raw value (the method token). */
  datatype Method = Method(rawValue: string)

  const Get := Method("GET")

  function UpperAscii(c: char): char
  {
    if 'a' <= c <= 'z' then (c as int - 32) as char else c
  }

  /** `String.uppercased()` on the ASCII letters a member name is made of. */
  function Uppercased(s: string): (u: string)
    ensures |u| == |s|
    ensures forall i | 0 <= i < |s| :: u[i] == UpperAscii(s[i])
  {
    seq(|s|, i requires 0 <= i < |s| => UpperAscii(s[i]))
  }

  /** `HTTPRequest.Method(rawValue: "\(name)".uppercased())`: `.get` is GET. */
  function MethodNamed(member: string): Method
  {
    Method(Uppercased(member))
  }

  /**
   * An upper-cased name has no lower-case ASCII letter left, keeps every other
   * character, and upper-casing it again changes nothing.
   */
  lemma UppercasedIsUpper(s: string)
    ensures forall i | 0 <= i < |s| :: !('a' <= Uppercased(s)[i] <= 'z')
    ensures forall i | 0 <= i < |s| :: !('a' <= s[i] <= 'z') ==> Uppercased(s)[i] == s[i]
    ensures Uppercased(Uppercased(s)) == Uppercased(s)
  {
  }

  /** The member names `.get` and `.post` denote the methods GET and POST. */
  lemma MethodNamedTokens()
    ensures MethodNamed("get") == Get
    ensures MethodNamed("post") == Method("POST")
  {
    assert Uppercased("get") == "GET";
    assert Uppercased("post") == "POST";
  }

  /** Route.ContentType, identified by its member name (`.text`, `.html`, ...). */
  datatype ContentType = ContentType(name: string)

  const Text := ContentType("text")

  /** Route.Result: a static body given as text or as bytes. */
  datatype RouteResult = StringResult(text: string) | BytesResult(bytes: seq<byte>)

  /** HTTPResponse.Status, identified by its three-digit code. */
  datatype Status = Status(code: nat)

  const OK := Status(200)

  const InternalServerError := Status(500)

  /**
   * `parse_status`: the member name of a status as written in a macro argument
   * (`.notFound`) to the status it denotes (section 15 of RFC 9110, and 103 Early
   * Hints of RFC 8297); any other name is taken as 500 Internal Server Error.
   * The names are looked up by length first; as the names are distinct this is
   * the same mapping as one switch over all of them.
   */
  function ParseStatus(key: string): (s: Status)
    ensures 100 <= s.code < 600
  {
    match |key|
    case 2 => (
      match key
      case "ok" => Status(200)
      case _ => InternalServerError)
    case 4 => (
      match key
      case "gone" => Status(410)
      case _ => InternalServerError)
    case 5 => (
      match key
      case "found" => Status(302)
      case _ => InternalServerError)
    case 7 => (
      match key
      case "created" => Status(201)
      case _ => InternalServerError)
    case 8 => (
      match key
      case "continue" => Status(100)
      case "accepted" => Status(202)
      case "seeOther" => Status(303)
      case "notFound" => Status(404)
      case "conflict" => Status(409)
      case "tooEarly" => Status(425)
      case _ => InternalServerError)
    case 9 => (
      match key
      case "noContent" => Status(204)
      case "forbidden" => Status(403)
      case _ => InternalServerError)
    case 10 => (
      match key
      case "earlyHints" => Status(103)
      case "badRequest" => Status(400)
      case "uriTooLong" => Status(414)
      case "badGateway" => Status(502)
      case _ => InternalServerError)
    case 11 => (
      match key
      case "notModified" => Status(304)
      case _ => InternalServerError)
    case 12 => (
      match key
      case "resetContent" => Status(205)
      case "unauthorized" => Status(401)
      case _ => InternalServerError)
    case 13 => (
      match key
      case "notAcceptable" => Status(406)
      case _ => InternalServerError)
    case 14 => (
      match key
      case "partialContent" => Status(206)
      case "requestTimeout" => Status(408)
      case "lengthRequired" => Status(411)
      case "notImplemented" => Status(501)
      case "gatewayTimeout" => Status(504)
      case _ => InternalServerError)
    case 15 => (
      match key
      case "multipleChoices" => Status(300)
      case "contentTooLarge" => Status(413)
      case "upgradeRequired" => Status(426)
      case "tooManyRequests" => Status(429)
      case _ => InternalServerError)
    case 16 => (
      match key
      case "movedPermanently" => Status(301)
      case "methodNotAllowed" => Status(405)
      case _ => InternalServerError)
    case 17 => (
      match key
      case "temporaryRedirect" => Status(307)
      case "permanentRedirect" => Status(308)
      case "expectationFailed" => Status(417)
      case _ => InternalServerError)
    case 18 => (
      match key
      case "switchingProtocols" => Status(101)
      case "preconditionFailed" => Status(412)
      case "misdirectedRequest" => Status(421)
      case "serviceUnavailable" => Status(503)
      case _ => InternalServerError)
    case 19 => (
      match key
      case "rangeNotSatisfiable" => Status(416)
      case "internalServerError" => Status(500)
      case _ => InternalServerError)
    case 20 => (
      match key
      case "unsupportedMediaType" => Status(415)
      case "unprocessableContent" => Status(422)
      case "preconditionRequired" => Status(428)
      case _ => InternalServerError)
    case 23 => (
      match key
      case "httpVersionNotSupported" => Status(505)
      case _ => InternalServerError)
    case 26 => (
      match key
      case "unavailableForLegalReasons" => Status(451)
      case _ => InternalServerError)
    case 27 => (
      match key
      case "nonAuthoritativeInformation" => Status(203)
      case "proxyAuthenticationRequired" => Status(407)
      case "requestHeaderFieldsTooLarge" => Status(431)
      case _ => InternalServerError)
    case 29 => (
      match key
      case "networkAuthenticationRequired" => Status(511)
      case _ => InternalServerError)
    case _ => InternalServerError
  }

  /** The member name of each status the table knows, keyed by code. */
  function StatusName(code: nat): (name: Option<string>)
  {
    match code
    case 100 => Some("continue")
    case 101 => Some("switchingProtocols")
    case 103 => Some("earlyHints")
    case 200 => Some("ok")
    case 201 => Some("created")
    case 202 => Some("accepted")
    case 203 => Some("nonAuthoritativeInformation")
    case 204 => Some("noContent")
    case 205 => Some("resetContent")
    case 206 => Some("partialContent")
    case 300 => Some("multipleChoices")
    case 301 => Some("movedPermanently")
    case 302 => Some("found")
    case 303 => Some("seeOther")
    case 304 => Some("notModified")
    case 307 => Some("temporaryRedirect")
    case 308 => Some("permanentRedirect")
    case 400 => Some("badRequest")
    case 401 => Some("unauthorized")
    case 403 => Some("forbidden")
    case 404 => Some("notFound")
    case 405 => Some("methodNotAllowed")
    case 406 => Some("notAcceptable")
    case 407 => Some("proxyAuthenticationRequired")
    case 408 => Some("requestTimeout")
    case 409 => Some("conflict")
    case 410 => Some("gone")
    case 411 => Some("lengthRequired")
    case 412 => Some("preconditionFailed")
    case 413 => Some("contentTooLarge")
    case 414 => Some("uriTooLong")
    case 415 => Some("unsupportedMediaType")
    case 416 => Some("rangeNotSatisfiable")
    case 417 => Some("expectationFailed")
    case 421 => Some("misdirectedRequest")
    case 422 => Some("unprocessableContent")
    case 425 => Some("tooEarly")
    case 426 => Some("upgradeRequired")
    case 428 => Some("preconditionRequired")
    case 429 => Some("tooManyRequests")
    case 431 => Some("requestHeaderFieldsTooLarge")
    case 451 => Some("unavailableForLegalReasons")
    case 500 => Some("internalServerError")
    case 501 => Some("notImplemented")
    case 502 => Some("badGateway")
    case 503 => Some("serviceUnavailable")
    case 504 => Some("gatewayTimeout")
    case 505 => Some("httpVersionNotSupported")
    case 511 => Some("networkAuthenticationRequired")
    case _ => None
  }

  /** Every listed name parses to its own status. */
  lemma ParseStatusListed(code: nat)
    requires StatusName(code).Some?
    ensures ParseStatus(StatusName(code).value) == Status(code)
  {
    if code < 300 { ParseStatusListedBelow300(code); }
    else if code < 400 { ParseStatusListed3xx(code); }
    else if code < 410 { ParseStatusListed400To409(code); }
    else if code < 420 { ParseStatusListed410To419(code); }
    else if code < 430 { ParseStatusListed420To429(code); }
    else if code < 500 { ParseStatusListed430To499(code); }
    else if code < 504 { ParseStatusListed500To503(code); }
    else { ParseStatusListed504To599(code); }
  }

  lemma ParseStatusListedBelow300(code: nat)
    requires StatusName(code).Some? && 100 <= code < 300
    ensures ParseStatus(StatusName(code).value) == Status(code)
  {
    match code
    case 100 => {}
    case 101 => {}
    case 103 => {}
    case 200 => {}
    case 201 => {}
    case 202 => {}
    case 203 => {}
    case 204 => {}
    case 205 => {}
    case 206 => {}
  }

  lemma ParseStatusListed3xx(code: nat)
    requires StatusName(code).Some? && 300 <= code < 400
    ensures ParseStatus(StatusName(code).value) == Status(code)
  {
    match code
    case 300 => {}
    case 301 => {}
    case 302 => {}
    case 303 => {}
    case 304 => {}
    case 307 => {}
    case 308 => {}
  }

  lemma ParseStatusListed400To409(code: nat)
    requires StatusName(code).Some? && 400 <= code < 410
    ensures ParseStatus(StatusName(code).value) == Status(code)
  {
    match code
    case 400 => {}
    case 401 => {}
    case 403 => {}
    case 404 => {}
    case 405 => {}
    case 406 => {}
    case 407 => {}
    case 408 => {}
    case 409 => {}
  }

  lemma ParseStatusListed410To419(code: nat)
    requires StatusName(code).Some? && 410 <= code < 420
    ensures ParseStatus(StatusName(code).value) == Status(code)
  {
    match code
    case 410 => {}
    case 411 => {}
    case 412 => {}
    case 413 => {}
    case 414 => {}
    case 415 => {}
    case 416 => {}
    case 417 => {}
  }

  lemma ParseStatusListed420To429(code: nat)
    requires StatusName(code).Some? && 420 <= code < 430
    ensures ParseStatus(StatusName(code).value) == Status(code)
  {
    match code
    case 421 => {}
    case 422 => {}
    case 425 => {}
    case 426 => {}
    case 428 => {}
    case 429 => {}
  }

  lemma ParseStatusListed430To499(code: nat)
    requires StatusName(code).Some? && 430 <= code < 500
    ensures ParseStatus(StatusName(code).value) == Status(code)
  {
    match code
    case 431 => {}
    case 451 => {}
  }

  lemma ParseStatusListed500To503(code: nat)
    requires StatusName(code).Some? && 500 <= code < 504
    ensures ParseStatus(StatusName(code).value) == Status(code)
  {
    match code
    case 500 => {}
    case 501 => {}
    case 502 => {}
    case 503 => {}
  }

  lemma ParseStatusListed504To599(code: nat)
    requires StatusName(code).Some? && 504 <= code < 600
    ensures ParseStatus(StatusName(code).value) == Status(code)
  {
    match code
    case 504 => {}
    case 505 => {}
    case 511 => {}
  }

  /**
   * A name parses to a status other than 500 only if it is the listed name of
   * that status; so every unlisted name falls back to 500.
   */
  lemma ParseStatusFallback(key: string)
    ensures ParseStatus(key) == InternalServerError || StatusName(ParseStatus(key).code) == Some(key)
    ensures (forall code: nat :: StatusName(code) != Some(key)) ==> ParseStatus(key) == InternalServerError
  {
    if |key| < 12 { ParseStatusFallbackShort(key); }
    else if |key| < 19 { ParseStatusFallbackMedium(key); }
    else { ParseStatusFallbackLong(key); }
  }

  lemma ParseStatusFallbackShort(key: string)
    requires 0 <= |key| < 12
    ensures ParseStatus(key) == InternalServerError || StatusName(ParseStatus(key).code) == Some(key)
  {
  }

  lemma ParseStatusFallbackMedium(key: string)
    requires 12 <= |key| < 19
    ensures ParseStatus(key) == InternalServerError || StatusName(ParseStatus(key).code) == Some(key)
  {
  }

  lemma ParseStatusFallbackLong(key: string)
    requires |key| >= 19
    ensures ParseStatus(key) == InternalServerError || StatusName(ParseStatus(key).code) == Some(key)
  {
  }
}
