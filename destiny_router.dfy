/**
 * The `#router` expression macro (Sources/DestinyMacros/Router.swift). It folds
 * the macro's arguments into a return type, an HTTP version, a middleware list
 * and a route list, and expands to the Swift source text
 * `Router(staticResponses: [key: value, ...])`, whose keys are `StackString32`
 * literals holding the first 32 UTF-8 bytes of `METHOD /path VERSION`, the
 * request-line shape of section 3 of RFC 9112, zero-padded to 32.
 *
 * Rendering a route's HTTP response (`Route.response(version:middleware:)`)
 * is outside this model: it is the parameter `respond`.
 */
module DestinyRouter {
  import opened Wrappers
  import opened Encoding
  import opened Syntax
  import opened Http
  import opened RouterCommon

  // ---------------------------------------------------------------------
  // Records
  // ---------------------------------------------------------------------

  datatype Route = Route(
    httpMethod: Method,
    path: string,
    status: Option<Status>,
    contentType: ContentType,
    charset: string,
    staticResult: Option<RouteResult>,
    dynamicResult: Option<Expr>)

  datatype StaticMiddleware = StaticMiddleware(
    appliesToMethods: set<Method>,
    appliesToStatuses: set<Status>,
    appliesToContentTypes: set<ContentType>,
    appliesStatus: Option<Status>,
    appliesHeaders: map<string, string>)

  /** RouterReturnType: the Swift type the generated table stores responses as. */
  datatype ReturnType = UInt8Array | UInt16Array | Data | UnsafeBufferPointer | StaticString

  /** `RouterReturnType(rawValue:)`. */
  function ReturnTypeNamed(name: string): Option<ReturnType>
  {
    if name == "uint8Array" then Some(UInt8Array)
    else if name == "uint16Array" then Some(UInt16Array)
    else if name == "data" then Some(Data)
    else if name == "unsafeBufferPointer" then Some(UnsafeBufferPointer)
    else if name == "staticString" then Some(StaticString)
    else None
  }

  // ---------------------------------------------------------------------
  // parse_route
  // ---------------------------------------------------------------------

  /** The force-unwraps parse_route performs on a `staticResult:` value. */
  predicate StaticResultArgumentOk(e: Expr)
  {
    e.Call? ==>
      && e.callee.MemberAccess?
      && (e.callee.name == "string" ==> |e.arguments| > 0 && e.arguments[0].value.StringLiteral?)
      && (e.callee.name == "bytes" ==> |e.arguments| > 0)
  }

  /** The force-unwraps parse_route performs on one argument: every argument is labelled. */
  predicate RouteArgumentOk(a: Argument)
  {
    && a.key.Some?
    && (a.key.value == "method" ==> a.value.MemberAccess?)
    && (a.key.value == "path" ==> a.value.StringLiteral?)
    && (a.key.value == "status" ==> a.value.MemberAccess?)
    && (a.key.value == "contentType" ==> a.value.MemberAccess?)
    && (a.key.value == "charset" ==> a.value.StringLiteral?)
    && (a.key.value == "staticResult" ==> StaticResultArgumentOk(a.value))
  }

  predicate RouteArgumentsOk(args: seq<Argument>)
  {
    forall i | 0 <= i < |args| :: RouteArgumentOk(args[i])
  }

  /**
   * Whether a `staticResult:` argument assigns the route's static result: a
   * non-call sets it to nil, `.string(...)` and `.bytes(...)` set it, any other
   * call leaves it as it was.
   */
  predicate AssignsStaticResult(e: Expr)
  {
    e.Call? ==> e.callee.MemberAccess? && (e.callee.name == "string" || e.callee.name == "bytes")
  }

  predicate SetsStaticResult(a: Argument)
  {
    a.key == Some("staticResult") && AssignsStaticResult(a.value)
  }

  /** The position of the argument whose static result wins. */
  function LastStaticResult(args: seq<Argument>): (r: Option<nat>)
    ensures r.Some? ==> r.value < |args| && SetsStaticResult(args[r.value])
    ensures r.Some? ==> forall j | r.value < j < |args| :: !SetsStaticResult(args[j])
    ensures r.None? ==> forall j | 0 <= j < |args| :: !SetsStaticResult(args[j])
  {
    if args == [] then None
    else if SetsStaticResult(args[|args| - 1]) then Some(|args| - 1)
    else LastStaticResult(args[..|args| - 1])
  }

  /** `UInt8(literal.text)` for an integer literal element, nil for any other element. */
  function ByteLiteral(e: Expr): Option<byte>
  {
    if e.IntegerLiteral? then ParseUInt8(e.text) else None
  }

  /** `compactMap`: the elements that are byte literals, as bytes, in order. */
  function CompactBytes(es: seq<Expr>): (bs: seq<byte>)
    ensures |bs| <= |es|
  {
    if es == [] then [] else ByteOf(es[0]) + CompactBytes(es[1..])
  }

  /** What one element contributes to `compactMap`: its byte, or nothing. */
  function ByteOf(e: Expr): (bs: seq<byte>)
    ensures |bs| <= 1
  {
    match ByteLiteral(e)
    case Some(b) => [b]
    case None => []
  }

  /** `.bytes(x)`: the byte literals of `x` when it is an array literal, none otherwise. */
  function ByteElements(e: Expr): seq<byte>
  {
    if e.ArrayLiteral? then CompactBytes(e.elements) else []
  }

  /** The static result a winning `staticResult:` argument assigns. */
  function StaticResultOf(e: Expr): Option<RouteResult>
    requires StaticResultArgumentOk(e) && AssignsStaticResult(e)
  {
    if !e.Call? then None
    else if e.callee.name == "string" then Some(StringResult(e.arguments[0].value.text))
    else Some(BytesResult(ByteElements(e.arguments[0].value)))
  }

  /**
   * The route parse_route builds: each field takes the value of the last
   * argument that assigns it, or its default (GET, "", no status, text,
   * "UTF-8", no static result); there is never a dynamic result.
   */
  function RouteOf(args: seq<Argument>): Route
    requires RouteArgumentsOk(args)
  {
    var verb := LastLabelled(args, "method");
    var path := LastLabelled(args, "path");
    var status := LastLabelled(args, "status");
    var contentType := LastLabelled(args, "contentType");
    var charset := LastLabelled(args, "charset");
    var result := LastStaticResult(args);
    Route(
      if verb.Some? then MethodNamed(args[verb.value].value.name) else Get,
      if path.Some? then args[path.value].value.text else "",
      if status.Some? then Some(ParseStatus(args[status.value].value.name)) else None,
      if contentType.Some? then ContentType(args[contentType.value].value.name) else Text,
      if charset.Some? then args[charset.value].value.text else "UTF-8",
      if result.Some? then StaticResultOf(args[result.value].value) else None,
      None)
  }

  /**
   * One more argument: it overrides the field its label names (a
   * `staticResult:` argument only when it assigns one) and leaves the others.
   */
  lemma RouteOfSnoc(args: seq<Argument>, a: Argument)
    requires RouteArgumentsOk(args) && RouteArgumentOk(a)
    ensures RouteArgumentsOk(args + [a])
    ensures var before, after := RouteOf(args), RouteOf(args + [a]);
      && after.httpMethod == (if a.key == Some("method") then MethodNamed(a.value.name) else before.httpMethod)
      && after.path == (if a.key == Some("path") then a.value.text else before.path)
      && after.status == (if a.key == Some("status") then Some(ParseStatus(a.value.name)) else before.status)
      && after.contentType == (if a.key == Some("contentType") then ContentType(a.value.name) else before.contentType)
      && after.charset == (if a.key == Some("charset") then a.value.text else before.charset)
      && after.staticResult == (if SetsStaticResult(a) then StaticResultOf(a.value) else before.staticResult)
      && after.dynamicResult == None
  {
    var longer := args + [a];
    assert longer[..|args|] == args;
    assert longer[|args|] == a;
    LastLabelledSnoc(args, a, "method");
    LastLabelledSnoc(args, a, "path");
    LastLabelledSnoc(args, a, "status");
    LastLabelledSnoc(args, a, "contentType");
    LastLabelledSnoc(args, a, "charset");
  }

  lemma RouteOfPrefix(args: seq<Argument>, i: nat)
    requires RouteArgumentsOk(args) && i < |args|
    ensures var before, after, a := RouteOf(args[..i]), RouteOf(args[..i + 1]), args[i];
      && after.httpMethod == (if a.key == Some("method") then MethodNamed(a.value.name) else before.httpMethod)
      && after.path == (if a.key == Some("path") then a.value.text else before.path)
      && after.status == (if a.key == Some("status") then Some(ParseStatus(a.value.name)) else before.status)
      && after.contentType == (if a.key == Some("contentType") then ContentType(a.value.name) else before.contentType)
      && after.charset == (if a.key == Some("charset") then a.value.text else before.charset)
      && after.staticResult == (if SetsStaticResult(a) then StaticResultOf(a.value) else before.staticResult)
      && after.dynamicResult == None
  {
    assert args[..i + 1] == args[..i] + [args[i]];
    RouteOfSnoc(args[..i], args[i]);
  }

  /** parse_route: folds the labelled arguments of a route call into a Route. */
  method ParseRoute(args: seq<Argument>) returns (route: Route)
    requires RouteArgumentsOk(args)
    ensures route == RouteOf(args)
  {
    route := Route(Get, "", None, Text, "UTF-8", None, None);
    for i := 0 to |args|
      invariant route == RouteOf(args[..i])
    {
      var argument := args[i];
      RouteOfPrefix(args, i);
      var key := argument.key.value;
      if key == "method" {
        route := route.(httpMethod := MethodNamed(argument.value.name));
      } else if key == "path" {
        route := route.(path := argument.value.text);
      } else if key == "status" {
        route := route.(status := Some(ParseStatus(argument.value.name)));
      } else if key == "contentType" {
        route := route.(contentType := ContentType(argument.value.name));
      } else if key == "charset" {
        route := route.(charset := argument.value.text);
      } else if key == "staticResult" {
        var call := argument.value;
        if !call.Call? {
          route := route.(staticResult := None);
        } else if call.callee.name == "string" {
          route := route.(staticResult := Some(StringResult(call.arguments[0].value.text)));
        } else if call.callee.name == "bytes" {
          route := route.(staticResult := Some(BytesResult(ByteElements(call.arguments[0].value))));
        }
      }
    }
    assert args[..|args|] == args;
  }

  /** A route call with no arguments gets every default. */
  lemma RouteDefaults()
    ensures RouteOf([]) == Route(Get, "", None, Text, "UTF-8", None, None)
  {
  }

  /** A later argument with the same label overrides an earlier one. */
  lemma RouteLastArgumentWins(args: seq<Argument>, path: string, member: string)
    requires RouteArgumentsOk(args)
    ensures RouteOf(args + [Argument(Some("path"), StringLiteral(path))]).path == path
    ensures RouteOf(args + [Argument(Some("method"), MemberAccess(member))]).httpMethod == MethodNamed(member)
    ensures RouteOf(args + [Argument(Some("staticResult"), Other)]).staticResult == None
  {
  }

  /** Byte literal lists split like the element lists they come from: order is kept. */
  lemma {:induction false} CompactBytesAppend(xs: seq<Expr>, ys: seq<Expr>)
    ensures CompactBytes(xs + ys) == CompactBytes(xs) + CompactBytes(ys)
  {
    if xs == [] {
      assert xs + ys == ys;
    } else {
      assert (xs + ys)[0] == xs[0] && (xs + ys)[1..] == xs[1..] + ys;
      calc {
        CompactBytes(xs + ys);
        ByteOf(xs[0]) + CompactBytes(xs[1..] + ys);
        { CompactBytesAppend(xs[1..], ys); }
        ByteOf(xs[0]) + (CompactBytes(xs[1..]) + CompactBytes(ys));
      }
    }
  }

  /** Elements that are not decimal literals of 0...255 are dropped. */
  lemma {:induction false} CompactBytesDropsNonBytes(es: seq<Expr>)
    requires forall i | 0 <= i < |es| :: ByteLiteral(es[i]).None?
    ensures CompactBytes(es) == []
  {
    if es != [] {
      CompactBytesDropsNonBytes(es[1..]);
    }
  }

  /** The literals of a byte list, as written in source. */
  function ByteLiterals(bs: seq<byte>): (es: seq<Expr>)
    ensures |es| == |bs|
  {
    seq(|bs|, i requires 0 <= i < |bs| => IntegerLiteral(Decimal(bs[i])))
  }

  /** `.bytes([...])` written with the decimal literals of a byte list yields exactly that list. */
  lemma {:induction false} CompactBytesRoundTrip(bs: seq<byte>)
    ensures CompactBytes(ByteLiterals(bs)) == bs
  {
    if bs != [] {
      ParseUInt8Decimal(bs[0]);
      assert ByteLiterals(bs)[1..] == ByteLiterals(bs[1..]);
      CompactBytesRoundTrip(bs[1..]);
    }
  }

  // ---------------------------------------------------------------------
  // parse_middleware
  // ---------------------------------------------------------------------

  predicate MiddlewareArgumentOk(a: Argument)
  {
    && a.key.Some?
    && (a.key.value == "appliesToMethods" ==> MemberList(a.value))
    && (a.key.value == "appliesToStatuses" ==> MemberList(a.value))
    && (a.key.value == "appliesToContentTypes" ==> MemberList(a.value))
    && (a.key.value == "appliesStatus" ==> a.value.MemberAccess?)
    && HeaderArgumentOk(a)
  }

  predicate MiddlewareArgumentsOk(args: seq<Argument>)
  {
    forall i | 0 <= i < |args| :: MiddlewareArgumentOk(args[i])
  }

  predicate MiddlewareElementsOk(es: seq<Expr>)
  {
    forall i | 0 <= i < |es| :: es[i].Call? ==> MiddlewareArgumentsOk(es[i].arguments)
  }

  /**
   * The middleware one call describes: each predicate set and the status
   * override come from the last argument with that label (empty and nil by
   * default); headers merge over every `appliesHeaders:` argument, the last
   * value for a name winning.
   */
  function MiddlewareOf(args: seq<Argument>): StaticMiddleware
    requires MiddlewareArgumentsOk(args)
  {
    var methods := LastLabelled(args, "appliesToMethods");
    var statuses := LastLabelled(args, "appliesToStatuses");
    var contentTypes := LastLabelled(args, "appliesToContentTypes");
    var status := LastLabelled(args, "appliesStatus");
    StaticMiddleware(
      if methods.Some? then MethodSet(args[methods.value].value) else {},
      if statuses.Some? then StatusSet(args[statuses.value].value) else {},
      if contentTypes.Some? then ContentTypeSet(args[contentTypes.value].value) else {},
      if status.Some? then Some(ParseStatus(args[status.value].value.name)) else None,
      HeaderMap(HeaderPairs(args)))
  }

  /**
   * One more argument: it replaces the set or status its label names, and an
   * `appliesHeaders:` argument merges its entries over the headers so far.
   */
  lemma MiddlewareOfSnoc(args: seq<Argument>, a: Argument)
    requires MiddlewareArgumentsOk(args) && MiddlewareArgumentOk(a)
    ensures MiddlewareArgumentsOk(args + [a])
    ensures var before, after := MiddlewareOf(args), MiddlewareOf(args + [a]);
      && after.appliesToMethods == (if a.key == Some("appliesToMethods") then MethodSet(a.value) else before.appliesToMethods)
      && after.appliesToStatuses == (if a.key == Some("appliesToStatuses") then StatusSet(a.value) else before.appliesToStatuses)
      && after.appliesToContentTypes
         == (if a.key == Some("appliesToContentTypes") then ContentTypeSet(a.value) else before.appliesToContentTypes)
      && after.appliesStatus == (if a.key == Some("appliesStatus") then Some(ParseStatus(a.value.name)) else before.appliesStatus)
      && after.appliesHeaders
         == (if a.key == Some("appliesHeaders") then before.appliesHeaders + HeaderMap(EntryPairs(a.value)) else before.appliesHeaders)
  {
    var longer := args + [a];
    assert longer[..|args|] == args;
    assert longer[|args|] == a;
    LastLabelledSnoc(args, a, "appliesToMethods");
    LastLabelledSnoc(args, a, "appliesToStatuses");
    LastLabelledSnoc(args, a, "appliesToContentTypes");
    LastLabelledSnoc(args, a, "appliesStatus");
    HeaderPairsSnoc(args, a);
  }

  lemma MiddlewareOfPrefix(args: seq<Argument>, i: nat)
    requires MiddlewareArgumentsOk(args) && i < |args|
    ensures var before, after, a := MiddlewareOf(args[..i]), MiddlewareOf(args[..i + 1]), args[i];
      && after.appliesToMethods == (if a.key == Some("appliesToMethods") then MethodSet(a.value) else before.appliesToMethods)
      && after.appliesToStatuses == (if a.key == Some("appliesToStatuses") then StatusSet(a.value) else before.appliesToStatuses)
      && after.appliesToContentTypes
         == (if a.key == Some("appliesToContentTypes") then ContentTypeSet(a.value) else before.appliesToContentTypes)
      && after.appliesStatus == (if a.key == Some("appliesStatus") then Some(ParseStatus(a.value.name)) else before.appliesStatus)
      && after.appliesHeaders
         == (if a.key == Some("appliesHeaders") then before.appliesHeaders + HeaderMap(EntryPairs(a.value)) else before.appliesHeaders)
  {
    assert args[..i + 1] == args[..i] + [args[i]];
    MiddlewareOfSnoc(args[..i], args[i]);
  }

  /** The arguments loop of parse_middleware for one middleware call. */
  method ParseMiddlewareCall(args: seq<Argument>) returns (middleware: StaticMiddleware)
    requires MiddlewareArgumentsOk(args)
    ensures middleware == MiddlewareOf(args)
  {
    var appliesToMethods: set<Method> := {};
    var appliesToStatuses: set<Status> := {};
    var appliesToContentTypes: set<ContentType> := {};
    var appliesStatus: Option<Status> := None;
    var appliesHeaders: map<string, string> := map[];
    for i := 0 to |args|
      invariant StaticMiddleware(appliesToMethods, appliesToStatuses, appliesToContentTypes, appliesStatus, appliesHeaders)
                == MiddlewareOf(args[..i])
    {
      var argument := args[i];
      MiddlewareOfPrefix(args, i);
      var key := argument.key.value;
      if key == "appliesToMethods" {
        appliesToMethods := MethodSet(argument.value);
      } else if key == "appliesToStatuses" {
        appliesToStatuses := StatusSet(argument.value);
      } else if key == "appliesToContentTypes" {
        appliesToContentTypes := ContentTypeSet(argument.value);
      } else if key == "appliesStatus" {
        appliesStatus := Some(ParseStatus(argument.value.name));
      } else if key == "appliesHeaders" {
        appliesHeaders := AssignHeaders(appliesHeaders, argument.value);
      }
    }
    assert args[..|args|] == args;
    middleware := StaticMiddleware(appliesToMethods, appliesToStatuses, appliesToContentTypes, appliesStatus, appliesHeaders);
  }

  /** The middleware list: one record per call element, in order; other elements are skipped. */
  function MiddlewareList(es: seq<Expr>): seq<StaticMiddleware>
    requires MiddlewareElementsOk(es)
  {
    if es == [] then []
    else
      MiddlewareList(es[..|es| - 1])
      + (if es[|es| - 1].Call? then [MiddlewareOf(es[|es| - 1].arguments)] else [])
  }

  /** parse_middleware. */
  method ParseMiddleware(es: seq<Expr>) returns (middleware: seq<StaticMiddleware>)
    requires MiddlewareElementsOk(es)
    ensures middleware == MiddlewareList(es)
  {
    middleware := [];
    for i := 0 to |es|
      invariant middleware == MiddlewareList(es[..i])
    {
      assert es[..i + 1] == es[..i] + [es[i]];
      assert es[..i + 1][..i] == es[..i];
      if es[i].Call? {
        var m := ParseMiddlewareCall(es[i].arguments);
        middleware := middleware + [m];
      }
    }
    assert es[..|es|] == es;
  }

  /** Header values given twice for one name keep the later value; predicates default to empty, the status to nil. */
  lemma MiddlewareDefaultsAndLastHeader(name: string, first: string, second: string)
    ensures MiddlewareOf([]) == StaticMiddleware({}, {}, {}, None, map[])
    ensures
      var dictionary := DictionaryLiteral([
        DictionaryEntry(StringLiteral(name), StringLiteral(first)),
        DictionaryEntry(StringLiteral(name), StringLiteral(second))]);
      MiddlewareOf([Argument(Some("appliesHeaders"), dictionary)]).appliesHeaders == map[name := second]
  {
    var dictionary := DictionaryLiteral([
      DictionaryEntry(StringLiteral(name), StringLiteral(first)),
      DictionaryEntry(StringLiteral(name), StringLiteral(second))]);
    var args := [Argument(Some("appliesHeaders"), dictionary)];
    assert args[..0] == [];
    var pairs := EntryPairs(dictionary);
    assert HeaderPairs(args) == pairs;
    assert pairs == [(name, first)] + [(name, second)];
    HeaderMapAssign([(name, first)], name, second);
    HeaderMapAssign([], name, first);
    assert [] + [(name, first)] == [(name, first)];
  }

  // ---------------------------------------------------------------------
  // Macro arguments
  // ---------------------------------------------------------------------

  predicate MacroArgumentOk(a: Argument)
  {
    && (a.key == Some("returnType") ==> a.value.MemberAccess? && ReturnTypeNamed(a.value.name).Some?)
    && (a.key == Some("version") ==> a.value.StringLiteral?)
    && (a.key == Some("middleware") ==> a.value.ArrayLiteral? && MiddlewareElementsOk(a.value.elements))
    && (a.key.None? && a.value.Call? ==> RouteArgumentsOk(a.value.arguments))
  }

  predicate MacroArgumentsOk(args: seq<Argument>)
  {
    forall i | 0 <= i < |args| :: MacroArgumentOk(args[i])
  }

  /** The routes: one per unlabelled call argument, in declaration order. */
  function RoutesOf(args: seq<Argument>): seq<Route>
    requires MacroArgumentsOk(args)
  {
    if args == [] then []
    else
      var last := args[|args| - 1];
      RoutesOf(args[..|args| - 1]) + (if last.key.None? && last.value.Call? then [RouteOf(last.value.arguments)] else [])
  }

  datatype Config = Config(returnType: ReturnType, version: string, middleware: seq<StaticMiddleware>, routes: seq<Route>)

  /**
   * What the arguments loop of `expansion` collects: the last `returnType:`,
   * `version:` and `middleware:` arguments win (defaults: StaticString,
   * "HTTP/1.1", none), and every unlabelled call is a route.
   */
  function ConfigOf(args: seq<Argument>): Config
    requires MacroArgumentsOk(args)
  {
    var returnType := LastLabelled(args, "returnType");
    var version := LastLabelled(args, "version");
    var middleware := LastLabelled(args, "middleware");
    Config(
      if returnType.Some? then ReturnTypeNamed(args[returnType.value].value.name).value else StaticString,
      if version.Some? then args[version.value].value.text else "HTTP/1.1",
      if middleware.Some? then MiddlewareList(args[middleware.value].value.elements) else [],
      RoutesOf(args))
  }

  /** One more argument: a labelled one replaces the setting it names, an unlabelled call adds a route. */
  lemma ConfigOfSnoc(args: seq<Argument>, a: Argument)
    requires MacroArgumentsOk(args) && MacroArgumentOk(a)
    ensures MacroArgumentsOk(args + [a])
    ensures var before, after := ConfigOf(args), ConfigOf(args + [a]);
      && after.returnType
         == (if a.key == Some("returnType") then ReturnTypeNamed(a.value.name).value else before.returnType)
      && after.version == (if a.key == Some("version") then a.value.text else before.version)
      && after.middleware
         == (if a.key == Some("middleware") then MiddlewareList(a.value.elements) else before.middleware)
      && after.routes
         == (if a.key.None? && a.value.Call? then before.routes + [RouteOf(a.value.arguments)] else before.routes)
  {
    var longer := args + [a];
    assert longer[..|args|] == args;
    assert longer[|args|] == a;
    LastLabelledSnoc(args, a, "returnType");
    LastLabelledSnoc(args, a, "version");
    LastLabelledSnoc(args, a, "middleware");
  }

  lemma ConfigOfPrefix(args: seq<Argument>, i: nat)
    requires MacroArgumentsOk(args) && i < |args|
    ensures var before, after, a := ConfigOf(args[..i]), ConfigOf(args[..i + 1]), args[i];
      && after.returnType
         == (if a.key == Some("returnType") then ReturnTypeNamed(a.value.name).value else before.returnType)
      && after.version == (if a.key == Some("version") then a.value.text else before.version)
      && after.middleware
         == (if a.key == Some("middleware") then MiddlewareList(a.value.elements) else before.middleware)
      && after.routes
         == (if a.key.None? && a.value.Call? then before.routes + [RouteOf(a.value.arguments)] else before.routes)
  {
    assert args[..i + 1] == args[..i] + [args[i]];
    ConfigOfSnoc(args[..i], args[i]);
  }

  /** Without `version:` and `returnType:` arguments the table is for HTTP/1.1 and StaticString. */
  lemma ConfigDefaults(args: seq<Argument>)
    requires MacroArgumentsOk(args)
    requires forall i | 0 <= i < |args| :: args[i].key != Some("version") && args[i].key != Some("returnType")
    ensures ConfigOf(args).version == "HTTP/1.1" && ConfigOf(args).returnType == StaticString
  {
  }

  // ---------------------------------------------------------------------
  // Rendering
  // ---------------------------------------------------------------------

  /** `get_returned_type`: the response text as an expression of the chosen return type. */
  function ResponseValue(returnType: ReturnType, response: string): string
  {
    match returnType
    case UInt8Array => ResponseCall("UInt8Array", BytesLiteral(Utf8(response)))
    case UInt16Array => ResponseCall("UInt16Array", BytesLiteral(Utf16(response)))
    case Data => ResponseCall("Data", BytesLiteral(Utf8(response)))
    case UnsafeBufferPointer => ResponseCall("UnsafeBufferPointer", "StaticString(\"" + response + "\").withUTF8Buffer { $0 }")
    case StaticString => ResponseCall("StaticString", "\"" + response + "\"")
  }

  /** `METHOD /path VERSION`. */
  function RequestLine(route: Route, version: string): string
  {
    route.httpMethod.rawValue + " /" + route.path + " " + version
  }

  const KeyCapacity := 32

  function Zeros(n: nat): (z: seq<byte>)
    ensures |z| == n && forall i | 0 <= i < n :: z[i] == 0
  {
    seq(n, _ => 0)
  }

  /** The 32 key bytes: the first 32 bytes of the line, zero-padded when it is shorter. */
  function FixedKey(bytes: seq<byte>): (key: seq<byte>)
    ensures |key| == KeyCapacity
    ensures forall i | 0 <= i < KeyCapacity :: key[i] == if i < |bytes| then bytes[i] else 0
  {
    if |bytes| >= KeyCapacity then bytes[..KeyCapacity] else bytes + Zeros(KeyCapacity - |bytes|)
  }

  /** The `StackString32(b0, b1, ..., b31)` literal of a request line's key. */
  function KeyLiteral(line: string): string
  {
    "StackString32(" + Join(Decimals(FixedKey(Utf8(line))), ", ") + ")"
  }

  function Repeat(s: string, n: nat): string
  {
    if n == 0 then "" else Repeat(s, n - 1) + s
  }

  /**
   * The key renderer of `expansion`: appends the decimal values of the first
   * min(count, 32) bytes, comma separated, then one ", 0" per missing byte.
   */
  method RenderKey(p: seq<byte>) returns (buffer: string)
    ensures |p| > 0 ==> buffer == Join(Decimals(FixedKey(p)), ", ")
    ensures |p| == 0 ==> buffer == Repeat(", 0", KeyCapacity)
  {
    var length := KeyCapacity;
    buffer := "";
    var amount := Min(|p|, length);
    for i := 0 to amount
      invariant buffer == Join(Decimals(p[..i]), ", ")
    {
      assert Decimals(p[..i + 1]) == Decimals(p[..i]) + [Decimal(p[i])];
      if i > 0 {
        JoinAppend(Decimals(p[..i]), Decimal(p[i]), ", ");
      }
      buffer := buffer + (if i == 0 then "" else ", ") + Decimal(p[i]);
    }
    length := length - amount;
    assert p[..amount] + Zeros(0) == p[..amount];
    for j := 0 to length
      invariant |p| > 0 ==> buffer == Join(Decimals(p[..amount] + Zeros(j)), ", ")
      invariant |p| == 0 ==> buffer == Repeat(", 0", j)
    {
      if |p| > 0 {
        var before := p[..amount] + Zeros(j);
        assert p[..amount] + Zeros(j + 1) == before + [0];
        assert Decimals(before + [0]) == Decimals(before) + [Decimal(0)];
        JoinAppend(Decimals(before), Decimal(0), ", ");
      } else {
        assert p[..amount] + Zeros(j) == Zeros(j);
      }
      buffer := buffer + ", 0";
    }
    if |p| > 0 {
      assert p[..amount] + Zeros(KeyCapacity - amount) == FixedKey(p);
    }
  }

  /** One table entry: `StackString32(...):` and the rendered response. */
  function EntryOf(route: Route, config: Config, respond: (Route, string, seq<StaticMiddleware>) -> string): string
  {
    KeyLiteral(RequestLine(route, config.version)) + ":"
    + ResponseValue(config.returnType, respond(route, config.version, config.middleware))
  }

  /** The entries, in route declaration order. */
  function Entries(config: Config, respond: (Route, string, seq<StaticMiddleware>) -> string): (es: seq<string>)
    ensures |es| == |config.routes|
    ensures forall i | 0 <= i < |es| :: es[i] == EntryOf(config.routes[i], config, respond)
  {
    seq(|config.routes|, i requires 0 <= i < |config.routes| => EntryOf(config.routes[i], config, respond))
  }

  /** Declaring one more route appends its entry and leaves the earlier entries as they were. */
  lemma EntriesSnoc(config: Config, route: Route, respond: (Route, string, seq<StaticMiddleware>) -> string)
    ensures Entries(config.(routes := config.routes + [route]), respond)
            == Entries(config, respond) + [EntryOf(route, config, respond)]
  {
    var longer := config.(routes := config.routes + [route]);
    forall i | 0 <= i < |config.routes|
      ensures Entries(longer, respond)[i] == Entries(config, respond)[i]
    {
      assert longer.routes[i] == config.routes[i];
    }
  }

  /** The closure `routes.map` applies: one entry. */
  method RenderEntry(route: Route, config: Config, respond: (Route, string, seq<StaticMiddleware>) -> string)
    returns (entry: string)
    ensures entry == EntryOf(route, config, respond)
  {
    var value := ResponseValue(config.returnType, respond(route, config.version, config.middleware));
    var line := RequestLine(route, config.version);
    var buffer := RenderKey(Utf8(line));
    entry := "StackString32(" + buffer + "):" + value;
  }

  /** The arguments loop of `expansion`. */
  method ParseArguments(args: seq<Argument>) returns (config: Config)
    requires MacroArgumentsOk(args)
    ensures config == ConfigOf(args)
  {
    var returnType, version := StaticString, "HTTP/1.1";
    var middleware: seq<StaticMiddleware>, routes: seq<Route> := [], [];
    for i := 0 to |args|
      invariant Config(returnType, version, middleware, routes) == ConfigOf(args[..i])
    {
      var argument := args[i];
      ConfigOfPrefix(args, i);
      if argument.key == Some("returnType") {
        returnType := ReturnTypeNamed(argument.value.name).value;
      } else if argument.key == Some("version") {
        version := argument.value.text;
      } else if argument.key == Some("middleware") {
        middleware := ParseMiddleware(argument.value.elements);
      } else if argument.key.None? && argument.value.Call? {
        var route := ParseRoute(argument.value.arguments);
        routes := routes + [route];
      }
    }
    assert args[..|args|] == args;
    config := Config(returnType, version, middleware, routes);
  }

  /** `Router.expansion`: the arguments loop, one entry per route, and the dictionary literal around them. */
  method Expansion(args: seq<Argument>, respond: (Route, string, seq<StaticMiddleware>) -> string)
    returns (source: string)
    requires MacroArgumentsOk(args)
    ensures source == RouterSource(Entries(ConfigOf(args), respond))
  {
    var config := ParseArguments(args);
    var entries := RenderEntries(config, respond);
    var joined := Join(entries, ",");
    source := "Router(staticResponses: [" + (if joined == "" then ":" else joined) + "])";
  }

  /** `routes.map { ... }` in `expansion`: one entry per route, in order. */
  method RenderEntries(config: Config, respond: (Route, string, seq<StaticMiddleware>) -> string)
    returns (entries: seq<string>)
    ensures entries == Entries(config, respond)
  {
    entries := [];
    ghost var all := Entries(config, respond);
    for i := 0 to |config.routes|
      invariant entries == all[..i]
    {
      var entry := RenderEntry(config.routes[i], config, respond);
      assert all[..i + 1] == all[..i] + [entry];
      entries := entries + [entry];
    }
    assert all[..|config.routes|] == all;
  }

  // ---------------------------------------------------------------------
  // Properties of the generated table
  // ---------------------------------------------------------------------

  /** The table is the empty dictionary literal exactly when there are no routes. */
  lemma EmptyTableIffNoRoutes(config: Config, respond: (Route, string, seq<StaticMiddleware>) -> string)
    ensures RouterSource(Entries(config, respond)) == "Router(staticResponses: [:])" <==> config.routes == []
  {
    var entries := Entries(config, respond);
    forall i | 0 <= i < |entries| ensures entries[i] != [] && entries[i][0] != ':' {
      assert entries[i][0] == 'S';
    }
    RouterSourceEmpty(entries);
  }

  /** Two request lines get the same key literal exactly when their 32 key bytes agree. */
  lemma KeyLiteralIffFixedKey(a: string, b: string)
    ensures KeyLiteral(a) == KeyLiteral(b) <==> FixedKey(Utf8(a)) == FixedKey(Utf8(b))
  {
    if KeyLiteral(a) == KeyLiteral(b) {
      var ja, jb := Join(Decimals(FixedKey(Utf8(a))), ", "), Join(Decimals(FixedKey(Utf8(b))), ", ");
      var n := |"StackString32("|;
      assert ja == KeyLiteral(a)[n..|KeyLiteral(a)| - 1];
      assert jb == KeyLiteral(b)[n..|KeyLiteral(b)| - 1];
      JoinInjective(Decimals(FixedKey(Utf8(a))), Decimals(FixedKey(Utf8(b))), ", ");
      DecimalsInjective(FixedKey(Utf8(a)), FixedKey(Utf8(b)));
    }
  }

  /**
   * The truncation boundary is 32 bytes: routes whose request lines agree on
   * their first 32 UTF-8 bytes share one key (the generated dictionary literal
   * then holds two entries with that key), and lines that differ within them get different keys.
   */
  lemma KeyTruncation(a: string, b: string)
    ensures |Utf8(a)| >= KeyCapacity && |Utf8(b)| >= KeyCapacity && Utf8(a)[..KeyCapacity] == Utf8(b)[..KeyCapacity]
            ==> KeyLiteral(a) == KeyLiteral(b)
    ensures (exists i | 0 <= i < KeyCapacity && i < |Utf8(a)| && i < |Utf8(b)| :: Utf8(a)[i] != Utf8(b)[i])
            ==> KeyLiteral(a) != KeyLiteral(b)
  {
    KeyLiteralIffFixedKey(a, b);
    if |Utf8(a)| >= KeyCapacity && |Utf8(b)| >= KeyCapacity && Utf8(a)[..KeyCapacity] == Utf8(b)[..KeyCapacity] {
      assert FixedKey(Utf8(a)) == FixedKey(Utf8(b));
    }
    if exists i | 0 <= i < KeyCapacity && i < |Utf8(a)| && i < |Utf8(b)| :: Utf8(a)[i] != Utf8(b)[i] {
      var i :| 0 <= i < KeyCapacity && i < |Utf8(a)| && i < |Utf8(b)| && Utf8(a)[i] != Utf8(b)[i];
      assert FixedKey(Utf8(a))[i] != FixedKey(Utf8(b))[i];
    }
  }

  /** Two routes whose paths share a prefix of 32 characters collide, whatever follows. */
  lemma LongPathsCollide(route: Route, prefix: string, x: string, y: string, version: string)
    requires |prefix| >= KeyCapacity
    ensures KeyLiteral(RequestLine(route.(path := prefix + x), version))
            == KeyLiteral(RequestLine(route.(path := prefix + y), version))
  {
    var head := route.httpMethod.rawValue + " /" + prefix;
    var a, b := RequestLine(route.(path := prefix + x), version), RequestLine(route.(path := prefix + y), version);
    assert a == head + (x + " " + version);
    assert b == head + (y + " " + version);
    Utf8Concat(head, x + " " + version);
    Utf8Concat(head, y + " " + version);
    assert |Utf8(head)| >= KeyCapacity;
    assert Utf8(a)[..KeyCapacity] == Utf8(head)[..KeyCapacity] == Utf8(b)[..KeyCapacity];
    KeyTruncation(a, b);
  }
}
