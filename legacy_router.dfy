/**
 * The older `#router` macro (Sources/Macros/Router.swift). It reads its
 * arguments as the newer macro does, with these differences: a route's status
 * defaults to 200 OK rather than being absent, only `.string(...)` sets a static
 * result, middleware has no status override, there is a `byteBuffer` return
 * type, and the table keys are the string literal `"METHOD /path"`, without
 * the HTTP version and without truncation.
 */
module LegacyRouter {
  import opened Wrappers
  import opened Encoding
  import opened Syntax
  import opened Http
  import opened RouterCommon

  // ---------------------------------------------------------------------
  // Records
  // ---------------------------------------------------------------------

  datatype Route = Route(
    httpMethod: Method,
    path: string,
    status: Status,
    contentType: ContentType,
    charset: string,
    staticResult: Option<RouteResult>,
    dynamicResult: Option<Expr>)

  datatype Middleware = Middleware(
    appliesToMethods: set<Method>,
    appliesToStatuses: set<Status>,
    appliesToContentTypes: set<ContentType>,
    appliesHeaders: map<string, string>)

  /**
   * The return types the switch of `expansion` names, and `Unlisted(name)` for
   * every case it leaves to `default:` (`staticString`, the initial value,
   * among them), which renders as StaticString.
   */
  datatype ReturnType = UInt8Array | UInt16Array | ByteBuffer | Data | Unlisted(name: string)

  /** The return type the initial value `.staticString` stands for. */
  const DefaultReturnType: ReturnType := Unlisted("staticString")

  /** The four names the switch of `expansion` lists. */
  predicate SwitchNamed(name: string)
  {
    name == "uint8Array" || name == "uint16Array" || name == "byteBuffer" || name == "data"
  }

  /** `RouterReturnType(rawValue:)` as the switch of `expansion` tells its cases apart. */
  function ReturnTypeNamed(name: string): (t: ReturnType)
    ensures t.Unlisted? <==> !SwitchNamed(name)
    ensures t.Unlisted? ==> t.name == name
  {
    if name == "uint8Array" then UInt8Array
    else if name == "uint16Array" then UInt16Array
    else if name == "byteBuffer" then ByteBuffer
    else if name == "data" then Data
    else Unlisted(name)
  }

  // ---------------------------------------------------------------------
  // parse_route
  // ---------------------------------------------------------------------

  /** The force-unwraps parse_route performs on a `staticResult:` value. */
  predicate StaticResultArgumentOk(e: Expr)
  {
    e.Call? ==>
      && e.callee.MemberAccess?
      && (e.callee.name == "string" ==> |e.arguments| > 0 && e.arguments[0].value.StringLiteral?)
  }

  predicate RouteArgumentOk(a: Argument)
  {
    && a.key.Some?
    && (a.key.value == "method" ==> a.value.MemberAccess?)
    && (a.key.value == "path" ==> a.value.StringLiteral?)
    && (a.key.value == "status" ==> a.value.MemberAccess?)
    && (a.key.value == "contentType" ==> a.value.MemberAccess?)
    && (a.key.value == "charset" ==> a.value.StringLiteral?)
    && (a.key.value == "staticResult" ==> StaticResultArgumentOk(a.value))
  }

  predicate RouteArgumentsOk(args: seq<Argument>)
  {
    forall i | 0 <= i < |args| :: RouteArgumentOk(args[i])
  }

  /** Only a `.string(...)` call assigns the static result; anything else leaves it. */
  predicate SetsStaticResult(a: Argument)
  {
    && a.key == Some("staticResult")
    && a.value.Call? && a.value.callee.MemberAccess? && a.value.callee.name == "string"
  }

  function LastStaticResult(args: seq<Argument>): (r: Option<nat>)
    ensures r.Some? ==> r.value < |args| && SetsStaticResult(args[r.value])
    ensures r.Some? ==> forall j | r.value < j < |args| :: !SetsStaticResult(args[j])
    ensures r.None? ==> forall j | 0 <= j < |args| :: !SetsStaticResult(args[j])
  {
    if args == [] then None
    else if SetsStaticResult(args[|args| - 1]) then Some(|args| - 1)
    else LastStaticResult(args[..|args| - 1])
  }

  /**
   * The route parse_route builds: each field takes the value of the last
   * argument that assigns it, or its default (GET, "", 200 OK, text, "UTF-8",
   * no static result); there is never a dynamic result.
   */
  function RouteOf(args: seq<Argument>): Route
    requires RouteArgumentsOk(args)
  {
    var verb := LastLabelled(args, "method");
    var path := LastLabelled(args, "path");
    var status := LastLabelled(args, "status");
    var contentType := LastLabelled(args, "contentType");
    var charset := LastLabelled(args, "charset");
    var result := LastStaticResult(args);
    Route(
      if verb.Some? then MethodNamed(args[verb.value].value.name) else Get,
      if path.Some? then args[path.value].value.text else "",
      if status.Some? then ParseStatus(args[status.value].value.name) else OK,
      if contentType.Some? then ContentType(args[contentType.value].value.name) else Text,
      if charset.Some? then args[charset.value].value.text else "UTF-8",
      if result.Some? then Some(StringResult(args[result.value].value.arguments[0].value.text)) else None,
      None)
  }

  lemma RouteOfSnoc(args: seq<Argument>, a: Argument)
    requires RouteArgumentsOk(args) && RouteArgumentOk(a)
    ensures RouteArgumentsOk(args + [a])
    ensures var before, after := RouteOf(args), RouteOf(args + [a]);
      && after.httpMethod == (if a.key == Some("method") then MethodNamed(a.value.name) else before.httpMethod)
      && after.path == (if a.key == Some("path") then a.value.text else before.path)
      && after.status == (if a.key == Some("status") then ParseStatus(a.value.name) else before.status)
      && after.contentType == (if a.key == Some("contentType") then ContentType(a.value.name) else before.contentType)
      && after.charset == (if a.key == Some("charset") then a.value.text else before.charset)
      && after.staticResult
         == (if SetsStaticResult(a) then Some(StringResult(a.value.arguments[0].value.text)) else before.staticResult)
      && after.dynamicResult == None
  {
    var longer := args + [a];
    assert longer[..|args|] == args;
    assert longer[|args|] == a;
    LastLabelledSnoc(args, a, "method");
    LastLabelledSnoc(args, a, "path");
    LastLabelledSnoc(args, a, "status");
    LastLabelledSnoc(args, a, "contentType");
    LastLabelledSnoc(args, a, "charset");
  }

  lemma RouteOfPrefix(args: seq<Argument>, i: nat)
    requires RouteArgumentsOk(args) && i < |args|
    ensures var before, after, a := RouteOf(args[..i]), RouteOf(args[..i + 1]), args[i];
      && after.httpMethod == (if a.key == Some("method") then MethodNamed(a.value.name) else before.httpMethod)
      && after.path == (if a.key == Some("path") then a.value.text else before.path)
      && after.status == (if a.key == Some("status") then ParseStatus(a.value.name) else before.status)
      && after.contentType == (if a.key == Some("contentType") then ContentType(a.value.name) else before.contentType)
      && after.charset == (if a.key == Some("charset") then a.value.text else before.charset)
      && after.staticResult
         == (if SetsStaticResult(a) then Some(StringResult(a.value.arguments[0].value.text)) else before.staticResult)
      && after.dynamicResult == None
  {
    assert args[..i + 1] == args[..i] + [args[i]];
    RouteOfSnoc(args[..i], args[i]);
  }

  /** parse_route. */
  method ParseRoute(args: seq<Argument>) returns (route: Route)
    requires RouteArgumentsOk(args)
    ensures route == RouteOf(args)
  {
    route := Route(Get, "", OK, Text, "UTF-8", None, None);
    for i := 0 to |args|
      invariant route == RouteOf(args[..i])
    {
      var argument := args[i];
      RouteOfPrefix(args, i);
      var key := argument.key.value;
      if key == "method" {
        route := route.(httpMethod := MethodNamed(argument.value.name));
      } else if key == "path" {
        route := route.(path := argument.value.text);
      } else if key == "status" {
        route := route.(status := ParseStatus(argument.value.name));
      } else if key == "contentType" {
        route := route.(contentType := ContentType(argument.value.name));
      } else if key == "charset" {
        route := route.(charset := argument.value.text);
      } else if key == "staticResult" {
        var call := argument.value;
        if call.Call? && call.callee.name == "string" {
          route := route.(staticResult := Some(StringResult(call.arguments[0].value.text)));
        }
      }
    }
    assert args[..|args|] == args;
  }

  /** A route call with no arguments gets every default; its status is 200 OK. */
  lemma RouteDefaults()
    ensures RouteOf([]) == Route(Get, "", OK, Text, "UTF-8", None, None)
  {
  }

  /**
   * A `.bytes(...)` static result, a call of any other member, and a value that
   * is not a call are all ignored: the static result stays as it was.
   */
  lemma StaticResultOnlyFromString(args: seq<Argument>, a: Argument)
    requires RouteArgumentsOk(args) && RouteArgumentOk(a)
    requires a.key == Some("staticResult")
    requires !(a.value.Call? && a.value.callee.name == "string")
    ensures RouteOf(args + [a]).staticResult == RouteOf(args).staticResult
  {
    RouteOfSnoc(args, a);
  }

  // ---------------------------------------------------------------------
  // parse_middleware
  // ---------------------------------------------------------------------

  predicate MiddlewareArgumentOk(a: Argument)
  {
    && a.key.Some?
    && (a.key.value == "appliesToMethods" ==> MemberList(a.value))
    && (a.key.value == "appliesToStatuses" ==> MemberList(a.value))
    && (a.key.value == "appliesToContentTypes" ==> MemberList(a.value))
    && HeaderArgumentOk(a)
  }

  predicate MiddlewareArgumentsOk(args: seq<Argument>)
  {
    forall i | 0 <= i < |args| :: MiddlewareArgumentOk(args[i])
  }

  predicate MiddlewareElementsOk(es: seq<Expr>)
  {
    forall i | 0 <= i < |es| :: es[i].Call? ==> MiddlewareArgumentsOk(es[i].arguments)
  }

  /**
   * The middleware one call describes: each predicate set from the last
   * argument with that label (empty by default); headers merge over every
   * `appliesHeaders:` argument, the last value for a name winning.
   */
  function MiddlewareOf(args: seq<Argument>): Middleware
    requires MiddlewareArgumentsOk(args)
  {
    var methods := LastLabelled(args, "appliesToMethods");
    var statuses := LastLabelled(args, "appliesToStatuses");
    var contentTypes := LastLabelled(args, "appliesToContentTypes");
    Middleware(
      if methods.Some? then MethodSet(args[methods.value].value) else {},
      if statuses.Some? then StatusSet(args[statuses.value].value) else {},
      if contentTypes.Some? then ContentTypeSet(args[contentTypes.value].value) else {},
      HeaderMap(HeaderPairs(args)))
  }

  lemma MiddlewareOfPrefix(args: seq<Argument>, i: nat)
    requires MiddlewareArgumentsOk(args) && i < |args|
    ensures var before, after, a := MiddlewareOf(args[..i]), MiddlewareOf(args[..i + 1]), args[i];
      && after.appliesToMethods == (if a.key == Some("appliesToMethods") then MethodSet(a.value) else before.appliesToMethods)
      && after.appliesToStatuses == (if a.key == Some("appliesToStatuses") then StatusSet(a.value) else before.appliesToStatuses)
      && after.appliesToContentTypes
         == (if a.key == Some("appliesToContentTypes") then ContentTypeSet(a.value) else before.appliesToContentTypes)
      && after.appliesHeaders
         == (if a.key == Some("appliesHeaders") then before.appliesHeaders + HeaderMap(EntryPairs(a.value)) else before.appliesHeaders)
  {
    var init, a := args[..i], args[i];
    assert args[..i + 1] == init + [a];
    assert (init + [a])[..i] == init;
    assert (init + [a])[i] == a;
    LastLabelledSnoc(init, a, "appliesToMethods");
    LastLabelledSnoc(init, a, "appliesToStatuses");
    LastLabelledSnoc(init, a, "appliesToContentTypes");
    HeaderPairsSnoc(init, a);
  }

  /** The arguments loop of parse_middleware for one middleware call. */
  method ParseMiddlewareCall(args: seq<Argument>) returns (middleware: Middleware)
    requires MiddlewareArgumentsOk(args)
    ensures middleware == MiddlewareOf(args)
  {
    var appliesToMethods: set<Method> := {};
    var appliesToStatuses: set<Status> := {};
    var appliesToContentTypes: set<ContentType> := {};
    var appliesHeaders: map<string, string> := map[];
    for i := 0 to |args|
      invariant Middleware(appliesToMethods, appliesToStatuses, appliesToContentTypes, appliesHeaders)
                == MiddlewareOf(args[..i])
    {
      var argument := args[i];
      MiddlewareOfPrefix(args, i);
      var key := argument.key.value;
      if key == "appliesToMethods" {
        appliesToMethods := MethodSet(argument.value);
      } else if key == "appliesToStatuses" {
        appliesToStatuses := StatusSet(argument.value);
      } else if key == "appliesToContentTypes" {
        appliesToContentTypes := ContentTypeSet(argument.value);
      } else if key == "appliesHeaders" {
        appliesHeaders := AssignHeaders(appliesHeaders, argument.value);
      }
    }
    assert args[..|args|] == args;
    middleware := Middleware(appliesToMethods, appliesToStatuses, appliesToContentTypes, appliesHeaders);
  }

  /** The middleware list: one record per call element, in order; other elements are skipped. */
  function MiddlewareList(es: seq<Expr>): seq<Middleware>
    requires MiddlewareElementsOk(es)
  {
    if es == [] then []
    else
      MiddlewareList(es[..|es| - 1])
      + (if es[|es| - 1].Call? then [MiddlewareOf(es[|es| - 1].arguments)] else [])
  }

  /** parse_middleware. */
  method ParseMiddleware(es: seq<Expr>) returns (middleware: seq<Middleware>)
    requires MiddlewareElementsOk(es)
    ensures middleware == MiddlewareList(es)
  {
    middleware := [];
    for i := 0 to |es|
      invariant middleware == MiddlewareList(es[..i])
    {
      assert es[..i + 1] == es[..i] + [es[i]];
      assert es[..i + 1][..i] == es[..i];
      if es[i].Call? {
        var m := ParseMiddlewareCall(es[i].arguments);
        middleware := middleware + [m];
      }
    }
    assert es[..|es|] == es;
  }

  /** Header values given twice for one name keep the later value; predicates default to empty. */
  lemma MiddlewareDefaultsAndLastHeader(name: string, first: string, second: string)
    ensures MiddlewareOf([]) == Middleware({}, {}, {}, map[])
    ensures
      var dictionary := DictionaryLiteral([
        DictionaryEntry(StringLiteral(name), StringLiteral(first)),
        DictionaryEntry(StringLiteral(name), StringLiteral(second))]);
      MiddlewareOf([Argument(Some("appliesHeaders"), dictionary)]).appliesHeaders == map[name := second]
  {
    var dictionary := DictionaryLiteral([
      DictionaryEntry(StringLiteral(name), StringLiteral(first)),
      DictionaryEntry(StringLiteral(name), StringLiteral(second))]);
    var args := [Argument(Some("appliesHeaders"), dictionary)];
    assert args[..0] == [];
    var pairs := EntryPairs(dictionary);
    assert HeaderPairs(args) == pairs;
    assert pairs == [(name, first)] + [(name, second)];
    HeaderMapAssign([(name, first)], name, second);
    HeaderMapAssign([], name, first);
    assert [] + [(name, first)] == [(name, first)];
  }

  // ---------------------------------------------------------------------
  // Macro arguments
  // ---------------------------------------------------------------------

  predicate MacroArgumentOk(a: Argument)
  {
    && (a.key == Some("returnType") ==> a.value.MemberAccess?)
    && (a.key == Some("version") ==> a.value.StringLiteral?)
    && (a.key == Some("middleware") ==> a.value.ArrayLiteral? && MiddlewareElementsOk(a.value.elements))
    && (a.key.None? && a.value.Call? ==> RouteArgumentsOk(a.value.arguments))
  }

  predicate MacroArgumentsOk(args: seq<Argument>)
  {
    forall i | 0 <= i < |args| :: MacroArgumentOk(args[i])
  }

  function RoutesOf(args: seq<Argument>): seq<Route>
    requires MacroArgumentsOk(args)
  {
    if args == [] then []
    else
      var last := args[|args| - 1];
      RoutesOf(args[..|args| - 1]) + (if last.key.None? && last.value.Call? then [RouteOf(last.value.arguments)] else [])
  }

  datatype Config = Config(returnType: ReturnType, version: string, middleware: seq<Middleware>, routes: seq<Route>)

  /** What the arguments loop of `expansion` collects, as in the newer macro. */
  function ConfigOf(args: seq<Argument>): Config
    requires MacroArgumentsOk(args)
  {
    var returnType := LastLabelled(args, "returnType");
    var version := LastLabelled(args, "version");
    var middleware := LastLabelled(args, "middleware");
    Config(
      if returnType.Some? then ReturnTypeNamed(args[returnType.value].value.name) else DefaultReturnType,
      if version.Some? then args[version.value].value.text else "HTTP/1.1",
      if middleware.Some? then MiddlewareList(args[middleware.value].value.elements) else [],
      RoutesOf(args))
  }

  lemma ConfigOfPrefix(args: seq<Argument>, i: nat)
    requires MacroArgumentsOk(args) && i < |args|
    ensures var before, after, a := ConfigOf(args[..i]), ConfigOf(args[..i + 1]), args[i];
      && after.returnType
         == (if a.key == Some("returnType") then ReturnTypeNamed(a.value.name) else before.returnType)
      && after.version == (if a.key == Some("version") then a.value.text else before.version)
      && after.middleware
         == (if a.key == Some("middleware") then MiddlewareList(a.value.elements) else before.middleware)
      && after.routes
         == (if a.key.None? && a.value.Call? then before.routes + [RouteOf(a.value.arguments)] else before.routes)
  {
    var init, a := args[..i], args[i];
    assert args[..i + 1] == init + [a];
    assert (init + [a])[..i] == init;
    assert (init + [a])[i] == a;
    LastLabelledSnoc(init, a, "returnType");
    LastLabelledSnoc(init, a, "version");
    LastLabelledSnoc(init, a, "middleware");
  }

  /** The arguments loop of `expansion`. */
  method ParseArguments(args: seq<Argument>) returns (config: Config)
    requires MacroArgumentsOk(args)
    ensures config == ConfigOf(args)
  {
    var returnType, version := DefaultReturnType, "HTTP/1.1";
    var middleware: seq<Middleware>, routes: seq<Route> := [], [];
    for i := 0 to |args|
      invariant Config(returnType, version, middleware, routes) == ConfigOf(args[..i])
    {
      var argument := args[i];
      ConfigOfPrefix(args, i);
      if argument.key == Some("returnType") {
        returnType := ReturnTypeNamed(argument.value.name);
      } else if argument.key == Some("version") {
        version := argument.value.text;
      } else if argument.key == Some("middleware") {
        middleware := ParseMiddleware(argument.value.elements);
      } else if argument.key.None? && argument.value.Call? {
        var route := ParseRoute(argument.value.arguments);
        routes := routes + [route];
      }
    }
    assert args[..|args|] == args;
    config := Config(returnType, version, middleware, routes);
  }

  /** Without `version:` and `returnType:` arguments the table is for HTTP/1.1 and `.staticString`. */
  lemma ConfigDefaults(args: seq<Argument>)
    requires MacroArgumentsOk(args)
    requires forall i | 0 <= i < |args| :: args[i].key != Some("version") && args[i].key != Some("returnType")
    ensures ConfigOf(args).version == "HTTP/1.1" && ConfigOf(args).returnType == DefaultReturnType
  {
  }

  // ---------------------------------------------------------------------
  // Rendering
  // ---------------------------------------------------------------------

  /** `get_returned_type`: the response text as an expression of the chosen return type. */
  function ResponseValue(returnType: ReturnType, response: string): string
  {
    match returnType
    case UInt8Array => ResponseCall("UInt8Array", BytesLiteral(Utf8(response)))
    case UInt16Array => ResponseCall("UInt16Array", BytesLiteral(Utf16(response)))
    case ByteBuffer => ResponseCall("ByteBuffer", "ByteBuffer(bytes: " + BytesLiteral(Utf8(response)) + ")")
    case Data => ResponseCall("Data", BytesLiteral(Utf8(response)))
    case Unlisted(_) => ResponseCall("StaticString", "\"" + response + "\"")
  }

  /**
   * `default:` of the switch: a return type named by anything but the four
   * listed names, `staticString` included, renders the response as a quoted
   * StaticString; a listed name never does.
   */
  lemma ResponseFallback(name: string, response: string)
    ensures !SwitchNamed(name)
            <==> ResponseValue(ReturnTypeNamed(name), response) == ResponseCall("StaticString", "\"" + response + "\"")
  {
    var t := ReturnTypeNamed(name);
    var quoted := ResponseCall("StaticString", "\"" + response + "\"");
    if SwitchNamed(name) {
      var value := ResponseValue(t, response);
      assert value[..|"RouteResponse"|] == "RouteResponse";
      assert quoted[..|"RouteResponse"|] == "RouteResponse";
      assert value[|"RouteResponse"|] != 'S';
      assert quoted[|"RouteResponse"|] == 'S';
    }
  }

  /** The table key: the string literal `"METHOD /path"`. */
  function KeyLiteral(route: Route): string
  {
    "\"" + route.httpMethod.rawValue + " /" + route.path + "\""
  }

  /** One table entry: the quoted key, a colon, the rendered response. */
  function EntryOf(route: Route, config: Config, respond: (Route, string, seq<Middleware>) -> string): string
  {
    KeyLiteral(route) + ":" + ResponseValue(config.returnType, respond(route, config.version, config.middleware))
  }

  function Entries(config: Config, respond: (Route, string, seq<Middleware>) -> string): (es: seq<string>)
    ensures |es| == |config.routes|
    ensures forall i | 0 <= i < |es| :: es[i] == EntryOf(config.routes[i], config, respond)
  {
    seq(|config.routes|, i requires 0 <= i < |config.routes| => EntryOf(config.routes[i], config, respond))
  }

  /** Declaring one more route appends its entry and leaves the earlier entries as they were. */
  lemma EntriesSnoc(config: Config, route: Route, respond: (Route, string, seq<Middleware>) -> string)
    ensures Entries(config.(routes := config.routes + [route]), respond)
            == Entries(config, respond) + [EntryOf(route, config, respond)]
  {
    var longer := config.(routes := config.routes + [route]);
    forall i | 0 <= i < |config.routes|
      ensures Entries(longer, respond)[i] == Entries(config, respond)[i]
    {
      assert longer.routes[i] == config.routes[i];
    }
  }

  /** `routes.map { ... }` in `expansion`: one entry per route, in order. */
  method RenderEntries(config: Config, respond: (Route, string, seq<Middleware>) -> string)
    returns (entries: seq<string>)
    ensures entries == Entries(config, respond)
  {
    entries := [];
    ghost var all := Entries(config, respond);
    for i := 0 to |config.routes|
      invariant entries == all[..i]
    {
      var route := config.routes[i];
      var value := ResponseValue(config.returnType, respond(route, config.version, config.middleware));
      var entry := "\"" + route.httpMethod.rawValue + " /" + route.path + "\":" + value;
      assert entry == EntryOf(route, config, respond);
      assert all[..i + 1] == all[..i] + [entry];
      entries := entries + [entry];
    }
    assert all[..|config.routes|] == all;
  }

  /** `Router.expansion`. */
  method Expansion(args: seq<Argument>, respond: (Route, string, seq<Middleware>) -> string)
    returns (source: string)
    requires MacroArgumentsOk(args)
    ensures source == RouterSource(Entries(ConfigOf(args), respond))
  {
    var config := ParseArguments(args);
    var entries := RenderEntries(config, respond);
    var joined := Join(entries, ",");
    source := "Router(staticResponses: [" + (if joined == "" then ":" else joined) + "])";
  }

  // ---------------------------------------------------------------------
  // Properties of the generated table
  // ---------------------------------------------------------------------

  lemma EmptyTableIffNoRoutes(config: Config, respond: (Route, string, seq<Middleware>) -> string)
    ensures RouterSource(Entries(config, respond)) == "Router(staticResponses: [:])" <==> config.routes == []
  {
    var entries := Entries(config, respond);
    forall i | 0 <= i < |entries| ensures entries[i] != [] && entries[i][0] != ':' {
      assert entries[i][0] == '"';
    }
    RouterSourceEmpty(entries);
  }

  /**
   * Keys do not collide: for method tokens without a space (as HTTP method
   * tokens are), two routes get the same key exactly when they have the same
   * method and path. The HTTP version is not part of the key.
   */
  lemma KeyLiteralInjective(r: Route, s: Route)
    requires ' ' !in r.httpMethod.rawValue && ' ' !in s.httpMethod.rawValue
    ensures KeyLiteral(r) == KeyLiteral(s) <==> r.httpMethod == s.httpMethod && r.path == s.path
  {
    if KeyLiteral(r) == KeyLiteral(s) {
      var m, n := r.httpMethod.rawValue, s.httpMethod.rawValue;
      var k := KeyLiteral(r);
      assert k == "\"" + m + " /" + r.path + "\"";
      assert k == "\"" + n + " /" + s.path + "\"";
      assert k[|m| + 1] == ' ';
      assert k[|n| + 1] == ' ';
      assert m == k[1..|m| + 1] == n;
      assert r.path == k[|m| + 3..|k| - 1] == s.path;
    }
  }
}
