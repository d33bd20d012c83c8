/**
 * What the two router macros (Sources/DestinyMacros/Router.swift and
 * Sources/Macros/Router.swift) have in common: reading member-access lists and
 * header dictionaries out of middleware arguments, merging headers, and the
 * `bytes(_:)` and `response(valueType:_:)` renderers and the
 * `Router(staticResponses: [...])` wrapper of the expansion.
 */
module RouterCommon {
  import opened Wrappers
  import opened Encoding
  import opened Syntax
  import opened Http

  // ---------------------------------------------------------------------
  // Middleware arguments
  // ---------------------------------------------------------------------

  /** An array literal of member accesses: `[.get, .post]`. */
  predicate MemberList(e: Expr)
  {
    e.ArrayLiteral? && forall i | 0 <= i < |e.elements| :: e.elements[i].MemberAccess?
  }

  /** A non-empty dictionary literal of string literals (`[:]` crashes the force-unwrap). */
  predicate HeaderLiteral(e: Expr)
  {
    && e.DictionaryLiteral?
    && |e.entries| > 0
    && forall i | 0 <= i < |e.entries| :: e.entries[i].key.StringLiteral? && e.entries[i].value.StringLiteral?
  }

  function MethodSet(e: Expr): set<Method>
    requires MemberList(e)
  {
    set i | 0 <= i < |e.elements| :: MethodNamed(e.elements[i].name)
  }

  function StatusSet(e: Expr): set<Status>
    requires MemberList(e)
  {
    set i | 0 <= i < |e.elements| :: ParseStatus(e.elements[i].name)
  }

  function ContentTypeSet(e: Expr): set<ContentType>
    requires MemberList(e)
  {
    set i | 0 <= i < |e.elements| :: ContentType(e.elements[i].name)
  }

  /** The (name, value) pairs of a header dictionary literal, in source order. */
  function EntryPairs(e: Expr): (ps: seq<(string, string)>)
    requires HeaderLiteral(e)
    ensures |ps| == |e.entries|
  {
    seq(|e.entries|, i requires 0 <= i < |e.entries| => (e.entries[i].key.text, e.entries[i].value.text))
  }

  /** An `appliesHeaders:` argument must hold a header dictionary literal. */
  predicate HeaderArgumentOk(a: Argument)
  {
    a.key == Some("appliesHeaders") ==> HeaderLiteral(a.value)
  }

  predicate HeadersOk(args: seq<Argument>)
  {
    forall i | 0 <= i < |args| :: HeaderArgumentOk(args[i])
  }

  /** All header pairs of all `appliesHeaders:` arguments, in order. */
  function HeaderPairs(args: seq<Argument>): seq<(string, string)>
    requires HeadersOk(args)
  {
    if args == [] then []
    else
      HeaderPairs(args[..|args| - 1])
      + (if args[|args| - 1].key == Some("appliesHeaders") then EntryPairs(args[|args| - 1].value) else [])
  }

  /** The value of the last pair named `name`. */
  function LastValue(pairs: seq<(string, string)>, name: string): (r: Option<string>)
    ensures r.None? <==> forall i | 0 <= i < |pairs| :: pairs[i].0 != name
    ensures r.Some? ==> exists i | 0 <= i < |pairs| :: pairs[i] == (name, r.value)
                                    && forall j | i < j < |pairs| :: pairs[j].0 != name
  {
    if pairs == [] then None
    else if pairs[|pairs| - 1].0 == name then Some(pairs[|pairs| - 1].1)
    else LastValue(pairs[..|pairs| - 1], name)
  }

  /** The header names some pair gives. */
  function Names(pairs: seq<(string, string)>): set<string>
  {
    set i | 0 <= i < |pairs| :: pairs[i].0
  }

  lemma NamesSnoc(pairs: seq<(string, string)>, pair: (string, string))
    ensures Names(pairs + [pair]) == Names(pairs) + {pair.0}
  {
    var longer := pairs + [pair];
    forall n | n in Names(longer) ensures n in Names(pairs) + {pair.0} {
      var i :| 0 <= i < |longer| && longer[i].0 == n;
      if i < |pairs| { assert pairs[i].0 == n; }
    }
    forall n | n in Names(pairs) ensures n in Names(longer) {
      var i :| 0 <= i < |pairs| && pairs[i].0 == n;
      assert longer[i].0 == n;
    }
    assert longer[|pairs|].0 == pair.0;
  }

  /**
   * The header dictionary built by assigning `headers[name] = value` for each
   * pair in turn: every name given, with the last value given for it.
   */
  function HeaderMap(pairs: seq<(string, string)>): (m: map<string, string>)
    ensures m.Keys == Names(pairs)
    ensures forall name | name in m :: LastValue(pairs, name) == Some(m[name])
  {
    if pairs == [] then map[]
    else
      var init, last := pairs[..|pairs| - 1], pairs[|pairs| - 1];
      assert pairs == init + [last];
      NamesSnoc(init, last);
      HeaderMap(init)[last.0 := last.1]
  }

  /** Assigning `m[name] = value` after the pairs gives the map of the longer list. */
  lemma HeaderMapAssign(pairs: seq<(string, string)>, name: string, value: string)
    ensures HeaderMap(pairs + [(name, value)]) == HeaderMap(pairs)[name := value]
  {
    assert (pairs + [(name, value)])[..|pairs|] == pairs;
  }

  lemma MapUnionAssign<K, V>(m: map<K, V>, d: map<K, V>, k: K, v: V)
    ensures (m + d)[k := v] == m + d[k := v]
  {
  }

  /** The header map of two lists run one after the other: the later list wins on shared names. */
  lemma {:induction false} HeaderMapConcat(xs: seq<(string, string)>, ys: seq<(string, string)>)
    ensures HeaderMap(xs + ys) == HeaderMap(xs) + HeaderMap(ys)
    decreases |ys|
  {
    if ys == [] {
      assert xs + ys == xs;
      assert HeaderMap(ys) == map[];
    } else {
      var init, last := ys[..|ys| - 1], ys[|ys| - 1];
      assert ys == init + [last];
      assert xs + ys == (xs + init) + [last];
      calc {
        HeaderMap(xs + ys);
        HeaderMap((xs + init) + [last]);
        { HeaderMapAssign(xs + init, last.0, last.1); }
        HeaderMap(xs + init)[last.0 := last.1];
        { HeaderMapConcat(xs, init); }
        (HeaderMap(xs) + HeaderMap(init))[last.0 := last.1];
        { MapUnionAssign(HeaderMap(xs), HeaderMap(init), last.0, last.1); }
        HeaderMap(xs) + HeaderMap(init)[last.0 := last.1];
        { HeaderMapAssign(init, last.0, last.1); }
        HeaderMap(xs) + HeaderMap(ys);
      }
    }
  }

  /** The inner `for (key, value) in dictionary { appliesHeaders[key] = value }` loop. */
  method AssignHeaders(headers: map<string, string>, dictionary: Expr) returns (result: map<string, string>)
    requires HeaderLiteral(dictionary)
    ensures result == headers + HeaderMap(EntryPairs(dictionary))
  {
    result := headers;
    var pairs := EntryPairs(dictionary);
    for j := 0 to |pairs|
      invariant result == headers + HeaderMap(pairs[..j])
    {
      var (key, value) := pairs[j];
      assert pairs[..j + 1] == pairs[..j] + [(key, value)];
      HeaderMapAssign(pairs[..j], key, value);
      MapUnionAssign(headers, HeaderMap(pairs[..j]), key, value);
      result := result[key := value];
    }
    assert pairs[..|pairs|] == pairs;
  }

  lemma HeaderPairsSnoc(args: seq<Argument>, a: Argument)
    requires HeadersOk(args) && HeaderArgumentOk(a)
    ensures HeadersOk(args + [a])
    ensures HeaderMap(HeaderPairs(args + [a]))
            == if a.key == Some("appliesHeaders") then HeaderMap(HeaderPairs(args)) + HeaderMap(EntryPairs(a.value))
               else HeaderMap(HeaderPairs(args))
  {
    var longer := args + [a];
    assert longer[..|args|] == args;
    assert longer[|longer| - 1] == a;
    if a.key == Some("appliesHeaders") {
      assert HeaderPairs(longer) == HeaderPairs(args) + EntryPairs(a.value);
      HeaderMapConcat(HeaderPairs(args), EntryPairs(a.value));
    } else {
      assert HeaderPairs(longer) == HeaderPairs(args) + [];
      assert HeaderPairs(args) + [] == HeaderPairs(args);
    }
  }

  // ---------------------------------------------------------------------
  // Rendering
  // ---------------------------------------------------------------------

  /** `bytes(_:)`: an array literal of the decimal values, comma separated. */
  function BytesLiteral(xs: seq<nat>): string
  {
    "[" + Join(Decimals(xs), ",") + "]"
  }

  /** The rendered array literal determines the values: distinct lists render differently. */
  lemma BytesLiteralInjective(xs: seq<nat>, ys: seq<nat>)
    ensures BytesLiteral(xs) == BytesLiteral(ys) <==> xs == ys
  {
    if BytesLiteral(xs) == BytesLiteral(ys) {
      var a, b := Join(Decimals(xs), ","), Join(Decimals(ys), ",");
      assert a == BytesLiteral(xs)[1..|BytesLiteral(xs)| - 1];
      assert b == BytesLiteral(ys)[1..|BytesLiteral(ys)| - 1];
      JoinInjective(Decimals(xs), Decimals(ys), ",");
      DecimalsInjective(xs, ys);
    }
  }

  /** `response(valueType:_:)`. */
  function ResponseCall(valueType: string, argument: string): string
  {
    "RouteResponse" + valueType + "(" + argument + ")"
  }

  /** The argument of a `RouteResponse...(...)` call can be read back from the call text. */
  lemma ResponseCallInjective(valueType: string, a: string, b: string)
    ensures ResponseCall(valueType, a) == ResponseCall(valueType, b) <==> a == b
  {
    if ResponseCall(valueType, a) == ResponseCall(valueType, b) {
      var n := |"RouteResponse" + valueType + "("|;
      assert a == ResponseCall(valueType, a)[n..|ResponseCall(valueType, a)| - 1];
      assert b == ResponseCall(valueType, b)[n..|ResponseCall(valueType, b)| - 1];
    }
  }

  /** The expansion text: the entries joined by "," or, with none, the empty dictionary `[:]`. */
  function RouterSource(entries: seq<string>): string
  {
    var joined := Join(entries, ",");
    "Router(staticResponses: [" + (if joined == "" then ":" else joined) + "])"
  }

  /**
   * The table is the empty dictionary literal exactly when there are no
   * entries (entries never start with the `:` of `[:]`).
   */
  lemma RouterSourceEmpty(entries: seq<string>)
    requires forall i | 0 <= i < |entries| :: entries[i] != [] && entries[i][0] != ':'
    ensures RouterSource(entries) == "Router(staticResponses: [:])" <==> entries == []
  {
    if entries != [] {
      JoinNonEmpty(entries, ",");
      var joined := Join(entries, ",");
      assert RouterSource(entries)[|"Router(staticResponses: ["|] == joined[0];
    }
  }
}
