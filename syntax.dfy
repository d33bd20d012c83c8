/**
 * The part of a Swift syntax tree that the router macros inspect. A macro
 * invocation is a list of (optionally labelled) arguments; each argument's
 * expression is one of the shapes below. Anything the macros never look into
 * is `Other`.
 */
module Syntax {
  import opened Wrappers

  datatype Expr =
    | MemberAccess(name: string)                          // `.get`, `.ok`, `.html`
    | StringLiteral(text: string)                         // `"..."`, by its segments' text
    | IntegerLiteral(text: string)                        // `255`, by its literal text
    | ArrayLiteral(elements: seq<Expr>)                   // `[a, b]`
    | DictionaryLiteral(entries: seq<DictionaryEntry>)    // `["k": "v"]`; `[:]` has no entries
    | Call(callee: Expr, arguments: seq<Argument>)        // `Route(...)`, `.string("...")`
    | Closure                                             // `{ ... }`
    | Other

  datatype DictionaryEntry = DictionaryEntry(key: Expr, value: Expr)

  datatype Argument = Argument(key: Option<string>, value: Expr)   // key: the label text, if any

  /** The position of the last argument labelled `name`: the one whose value wins when a fold assigns per label. */
  function LastLabelled(args: seq<Argument>, name: string): (r: Option<nat>)
    ensures r.Some? ==> r.value < |args| && args[r.value].key == Some(name)
    ensures r.Some? ==> forall j | r.value < j < |args| :: args[j].key != Some(name)
    ensures r.None? ==> forall j | 0 <= j < |args| :: args[j].key != Some(name)
  {
    if args == [] then None
    else if args[|args| - 1].key == Some(name) then Some(|args| - 1)
    else LastLabelled(args[..|args| - 1], name)
  }

  /** One more argument wins when it carries the label; otherwise the earlier winner stands. */
  lemma LastLabelledSnoc(args: seq<Argument>, a: Argument, name: string)
    ensures LastLabelled(args + [a], name) == if a.key == Some(name) then Some(|args|) else LastLabelled(args, name)
  {
    assert (args + [a])[..|args|] == args;
  }
}
