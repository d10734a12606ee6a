/** The render engine: every value a child position accepts, and how it becomes grammar text.

    `Renderable` is the four-way union of `lark_dynamic/token.py`: a raw string (`Str`), a tuple
    (`Tup`, sugar for a group), a list (`Lst`, sugar for an optional) and one constructor per
    node class of `combinators.py`, `atoms.py`, `definitions.py` (`Alias`) and `variable.py`.
    The alias classes `Star`, `Plus`, `QuestionMark`, `Brackets`, `Parens` and `Regexp` are the
    constructors `Some`, `Many`, `Maybe`, `Optional`, `Group` and `RegExp`: they add nothing.

    `Render` returns the concatenation of the fragments the source's generators yield. The
    only failure of the source is a zero `Repeat` bound. A `Variable` hands the context to a
    callback, so its result is no smaller than the node: `depth` counts how many more nested
    `Variable` resolutions may happen, and running out is the error `ResolutionTooDeep`.
 */
module Renders {
  import opened Wrappers
  import opened PyText
  import opened Utils
  import opened Escapes

  /** A context value: the Python values a generation context holds in practice. */
  datatype Value = NoneValue | BoolValue(b: bool) | IntValue(i: int) | TextValue(s: string)

  /** The keyword arguments given to `generate`. */
  type Context = map<string, Value>

  /** Python's `bool(v)`. */
  predicate Truthy(v: Value) {
    match v
    case NoneValue => false
    case BoolValue(b) => b
    case IntValue(i) => i != 0
    case TextValue(s) => s != ""
  }

  /** `context.get(key, default)`. */
  function Get(ctx: Context, key: string, default: Value): Value {
    if key in ctx then ctx[key] else default
  }

  /** The second argument of `Repeat`: an int, a list or tuple of ints, or a `Range`. */
  datatype Bound = Count(n: int) | Bounds(values: seq<int>) | RangeBound(low: int, high: int)

  datatype Renderable =
    | Str(s: string)
    | Tup(items: seq<Renderable>)
    | Lst(items: seq<Renderable>)
    | Literal(text: string, flags: string)
    | RegExp(pattern: string, flags: string)
    | Prerendered(text: string)
    | RuleHandle(name: string)
    | TerminalHandle(name: string)
    | Template(name: string, args: seq<Renderable>)
    | Group(items: seq<Renderable>)
    | Optional(items: seq<Renderable>)
    | Option(items: seq<Renderable>)
    | Some(items: seq<Renderable>)
    | Many(items: seq<Renderable>)
    | Maybe(items: seq<Renderable>)
    | Repeat(content: Renderable, bound: Bound)
    | Range(low: int, high: int)
    | Alias(name: string, items: seq<Renderable>)
    | Variable(resolve: Context -> Renderable)

  /** An instance of a `Token` subclass, as opposed to the sugar forms. */
  predicate IsNode(r: Renderable) {
    !(r.Str? || r.Tup? || r.Lst?)
  }

  datatype RenderError =
    | ZeroRepeat          // `ValueError`: a `Repeat` bound of 0 or an empty collection
    | ResolutionTooDeep   // more nested `Variable` resolutions than the depth allows

  /** The depth `generate` renders with: a fixed finite bound on nested `Variable` resolutions. */
  const ResolutionLimit: nat := 1000

  /** `Range(low, high)`: `low..high`. */
  function RangeText(low: int, high: int): string {
    IntToStr(low) + ".." + IntToStr(high)
  }

  /** `Repeat.render_range`. */
  function RenderBound(b: Bound): Result<string, RenderError> {
    match b
    case Count(n) => if n == 0 then Fail(ZeroRepeat) else Ok(IntToStr(n))
    case Bounds(vs) =>
      if |vs| == 0 then Fail(ZeroRepeat)
      else if |vs| == 2 then Ok(RangeText(vs[0], vs[1]))
      else Ok(IntToStr(vs[|vs| - 1]))
    case RangeBound(low, high) => Ok(RangeText(low, high))
  }

  /** `Token.render_str` and every node's `render`, concatenated. A node with children renders
      them first and fails when one of them does. */
  function Render(r: Renderable, ctx: Context, depth: nat): Result<string, RenderError>
    decreases depth, r
  {
    match r
    case Str(s) => Ok("\"" + UnicodeEscape(s) + "\"")
    case Literal(text, flags) => Ok("\"" + EscapeQuotes(text) + "\"" + flags)
    case RegExp(pattern, flags) => Ok("/" + pattern + "/" + flags)
    case Prerendered(text) => Ok(text)
    case RuleHandle(name) => Ok(name)
    case TerminalHandle(name) => Ok(name)
    case Repeat(content, bound) =>
      var inner :- Render(content, ctx, depth);
      var count :- RenderBound(bound);
      Ok(Wrap("()", inner) + " ~ " + count)
    case Range(low, high) => Ok(RangeText(low, high))
    case Variable(resolve) =>
      if depth == 0 then Fail(ResolutionTooDeep) else Render(resolve(ctx), ctx, depth - 1)
    case _ =>
      var parts :- RenderAll(Children(r), ctx, depth);
      Ok(Assemble(r, parts))
  }

  /** The text of a node with children, from its children's texts. */
  function Assemble(r: Renderable, parts: seq<string>): string
    requires HasChildren(r)
  {
    match r
    case Tup(_) => Wrap("()", Spaced(parts))
    case Lst(_) => Wrap("[]", Spaced(parts))
    case Template(name, _) => name + Wrap("{}", CommaSeparated(parts))
    case Group(_) => Wrap("()", Spaced(parts))
    case Optional(_) => Wrap("[]", Spaced(parts))
    case Option(_) => Join(parts, " | ")
    case Some(_) => Wrap("()", Spaced(parts)) + "*"
    case Many(_) => Wrap("()", Spaced(parts)) + "+"
    case Maybe(_) => Wrap("()", Spaced(parts)) + "?"
    case Alias(name, _) => Spaced(parts) + " -> " + name
  }

  /** `render_all`: each item rendered, in order; the first failing item's error otherwise. */
  function RenderAll(xs: seq<Renderable>, ctx: Context, depth: nat): Result<seq<string>, RenderError>
    decreases depth, xs
  {
    if xs == [] then Ok([])
    else
      var head :- Render(xs[0], ctx, depth);
      var tail :- RenderAll(xs[1..], ctx, depth);
      Ok([head] + tail)
  }

  /** `render_all` succeeds exactly when every item renders, and then yields each item's text in
      order; otherwise it fails with the error of the first item that fails. */
  lemma {:induction false} RenderAllSpec(xs: seq<Renderable>, ctx: Context, depth: nat)
    ensures var res := RenderAll(xs, ctx, depth);
            && (res.Ok? <==> forall i :: 0 <= i < |xs| ==> Render(xs[i], ctx, depth).Ok?)
            && (res.Ok? ==> |res.value| == |xs|)
            && (res.Ok? ==> forall i :: 0 <= i < |xs| ==> Render(xs[i], ctx, depth) == Ok(res.value[i]))
            && (res.Fail? ==>
                  exists i :: 0 <= i < |xs| && Render(xs[i], ctx, depth) == Fail(res.error)
                              && forall j :: 0 <= j < i ==> Render(xs[j], ctx, depth).Ok?)
    decreases |xs|
  {
    if xs != [] {
      var rest := xs[1..];
      RenderAllSpec(rest, ctx, depth);
      assert forall i :: 0 < i < |xs| ==> xs[i] == rest[i - 1];
      var first := Render(xs[0], ctx, depth);
      if first.Ok? {
        var tail := RenderAll(rest, ctx, depth);
        if tail.Fail? {
          var i :| 0 <= i < |rest| && Render(rest[i], ctx, depth) == Fail(tail.error)
                   && forall j :: 0 <= j < i ==> Render(rest[j], ctx, depth).Ok?;
          assert Render(xs[i + 1], ctx, depth) == Fail(tail.error);
          assert forall j :: 0 <= j < i + 1 ==> Render(xs[j], ctx, depth).Ok?;
        } else {
          assert RenderAll(xs, ctx, depth) == Ok([first.value] + tail.value);
        }
      } else {
        assert RenderAll(xs, ctx, depth) == Fail(first.error);
      }
    }
  }

  // ---------------------------------------------------------------- value builders

  /** `Empty`: renders as nothing. */
  const Empty: Renderable := Prerendered("")

  /** `OptionG(*children)`: an alternation in a group. */
  function OptionG(xs: seq<Renderable>): Renderable {
    Group([Option(xs)])
  }

  /** `SomeSeparated(sep, token)`: a token, then zero or more separator-token pairs. */
  function SomeSeparated(sep: Renderable, token: Renderable): Renderable {
    Group([token, Some([sep, token])])
  }

  /** `ManySeparated(sep, token)`: a token, then one or more separator-token pairs. */
  function ManySeparated(sep: Renderable, token: Renderable): Renderable {
    Group([token, Many([sep, token])])
  }

  /** `node | other` (`Token.__or__`). */
  function OrOperator(node: Renderable, other: Renderable): Renderable
    requires IsNode(node)
  {
    Option([node, other])
  }

  /** `other | node` (`Token.__ror__`, for a left operand that is not a node). */
  function ReflectedOrOperator(node: Renderable, other: Renderable): Renderable
    requires IsNode(node)
  {
    Option([other, node])
  }

  /** `Literal(...).attr` and `RegExp(...).attr`: a copy with `attr` appended to the flags. */
  function WithFlag(r: Renderable, attr: string): Renderable
    requires r.Literal? || r.RegExp?
  {
    r.(flags := r.flags + attr)
  }

  /** `handle[item]` on a rule or terminal handle: a template instance; a non-tuple item
      becomes the only argument. */
  function Subscript(name: string, item: Renderable): Renderable {
    Template(name, if item.Tup? then item.items else [item])
  }

  /** `Alias.name`: an alias with an empty body. */
  function AliasNamed(name: string): Renderable {
    Alias(name, [])
  }

  /** `alias(*tokens)`: a new alias with the same name and the given body. */
  function CallAlias(alias: Renderable, xs: seq<Renderable>): Renderable
    requires alias.Alias?
  {
    Alias(alias.name, xs)
  }

  /** `BoolVariable(callback, key, default)`: a variable passing `bool(context.get(key, default))`
      to the callback. */
  function BoolVariable(callback: bool -> Renderable, key: string, default: bool): Renderable {
    Variable(ctx => callback(Truthy(Get(ctx, key, BoolValue(default)))))
  }

  /** `makeBoolVariable(key, true, false, default)`. */
  function MakeBoolVariable(key: string, whenTrue: Renderable, whenFalse: Renderable, default: bool): Renderable {
    BoolVariable(b => if b then whenTrue else whenFalse, key, default)
  }

  // ---------------------------------------------------------------- structure

  /** The node kinds whose children are the field `items`. */
  predicate HasItems(r: Renderable) {
    r.Tup? || r.Lst? || r.Group? || r.Optional? || r.Option? || r.Some? || r.Many? || r.Maybe? || r.Alias?
  }

  /** The node kinds rendered from a sequence of children: those holding `items`, and a
      template instance with its `args`. */
  predicate HasChildren(r: Renderable) {
    r.Template? || HasItems(r)
  }

  function Children(r: Renderable): (xs: seq<Renderable>)
    requires HasChildren(r)
    ensures xs == if r.Template? then r.args else r.items
  {
    if r.Template? then r.args else r.items
  }

  /** The tree contains no `Variable`, so nothing in it consults the context. */
  predicate VarFree(r: Renderable)
    decreases r
  {
    if r.Variable? then false
    else if r.Repeat? then VarFree(r.content)
    else if r.Template? then forall i :: 0 <= i < |r.args| ==> VarFree(r.args[i])
    else if HasItems(r) then forall i :: 0 <= i < |r.items| ==> VarFree(r.items[i])
    else true
  }
}
