/** What the render engine promises, stated over `Renders.Render`. */
module RenderFacts {
  import opened Wrappers
  import opened PyText
  import opened Utils
  import opened Escapes
  import opened Renders

  /** `RenderAll` is determined by its items' renders. */
  lemma RenderAllOk(xs: seq<Renderable>, ys: seq<string>, ctx: Context, depth: nat)
    requires |xs| == |ys|
    requires forall i :: 0 <= i < |xs| ==> Render(xs[i], ctx, depth) == Ok(ys[i])
    ensures RenderAll(xs, ctx, depth) == Ok(ys)
  {
    RenderAllSpec(xs, ctx, depth);
    var all := RenderAll(xs, ctx, depth);
    assert all.Ok?;
    assert forall i :: 0 <= i < |xs| ==> all.value[i] == ys[i];
    assert all.value == ys;
  }

  lemma JoinPair(x: string, y: string, sep: string)
    ensures Join([x, y], sep) == x + sep + y
  {
    assert [x, y][..1] == [x];
  }

  /** Two children that render give the pair of their texts. */
  lemma RenderAllPair(a: Renderable, b: Renderable, ctx: Context, depth: nat)
    requires Render(a, ctx, depth).Ok? && Render(b, ctx, depth).Ok?
    ensures RenderAll([a, b], ctx, depth) == Ok([Render(a, ctx, depth).value, Render(b, ctx, depth).value])
  {
    RenderAllOk([a, b], [Render(a, ctx, depth).value, Render(b, ctx, depth).value], ctx, depth);
  }

  /** The nodes made of children, once the children have rendered to `ys`. */
  lemma ChildrenRendered(xs: seq<Renderable>, ys: seq<string>, name: string, ctx: Context, depth: nat)
    requires RenderAll(xs, ctx, depth) == Ok(ys)
    ensures Render(Group(xs), ctx, depth) == Ok(Wrap("()", Spaced(ys)))
    ensures Render(Optional(xs), ctx, depth) == Ok(Wrap("[]", Spaced(ys)))
    ensures Render(Option(xs), ctx, depth) == Ok(Join(ys, " | "))
    ensures Render(Template(name, xs), ctx, depth) == Ok(name + Wrap("{}", CommaSeparated(ys)))
  {
  }

  /** The texts of the two-child forms. */
  lemma PairTexts(x: string, y: string, name: string)
    ensures Wrap("()", Spaced([x, y])) == "(" + x + " " + y + ")"
    ensures Wrap("[]", Spaced([x, y])) == "[" + x + " " + y + "]"
    ensures Join([x, y], " | ") == x + " | " + y
    ensures name + Wrap("{}", CommaSeparated([x, y])) == name + "{" + x + ", " + y + "}"
  {
    JoinPair(x, y, " ");
    JoinPair(x, y, " | ");
    JoinPair(x, y, ", ");
  }

  // ---------------------------------------------------------------- token.py

  /** A tuple renders exactly as a `Group` of its elements. */
  lemma TupleRendersAsGroup(xs: seq<Renderable>, ctx: Context, depth: nat)
    ensures Render(Tup(xs), ctx, depth) == Render(Group(xs), ctx, depth)
  {
  }

  /** A list renders exactly as an `Optional` of its elements. */
  lemma ListRendersAsOptional(xs: seq<Renderable>, ctx: Context, depth: nat)
    ensures Render(Lst(xs), ctx, depth) == Render(Optional(xs), ctx, depth)
  {
  }

  /** A raw string renders as a quoted, printable-ASCII text whose inner part decodes back to it. */
  lemma RawStringRendering(s: string, ctx: Context, depth: nat)
    ensures Render(Str(s), ctx, depth).Ok?
    ensures var q := Render(Str(s), ctx, depth).value;
            && |q| >= 2 && q[0] == '"' && q[|q| - 1] == '"'
            && (forall i :: 0 <= i < |q| ==> IsPrintableAscii(q[i]))
            && Unescape(q[1..|q| - 1]) == Just(s)
  {
    var q := Render(Str(s), ctx, depth).value;
    assert q[1..|q| - 1] == UnicodeEscape(s);
    UnescapeRoundTrip(s);
  }

  /** Only `Literal` escapes quotes: `'a"b'` as a raw string gives `"a"b"`. */
  lemma RawStringLeavesQuotes(ctx: Context, depth: nat)
    ensures Render(Str("a\"b"), ctx, depth) == Ok("\"a\"b\"")
    ensures Render(Literal("a\"b", ""), ctx, depth) == Ok("\"a\\\"b\"")
  {
    UnicodeEscapeKeepsQuotes("a", "b");
    assert "a" + "\"" + "b" == "a\"b";
    UnicodeEscapeIdentity("a");
    UnicodeEscapeIdentity("b");
    assert "\"" + UnicodeEscape("a\"b") + "\"" == "\"a\"b\"";
    assert EscapeQuotes("a\"b") == "a\\\"b" by {
      assert EscapeQuotes("b") == "b";
      assert "a\"b"[1..] == "\"b";
      assert "\"b"[1..] == "b";
    }
    assert "\"" + EscapeQuotes("a\"b") + "\"" + "" == "\"a\\\"b\"";
  }

  /** `node | x` and `x | node` both render as the alternation of the operands in written order. */
  lemma OperatorsKeepWrittenOrder(node: Renderable, other: Renderable, ctx: Context, depth: nat)
    requires IsNode(node)
    requires Render(node, ctx, depth).Ok? && Render(other, ctx, depth).Ok?
    ensures var n, o := Render(node, ctx, depth).value, Render(other, ctx, depth).value;
            && Render(OrOperator(node, other), ctx, depth) == Ok(n + " | " + o)
            && Render(ReflectedOrOperator(node, other), ctx, depth) == Ok(o + " | " + n)
  {
    OptionPair(node, other, ctx, depth);
    OptionPair(other, node, ctx, depth);
  }

  // ---------------------------------------------------------------- utils.py: render_all

  lemma ElementwiseAppend(xs: seq<Renderable>, ys: seq<Renderable>, a: seq<string>, b: seq<string>, ctx: Context, depth: nat)
    requires |xs| == |a| && |ys| == |b|
    requires forall i :: 0 <= i < |xs| ==> Render(xs[i], ctx, depth) == Ok(a[i])
    requires forall i :: 0 <= i < |ys| ==> Render(ys[i], ctx, depth) == Ok(b[i])
    ensures forall i :: 0 <= i < |xs + ys| ==> Render((xs + ys)[i], ctx, depth) == Ok((a + b)[i])
  {
  }

  /** `render_all` over a concatenation is the concatenation of the two renders. */
  lemma RenderAllAppend(xs: seq<Renderable>, ys: seq<Renderable>, ctx: Context, depth: nat)
    requires RenderAll(xs, ctx, depth).Ok? && RenderAll(ys, ctx, depth).Ok?
    ensures RenderAll(xs + ys, ctx, depth) == Ok(RenderAll(xs, ctx, depth).value + RenderAll(ys, ctx, depth).value)
  {
    var a, b := RenderAll(xs, ctx, depth).value, RenderAll(ys, ctx, depth).value;
    RenderAllSpec(xs, ctx, depth);
    RenderAllSpec(ys, ctx, depth);
    ElementwiseAppend(xs, ys, a, b, ctx, depth);
    RenderAllOk(xs + ys, a + b, ctx, depth);
  }

  // ---------------------------------------------------------------- combinators.py

  lemma GroupPair(a: Renderable, b: Renderable, ctx: Context, depth: nat)
    requires Render(a, ctx, depth).Ok? && Render(b, ctx, depth).Ok?
    ensures Render(Group([a, b]), ctx, depth)
            == Ok("(" + Render(a, ctx, depth).value + " " + Render(b, ctx, depth).value + ")")
  {
    var x, y := Render(a, ctx, depth).value, Render(b, ctx, depth).value;
    RenderAllPair(a, b, ctx, depth);
    ChildrenRendered([a, b], [x, y], "", ctx, depth);
    PairTexts(x, y, "");
  }

  /** Brackets and separators: `(a b)`, `[a b]` and `a | b`. */
  lemma BracketShapes(a: Renderable, b: Renderable, ctx: Context, depth: nat)
    requires Render(a, ctx, depth).Ok? && Render(b, ctx, depth).Ok?
    ensures var x, y := Render(a, ctx, depth).value, Render(b, ctx, depth).value;
            && Render(Group([a, b]), ctx, depth) == Ok("(" + x + " " + y + ")")
            && Render(Optional([a, b]), ctx, depth) == Ok("[" + x + " " + y + "]")
            && Render(Option([a, b]), ctx, depth) == Ok(x + " | " + y)
  {
    GroupPair(a, b, ctx, depth);
    OptionalPair(a, b, ctx, depth);
    OptionPair(a, b, ctx, depth);
  }

  lemma OptionalPair(a: Renderable, b: Renderable, ctx: Context, depth: nat)
    requires Render(a, ctx, depth).Ok? && Render(b, ctx, depth).Ok?
    ensures Render(Optional([a, b]), ctx, depth)
            == Ok("[" + Render(a, ctx, depth).value + " " + Render(b, ctx, depth).value + "]")
  {
    var x, y := Render(a, ctx, depth).value, Render(b, ctx, depth).value;
    RenderAllPair(a, b, ctx, depth);
    ChildrenRendered([a, b], [x, y], "", ctx, depth);
    PairTexts(x, y, "");
  }

  lemma OptionPair(a: Renderable, b: Renderable, ctx: Context, depth: nat)
    requires Render(a, ctx, depth).Ok? && Render(b, ctx, depth).Ok?
    ensures Render(Option([a, b]), ctx, depth) == Ok(Render(a, ctx, depth).value + " | " + Render(b, ctx, depth).value)
  {
    var x, y := Render(a, ctx, depth).value, Render(b, ctx, depth).value;
    RenderAllPair(a, b, ctx, depth);
    ChildrenRendered([a, b], [x, y], "", ctx, depth);
    PairTexts(x, y, "");
  }

  /** With no children, a group renders `()` and an optional `[]`. */
  lemma EmptyBrackets(ctx: Context, depth: nat)
    ensures Render(Group([]), ctx, depth) == Ok("()")
    ensures Render(Optional([]), ctx, depth) == Ok("[]")
  {
    RenderAllOk([], [], ctx, depth);
    assert Wrap("()", Spaced([])) == "()";
    assert Wrap("[]", Spaced([])) == "[]";
  }

  /** `Some`, `Many` and `Maybe` are the group of their children with `*`, `+`, `?` right after. */
  lemma PostfixShapes(xs: seq<Renderable>, ctx: Context, depth: nat)
    requires Render(Group(xs), ctx, depth).Ok?
    ensures var g := Render(Group(xs), ctx, depth).value;
            && Render(Some(xs), ctx, depth) == Ok(g + "*")
            && Render(Many(xs), ctx, depth) == Ok(g + "+")
            && Render(Maybe(xs), ctx, depth) == Ok(g + "?")
  {
    StarShape(xs, ctx, depth);
    PlusShape(xs, ctx, depth);
    QuestionShape(xs, ctx, depth);
  }

  lemma StarShape(xs: seq<Renderable>, ctx: Context, depth: nat)
    requires Render(Group(xs), ctx, depth).Ok?
    ensures Render(Some(xs), ctx, depth) == Ok(Render(Group(xs), ctx, depth).value + "*")
  {
  }

  lemma PlusShape(xs: seq<Renderable>, ctx: Context, depth: nat)
    requires Render(Group(xs), ctx, depth).Ok?
    ensures Render(Many(xs), ctx, depth) == Ok(Render(Group(xs), ctx, depth).value + "+")
  {
  }

  lemma QuestionShape(xs: seq<Renderable>, ctx: Context, depth: nat)
    requires Render(Group(xs), ctx, depth).Ok?
    ensures Render(Maybe(xs), ctx, depth) == Ok(Render(Group(xs), ctx, depth).value + "?")
  {
  }

  /** ... and they fail exactly as the group does. */
  lemma PostfixFailures(xs: seq<Renderable>, ctx: Context, depth: nat)
    requires Render(Group(xs), ctx, depth).Fail?
    ensures var g := Render(Group(xs), ctx, depth);
            Render(Some(xs), ctx, depth) == g && Render(Many(xs), ctx, depth) == g && Render(Maybe(xs), ctx, depth) == g
  {
  }

  /** `OptionG(xs)` is the alternation wrapped in parentheses. */
  lemma OptionGShape(xs: seq<Renderable>, ctx: Context, depth: nat)
    requires Render(Option(xs), ctx, depth).Ok?
    ensures Render(OptionG(xs), ctx, depth) == Ok("(" + Render(Option(xs), ctx, depth).value + ")")
  {
    var v := Render(Option(xs), ctx, depth).value;
    RenderAllOk([Option(xs)], [v], ctx, depth);
    assert Wrap("()", Spaced([v])) == "(" + v + ")";
  }

  /** `SomeSeparated(sep, t)` renders `(t (sep t)*)` and `ManySeparated(sep, t)` `(t (sep t)+)`. */
  lemma SeparatedShapes(sep: Renderable, token: Renderable, ctx: Context, depth: nat)
    requires Render(sep, ctx, depth).Ok? && Render(token, ctx, depth).Ok?
    ensures var s, t := Render(sep, ctx, depth).value, Render(token, ctx, depth).value;
            && Render(SomeSeparated(sep, token), ctx, depth) == Ok("(" + t + " (" + s + " " + t + ")*)")
            && Render(ManySeparated(sep, token), ctx, depth) == Ok("(" + t + " (" + s + " " + t + ")+)")
  {
    var s, t := Render(sep, ctx, depth).value, Render(token, ctx, depth).value;
    var star := "(" + s + " " + t + ")" + "*";
    var plus := "(" + s + " " + t + ")" + "+";
    var some, many := Some([sep, token]), Many([sep, token]);
    assert Render(some, ctx, depth) == Ok(star) && Render(many, ctx, depth) == Ok(plus) by {
      GroupPair(sep, token, ctx, depth);
      PostfixShapes([sep, token], ctx, depth);
    }
    assert Render(SomeSeparated(sep, token), ctx, depth) == Ok("(" + t + " " + star + ")") by {
      GroupPair(token, some, ctx, depth);
    }
    assert Render(ManySeparated(sep, token), ctx, depth) == Ok("(" + t + " " + plus + ")") by {
      GroupPair(token, many, ctx, depth);
    }
    NestStrings(s, t);
  }

  lemma NestStrings(s: string, t: string)
    ensures "(" + t + " " + ("(" + s + " " + t + ")" + "*") + ")" == "(" + t + " (" + s + " " + t + ")*)"
    ensures "(" + t + " " + ("(" + s + " " + t + ")" + "+") + ")" == "(" + t + " (" + s + " " + t + ")+)"
  {
  }

  /** A bound fails exactly when it is the int 0 or an empty collection. */
  lemma BoundFailsOnlyWhenZero(b: Bound)
    ensures RenderBound(b).Fail? <==> (b == Count(0) || b == Bounds([]))
    ensures RenderBound(b).Fail? ==> RenderBound(b).error == ZeroRepeat
  {
  }

  /** A two-element collection renders as the `Range` it spells; so does a `Range`. */
  lemma BoundForms(b: Bound, ctx: Context, depth: nat)
    ensures b.Bounds? && |b.values| == 2 ==>
      RenderBound(b) == Render(Range(b.values[0], b.values[1]), ctx, depth)
    ensures b.RangeBound? ==> RenderBound(b) == Render(Range(b.low, b.high), ctx, depth)
  {
  }

  /** A non-zero int, and any collection other than an empty or a two-element one, renders as a
      single int that can be read back: the int itself, or the collection's last element. */
  lemma BoundReadBack(b: Bound)
    ensures b.Count? && b.n != 0 ==> ParseInt(RenderBound(b).value) == Just(b.n)
    ensures b.Bounds? && |b.values| != 0 && |b.values| != 2 ==>
      ParseInt(RenderBound(b).value) == Just(b.values[|b.values| - 1])
  {
    match b
    case Count(n) => IntToStrRoundTrip(n);
    case Bounds(vs) => if |vs| != 0 { IntToStrRoundTrip(vs[|vs| - 1]); }
    case RangeBound(_, _) =>
  }

  /** `Repeat(c, b)` renders `(c) ~ b`; it fails when the content or the bound does. */
  lemma RepeatShape(content: Renderable, b: Bound, ctx: Context, depth: nat)
    ensures Render(Repeat(content, b), ctx, depth).Ok? <==>
            Render(content, ctx, depth).Ok? && RenderBound(b).Ok?
    ensures Render(Repeat(content, b), ctx, depth).Ok? ==>
            Render(Repeat(content, b), ctx, depth).value ==
            Wrap("()", Render(content, ctx, depth).value) + " ~ " + RenderBound(b).value
  {
  }

  /** The fixed outputs of the combinator tests: `("a") ~ 4`, `("a") ~ 1..4`, and a zero bound
      failing even though zeros inside a collection are not checked. */
  lemma RepeatExamples(ctx: Context, depth: nat)
    ensures Render(Repeat(Str("a"), Count(4)), ctx, depth) == Ok("(\"a\") ~ 4")
    ensures Render(Repeat(Str("a"), Bounds([1, 4])), ctx, depth) == Ok("(\"a\") ~ 1..4")
    ensures Render(Repeat(Str("a"), RangeBound(1, 4)), ctx, depth) == Ok("(\"a\") ~ 1..4")
    ensures Render(Repeat(Str("a"), Bounds([4])), ctx, depth) == Ok("(\"a\") ~ 4")
    ensures Render(Repeat(Str("a"), Count(0)), ctx, depth) == Fail(ZeroRepeat)
  {
    var a := Str("a");
    QuotedA(ctx, depth);
    RangeExamples(ctx, depth);
    RepeatText(a, Count(4), ctx, depth, "\"a\"", "4");
    RepeatText(a, Bounds([1, 4]), ctx, depth, "\"a\"", "1..4");
    RepeatText(a, RangeBound(1, 4), ctx, depth, "\"a\"", "1..4");
    RepeatText(a, Bounds([4]), ctx, depth, "\"a\"", "4");
    RepeatLiterals();
    assert RenderBound(Count(0)) == Fail(ZeroRepeat);
  }

  lemma QuotedA(ctx: Context, depth: nat)
    ensures Render(Str("a"), ctx, depth) == Ok("\"a\"")
  {
    assert EscapeChar('a') == "a";
    assert UnicodeEscape("a") == "a";
    assert "\"" + "a" + "\"" == "\"a\"";
  }

  /** A repeat's text once its content and its bound have rendered. */
  lemma RepeatText(content: Renderable, b: Bound, ctx: Context, depth: nat, inner: string, count: string)
    requires Render(content, ctx, depth) == Ok(inner) && RenderBound(b) == Ok(count)
    ensures Render(Repeat(content, b), ctx, depth) == Ok(Wrap("()", inner) + " ~ " + count)
  {
  }

  lemma RepeatLiterals()
    ensures Wrap("()", "\"a\"") + " ~ " + "4" == "(\"a\") ~ 4"
    ensures Wrap("()", "\"a\"") + " ~ " + "1..4" == "(\"a\") ~ 1..4"
  {
  }

  /** `Range(1, 4)` is `1..4`, a bound of `4` is `4`, and `[0, 0]` passes the zero check. */
  lemma RangeExamples(ctx: Context, depth: nat)
    ensures Render(Range(1, 4), ctx, depth) == Ok("1..4")
    ensures RenderBound(Count(4)) == Ok("4") && RenderBound(Bounds([4])) == Ok("4")
    ensures RenderBound(Bounds([1, 4])) == Ok("1..4") && RenderBound(RangeBound(1, 4)) == Ok("1..4")
    ensures RenderBound(Bounds([0, 0])) == Ok("0..0")
  {
    assert IntToStr(1) == "1" && IntToStr(4) == "4" && IntToStr(0) == "0";
    assert RangeText(1, 4) == "1..4";
    assert RangeText(0, 0) == "0..0";
    assert [4][|[4]| - 1] == 4;
  }

  // ---------------------------------------------------------------- atoms.py

  /** `Literal(s, f)` renders `"` + s with every quote backslashed + `"` + f, and the quoted part
      gives `s` back. */
  lemma LiteralRendering(s: string, flags: string, ctx: Context, depth: nat)
    ensures Render(Literal(s, flags), ctx, depth).Ok?
    ensures var q := Render(Literal(s, flags), ctx, depth).value;
            var inner := q[1..|q| - 1 - |flags|];
            && |q| >= 2 + |flags| && q[0] == '"' && q[|q| - 1 - |flags|] == '"'
            && q[|q| - |flags|..] == flags
            && UnescapeQuotes(inner) == s
            && (forall i :: 0 <= i < |inner| && inner[i] == '"' ==> 0 < i && inner[i - 1] == '\\')
  {
    var q := Render(Literal(s, flags), ctx, depth).value;
    assert q[1..|q| - 1 - |flags|] == EscapeQuotes(s);
    QuotesRoundTrip(s);
  }

  /** Attribute access appends a flag: the output gains exactly that suffix. */
  lemma FlagAppends(r: Renderable, attr: string, ctx: Context, depth: nat)
    requires r.Literal? || r.RegExp?
    ensures Render(WithFlag(r, attr), ctx, depth) == Ok(Render(r, ctx, depth).value + attr)
    ensures r.RegExp? ==> Render(r, ctx, depth) == Ok("/" + r.pattern + "/" + r.flags)
  {
    if r.Literal? {
      var q := "\"" + EscapeQuotes(r.text) + "\"";
      assert q + (r.flags + attr) == q + r.flags + attr;
    } else {
      var q := "/" + r.pattern + "/";
      assert q + (r.flags + attr) == q + r.flags + attr;
    }
  }

  /** `Prerendered` text and the rule and terminal handles render verbatim, whatever is defined. */
  lemma VerbatimNodes(text: string, ctx: Context, depth: nat)
    ensures Render(Prerendered(text), ctx, depth) == Ok(text)
    ensures Render(RuleHandle(text), ctx, depth) == Ok(text)
    ensures Render(TerminalHandle(text), ctx, depth) == Ok(text)
    ensures Render(Empty, ctx, depth) == Ok("")
  {
  }

  lemma TemplatePair(name: string, a: Renderable, b: Renderable, ctx: Context, depth: nat)
    requires Render(a, ctx, depth).Ok? && Render(b, ctx, depth).Ok?
    ensures Render(Template(name, [a, b]), ctx, depth)
            == Ok(name + "{" + Render(a, ctx, depth).value + ", " + Render(b, ctx, depth).value + "}")
  {
    var x, y := Render(a, ctx, depth).value, Render(b, ctx, depth).value;
    RenderAllPair(a, b, ctx, depth);
    ChildrenRendered([a, b], [x, y], name, ctx, depth);
    PairTexts(x, y, name);
  }

  /** `handle[x]` renders `name{x}` for a non-tuple `x` and `name{a, b}` for a pair. */
  lemma SubscriptRendering(name: string, a: Renderable, b: Renderable, ctx: Context, depth: nat)
    requires !a.Tup?
    requires Render(a, ctx, depth).Ok? && Render(b, ctx, depth).Ok?
    ensures var x, y := Render(a, ctx, depth).value, Render(b, ctx, depth).value;
            && Render(Subscript(name, a), ctx, depth) == Ok(name + "{" + x + "}")
            && Render(Subscript(name, Tup([a, b])), ctx, depth) == Ok(name + "{" + x + ", " + y + "}")
  {
    var x, y := Render(a, ctx, depth).value, Render(b, ctx, depth).value;
    assert Subscript(name, a) == Template(name, [a]);
    RenderAllOk([a], [x], ctx, depth);
    assert name + Wrap("{}", CommaSeparated([x])) == name + "{" + x + "}";
    assert Subscript(name, Tup([a, b])) == Template(name, [a, b]);
    TemplatePair(name, a, b, ctx, depth);
  }

  // ---------------------------------------------------------------- definitions.py: Alias

  /** `Alias.name` renders ` -> name`; calling it gives that name to a new body. */
  lemma AliasRendering(name: string, body: Renderable, ctx: Context, depth: nat)
    requires Render(body, ctx, depth).Ok?
    ensures Render(AliasNamed(name), ctx, depth) == Ok(" -> " + name)
    ensures Render(CallAlias(AliasNamed(name), [body]), ctx, depth)
            == Ok(Render(body, ctx, depth).value + " -> " + name)
  {
    var v := Render(body, ctx, depth).value;
    RenderAllOk([body], [v], ctx, depth);
    RenderAllOk([], [], ctx, depth);
    assert Spaced([]) + " -> " + name == " -> " + name;
    assert Spaced([v]) + " -> " + name == v + " -> " + name;
  }

  // ---------------------------------------------------------------- variable.py

  /** A variable renders whatever its callback makes of the context. */
  lemma VariableRendering(resolve: Context -> Renderable, ctx: Context, depth: nat)
    ensures Render(Variable(resolve), ctx, depth + 1) == Render(resolve(ctx), ctx, depth)
    ensures Render(Variable(resolve), ctx, 0) == Fail(ResolutionTooDeep)
  {
  }

  /** `BoolVariable` passes the truth of the context entry, or of the default, to its callback. */
  lemma BoolVariableSelects(callback: bool -> Renderable, key: string, default: bool, ctx: Context, depth: nat)
    ensures Render(BoolVariable(callback, key, default), ctx, depth + 1)
            == Render(callback(Truthy(Get(ctx, key, BoolValue(default)))), ctx, depth)
    ensures key in ctx ==>
              Render(BoolVariable(callback, key, default), ctx, depth + 1) == Render(callback(Truthy(ctx[key])), ctx, depth)
    ensures key !in ctx ==>
              Render(BoolVariable(callback, key, default), ctx, depth + 1) == Render(callback(default), ctx, depth)
  {
  }

  /** `makeBoolVariable(key, t, f)` renders `t` when the entry is truthy and `f` otherwise; with
      the default `False`, an absent key selects `f`. */
  lemma MakeBoolVariableSelects(key: string, t: Renderable, f: Renderable, default: bool, ctx: Context, depth: nat)
    ensures Render(MakeBoolVariable(key, t, f, default), ctx, depth + 1)
            == Render(if Truthy(Get(ctx, key, BoolValue(default))) then t else f, ctx, depth)
    ensures key !in ctx && !default ==>
            Render(MakeBoolVariable(key, t, f, default), ctx, depth + 1) == Render(f, ctx, depth)
  {
  }

  /** The same variable renders differently in different contexts: the flag's presence picks
      the branch. */
  lemma VariableDependsOnContext(depth: nat)
    ensures var v := MakeBoolVariable("flag", Prerendered("a"), Prerendered("b"), false);
            && Render(v, map["flag" := BoolValue(true)], depth + 1) == Ok("a")
            && Render(v, map[], depth + 1) == Ok("b")
  {
    MakeBoolVariableSelects("flag", Prerendered("a"), Prerendered("b"), false, map["flag" := BoolValue(true)], depth);
    MakeBoolVariableSelects("flag", Prerendered("a"), Prerendered("b"), false, map[], depth);
  }

  /** A tree without variables renders the same in every context. */
  lemma ContextIndependent(r: Renderable, c1: Context, c2: Context, depth: nat)
    requires VarFree(r)
    ensures Render(r, c1, depth) == Render(r, c2, depth)
    decreases depth, r
  {
    if r.Repeat? {
      ContextIndependent(r.content, c1, c2, depth);
    } else if HasChildren(r) {
      ContextIndependentAll(Children(r), c1, c2, depth);
    }
  }

  lemma ContextIndependentAll(xs: seq<Renderable>, c1: Context, c2: Context, depth: nat)
    requires forall i :: 0 <= i < |xs| ==> VarFree(xs[i])
    ensures RenderAll(xs, c1, depth) == RenderAll(xs, c2, depth)
    decreases depth, xs
  {
    if xs != [] {
      ContextIndependent(xs[0], c1, c2, depth);
      ContextIndependentAll(xs[1..], c1, c2, depth);
    }
  }

  /** The depth only decides whether rendering fails: with more depth a successful render gives
      the same text. */
  lemma DepthMonotone(r: Renderable, ctx: Context, depth: nat, more: nat)
    requires depth <= more
    requires Render(r, ctx, depth).Ok?
    ensures Render(r, ctx, more) == Render(r, ctx, depth)
    decreases depth, r
  {
    if r.Variable? {
      DepthMonotone(r.resolve(ctx), ctx, depth - 1, more - 1);
    } else if r.Repeat? {
      DepthMonotone(r.content, ctx, depth, more);
    } else if HasChildren(r) {
      DepthMonotoneAll(Children(r), ctx, depth, more);
    }
  }

  lemma DepthMonotoneAll(xs: seq<Renderable>, ctx: Context, depth: nat, more: nat)
    requires depth <= more
    requires RenderAll(xs, ctx, depth).Ok?
    ensures RenderAll(xs, ctx, more) == RenderAll(xs, ctx, depth)
    decreases depth, xs
  {
    if xs != [] {
      DepthMonotone(xs[0], ctx, depth, more);
      DepthMonotoneAll(xs[1..], ctx, depth, more);
    }
  }

}
