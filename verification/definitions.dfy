/** `lark_dynamic/definitions.py`: the four kinds of grammar definition and the line each one
    renders to, plus the edits the grammar wrapper applies to a definition.

    - a rule or terminal line is `modifier name[.priority]: body`, the priority shown only
      when it is not 1;
    - a template line is `modifier name{param, ...}: body`;
    - a directive line is `%name content`.
 */
module Definitions {
  import opened Wrappers
  import opened PyText
  import opened Utils
  import opened Escapes
  import opened Renders
  import opened RenderFacts
  import opened Modifiers

  /** What may be assigned as a definition body: tokens, or a modifier carrying them. */
  datatype Body = Tokens(r: Renderable) | Modified(m: Modifier)

  /** The content of a directive: a string copied verbatim, or a node rendered. */
  datatype DirectiveContent = Text(text: string) | Node(node: Renderable)

  datatype Definition =
    | RuleDef(name: string, items: seq<Renderable>, modifier: string, priority: int)
    | TerminalDef(name: string, items: seq<Renderable>, modifier: string, priority: int)
    | TemplateDef(name: string, params: Renderable, items: seq<Renderable>, modifier: string)
    | DirectiveDef(name: string, content: DirectiveContent)

  /** The priority a definition is created with. */
  const DefaultPriority: int := 1

  /** A definition's body is always a tuple: a tuple is kept, anything else becomes a 1-tuple. */
  function AsItems(r: Renderable): (items: seq<Renderable>)
    ensures r.Tup? ==> items == r.items
    ensures !r.Tup? ==> items == [r]
  {
    if r.Tup? then r.items else [r]
  }

  /** `make_rule` / `make_terminal` / `make_template`: a modifier body supplies both the prefix
      and the tokens; a plain body keeps the given prefix. */
  function Unpack(body: Body, modifier: string): (res: (seq<Renderable>, string))
    ensures body.Modified? ==> res == (body.m.tokens, body.m.tag)
    ensures body.Tokens? ==> res == (AsItems(body.r), modifier)
  {
    match body
    case Tokens(r) => (AsItems(r), modifier)
    case Modified(m) => (m.tokens, m.tag)
  }

  /** `TemplateDef.render`: a group, tuple or list of parameters is spread; anything else is the
      only parameter. */
  function TemplateParams(params: Renderable): seq<Renderable> {
    if params.Group? || params.Tup? || params.Lst? then params.items else [params]
  }

  /** The text before the body of a rule or terminal line. */
  function Header(modifier: string, name: string, priority: int): string {
    modifier + name + (if priority != 1 then "." + IntToStr(priority) else "") + ": "
  }

  /** `Definition.render`, `TemplateDef.render` and `DirectiveDef.render`, concatenated. */
  function RenderDefinition(d: Definition, ctx: Context, depth: nat): Result<string, RenderError> {
    match d
    case RuleDef(name, items, modifier, priority) =>
      var parts :- RenderAll(items, ctx, depth);
      Ok(Header(modifier, name, priority) + Spaced(parts))
    case TerminalDef(name, items, modifier, priority) =>
      var parts :- RenderAll(items, ctx, depth);
      Ok(Header(modifier, name, priority) + Spaced(parts))
    case TemplateDef(name, params, items, modifier) =>
      var args :- RenderAll(TemplateParams(params), ctx, depth);
      var parts :- RenderAll(items, ctx, depth);
      Ok(modifier + name + Wrap("{}", CommaSeparated(args)) + ": " + Spaced(parts))
    case DirectiveDef(name, content) =>
      match content
      case Text(text) => Ok("%" + name + " " + text)
      case Node(node) =>
        var text :- Render(node, ctx, depth);
        Ok("%" + name + " " + text)
  }

  /** The definitions the grammar wrapper can find and edit. */
  predicate Editable(d: Definition) {
    !d.DirectiveDef?
  }

  /** `extend`: the body becomes one alternation of the old items followed by the new ones. */
  function Extended(d: Definition, alternatives: seq<Renderable>): (e: Definition)
    requires Editable(d)
    ensures Editable(e) && e.items == [Option(d.items + alternatives)]
    ensures e.(items := d.items) == d
  {
    d.(items := [Option(d.items + alternatives)])
  }

  /** `replace`: the body is replaced, a non-tuple becoming a 1-tuple. */
  function Replaced(d: Definition, tokens: Renderable): (e: Definition)
    requires Editable(d)
    ensures Editable(e) && e.items == AsItems(tokens)
    ensures e.(items := d.items) == d
  {
    d.(items := AsItems(tokens))
  }

  /** `edit`: a given modifier replaces the prefix, a given priority replaces the priority. A
      template never shows a priority, so setting one on it changes nothing it renders. */
  function Edited(d: Definition, modifier: Opt<Modifier>, priority: Opt<int>): (e: Definition)
    requires Editable(d)
    ensures Editable(e) && e.modifier == if modifier.Just? then modifier.value.tag else d.modifier
    ensures d.TemplateDef? ==> e == d.(modifier := e.modifier)
    ensures !d.TemplateDef? ==>
              && (e.RuleDef? || e.TerminalDef?)
              && e == d.(modifier := e.modifier, priority := e.priority)
              && e.priority == if priority.Just? then priority.value else d.priority
  {
    var m := if modifier.Just? then modifier.value.tag else d.modifier;
    match d
    case RuleDef(name, items, _, p) => RuleDef(name, items, m, if priority.Just? then priority.value else p)
    case TerminalDef(name, items, _, p) => TerminalDef(name, items, m, if priority.Just? then priority.value else p)
    case TemplateDef(name, params, items, _) => TemplateDef(name, params, items, m)
  }

  // ---------------------------------------------------------------- properties

  /** The priority can be read back from a header: after the prefix and the name comes `: `
      exactly when the priority is 1, and otherwise `.` followed by the priority in decimal. */
  lemma PriorityReadable(modifier: string, name: string, priority: int)
    ensures var h := Header(modifier, name, priority);
            var rest := h[|modifier + name|..];
            && h[..|modifier + name|] == modifier + name
            && (rest == ": " <==> priority == 1)
            && (priority != 1 ==> rest[0] == '.' && rest[|rest| - 2..] == ": "
                                  && ParseInt(rest[1..|rest| - 2]) == Just(priority))
  {
    var h := Header(modifier, name, priority);
    var rest := h[|modifier + name|..];
    if priority != 1 {
      var p := IntToStr(priority);
      assert rest == "." + p + ": ";
      assert rest[1..|rest| - 2] == p;
      IntToStrRoundTrip(priority);
    } else {
      assert rest == ": ";
    }
  }

  /** A tuple body is written bare: the line's body is the tuple's rendering without its
      outer parentheses, while any other body is rendered whole. */
  lemma TupleBodyUnwrapped(name: string, body: Renderable, modifier: string, priority: int, ctx: Context, depth: nat)
    requires Render(body, ctx, depth).Ok?
    ensures var line := RenderDefinition(RuleDef(name, AsItems(body), modifier, priority), ctx, depth);
            var r := Render(body, ctx, depth).value;
            var h := Header(modifier, name, priority);
            && line.Ok?
            && (body.Tup? ==> |r| >= 2 && line.value == h + r[1..|r| - 1])
            && (!body.Tup? ==> line.value == h + r)
  {
    var r := Render(body, ctx, depth).value;
    if body.Tup? {
      var parts := RenderAll(body.items, ctx, depth).value;
      assert r == Wrap("()", Spaced(parts));
      assert r[1..|r| - 1] == Spaced(parts);
    } else {
      RenderAllOk([body], [r], ctx, depth);
    }
  }

  /** After `extend`, the body is a single alternation: the old items' renders then the new
      alternatives' renders, separated by ` | `. */
  lemma ExtendMakesAlternatives(d: Definition, alternatives: seq<Renderable>, ctx: Context, depth: nat)
    requires Editable(d)
    requires RenderAll(d.items, ctx, depth).Ok? && RenderAll(alternatives, ctx, depth).Ok?
    ensures RenderAll(Extended(d, alternatives).items, ctx, depth)
            == Ok([Join(RenderAll(d.items, ctx, depth).value + RenderAll(alternatives, ctx, depth).value, " | ")])
  {
    var all := d.items + alternatives;
    RenderAllAppend(d.items, alternatives, ctx, depth);
    var parts := RenderAll(all, ctx, depth).value;
    assert Render(Option(all), ctx, depth) == Ok(Join(parts, " | "));
    RenderAllOk([Option(all)], [Join(parts, " | ")], ctx, depth);
  }

  /** Replacing a body gives the line a fresh definition with that body would have. */
  lemma ReplaceAsFresh(d: Definition, tokens: Renderable, ctx: Context, depth: nat)
    requires d.RuleDef? || d.TerminalDef?
    ensures d.RuleDef? ==> RenderDefinition(Replaced(d, tokens), ctx, depth)
                           == RenderDefinition(RuleDef(d.name, AsItems(tokens), d.modifier, d.priority), ctx, depth)
    ensures d.TerminalDef? ==> RenderDefinition(Replaced(d, tokens), ctx, depth)
                               == RenderDefinition(TerminalDef(d.name, AsItems(tokens), d.modifier, d.priority), ctx, depth)
  {
  }

  /** `edit` without arguments changes nothing, and editing twice with the same arguments is
      the same as editing once. */
  lemma EditIdempotent(d: Definition, modifier: Opt<Modifier>, priority: Opt<int>)
    requires Editable(d)
    ensures Edited(d, Nothing, Nothing) == d
    ensures Edited(Edited(d, modifier, priority), modifier, priority) == Edited(d, modifier, priority)
  {
  }

  /** A modifier body puts its prefix at the very start of the line. */
  lemma ModifierPrefixesLine(name: string, m: Modifier, priority: int, ctx: Context, depth: nat)
    requires RenderAll(m.tokens, ctx, depth).Ok?
    ensures var unpacked := Unpack(Modified(m), "");
            var line := RenderDefinition(RuleDef(name, unpacked.0, unpacked.1, priority), ctx, depth);
            line.Ok? && |m.tag + name| <= |line.value| && line.value[..|m.tag + name|] == m.tag + name
  {
    var line := RenderDefinition(RuleDef(name, m.tokens, m.tag, priority), ctx, depth).value;
    var h := Header(m.tag, name, priority);
    assert line == h + Spaced(RenderAll(m.tokens, ctx, depth).value);
    assert h == m.tag + name + h[|m.tag + name|..];
  }

  /** Template parameters held in a list, a tuple or a group are spread the same way: a list
      is not an optional here. */
  lemma TemplateCollectionsAgree(name: string, xs: seq<Renderable>, items: seq<Renderable>,
                                 modifier: string, ctx: Context, depth: nat)
    ensures RenderDefinition(TemplateDef(name, Lst(xs), items, modifier), ctx, depth)
            == RenderDefinition(TemplateDef(name, Group(xs), items, modifier), ctx, depth)
    ensures RenderDefinition(TemplateDef(name, Tup(xs), items, modifier), ctx, depth)
            == RenderDefinition(TemplateDef(name, Group(xs), items, modifier), ctx, depth)
  {
  }

  /** An empty collection of parameters gives `{}`. */
  lemma TemplateNoParams(name: string, items: seq<Renderable>, modifier: string, ctx: Context, depth: nat)
    requires RenderAll(items, ctx, depth).Ok?
    ensures RenderDefinition(TemplateDef(name, Lst([]), items, modifier), ctx, depth)
            == Ok(modifier + name + "{}: " + Spaced(RenderAll(items, ctx, depth).value))
  {
    var parts := RenderAll(items, ctx, depth).value;
    assert RenderAll([], ctx, depth) == Ok([]);
    TemplateLine(name, Lst([]), items, modifier, ctx, depth, [], parts);
    BracedNone(modifier + name, Spaced(parts));
  }

  /** A value that is not a group, tuple or list is the only parameter. */
  lemma TemplateSingleParam(name: string, p: Renderable, items: seq<Renderable>, modifier: string, ctx: Context, depth: nat)
    requires !p.Group? && !p.Tup? && !p.Lst?
    requires Render(p, ctx, depth).Ok? && RenderAll(items, ctx, depth).Ok?
    ensures RenderDefinition(TemplateDef(name, p, items, modifier), ctx, depth)
            == Ok(modifier + name + "{" + Render(p, ctx, depth).value + "}: " + Spaced(RenderAll(items, ctx, depth).value))
  {
    var parts := RenderAll(items, ctx, depth).value;
    var v := Render(p, ctx, depth).value;
    RenderAllOk([p], [v], ctx, depth);
    assert TemplateParams(p) == [p];
    TemplateLine(name, p, items, modifier, ctx, depth, [v], parts);
    BracedSingle(modifier + name, v, Spaced(parts));
  }

  /** A template line, once its parameters and its items have rendered. */
  lemma TemplateLine(name: string, params: Renderable, items: seq<Renderable>, modifier: string,
                     ctx: Context, depth: nat, args: seq<string>, parts: seq<string>)
    requires RenderAll(TemplateParams(params), ctx, depth) == Ok(args)
    requires RenderAll(items, ctx, depth) == Ok(parts)
    ensures RenderDefinition(TemplateDef(name, params, items, modifier), ctx, depth)
            == Ok(modifier + name + Wrap("{}", CommaSeparated(args)) + ": " + Spaced(parts))
  {
  }

  lemma BracedNone(head: string, body: string)
    ensures head + Wrap("{}", CommaSeparated([])) + ": " + body == head + "{}: " + body
  {
    assert Wrap("{}", CommaSeparated([])) == "{}";
  }

  lemma BracedSingle(head: string, v: string, body: string)
    ensures head + Wrap("{}", CommaSeparated([v])) + ": " + body == head + "{" + v + "}: " + body
  {
    assert CommaSeparated([v]) == v;
  }

  /** Text content follows `%name ` exactly as given, in every context; a literal node is
      quoted and escaped instead. */
  lemma DirectiveContentForms(name: string, s: string, ctx: Context, depth: nat, other: Context, more: nat)
    ensures RenderDefinition(DirectiveDef(name, Text(s)), ctx, depth) == Ok("%" + name + " " + s)
    ensures RenderDefinition(DirectiveDef(name, Text(s)), ctx, depth)
            == RenderDefinition(DirectiveDef(name, Text(s)), other, more)
    ensures RenderDefinition(DirectiveDef(name, Node(Literal(s, ""))), ctx, depth)
            == Ok("%" + name + " \"" + EscapeQuotes(s) + "\"")
  {
    var q := "\"" + EscapeQuotes(s) + "\"";
    assert Render(Literal(s, ""), ctx, depth) == Ok(q + "");
    assert q + "" == q;
    QuotedDirective(name, EscapeQuotes(s));
  }

  lemma QuotedDirective(name: string, e: string)
    ensures "%" + name + " " + ("\"" + e + "\"") == "%" + name + " \"" + e + "\""
  {
  }
}
