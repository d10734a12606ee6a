/** `lark_dynamic/modifier.py`: a definition prefix (`_`, `?`, `!`) carried together with the
    body it applies to. Calling a modifier keeps its prefix and takes a new body. */
module Modifiers {
  import opened Renders

  datatype Modifier = Modifier(tag: string, tokens: seq<Renderable>)

  /** `modifier(*tokens)`: a fresh modifier with the same prefix and the given body. */
  function Call(m: Modifier, tokens: seq<Renderable>): (r: Modifier)
    ensures r.tag == m.tag && r.tokens == tokens
  {
    Modifier(m.tag, tokens)
  }

  /** `Modifier.INLINE`: the rule is inlined into its parent. */
  const Inline: Modifier := Modifier("_", [])
  /** `Modifier.INLINE_SINGLE`: the rule is inlined when it has one child. */
  const InlineSingle: Modifier := Modifier("?", [])
  /** `Modifier.KEEP_TERMINALS`: filtered terminals are kept. */
  const KeepTerminals: Modifier := Modifier("!", [])
  /** `Modifier.ANONYMOUS`: the terminal is anonymous. */
  const Anonymous: Modifier := Modifier("_", [])

  /** Calling a called modifier only replaces the body once more: the prefix is never lost,
      and the presets themselves are never changed by a call. */
  lemma CallReplacesBody(m: Modifier, a: seq<Renderable>, b: seq<Renderable>)
    ensures Call(Call(m, a), b) == Call(m, b)
    ensures Call(m, m.tokens) == m
  {
  }

  /** The presets carry the prefixes `_`, `?`, `!` and `_`, with no body; the three rule prefixes
      are distinct one-character strings, and the terminal prefix spells the same as `INLINE`. */
  lemma PresetTags()
    ensures Inline.tag == "_" && InlineSingle.tag == "?" && KeepTerminals.tag == "!" && Anonymous.tag == "_"
    ensures Inline.tokens == [] && InlineSingle.tokens == [] && KeepTerminals.tokens == []
    ensures |Inline.tag| == 1 && |InlineSingle.tag| == 1 && |KeepTerminals.tag| == 1
    ensures Inline.tag != InlineSingle.tag && Inline.tag != KeepTerminals.tag
    ensures InlineSingle.tag != KeepTerminals.tag
    ensures Anonymous == Inline
  {
  }
}
