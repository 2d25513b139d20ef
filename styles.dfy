/** The style resolver: the `switch (style)` that picks the system
    instruction sent to the summarisation backend. */
module Styles {
  import opened Optional

  /** The five branches of the switch; `Default` is its `default:` arm. */
  datatype Style = Bullet | Casual | Headline | Formal | Default

  /** The `case` label of each named style. */
  function Token(s: Style): string
    requires s != Default
  {
    match s
    case Bullet => "bullet"
    case Casual => "casual"
    case Headline => "headline"
    case Formal => "formal"
  }

  /** The switch's dispatch: strict equality against the four labels, so
      anything else, including an absent or non-string `style` (`None`) and
      any other letter case, falls to the default arm. */
  function ResolveStyle(style: Option<string>): (s: Style)
    ensures s != Default ==> style == Some(Token(s))
    ensures s == Default <==> forall t: Style :: t != Default ==> style != Some(Token(t))
  {
    if style == Some("bullet") then Bullet
    else if style == Some("casual") then Casual
    else if style == Some("headline") then Headline
    else if style == Some("formal") then Formal
    else Default
  }

  /** The fixed instruction string assigned in each arm; every one of them
      opens with "Summarize the text ". */
  function Instruction(s: Style): (r: string)
    ensures "Summarize the text " <= r
  {
    match s
    case Bullet => "Summarize the text into concise bullet points."
    case Casual => "Summarize the text casually as if explaining to a friend."
    case Headline => "Summarize the text in short, bold headlines."
    case Formal => "Summarize the text in a formal and professional tone."
    case Default => "Summarize the text concisely while keeping all key details."
  }

  /** `stylePrompt` after the switch: the default instruction exactly when the
      default arm was taken. */
  function StylePrompt(style: Option<string>): (r: string)
    ensures r == Instruction(Default) <==> ResolveStyle(style) == Default
  {
    InstructionInjective(ResolveStyle(style), Default);
    Instruction(ResolveStyle(style))
  }

  /** Every label selects its own style: resolving is the inverse of `Token`. */
  lemma ResolveToken(s: Style)
    requires s != Default
    ensures ResolveStyle(Some(Token(s))) == s
  {
  }

  /** The five instructions are pairwise distinct, so the instruction the
      backend receives identifies the style that was resolved. */
  lemma InstructionInjective(a: Style, b: Style)
    ensures Instruction(a) == Instruction(b) <==> a == b
  {
  }

  /** The prompt is always one of the five instructions, and it is the default
      instruction exactly for values other than the four labels. */
  lemma StylePromptTotal(style: Option<string>)
    ensures StylePrompt(style) in {Instruction(Bullet), Instruction(Casual), Instruction(Headline),
                                   Instruction(Formal), Instruction(Default)}
    ensures StylePrompt(style) == Instruction(Default) <==>
      style !in {Some("bullet"), Some("casual"), Some("headline"), Some("formal")}
  {
  }
}
