/** `toggleThinking`: the collapsible thinking panel of an assistant message. */
module Thinking {
  import opened Page

  /** What the toggle changes: the panel's `visible` class and the arrow's text. */
  datatype Panel = Panel(visible: bool, arrow: string)

  /** The arrow matching a panel's visibility. */
  function ArrowFor(v: Variant, visible: bool): string {
    if visible then Expanded(v) else Collapsed(v)
  }

  /** The arrow shows the panel's visibility. */
  predicate Consistent(v: Variant, p: Panel) {
    p.arrow == ArrowFor(v, p.visible)
  }

  /** One click: the panel flips, and the arrow, when there is one, follows. */
  function Toggled(v: Variant, hasArrow: bool, p: Panel): (r: Panel)
    ensures r.visible == !p.visible
    ensures hasArrow ==> Consistent(v, r)
    ensures !hasArrow ==> r.arrow == p.arrow
  {
    if p.visible then Panel(false, if hasArrow then Collapsed(v) else p.arrow)
    else Panel(true, if hasArrow then Expanded(v) else p.arrow)
  }

  /** Two clicks restore a panel whose arrow shows its visibility; without an
      arrow they restore any panel. */
  lemma ToggleTwice(v: Variant, hasArrow: bool, p: Panel)
    requires hasArrow ==> Consistent(v, p)
    ensures Toggled(v, hasArrow, Toggled(v, hasArrow, p)) == p
  {
    if hasArrow {
      assert Collapsed(v) != Expanded(v);
    }
  }

  /** With an arrow, a click keeps the arrow in step with the panel. */
  lemma ToggleConsistent(v: Variant, p: Panel)
    requires Consistent(v, p)
    ensures Consistent(v, Toggled(v, true, p))
    ensures Toggled(v, true, p) != p
  {
  }

  /** A message's thinking elements as the page holds them. */
  class ThinkingPanel {
    const variant: Variant
    /** The button sits inside a `.message-bubble`. */
    const inBubble: bool
    /** The bubble holds a `.thinking-content` element. */
    const hasContent: bool
    /** The bubble holds a `.thinking-toggle` element (the chat front end
        writes the glyph there; the ollama front end writes it on the button). */
    const hasToggle: bool
    var visible: bool
    var arrow: string

    /** Thinking is collapsed when a message is rendered. */
    constructor (variant: Variant, inBubble: bool, hasContent: bool, hasToggle: bool)
      ensures this.variant == variant && this.inBubble == inBubble
      ensures this.hasContent == hasContent && this.hasToggle == hasToggle
      ensures !visible && arrow == Collapsed(variant)
      ensures Consistent(variant, State())
    {
      this.variant := variant;
      this.inBubble := inBubble;
      this.hasContent := hasContent;
      this.hasToggle := hasToggle;
      visible := false;
      arrow := Collapsed(variant);
    }

    function State(): Panel
      reads this
    {
      Panel(visible, arrow)
    }

    /** Where the glyph is written: the toggle element, or the button itself. */
    predicate HasArrow() {
      match variant
      case Chat => hasToggle
      case Ollama => true
    }

    /** `toggleThinking(button)`. The chat front end gives up when there is no
        bubble; the ollama front end then calls `querySelector` on null and
        throws, reported as `thrown`. Both give up without thinking content. */
    method Toggle() returns (thrown: bool)
      modifies this
      ensures thrown <==> variant == Ollama && !inBubble
      ensures inBubble && hasContent ==> State() == Toggled(variant, HasArrow(), old(State()))
      ensures !(inBubble && hasContent) ==> State() == old(State())
    {
      if !inBubble {
        return variant == Ollama;
      }
      if !hasContent {
        return false;
      }
      if visible {
        visible := false;
        if HasArrow() {
          arrow := Collapsed(variant);
        }
      } else {
        visible := true;
        if HasArrow() {
          arrow := Expanded(variant);
        }
      }
      thrown := false;
    }
  }
}
