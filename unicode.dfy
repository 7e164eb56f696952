/** Characters as the text library numbers them (`@keybr/unicode`). */
module Unicode {

  /** A Unicode code point. */
  type CodePoint = nat
}
