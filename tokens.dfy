/**
 The token trees a derive macro receives: the item declaration a
 `#[derive(StructBox)]` is attached to, as a flat sequence of trees.
 Spans are not modelled; an identifier is its text.
 */
module Tokens {

  /** How a group's contents are delimited: `( )`, `{ }`, `[ ]`, or invisibly. */
  datatype Delimiter = Parenthesis | Brace | Bracket | NoDelimiter

  /** Whether a punctuation character is followed immediately by another one (`::`, `->`). */
  datatype Spacing = Alone | Joint

  /** One token tree. A group holds its own nested stream. */
  datatype TokenTree =
    | Ident(text: string)
    | Group(delimiter: Delimiter, stream: seq<TokenTree>)
    | Punct(ch: char, spacing: Spacing)
    | Literal(repr: string)

  /** The visibility keyword. */
  const Pub: TokenTree := Ident("pub")

  predicate IsPub(t: TokenTree) {
    t == Pub
  }

  /** The kind marker of the declarations the macro accepts. */
  predicate IsKindMarker(t: TokenTree) {
    t.Ident? && (t.text == "struct" || t.text == "enum")
  }

  /** An identifier the scanner takes as the type name: any identifier but `pub`, `struct` or `enum`. */
  predicate IsTypeName(t: TokenTree) {
    t.Ident? && !IsPub(t) && !IsKindMarker(t)
  }
}
