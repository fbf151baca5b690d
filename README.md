# struct-box: the `StructBox` derive, modelled in Dafny

`struct-box` is a Rust derive macro. Put `#[derive(StructBox)]` on a serializable
`struct` or `enum` and the macro adds an `impl` block to that type. The block holds
`encrypt(&self, strong_box, ctx)` and `decrypt(ciphertext, strong_box, ctx)`, and both
methods get the visibility the type was declared with.

The macro works in two steps:

- **Declaration scanner.** It walks the token trees of the declaration from left to right.
  - Every `pub` is added to the visibility.
  - A group written directly after a `pub`, such as `(super)`, `(crate)` or
    `(in some::path)`, is added with it and consumed.
  - `struct` and `enum` are skipped, and so is every token that is not an identifier
    (attribute punctuation and groups, literals).
  - The first other identifier is the type name, and scanning stops there.
  - If the tokens run out first, the expansion is `compile_error!("no type name found?!")`.
- **Method synthesizer.** It emits `impl <name> { <vis> fn encrypt … <vis> fn decrypt … }`.

The model has three modules:

- `Tokens` (`tokens.dfy`): token trees (`Ident`, `Group`, `Punct`, `Literal`). It also defines
  the keywords the scanner recognises.
- `DeclarationScanner` (`scanner.dfy`): a reference definition of what the scan yields, stated
  over the whole token sequence.
  - `FirstName` is the position of the first identifier that is not `pub`, `struct` or `enum`.
  - `VisBefore` is what each `pub` before that position contributes.
  - `Scan` combines the two.
  - The module also holds the lemmas about the scan: the shape of the visibility, when it is
    empty, that later tokens are never examined, and three concrete declarations.
- `StructBoxDerive` (`struct_box.dfy`): the emitted output as an abstract record.
  - `Expand` builds the output for a scan result.
  - `StructBox` is the macro's `while` loop over a token index, proved to produce
    `Expand(Scan(input))`.

Notes on behaviour that the model keeps as the code has it:

- Only `pub` is recognised as visibility. A bare `crate` visibility modifier would be taken as
  the type name, and so would the `union` keyword in a union declaration. The macro is
  documented for structs and enums only.
- A raw identifier such as `r#pub` has the text `r#pub`, not `pub`. It is therefore taken as
  a type name.
- The scan skips every token that is not an identifier anywhere before the name (src/lib.rs:65), not only a group right after a `pub`.

## Model

| member | source | states |
|---|---|---|
| `DeclarationScanner.FirstName` | src/lib.rs:51-65 | the position found holds an identifier other than `pub`/`struct`/`enum`, and no earlier token does; no position is found exactly when no token of the stream qualifies |
| `DeclarationScanner.Scan` | src/lib.rs:46-70 | the scan fails exactly when no token qualifies as a type name; on success the name is not `pub`, `struct` or `enum`, and it is the text of an identifier in the input with no qualifying identifier before it; the visibility holds only `pub` tokens, each followed by at most one group, and is empty exactly when no `pub` precedes the name |
| `DeclarationScanner.FirstNameIsLeast` | src/lib.rs:51-63 | the first qualifying identifier is the one the scan stops at, whatever follows it |
| `DeclarationScanner.VisBeforeShape` | src/lib.rs:54-60 | the visibility holds only `pub` tokens, and each group in it directly follows a `pub` |
| `DeclarationScanner.VisEmptyIffNoPub` | src/lib.rs:48-61 | the visibility is empty exactly when no `pub` precedes the name |
| `DeclarationScanner.VisBeforeIgnoresSuffix` | src/lib.rs:56-59 | the visibility collected before a position does not depend on the tokens after that position, because the peek after a `pub` reaches at most one token ahead |
| `DeclarationScanner.ScanIgnoresSuffix` | src/lib.rs:51-63 | once a declaration yields a name, appending any tokens (generics, a where clause, a body) leaves the result unchanged |
| `DeclarationScanner.ScanReplaceSuffix` | src/lib.rs:51-63 | replacing everything after the name-bearing token leaves the name and the visibility unchanged |
| `DeclarationScanner.DemoDataScan` | tests/visibility.rs:8 | `pub(super) struct DemoData { .. }` yields visibility `pub (super)` and name `DemoData` |
| `DeclarationScanner.GenericStructScan` | src/lib.rs:54-63 | in `pub struct Pair<T> where T: Clone {}` the `struct` after `pub` is not absorbed, the visibility is `pub` alone, and the name is `Pair`, never `T` |
| `DeclarationScanner.AttributedEnumScan` | src/lib.rs:62-65 | an attribute before a private `enum` is skipped, and the visibility is empty |
| `StructBoxDerive.Expand` | src/lib.rs:72-86 | the output is the error exactly when no name was found, and the error carries the message `no type name found?!`; otherwise the `impl` targets exactly the scanned name and holds `encrypt` (taking `&self`, yielding the ciphertext bytes) and `decrypt` (associated, yielding `Self`), both carrying exactly the scanned visibility |
| `StructBoxDerive.StructBox` | src/lib.rs:45-87 | the token-by-token loop produces exactly `Expand(Scan(input))`: the compile error when the tokens run out before a name, otherwise the `impl` for the first qualifying identifier with the collected visibility |
| `StructBoxDerive.ExpandRecovers` | src/lib.rs:73-81 | the name and the visibility can be read back from the expansion, so nothing of the scan is lost |
| `StructBoxDerive.PrivateIffNoPub` | src/lib.rs:72-86 | a declaration with a name always gets an `impl`, and its generated methods have empty visibility exactly when no `pub` precedes the name |
| `StructBoxDerive.DemoDataExpansion` | tests/visibility.rs:7-8 | the test's declaration expands to `impl DemoData` with `pub(super) fn encrypt` and `pub(super) fn decrypt` |
| `StructBoxDerive.MissingNameExpansion` | src/lib.rs:66 | `pub(crate) struct` with no name expands to the compile error |

## Left out

- The bodies of the generated `encrypt` and `decrypt`: they serialize with `ciborium` and encrypt with `strong_box`. Both are foreign crates and are not part of this model, so the round-trip and context-binding properties of encryption are not stated.
- The `proc_macro` / `proc_macro2` conversions and the `quote!` construction of output tokens: the output is modelled as an abstract record of the target name, the visibility and two method entries.
- Spans and hygiene of identifiers: an identifier is modelled by its text only.
- Whether Rust's privacy rules make the generated methods accessible where the type is: that is the compiler's semantics. The model only shows that the methods carry the type's visibility tokens.
- The integration test in tests/visibility.rs, beyond its declaration: it needs key generation and real encryption.
- Termination: it is shown by the loop's `decreases |input| - i` clause, since every iteration consumes at least one token. No separate lemma states it.
