/**
 The `StructBox` derive: scan the declaration it is attached to for the type
 name and the visibility, then emit an `impl` block for that type holding
 `encrypt` and `decrypt`, both with the captured visibility. When no type
 name is found the expansion is a `compile_error!` instead.

 The emitted methods are kept as an abstract record: their bodies call into
 an encryption engine and a serialization format that are not part of this
 model.
 */
module StructBoxDerive {
  import opened Tokens
  import opened DeclarationScanner

  /** How a generated method receives the value: `&self`, or none (an associated function). */
  datatype Receiver = SelfRef | NoReceiver

  /** What a generated method yields on success: a ciphertext byte vector, or `Self`. */
  datatype Returns = Ciphertext | SelfValue

  /** One generated method: its visibility tokens, its name, its receiver and its result. */
  datatype FnItem = FnItem(vis: seq<TokenTree>, name: string, receiver: Receiver, result: Returns)

  /** `impl <selfType> { <fns> }` */
  datatype ImplItem = ImplItem(selfType: string, fns: seq<FnItem>)

  /** What the derive expands to. */
  datatype MacroOutput =
    | CompileError(message: string)
    | Impl(item: ImplItem)

  const NoTypeNameMessage: string := "no type name found?!"

  /** `#vis fn encrypt(&self, strong_box, ctx) -> Result<Vec<u8>, Error>` */
  function EncryptFn(vis: seq<TokenTree>): FnItem {
    FnItem(vis, "encrypt", SelfRef, Ciphertext)
  }

  /** `#vis fn decrypt(ciphertext, strong_box, ctx) -> Result<Self, Error>` */
  function DecryptFn(vis: seq<TokenTree>): FnItem {
    FnItem(vis, "decrypt", NoReceiver, SelfValue)
  }

  /** The method synthesizer: the output for one scan result. */
  function Expand(s: Scanned): (out: MacroOutput)
    ensures out.CompileError? <==> s.NoTypeName?
    ensures out.CompileError? ==> out.message == NoTypeNameMessage
    ensures out.Impl? ==> out.item.selfType == s.name
    ensures out.Impl? ==> |out.item.fns| == 2 && forall f :: f in out.item.fns ==> f.vis == s.vis
    ensures out.Impl? ==>
      (out.item.fns[0].name == "encrypt" && out.item.fns[0].receiver == SelfRef
       && out.item.fns[0].result == Ciphertext)
    ensures out.Impl? ==>
      (out.item.fns[1].name == "decrypt" && out.item.fns[1].receiver == NoReceiver
       && out.item.fns[1].result == SelfValue)
  {
    match s
    case NoTypeName => CompileError(NoTypeNameMessage)
    case Declared(vis, name) => Impl(ImplItem(name, [EncryptFn(vis), DecryptFn(vis)]))
  }

  /** Reads the scan result back out of an expansion: the target type and
      the visibility every generated method carries. */
  function Recovered(out: MacroOutput): Scanned {
    match out
    case CompileError(_) => NoTypeName
    case Impl(item) => Declared(if item.fns == [] then [] else item.fns[0].vis, item.selfType)
  }

  /**
   The derive macro itself: walks the tokens left to right, collecting every
   `pub` (and a group right after it) into the visibility, skipping
   `struct`, `enum` and every token that is not an identifier, and stops at
   the first other identifier, which names the type.
   */
  method StructBox(input: seq<TokenTree>) returns (out: MacroOutput)
    ensures out == Expand(Scan(input))
  {
    var i := 0;
    var vis: seq<TokenTree> := [];
    var structName: Option<string> := None;
    while structName.None?
      invariant 0 <= i <= |input|
      invariant structName.None? ==> NoNameBefore(input, i) && vis == VisBefore(input, i)
      invariant structName.Some? ==>
        0 < i && FirstName(input) == Some(i - 1) && structName.value == input[i - 1].text
        && vis == VisBefore(input, i - 1)
      decreases |input| - i
    {
      if i == |input| {
        return CompileError(NoTypeNameMessage);
      }
      var tok := input[i];
      i := i + 1;
      match tok
      case Ident(text) =>
        if IsPub(tok) {
          vis := vis + [tok];
          if i < |input| && input[i].Group? {
            vis := vis + [input[i]];
            // The scoped-visibility group is consumed with its `pub`.
            i := i + 1;
          }
        } else if IsKindMarker(tok) {
        } else {
          structName := Some(text);
          FirstNameIsLeast(input, i - 1);
        }
      case _ =>
    }
    out := Expand(Declared(vis, structName.value));
  }

  /** The expansion loses nothing of the scan: the `impl` names the scanned
      type and its methods carry the scanned visibility. */
  lemma ExpandRecovers(s: Scanned)
    ensures Recovered(Expand(s)) == s
  {
  }

  /** A type is given an `impl` exactly when its declaration holds a type
      name, and its generated methods are private exactly when no `pub`
      comes before that name. */
  lemma PrivateIffNoPub(ts: seq<TokenTree>)
    requires FirstName(ts).Some?
    ensures Expand(Scan(ts)).Impl?
    ensures forall f :: f in Expand(Scan(ts)).item.fns ==>
      (f.vis == [] <==> forall j :: 0 <= j < FirstName(ts).value ==> !IsPub(ts[j]))
  {
  }

  /** `pub(super) struct DemoData { .. }` gets `pub(super) fn encrypt` and
      `pub(super) fn decrypt` on `impl DemoData`. */
  lemma DemoDataExpansion()
    ensures
      var vis := [Pub, Group(Parenthesis, [Ident("super")])];
      Expand(Scan(DemoData())) == Impl(ImplItem("DemoData", [EncryptFn(vis), DecryptFn(vis)]))
  {
    DemoDataScan();
  }

  /** A token stream without a type name, such as `pub(crate) struct`, expands to the error. */
  lemma MissingNameExpansion()
    ensures Expand(Scan([Pub, Group(Parenthesis, [Ident("crate")]), Ident("struct")])) ==
      CompileError(NoTypeNameMessage)
  {
  }
}
