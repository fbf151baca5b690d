/**
 The declaration scanner of the `StructBox` derive, stated as a reference
 definition over the whole token sequence: the type name is the first
 identifier that is not `pub`, `struct` or `enum`, and the visibility is
 what every `pub` before it contributes, together with a group written
 directly after that `pub`. The loop that computes the same thing token by
 token is `StructBoxDerive.StructBox`.
 */
module DeclarationScanner {
  import opened Tokens

  datatype Option<T> = None | Some(value: T)

  /** What the scan of one declaration yields. */
  datatype Scanned =
    | NoTypeName
    | Declared(vis: seq<TokenTree>, name: string)

  /** No position before `k` holds a type name. */
  predicate NoNameBefore(ts: seq<TokenTree>, k: nat)
    requires k <= |ts|
  {
    forall j :: 0 <= j < k ==> !IsTypeName(ts[j])
  }

  /** The position of the first type name in `ts`, if there is one. */
  function FirstName(ts: seq<TokenTree>): (r: Option<nat>)
    ensures r.Some? ==> r.value < |ts| && IsTypeName(ts[r.value]) && NoNameBefore(ts, r.value)
    ensures r.None? <==> NoNameBefore(ts, |ts|)
  {
    if ts == [] then None
    else if IsTypeName(ts[0]) then Some(0)
    else match FirstName(ts[1..])
      case None => None
      case Some(k) => Some(k + 1)
  }

  /** What the token at `j` adds to the visibility: a `pub` adds itself and,
      when the token right after it is a group such as `(crate)` or
      `(in some::path)`, that group too; every other token adds nothing. */
  function PubWithScope(ts: seq<TokenTree>, j: nat): seq<TokenTree>
    requires j < |ts|
  {
    if IsPub(ts[j]) then
      [ts[j]] + (if j + 1 < |ts| && ts[j + 1].Group? then [ts[j + 1]] else [])
    else []
  }

  /** The visibility collected from the first `k` tokens. */
  function VisBefore(ts: seq<TokenTree>, k: nat): seq<TokenTree>
    requires k <= |ts|
  {
    if k == 0 then [] else VisBefore(ts, k - 1) + PubWithScope(ts, k - 1)
  }

  /** The scan of a whole declaration. */
  function Scan(ts: seq<TokenTree>): (r: Scanned)
    ensures r.NoTypeName? <==> forall j :: 0 <= j < |ts| ==> !IsTypeName(ts[j])
    ensures r.Declared? ==> r.name != "pub" && r.name != "struct" && r.name != "enum"
    ensures r.Declared? ==> exists k :: 0 <= k < |ts| && ts[k] == Ident(r.name) && NoNameBefore(ts, k)
    ensures r.Declared? ==> PubChunks(r.vis)
    ensures r.Declared? ==>
      (r.vis == [] <==> forall j :: 0 <= j < FirstName(ts).value ==> !IsPub(ts[j]))
  {
    match FirstName(ts)
    case None => NoTypeName
    case Some(k) =>
      VisBeforeShape(ts, k);
      VisEmptyIffNoPub(ts, k);
      Declared(VisBefore(ts, k), ts[k].text)
  }

  /** The shape of a visibility: only `pub` tokens, each followed by at most
      one group. */
  predicate PubChunks(vis: seq<TokenTree>) {
    forall i {:trigger vis[i]} :: 0 <= i < |vis| ==>
      IsPub(vis[i]) || (0 < i && vis[i].Group? && IsPub(vis[i - 1]))
  }

  /** A position that is the first type name is the one `FirstName` finds. */
  lemma FirstNameIsLeast(ts: seq<TokenTree>, k: nat)
    requires k < |ts| && IsTypeName(ts[k]) && NoNameBefore(ts, k)
    ensures FirstName(ts) == Some(k)
  {
  }

  /** The visibility is made only of `pub` tokens, each optionally followed
      by the group that stood right after it. */
  lemma {:induction false} VisBeforeShape(ts: seq<TokenTree>, k: nat)
    requires k <= |ts|
    ensures PubChunks(VisBefore(ts, k))
  {
    if k > 0 {
      VisBeforeShape(ts, k - 1);
      var prev, added := VisBefore(ts, k - 1), PubWithScope(ts, k - 1);
      var vis := prev + added;
      assert vis == VisBefore(ts, k);
      forall i | 0 <= i < |vis|
        ensures IsPub(vis[i]) || (0 < i && vis[i].Group? && IsPub(vis[i - 1]))
      {
        if i < |prev| {
          assert vis[i] == prev[i];
          if 0 < i { assert vis[i - 1] == prev[i - 1]; }
        } else {
          assert IsPub(ts[k - 1]) && added[0] == ts[k - 1];
          assert vis[i] == added[i - |prev|];
          if i - |prev| == 1 {
            assert added == [ts[k - 1], ts[k]];
            assert vis[i - 1] == added[0];
          }
        }
      }
    }
  }

  /** The visibility is empty exactly when no `pub` precedes position `k`. */
  lemma {:induction false} VisEmptyIffNoPub(ts: seq<TokenTree>, k: nat)
    requires k <= |ts|
    ensures VisBefore(ts, k) == [] <==> forall j :: 0 <= j < k ==> !IsPub(ts[j])
  {
    if k > 0 {
      VisEmptyIffNoPub(ts, k - 1);
      if IsPub(ts[k - 1]) {
        assert |PubWithScope(ts, k - 1)| > 0;
      }
    }
  }

  /** Tokens past position `k` do not affect the visibility collected
      before it, as long as the token at `k` itself is kept. */
  lemma {:induction false} VisBeforeIgnoresSuffix(ts: seq<TokenTree>, rest: seq<TokenTree>, k: nat)
    requires k < |ts|
    ensures VisBefore(ts + rest, k) == VisBefore(ts, k)
  {
    if k > 0 {
      VisBeforeIgnoresSuffix(ts, rest, k - 1);
      assert (ts + rest)[k - 1] == ts[k - 1];
      assert (ts + rest)[k] == ts[k];
    }
  }

  /** Once a declaration yields a type name, appending tokens (generic
      parameters, a where clause, the body) never changes the result. */
  lemma ScanIgnoresSuffix(ts: seq<TokenTree>, rest: seq<TokenTree>)
    requires Scan(ts).Declared?
    ensures Scan(ts + rest) == Scan(ts)
  {
    var k := FirstName(ts).value;
    assert (ts + rest)[k] == ts[k];
    assert forall j :: 0 <= j < k ==> (ts + rest)[j] == ts[j];
    FirstNameIsLeast(ts + rest, k);
    VisBeforeIgnoresSuffix(ts, rest, k);
  }

  /** Replacing everything after the name-bearing token leaves the result unchanged. */
  lemma ScanReplaceSuffix(ts: seq<TokenTree>, rest: seq<TokenTree>)
    requires FirstName(ts).Some?
    ensures Scan(ts[..FirstName(ts).value + 1] + rest) == Scan(ts)
  {
    var k := FirstName(ts).value;
    var head := ts[..k + 1];
    assert head + ts[k + 1..] == ts;
    assert head[k] == ts[k];
    assert forall j :: 0 <= j < k ==> head[j] == ts[j];
    FirstNameIsLeast(head, k);
    ScanIgnoresSuffix(head, ts[k + 1..]);
    ScanIgnoresSuffix(head, rest);
  }

  /** `pub(super) struct DemoData { x: u32, y: u32 }`, the declaration of the visibility test. */
  function DemoData(): seq<TokenTree> {
    [ Pub,
      Group(Parenthesis, [Ident("super")]),
      Ident("struct"),
      Ident("DemoData"),
      Group(Brace, [ Ident("x"), Punct(':', Alone), Ident("u32"), Punct(',', Alone),
                     Ident("y"), Punct(':', Alone), Ident("u32"), Punct(',', Alone) ]) ]
  }

  lemma DemoDataScan()
    ensures Scan(DemoData()) == Declared([Pub, Group(Parenthesis, [Ident("super")])], "DemoData")
  {
  }

  /** `pub struct Pair<T> where T: Clone { .. }`: `struct` after `pub` is not
      absorbed, and the generic parameter `T` is never taken as the name. */
  lemma GenericStructScan()
    ensures
      var ts := [ Pub, Ident("struct"), Ident("Pair"), Punct('<', Alone), Ident("T"), Punct('>', Alone),
                  Ident("where"), Ident("T"), Punct(':', Alone), Ident("Clone"), Group(Brace, []) ];
      Scan(ts) == Declared([Pub], "Pair")
  {
    var ts := [ Pub, Ident("struct"), Ident("Pair"), Punct('<', Alone), Ident("T"), Punct('>', Alone),
                Ident("where"), Ident("T"), Punct(':', Alone), Ident("Clone"), Group(Brace, []) ];
    FirstNameIsLeast(ts, 2);
    assert VisBefore(ts, 1) == [Pub];
  }

  /** An attribute such as `#[serde(rename_all = "camelCase")]` before a private
      enum is skipped, and the visibility stays empty. */
  lemma AttributedEnumScan()
    ensures
      var attr := Group(Bracket, [ Ident("serde"), Group(Parenthesis, [ Ident("rename_all"),
                                   Punct('=', Alone), Literal("\"camelCase\"") ]) ]);
      Scan([Punct('#', Alone), attr, Ident("enum"), Ident("Mode"), Group(Brace, [])]) == Declared([], "Mode")
  {
  }
}
