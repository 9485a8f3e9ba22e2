/**
 * The command-line tool's `--loopify` pass: every function body and every
 * `const`/`static` initialiser becomes an empty `loop {}`, so that the
 * expanded source keeps its item signatures without their code. Trait
 * members are replaced only where they have a default; macros, types and
 * data declarations are never touched; inline modules are descended into.
 */
module Loopify {
  import opened Base
  import opened Syntax

  /** `loop {}`: no attributes, no label, an empty body. */
  function EmptyLoop(): Expr
  {
    Loop([], None, Block([]))
  }

  /** `{ loop {} }`: a block whose only statement is an empty loop, without a semicolon. */
  function LoopBlock(): Block
  {
    Block([ExprStmt(EmptyLoop(), false)])
  }

  /** `loopify_block`: whatever the statements were, they are replaced. */
  function LoopifyBlock(b: Block): (r: Block)
    ensures |r.stmts| == 1 && r.stmts[0].ExprStmt? && !r.stmts[0].semi
    ensures r.stmts[0].expr.Loop? && r.stmts[0].expr.attrs == [] && r.stmts[0].expr.loopLabel.None?
    ensures r.stmts[0].expr.body.stmts == []
  {
    LoopBlock()
  }

  /** `loopify_expr`: the whole expression is replaced. */
  function LoopifyExpr(e: Expr): (r: Expr)
    ensures r.Loop? && r.attrs == [] && r.loopLabel.None? && r.body.stmts == []
  {
    EmptyLoop()
  }

  function LoopifyTraitItem(t: TraitItem): TraitItem
  {
    match t
    case TraitConst(attrs, sig, d) => TraitConst(attrs, sig, if d.Some? then Some(LoopifyExpr(d.value)) else None)
    case TraitFn(attrs, sig, b) => TraitFn(attrs, sig, if b.Some? then Some(LoopifyBlock(b.value)) else None)
    case TraitType(_, _) => t
    case TraitMacro(_, _) => t
    case TraitVerbatim(_) => t
  }

  function LoopifyTraitItems(tis: seq<TraitItem>): seq<TraitItem>
  {
    seq(|tis|, i requires 0 <= i < |tis| => LoopifyTraitItem(tis[i]))
  }

  function LoopifyImplItem(t: ImplItem): ImplItem
  {
    match t
    case ImplConst(attrs, sig, e) => ImplConst(attrs, sig, LoopifyExpr(e))
    case ImplFn(attrs, sig, b) => ImplFn(attrs, sig, LoopifyBlock(b))
    case ImplType(_, _) => t
    case ImplMacro(_, _) => t
    case ImplVerbatim(_) => t
  }

  function LoopifyImplItems(iis: seq<ImplItem>): seq<ImplItem>
  {
    seq(|iis|, i requires 0 <= i < |iis| => LoopifyImplItem(iis[i]))
  }

  /** `loopify_item`. */
  function LoopifyItem(item: Item): Item
    decreases item, 0
  {
    match item
    case Const(attrs, sig, e) => Const(attrs, sig, LoopifyExpr(e))
    case Static(attrs, sig, e) => Static(attrs, sig, LoopifyExpr(e))
    case Fn(attrs, sig, b) => Fn(attrs, sig, LoopifyBlock(b))
    case Trait(attrs, sig, tis) => Trait(attrs, sig, LoopifyTraitItems(tis))
    case Impl(attrs, sig, iis) => Impl(attrs, sig, LoopifyImplItems(iis))
    case Mod(attrs, vis, ident, body) =>
      Mod(attrs, vis, ident, if body.Inline? then Inline(LoopifyItems(body.items)) else body)
    case _ => item
  }

  function LoopifyItems(items: seq<Item>): seq<Item>
    decreases items, 1
  {
    seq(|items|, i requires 0 <= i < |items| => LoopifyItem(items[i]))
  }

  /** `loopify`: every top-level item, in place; the file's attributes are not touched. */
  function LoopifyFile(f: File): (r: File)
    ensures r.attrs == f.attrs
    ensures |r.items| == |f.items|
    ensures forall i :: 0 <= i < |r.items| ==> Loopified(r.items[i]) && Shape(r.items[i]) == Shape(f.items[i])
  {
    var r := File(f.attrs, LoopifyItems(f.items));
    forall i | 0 <= i < |r.items|
      ensures Loopified(r.items[i]) && Shape(r.items[i]) == Shape(f.items[i])
    {
      LoopifyItemLoopified(f.items[i]);
      LoopifyItemShape(f.items[i]);
    }
    r
  }

  // ---------------------------------------------------------------------
  // Every body the pass visits is already an empty loop.

  predicate TraitItemLoopified(t: TraitItem)
  {
    && (t.TraitConst? && t.defaultExpr.Some? ==> t.defaultExpr.value == EmptyLoop())
    && (t.TraitFn? && t.defaultBody.Some? ==> t.defaultBody.value == LoopBlock())
  }

  predicate ImplItemLoopified(t: ImplItem)
  {
    && (t.ImplConst? ==> t.expr == EmptyLoop())
    && (t.ImplFn? ==> t.block == LoopBlock())
  }

  predicate Loopified(item: Item)
    decreases item
  {
    match item
    case Const(_, _, e) => e == EmptyLoop()
    case Static(_, _, e) => e == EmptyLoop()
    case Fn(_, _, b) => b == LoopBlock()
    case Trait(_, _, tis) => forall i :: 0 <= i < |tis| ==> TraitItemLoopified(tis[i])
    case Impl(_, _, iis) => forall i :: 0 <= i < |iis| ==> ImplItemLoopified(iis[i])
    case Mod(_, _, _, body) => body.Inline? ==> forall i :: 0 <= i < |body.items| ==> Loopified(body.items[i])
    case _ => true
  }

  // ---------------------------------------------------------------------
  // An item with its code erased: what the pass must not change.

  /** The placeholder standing for erased code. */
  function Erased(): Expr
  {
    OtherExpr([])
  }

  function ShapeTraitItem(t: TraitItem): TraitItem
  {
    match t
    case TraitConst(attrs, sig, d) => TraitConst(attrs, sig, if d.Some? then Some(Erased()) else None)
    case TraitFn(attrs, sig, b) => TraitFn(attrs, sig, if b.Some? then Some(Block([])) else None)
    case TraitType(_, _) => t
    case TraitMacro(_, _) => t
    case TraitVerbatim(_) => t
  }

  function ShapeTraitItems(tis: seq<TraitItem>): seq<TraitItem>
  {
    seq(|tis|, i requires 0 <= i < |tis| => ShapeTraitItem(tis[i]))
  }

  function ShapeImplItem(t: ImplItem): ImplItem
  {
    match t
    case ImplConst(attrs, sig, _) => ImplConst(attrs, sig, Erased())
    case ImplFn(attrs, sig, _) => ImplFn(attrs, sig, Block([]))
    case ImplType(_, _) => t
    case ImplMacro(_, _) => t
    case ImplVerbatim(_) => t
  }

  function ShapeImplItems(iis: seq<ImplItem>): seq<ImplItem>
  {
    seq(|iis|, i requires 0 <= i < |iis| => ShapeImplItem(iis[i]))
  }

  /** Everything but function bodies and `const`/`static` initialisers: attributes, signatures, macros, data declarations. */
  function Shape(item: Item): Item
    decreases item, 0
  {
    match item
    case Const(attrs, sig, _) => Const(attrs, sig, Erased())
    case Static(attrs, sig, _) => Static(attrs, sig, Erased())
    case Fn(attrs, sig, _) => Fn(attrs, sig, Block([]))
    case Trait(attrs, sig, tis) => Trait(attrs, sig, ShapeTraitItems(tis))
    case Impl(attrs, sig, iis) => Impl(attrs, sig, ShapeImplItems(iis))
    case Mod(attrs, vis, ident, body) =>
      Mod(attrs, vis, ident, if body.Inline? then Inline(ShapeItems(body.items)) else body)
    case _ => item
  }

  function ShapeItems(items: seq<Item>): seq<Item>
    decreases items, 1
  {
    seq(|items|, i requires 0 <= i < |items| => Shape(items[i]))
  }

  // ---------------------------------------------------------------------
  // Properties.

  /** Every body the pass visits ends up an empty loop. */
  lemma {:induction false} LoopifyItemLoopified(item: Item)
    ensures Loopified(LoopifyItem(item))
    decreases item
  {
    if item.Mod? && item.body.Inline? {
      var items := item.body.items;
      forall i | 0 <= i < |items|
        ensures Loopified(LoopifyItems(items)[i])
      {
        LoopifyItemLoopified(items[i]);
      }
    }
  }

  /** The pass changes code and nothing else. */
  lemma {:induction false} LoopifyItemShape(item: Item)
    ensures Shape(LoopifyItem(item)) == Shape(item)
    decreases item
  {
    match item
    case Trait(_, _, tis) =>
      assert ShapeTraitItems(LoopifyTraitItems(tis)) == ShapeTraitItems(tis);
    case Impl(_, _, iis) =>
      assert ShapeImplItems(LoopifyImplItems(iis)) == ShapeImplItems(iis);
    case Mod(_, _, _, body) =>
      if body.Inline? {
        var items := body.items;
        forall i | 0 <= i < |items|
          ensures Shape(LoopifyItems(items)[i]) == Shape(items[i])
        {
          LoopifyItemShape(items[i]);
        }
        assert ShapeItems(LoopifyItems(items)) == ShapeItems(items);
      }
    case _ =>
  }

  /** An item whose code is all empty loops already is left exactly as it is. */
  lemma {:induction false} LoopifyItemFixpoint(item: Item)
    requires Loopified(item)
    ensures LoopifyItem(item) == item
    decreases item
  {
    match item
    case Trait(_, _, tis) =>
      assert LoopifyTraitItems(tis) == tis;
    case Impl(_, _, iis) =>
      assert LoopifyImplItems(iis) == iis;
    case Mod(_, _, _, body) =>
      if body.Inline? {
        var items := body.items;
        forall i | 0 <= i < |items|
          ensures LoopifyItem(items[i]) == items[i]
        {
          LoopifyItemFixpoint(items[i]);
        }
        assert LoopifyItems(items) == items;
      }
    case _ =>
  }

  /**
   * The pass is pinned down by the two properties above: an item with the
   * same shape whose code is all empty loops is the pass's result.
   */
  lemma {:induction false} LoopifyItemUnique(item: Item, other: Item)
    requires Shape(other) == Shape(item) && Loopified(other)
    ensures other == LoopifyItem(item)
    decreases item
  {
    match item
    case Trait(_, _, tis) =>
      var ots := other.traitItems;
      assert |ots| == |tis| by {
        assert |ShapeTraitItems(ots)| == |ShapeTraitItems(tis)|;
      }
      forall i | 0 <= i < |tis|
        ensures ots[i] == LoopifyTraitItem(tis[i])
      {
        assert ShapeTraitItems(ots)[i] == ShapeTraitItems(tis)[i];
        assert TraitItemLoopified(ots[i]);
      }
      assert ots == LoopifyTraitItems(tis);
    case Impl(_, _, iis) =>
      var ois := other.implItems;
      assert |ois| == |iis| by {
        assert |ShapeImplItems(ois)| == |ShapeImplItems(iis)|;
      }
      forall i | 0 <= i < |iis|
        ensures ois[i] == LoopifyImplItem(iis[i])
      {
        assert ShapeImplItems(ois)[i] == ShapeImplItems(iis)[i];
        assert ImplItemLoopified(ois[i]);
      }
      assert ois == LoopifyImplItems(iis);
    case Mod(_, _, _, body) =>
      if body.Inline? {
        var items := body.items;
        var others := other.body.items;
        assert |others| == |items| by {
          assert |ShapeItems(others)| == |ShapeItems(items)|;
        }
        forall i | 0 <= i < |items|
          ensures others[i] == LoopifyItem(items[i])
        {
          assert ShapeItems(others)[i] == ShapeItems(items)[i];
          LoopifyItemUnique(items[i], others[i]);
        }
        assert others == LoopifyItems(items);
      }
    case _ =>
  }

  /** A second pass over an item changes nothing. */
  lemma LoopifyItemIdempotent(item: Item)
    ensures LoopifyItem(LoopifyItem(item)) == LoopifyItem(item)
  {
    LoopifyItemLoopified(item);
    LoopifyItemFixpoint(LoopifyItem(item));
  }

  /** A second pass over a file changes nothing. */
  lemma LoopifyIdempotent(f: File)
    ensures LoopifyFile(LoopifyFile(f)) == LoopifyFile(f)
  {
    var g := LoopifyFile(f);
    forall i | 0 <= i < |g.items|
      ensures LoopifyItem(g.items[i]) == g.items[i]
    {
      LoopifyItemIdempotent(f.items[i]);
    }
  }
}
