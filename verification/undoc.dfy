/**
 * The command-line tool's `--undoc` pass: remove every `#[doc]` attribute
 * (doc comments included) from a file, its items, trait and impl members,
 * enum variants and struct and union fields, descending into inline modules.
 * `use` items and verbatim items or members are left as they are.
 */
module Undoc {
  import opened Base
  import opened Syntax

  /** An attribute whose path is the single identifier `doc`. */
  predicate IsDoc(a: Attribute)
  {
    a.IsIdent("doc")
  }

  predicate NoDoc(attrs: seq<Attribute>)
  {
    forall i :: 0 <= i < |attrs| ==> !IsDoc(attrs[i])
  }

  /** `undoc_attrs`: keep the attributes that are not `#[doc]`. */
  function UndocAttrs(attrs: seq<Attribute>): (r: seq<Attribute>)
    ensures forall a :: a in r <==> a in attrs && !IsDoc(a)
    ensures NoDoc(r)
    ensures |r| <= |attrs|
  {
    if |attrs| == 0 then []
    else (if IsDoc(attrs[0]) then [] else [attrs[0]]) + UndocAttrs(attrs[1..])
  }

  /** A trait member loses its doc attributes; a verbatim one is kept as it is. */
  function UndocTraitItem(t: TraitItem): TraitItem
  {
    match t
    case TraitConst(attrs, sig, d) => TraitConst(UndocAttrs(attrs), sig, d)
    case TraitFn(attrs, sig, b) => TraitFn(UndocAttrs(attrs), sig, b)
    case TraitType(attrs, sig) => TraitType(UndocAttrs(attrs), sig)
    case TraitMacro(attrs, mac) => TraitMacro(UndocAttrs(attrs), mac)
    case TraitVerbatim(_) => t
  }

  function UndocTraitItems(tis: seq<TraitItem>): seq<TraitItem>
  {
    seq(|tis|, i requires 0 <= i < |tis| => UndocTraitItem(tis[i]))
  }

  /** An impl member loses its doc attributes; a verbatim one is kept as it is. */
  function UndocImplItem(t: ImplItem): ImplItem
  {
    match t
    case ImplConst(attrs, sig, e) => ImplConst(UndocAttrs(attrs), sig, e)
    case ImplFn(attrs, sig, b) => ImplFn(UndocAttrs(attrs), sig, b)
    case ImplType(attrs, sig) => ImplType(UndocAttrs(attrs), sig)
    case ImplMacro(attrs, mac) => ImplMacro(UndocAttrs(attrs), mac)
    case ImplVerbatim(_) => t
  }

  function UndocImplItems(iis: seq<ImplItem>): seq<ImplItem>
  {
    seq(|iis|, i requires 0 <= i < |iis| => UndocImplItem(iis[i]))
  }

  function UndocMember(m: Member): Member
  {
    Member(UndocAttrs(m.attrs), m.sig)
  }

  function UndocMembers(ms: seq<Member>): seq<Member>
  {
    seq(|ms|, i requires 0 <= i < |ms| => UndocMember(ms[i]))
  }

  /** `undoc_item`. */
  function UndocItem(item: Item): Item
    decreases item, 0
  {
    match item
    case Const(attrs, sig, e) => Const(UndocAttrs(attrs), sig, e)
    case Static(attrs, sig, e) => Static(UndocAttrs(attrs), sig, e)
    case Fn(attrs, sig, b) => Fn(UndocAttrs(attrs), sig, b)
    case Trait(attrs, sig, tis) => Trait(UndocAttrs(attrs), sig, UndocTraitItems(tis))
    case Impl(attrs, sig, iis) => Impl(UndocAttrs(attrs), sig, UndocImplItems(iis))
    case Mod(attrs, vis, ident, body) =>
      Mod(UndocAttrs(attrs), vis, ident, if body.Inline? then Inline(UndocItems(body.items)) else body)
    case Macro(attrs, mac) => Macro(UndocAttrs(attrs), mac)
    case ForeignMod(attrs, sig) => ForeignMod(UndocAttrs(attrs), sig)
    case ExternCrate(attrs, sig) => ExternCrate(UndocAttrs(attrs), sig)
    case Enum(attrs, sig, vs) => Enum(UndocAttrs(attrs), sig, UndocMembers(vs))
    case Struct(attrs, sig, fs) => Struct(UndocAttrs(attrs), sig, UndocMembers(fs))
    case Union(attrs, sig, fs) => Union(UndocAttrs(attrs), sig, UndocMembers(fs))
    case TraitAlias(attrs, sig) => TraitAlias(UndocAttrs(attrs), sig)
    case TypeAlias(attrs, sig) => TypeAlias(UndocAttrs(attrs), sig)
    case Use(_, _) => item
    case Verbatim(_) => item
  }

  function UndocItems(items: seq<Item>): seq<Item>
    decreases items, 1
  {
    seq(|items|, i requires 0 <= i < |items| => UndocItem(items[i]))
  }

  /** `undoc`: the file's own attributes and every item. */
  function Undoc(f: File): (r: File)
    ensures NoDoc(r.attrs) && r.attrs == UndocAttrs(f.attrs)
    ensures |r.items| == |f.items|
    ensures forall i :: 0 <= i < |r.items| ==> Undocumented(r.items[i]) && Bare(r.items[i]) == Bare(f.items[i])
    ensures forall i :: 0 <= i < |r.items| ==> AttrLists(r.items[i]) == UndocLists(AttrLists(f.items[i]))
  {
    var r := File(UndocAttrs(f.attrs), UndocItems(f.items));
    forall i | 0 <= i < |r.items|
      ensures Undocumented(r.items[i]) && Bare(r.items[i]) == Bare(f.items[i])
      ensures AttrLists(r.items[i]) == UndocLists(AttrLists(f.items[i]))
    {
      UndocItemUndocumented(f.items[i]);
      UndocItemBare(f.items[i]);
      UndocItemAttrLists(f.items[i]);
    }
    r
  }

  // ---------------------------------------------------------------------
  // Where the pass leaves no `#[doc]`.

  predicate TraitItemUndocumented(t: TraitItem)
  {
    t.TraitVerbatim? || NoDoc(t.attrs)
  }

  predicate ImplItemUndocumented(t: ImplItem)
  {
    t.ImplVerbatim? || NoDoc(t.attrs)
  }

  predicate MembersUndocumented(ms: seq<Member>)
  {
    forall i :: 0 <= i < |ms| ==> NoDoc(ms[i].attrs)
  }

  /** No `#[doc]` in any place the pass visits: everywhere except `use` items and verbatim tokens. */
  predicate Undocumented(item: Item)
    decreases item
  {
    match item
    case Trait(attrs, _, tis) => NoDoc(attrs) && forall i :: 0 <= i < |tis| ==> TraitItemUndocumented(tis[i])
    case Impl(attrs, _, iis) => NoDoc(attrs) && forall i :: 0 <= i < |iis| ==> ImplItemUndocumented(iis[i])
    case Mod(attrs, _, _, body) =>
      NoDoc(attrs) && (body.Inline? ==> forall i :: 0 <= i < |body.items| ==> Undocumented(body.items[i]))
    case Enum(attrs, _, vs) => NoDoc(attrs) && MembersUndocumented(vs)
    case Struct(attrs, _, fs) => NoDoc(attrs) && MembersUndocumented(fs)
    case Union(attrs, _, fs) => NoDoc(attrs) && MembersUndocumented(fs)
    case Use(_, _) => true
    case Verbatim(_) => true
    case Const(attrs, _, _) => NoDoc(attrs)
    case Static(attrs, _, _) => NoDoc(attrs)
    case Fn(attrs, _, _) => NoDoc(attrs)
    case Macro(attrs, _) => NoDoc(attrs)
    case ForeignMod(attrs, _) => NoDoc(attrs)
    case ExternCrate(attrs, _) => NoDoc(attrs)
    case TraitAlias(attrs, _) => NoDoc(attrs)
    case TypeAlias(attrs, _) => NoDoc(attrs)
  }

  // ---------------------------------------------------------------------
  // An item with every attribute list the pass visits emptied: what the pass
  // must not change. `use` items and verbatim tokens are kept whole.

  function BareTraitItem(t: TraitItem): TraitItem
  {
    match t
    case TraitConst(_, sig, d) => TraitConst([], sig, d)
    case TraitFn(_, sig, b) => TraitFn([], sig, b)
    case TraitType(_, sig) => TraitType([], sig)
    case TraitMacro(_, mac) => TraitMacro([], mac)
    case TraitVerbatim(_) => t
  }

  function BareTraitItems(tis: seq<TraitItem>): seq<TraitItem>
  {
    seq(|tis|, i requires 0 <= i < |tis| => BareTraitItem(tis[i]))
  }

  function BareImplItem(t: ImplItem): ImplItem
  {
    match t
    case ImplConst(_, sig, e) => ImplConst([], sig, e)
    case ImplFn(_, sig, b) => ImplFn([], sig, b)
    case ImplType(_, sig) => ImplType([], sig)
    case ImplMacro(_, mac) => ImplMacro([], mac)
    case ImplVerbatim(_) => t
  }

  function BareImplItems(iis: seq<ImplItem>): seq<ImplItem>
  {
    seq(|iis|, i requires 0 <= i < |iis| => BareImplItem(iis[i]))
  }

  function BareMembers(ms: seq<Member>): seq<Member>
  {
    seq(|ms|, i requires 0 <= i < |ms| => Member([], ms[i].sig))
  }

  function Bare(item: Item): Item
    decreases item, 0
  {
    match item
    case Const(_, sig, e) => Const([], sig, e)
    case Static(_, sig, e) => Static([], sig, e)
    case Fn(_, sig, b) => Fn([], sig, b)
    case Trait(_, sig, tis) => Trait([], sig, BareTraitItems(tis))
    case Impl(_, sig, iis) => Impl([], sig, BareImplItems(iis))
    case Mod(_, vis, ident, body) => Mod([], vis, ident, if body.Inline? then Inline(BareItems(body.items)) else body)
    case Macro(_, mac) => Macro([], mac)
    case ForeignMod(_, sig) => ForeignMod([], sig)
    case ExternCrate(_, sig) => ExternCrate([], sig)
    case Enum(_, sig, vs) => Enum([], sig, BareMembers(vs))
    case Struct(_, sig, fs) => Struct([], sig, BareMembers(fs))
    case Union(_, sig, fs) => Union([], sig, BareMembers(fs))
    case TraitAlias(_, sig) => TraitAlias([], sig)
    case TypeAlias(_, sig) => TypeAlias([], sig)
    case Use(_, _) => item
    case Verbatim(_) => item
  }

  function BareItems(items: seq<Item>): seq<Item>
    decreases items, 1
  {
    seq(|items|, i requires 0 <= i < |items| => Bare(items[i]))
  }

  // ---------------------------------------------------------------------
  // Every attribute list the pass visits, in source order: the item's own,
  // then its members', then those of an inline module's items. A verbatim
  // member contributes an empty list; `use` and verbatim items contribute none.

  function TraitItemAttrs(t: TraitItem): seq<Attribute>
  {
    if t.TraitVerbatim? then [] else t.attrs
  }

  function ImplItemAttrs(t: ImplItem): seq<Attribute>
  {
    if t.ImplVerbatim? then [] else t.attrs
  }

  function TraitLists(tis: seq<TraitItem>): seq<seq<Attribute>>
  {
    seq(|tis|, i requires 0 <= i < |tis| => TraitItemAttrs(tis[i]))
  }

  function ImplLists(iis: seq<ImplItem>): seq<seq<Attribute>>
  {
    seq(|iis|, i requires 0 <= i < |iis| => ImplItemAttrs(iis[i]))
  }

  function MemberLists(ms: seq<Member>): seq<seq<Attribute>>
  {
    seq(|ms|, i requires 0 <= i < |ms| => ms[i].attrs)
  }

  function AttrLists(item: Item): seq<seq<Attribute>>
    decreases item, 0
  {
    match item
    case Trait(attrs, _, tis) => [attrs] + TraitLists(tis)
    case Impl(attrs, _, iis) => [attrs] + ImplLists(iis)
    case Mod(attrs, _, _, body) => [attrs] + (if body.Inline? then ItemsLists(body.items) else [])
    case Enum(attrs, _, vs) => [attrs] + MemberLists(vs)
    case Struct(attrs, _, fs) => [attrs] + MemberLists(fs)
    case Union(attrs, _, fs) => [attrs] + MemberLists(fs)
    case Use(_, _) => []
    case Verbatim(_) => []
    case Const(attrs, _, _) => [attrs]
    case Static(attrs, _, _) => [attrs]
    case Fn(attrs, _, _) => [attrs]
    case Macro(attrs, _) => [attrs]
    case ForeignMod(attrs, _) => [attrs]
    case ExternCrate(attrs, _) => [attrs]
    case TraitAlias(attrs, _) => [attrs]
    case TypeAlias(attrs, _) => [attrs]
  }

  function ItemsLists(items: seq<Item>): seq<seq<Attribute>>
    decreases items, 1
  {
    if |items| == 0 then [] else AttrLists(items[0]) + ItemsLists(items[1..])
  }

  /** Each list filtered by `undoc_attrs`. */
  function UndocLists(ls: seq<seq<Attribute>>): seq<seq<Attribute>>
  {
    seq(|ls|, i requires 0 <= i < |ls| => UndocAttrs(ls[i]))
  }

  // ---------------------------------------------------------------------
  // Properties.

  lemma UndocAttrsCons(x: Attribute, rest: seq<Attribute>)
    ensures UndocAttrs([x] + rest) == (if IsDoc(x) then [] else [x]) + UndocAttrs(rest)
  {
    assert ([x] + rest)[0] == x;
    assert ([x] + rest)[1..] == rest;
  }

  lemma Regroup<T>(whole: seq<T>, head: seq<T>, tail: seq<T>, left: seq<T>, right: seq<T>, first: seq<T>)
    requires whole == head + tail && tail == left + right && first == head + left
    ensures whole == first + right
  {
  }

  /** Removing the doc attributes of a concatenation removes them from each part. */
  lemma {:induction false} UndocAttrsAppend(a: seq<Attribute>, b: seq<Attribute>)
    ensures UndocAttrs(a + b) == UndocAttrs(a) + UndocAttrs(b)
    decreases |a|
  {
    if |a| == 0 {
      assert a + b == b;
    } else {
      var x, rest := a[0], a[1..];
      assert a == [x] + rest;
      assert a + b == [x] + (rest + b);
      UndocAttrsCons(x, rest + b);
      UndocAttrsCons(x, rest);
      UndocAttrsAppend(rest, b);
      Regroup(UndocAttrs(a + b), if IsDoc(x) then [] else [x], UndocAttrs(rest + b),
              UndocAttrs(rest), UndocAttrs(b), UndocAttrs(a));
    }
  }

  /** Together with `UndocAttrsAppend`, this pins the filter down: a doc attribute goes, any other stays in place. */
  lemma UndocAttrsSingle(a: Attribute)
    ensures UndocAttrs([a]) == if IsDoc(a) then [] else [a]
  {
    assert [a][1..] == [];
  }

  /** Attributes without `#[doc]` are kept exactly. */
  lemma {:induction false} UndocAttrsKeeps(attrs: seq<Attribute>)
    requires NoDoc(attrs)
    ensures UndocAttrs(attrs) == attrs
    decreases |attrs|
  {
    if |attrs| > 0 {
      assert !IsDoc(attrs[0]);
      assert NoDoc(attrs[1..]) by {
        forall i | 0 <= i < |attrs[1..]|
          ensures !IsDoc(attrs[1..][i])
        {
          assert attrs[1..][i] == attrs[i + 1];
        }
      }
      UndocAttrsKeeps(attrs[1..]);
      assert [attrs[0]] + attrs[1..] == attrs;
    }
  }

  /** The filter changes nothing exactly when there is no `#[doc]`; so a second pass changes nothing. */
  lemma UndocAttrsFixpoint(attrs: seq<Attribute>)
    ensures UndocAttrs(attrs) == attrs <==> NoDoc(attrs)
    ensures UndocAttrs(UndocAttrs(attrs)) == UndocAttrs(attrs)
  {
    if NoDoc(attrs) {
      UndocAttrsKeeps(attrs);
    }
    UndocAttrsKeeps(UndocAttrs(attrs));
  }

  /** Every place the pass visits is left without `#[doc]`. */
  lemma {:induction false} UndocItemUndocumented(item: Item)
    ensures Undocumented(UndocItem(item))
    decreases item
  {
    if item.Mod? && item.body.Inline? {
      var items := item.body.items;
      forall i | 0 <= i < |items|
        ensures Undocumented(UndocItems(items)[i])
      {
        UndocItemUndocumented(items[i]);
      }
    }
  }

  /** The pass changes attribute lists and nothing else. */
  lemma {:induction false} UndocItemBare(item: Item)
    ensures Bare(UndocItem(item)) == Bare(item)
    decreases item
  {
    match item
    case Trait(_, _, tis) =>
      assert BareTraitItems(UndocTraitItems(tis)) == BareTraitItems(tis);
    case Impl(_, _, iis) =>
      assert BareImplItems(UndocImplItems(iis)) == BareImplItems(iis);
    case Enum(_, _, vs) =>
      assert BareMembers(UndocMembers(vs)) == BareMembers(vs);
    case Struct(_, _, fs) =>
      assert BareMembers(UndocMembers(fs)) == BareMembers(fs);
    case Union(_, _, fs) =>
      assert BareMembers(UndocMembers(fs)) == BareMembers(fs);
    case Mod(_, _, _, body) =>
      if body.Inline? {
        var items := body.items;
        forall i | 0 <= i < |items|
          ensures Bare(UndocItems(items)[i]) == Bare(items[i])
        {
          UndocItemBare(items[i]);
        }
        assert BareItems(UndocItems(items)) == BareItems(items);
      }
    case _ =>
  }

  lemma UndocListsAppend(a: seq<seq<Attribute>>, b: seq<seq<Attribute>>)
    ensures UndocLists(a + b) == UndocLists(a) + UndocLists(b)
  {
    assert forall i :: 0 <= i < |a + b| ==> UndocLists(a + b)[i] == (UndocLists(a) + UndocLists(b))[i];
  }

  /** An item's own list in front of its members' lists, each filtered. */
  lemma UndocListsHead(attrs: seq<Attribute>, rest: seq<seq<Attribute>>, undone: seq<seq<Attribute>>)
    requires undone == UndocLists(rest)
    ensures [UndocAttrs(attrs)] + undone == UndocLists([attrs] + rest)
  {
    UndocListsAppend([attrs], rest);
  }

  lemma TraitListsUndoc(tis: seq<TraitItem>)
    ensures TraitLists(UndocTraitItems(tis)) == UndocLists(TraitLists(tis))
  {
  }

  lemma ImplListsUndoc(iis: seq<ImplItem>)
    ensures ImplLists(UndocImplItems(iis)) == UndocLists(ImplLists(iis))
  {
  }

  lemma MemberListsUndoc(ms: seq<Member>)
    ensures MemberLists(UndocMembers(ms)) == UndocLists(MemberLists(ms))
  {
  }

  /** Every attribute list the pass visits loses its `#[doc]` attributes and keeps the others, in order. */
  lemma {:induction false} UndocItemAttrLists(item: Item)
    ensures AttrLists(UndocItem(item)) == UndocLists(AttrLists(item))
    decreases item, 0
  {
    match item
    case Trait(attrs, _, tis) =>
      TraitListsUndoc(tis);
      UndocListsHead(attrs, TraitLists(tis), TraitLists(UndocTraitItems(tis)));
    case Impl(attrs, _, iis) =>
      ImplListsUndoc(iis);
      UndocListsHead(attrs, ImplLists(iis), ImplLists(UndocImplItems(iis)));
    case Enum(attrs, _, vs) =>
      MemberListsUndoc(vs);
      UndocListsHead(attrs, MemberLists(vs), MemberLists(UndocMembers(vs)));
    case Struct(attrs, _, fs) =>
      MemberListsUndoc(fs);
      UndocListsHead(attrs, MemberLists(fs), MemberLists(UndocMembers(fs)));
    case Union(attrs, _, fs) =>
      MemberListsUndoc(fs);
      UndocListsHead(attrs, MemberLists(fs), MemberLists(UndocMembers(fs)));
    case Mod(attrs, _, _, body) =>
      if body.Inline? {
        UndocItemsAttrLists(body.items);
        UndocListsHead(attrs, ItemsLists(body.items), ItemsLists(UndocItems(body.items)));
      } else {
        UndocListsHead(attrs, [], []);
        assert [attrs] + [] == [attrs];
      }
    case _ =>
  }

  lemma {:induction false} UndocItemsAttrLists(items: seq<Item>)
    ensures ItemsLists(UndocItems(items)) == UndocLists(ItemsLists(items))
    decreases items, 1
  {
    if |items| > 0 {
      var u := UndocItems(items);
      assert u[0] == UndocItem(items[0]);
      assert u[1..] == UndocItems(items[1..]);
      UndocItemAttrLists(items[0]);
      UndocItemsAttrLists(items[1..]);
      UndocListsAppend(AttrLists(items[0]), ItemsLists(items[1..]));
    }
  }

  /** Items with the same bare form have the same number of attribute lists. */
  lemma {:induction false} AttrListsCount(a: Item, b: Item)
    requires Bare(a) == Bare(b)
    ensures |AttrLists(a)| == |AttrLists(b)|
    decreases a, 0
  {
    match a
    case Trait(_, _, tis) =>
      assert |BareTraitItems(tis)| == |BareTraitItems(b.traitItems)|;
    case Impl(_, _, iis) =>
      assert |BareImplItems(iis)| == |BareImplItems(b.implItems)|;
    case Enum(_, _, vs) =>
      assert |BareMembers(vs)| == |BareMembers(b.variants)|;
    case Struct(_, _, fs) =>
      assert |BareMembers(fs)| == |BareMembers(b.fields)|;
    case Union(_, _, fs) =>
      assert |BareMembers(fs)| == |BareMembers(b.namedFields)|;
    case Mod(_, _, _, body) =>
      if body.Inline? {
        InlineListsCount(body.items, b.body.items);
      }
    case _ =>
  }

  lemma {:induction false} InlineListsCount(xs: seq<Item>, ys: seq<Item>)
    requires BareItems(xs) == BareItems(ys)
    ensures |ItemsLists(xs)| == |ItemsLists(ys)|
    decreases xs, 2
  {
    assert |xs| == |ys| by {
      assert |BareItems(xs)| == |BareItems(ys)|;
    }
    forall i | 0 <= i < |ys|
      ensures Bare(xs[i]) == Bare(ys[i])
    {
      assert BareItems(xs)[i] == BareItems(ys)[i];
    }
    ItemsListsCount(xs, ys);
  }

  lemma {:induction false} ItemsListsCount(xs: seq<Item>, ys: seq<Item>)
    requires |xs| == |ys| && forall i :: 0 <= i < |xs| ==> Bare(xs[i]) == Bare(ys[i])
    ensures |ItemsLists(xs)| == |ItemsLists(ys)|
    decreases xs, 1
  {
    if |xs| > 0 {
      AttrListsCount(xs[0], ys[0]);
      ItemsListsCount(xs[1..], ys[1..]);
    }
  }

  /** The bare form and the attribute lists together determine an item. */
  lemma {:induction false} ItemDetermined(a: Item, b: Item)
    requires Bare(a) == Bare(b) && AttrLists(a) == AttrLists(b)
    ensures a == b
    decreases a, 0
  {
    match a
    case Trait(attrs, sig, tis) =>
      TraitItemsDetermined(tis, b.traitItems, AttrLists(a), AttrLists(b));
    case Impl(attrs, sig, iis) =>
      ImplItemsDetermined(iis, b.implItems, AttrLists(a), AttrLists(b));
    case Enum(attrs, sig, vs) =>
      MembersDetermined(vs, b.variants, AttrLists(a), AttrLists(b));
    case Struct(attrs, sig, fs) =>
      MembersDetermined(fs, b.fields, AttrLists(a), AttrLists(b));
    case Union(attrs, sig, fs) =>
      MembersDetermined(fs, b.namedFields, AttrLists(a), AttrLists(b));
    case Mod(attrs, vis, ident, body) =>
      assert AttrLists(a)[0] == attrs;
      if body.Inline? {
        var ys := b.body.items;
        assert |body.items| == |ys| by {
          assert |BareItems(body.items)| == |BareItems(ys)|;
        }
        forall i | 0 <= i < |ys|
          ensures Bare(body.items[i]) == Bare(ys[i])
        {
          assert BareItems(body.items)[i] == BareItems(ys)[i];
        }
        assert ItemsLists(body.items) == AttrLists(a)[1..];
        assert ItemsLists(ys) == AttrLists(b)[1..];
        ItemsDetermined(body.items, ys);
      }
    case Const(attrs, _, _) => assert AttrLists(a)[0] == attrs;
    case Static(attrs, _, _) => assert AttrLists(a)[0] == attrs;
    case Fn(attrs, _, _) => assert AttrLists(a)[0] == attrs;
    case Macro(attrs, _) => assert AttrLists(a)[0] == attrs;
    case ForeignMod(attrs, _) => assert AttrLists(a)[0] == attrs;
    case ExternCrate(attrs, _) => assert AttrLists(a)[0] == attrs;
    case TraitAlias(attrs, _) => assert AttrLists(a)[0] == attrs;
    case TypeAlias(attrs, _) => assert AttrLists(a)[0] == attrs;
    case Use(_, _) =>
    case Verbatim(_) =>
  }

  /** Variants or fields with the same bare form and the same attribute lists are the same. */
  lemma MembersDetermined(ms: seq<Member>, ns: seq<Member>, la: seq<seq<Attribute>>, lb: seq<seq<Attribute>>)
    requires BareMembers(ms) == BareMembers(ns)
    requires |la| > 0 && la == lb && la[1..] == MemberLists(ms) && lb[1..] == MemberLists(ns)
    ensures ms == ns
  {
    assert |ms| == |ns| by {
      assert |BareMembers(ms)| == |BareMembers(ns)|;
    }
    forall i | 0 <= i < |ms|
      ensures ms[i] == ns[i]
    {
      assert BareMembers(ms)[i] == BareMembers(ns)[i];
      assert MemberLists(ms)[i] == MemberLists(ns)[i];
    }
  }

  /** Trait members with the same bare form and the same attribute lists are the same. */
  lemma TraitItemsDetermined(ts: seq<TraitItem>, us: seq<TraitItem>, la: seq<seq<Attribute>>, lb: seq<seq<Attribute>>)
    requires BareTraitItems(ts) == BareTraitItems(us)
    requires |la| > 0 && la == lb && la[1..] == TraitLists(ts) && lb[1..] == TraitLists(us)
    ensures ts == us
  {
    assert |ts| == |us| by {
      assert |BareTraitItems(ts)| == |BareTraitItems(us)|;
    }
    forall i | 0 <= i < |ts|
      ensures ts[i] == us[i]
    {
      assert BareTraitItems(ts)[i] == BareTraitItems(us)[i];
      assert TraitLists(ts)[i] == TraitLists(us)[i];
    }
  }

  /** Impl members with the same bare form and the same attribute lists are the same. */
  lemma ImplItemsDetermined(ts: seq<ImplItem>, us: seq<ImplItem>, la: seq<seq<Attribute>>, lb: seq<seq<Attribute>>)
    requires BareImplItems(ts) == BareImplItems(us)
    requires |la| > 0 && la == lb && la[1..] == ImplLists(ts) && lb[1..] == ImplLists(us)
    ensures ts == us
  {
    assert |ts| == |us| by {
      assert |BareImplItems(ts)| == |BareImplItems(us)|;
    }
    forall i | 0 <= i < |ts|
      ensures ts[i] == us[i]
    {
      assert BareImplItems(ts)[i] == BareImplItems(us)[i];
      assert ImplLists(ts)[i] == ImplLists(us)[i];
    }
  }

  lemma {:induction false} ItemsDetermined(xs: seq<Item>, ys: seq<Item>)
    requires |xs| == |ys| && forall i :: 0 <= i < |xs| ==> Bare(xs[i]) == Bare(ys[i])
    requires ItemsLists(xs) == ItemsLists(ys)
    ensures xs == ys
    decreases xs, 1
  {
    if |xs| > 0 {
      AttrListsCount(xs[0], ys[0]);
      var n := |AttrLists(xs[0])|;
      assert AttrLists(xs[0]) == ItemsLists(xs)[..n];
      assert AttrLists(ys[0]) == ItemsLists(ys)[..n];
      ItemDetermined(xs[0], ys[0]);
      assert ItemsLists(xs[1..]) == ItemsLists(xs)[n..];
      assert ItemsLists(ys[1..]) == ItemsLists(ys)[n..];
      ItemsDetermined(xs[1..], ys[1..]);
      assert xs == [xs[0]] + xs[1..] && ys == [ys[0]] + ys[1..];
    }
  }

  /**
   * The pass is pinned down: the only item with the same bare form whose
   * attribute lists are the originals with `#[doc]` removed is its result.
   */
  lemma UndocItemUnique(item: Item, other: Item)
    requires Bare(other) == Bare(item) && AttrLists(other) == UndocLists(AttrLists(item))
    ensures other == UndocItem(item)
  {
    UndocItemBare(item);
    UndocItemAttrLists(item);
    ItemDetermined(other, UndocItem(item));
  }

  /** An item already without `#[doc]` where the pass looks is left exactly as it is. */
  lemma {:induction false} UndocItemFixpoint(item: Item)
    requires Undocumented(item)
    ensures UndocItem(item) == item
    decreases item
  {
    match item
    case Trait(attrs, sig, tis) =>
      UndocAttrsFixpoint(attrs);
      forall i | 0 <= i < |tis|
        ensures UndocTraitItem(tis[i]) == tis[i]
      {
        if !tis[i].TraitVerbatim? {
          UndocAttrsFixpoint(tis[i].attrs);
        }
      }
      assert UndocTraitItems(tis) == tis;
    case Impl(attrs, sig, iis) =>
      UndocAttrsFixpoint(attrs);
      forall i | 0 <= i < |iis|
        ensures UndocImplItem(iis[i]) == iis[i]
      {
        if !iis[i].ImplVerbatim? {
          UndocAttrsFixpoint(iis[i].attrs);
        }
      }
      assert UndocImplItems(iis) == iis;
    case Mod(attrs, vis, ident, body) =>
      UndocAttrsFixpoint(attrs);
      if body.Inline? {
        forall i | 0 <= i < |body.items|
          ensures UndocItem(body.items[i]) == body.items[i]
        {
          UndocItemFixpoint(body.items[i]);
        }
        assert UndocItems(body.items) == body.items;
      }
    case Enum(attrs, sig, vs) =>
      UndocAttrsFixpoint(attrs);
      MembersFixpoint(vs);
    case Struct(attrs, sig, fs) =>
      UndocAttrsFixpoint(attrs);
      MembersFixpoint(fs);
    case Union(attrs, sig, fs) =>
      UndocAttrsFixpoint(attrs);
      MembersFixpoint(fs);
    case Use(_, _) =>
    case Verbatim(_) =>
    case Const(attrs, _, _) => UndocAttrsFixpoint(attrs);
    case Static(attrs, _, _) => UndocAttrsFixpoint(attrs);
    case Fn(attrs, _, _) => UndocAttrsFixpoint(attrs);
    case Macro(attrs, _) => UndocAttrsFixpoint(attrs);
    case ForeignMod(attrs, _) => UndocAttrsFixpoint(attrs);
    case ExternCrate(attrs, _) => UndocAttrsFixpoint(attrs);
    case TraitAlias(attrs, _) => UndocAttrsFixpoint(attrs);
    case TypeAlias(attrs, _) => UndocAttrsFixpoint(attrs);
  }

  lemma MembersFixpoint(ms: seq<Member>)
    requires MembersUndocumented(ms)
    ensures UndocMembers(ms) == ms
  {
    forall i | 0 <= i < |ms|
      ensures UndocMember(ms[i]) == ms[i]
    {
      UndocAttrsFixpoint(ms[i].attrs);
    }
    assert UndocMembers(ms) == ms;
  }

  /** A second pass over an item changes nothing. */
  lemma UndocItemIdempotent(item: Item)
    ensures UndocItem(UndocItem(item)) == UndocItem(item)
  {
    UndocItemUndocumented(item);
    UndocItemFixpoint(UndocItem(item));
  }

  /** A second pass over a file changes nothing. */
  lemma UndocIdempotent(f: File)
    ensures Undoc(Undoc(f)) == Undoc(f)
  {
    var g := Undoc(f);
    UndocAttrsFixpoint(f.attrs);
    forall i | 0 <= i < |g.items|
      ensures UndocItem(g.items[i]) == g.items[i]
    {
      UndocItemIdempotent(f.items[i]);
    }
  }

  /**
   * An external `mod x;` loses only its own doc attributes; `use` and
   * verbatim items are left alone even when they carry `#[doc]`.
   */
  lemma UndocLeavesAlone(attrs: seq<Attribute>, vis: seq<TokenTree>, ident: string, sig: seq<TokenTree>, tokens: seq<TokenTree>)
    ensures UndocItem(Mod(attrs, vis, ident, External)) == Mod(UndocAttrs(attrs), vis, ident, External)
    ensures UndocItem(Use(attrs, sig)) == Use(attrs, sig)
    ensures UndocItem(Verbatim(tokens)) == Verbatim(tokens)
  {
  }
}
