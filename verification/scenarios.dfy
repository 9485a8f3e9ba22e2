/**
 * Worked examples: the crate's documented example and the shapes its
 * tests exercise, stated over concrete files and resolvers.
 */
module Scenarios {
  import opened Base
  import opened Syntax
  import opened Paths
  import opened Errors
  import opened Attrs
  import opened Resolvers
  import opened MetaSyntax
  import opened ExpandImpl
  import opened ExpandProps
  import opened Lib

  /** `trait Foo { }` */
  function TraitFoo(): Item
  {
    Trait([], [Ident("trait"), Ident("Foo")], [])
  }

  /** The loader of the documented example: only `inner_module/mod.rs` exists. */
  function DocLoader(m: ModPath, p: Path): Result<Option<File>, Error>
  {
    if p == ["inner_module", "mod.rs"] then Success(Some(File([], [TraitFoo()]))) else Success(None)
  }

  function DocResolver(): Resolver
  {
    ResolverHelper(DocLoader, (c: Cfg) => Success(false))
  }

  /** The conventional lookup of `inner_module` finds only `inner_module/mod.rs`. */
  lemma DocLookup()
    ensures NaturalLookup(DocResolver(), ["inner_module"], "inner_module", [], [], false, None)
            == Done(Candidate(Some(File([], [TraitFoo()])), [["inner_module"]], [["inner_module"]], None),
                    [Resolve(["inner_module"], ["inner_module.rs"]), Resolve(["inner_module"], ["inner_module", "mod.rs"])])
  {
    assert Flatten([]) == [];
    assert "inner_module" + ".rs" == "inner_module.rs";
    assert NameRsFile([], "inner_module") == ["inner_module.rs"];
    assert ModRsFile([], "inner_module") == ["inner_module", "mod.rs"];
    assert ["inner_module.rs"] != ["inner_module", "mod.rs"];
    var r := DocResolver();
    assert r.resolve(["inner_module"], ["inner_module.rs"]) == Success(None);
    assert r.resolve(["inner_module"], ["inner_module", "mod.rs"]) == Success(Some(File([], [TraitFoo()])));
    assert [] + [["inner_module"]] == [["inner_module"]];
  }

  function DocCandidate(): Candidate
  {
    Candidate(Some(File([], [TraitFoo()])), [["inner_module"]], [["inner_module"]], None)
  }

  /** Planning `mod inner_module;`: no attributes, so the conventional candidate only. */
  lemma DocPlan()
    ensures PlanModule(DocResolver(), [], "inner_module", [], [], [], false)
            == Done(Expand([], [DocCandidate()]),
                    [Resolve(["inner_module"], ["inner_module.rs"]), Resolve(["inner_module"], ["inner_module", "mod.rs"])])
  {
    var r := DocResolver();
    var calls := [Resolve(["inner_module"], ["inner_module.rs"]), Resolve(["inner_module"], ["inner_module", "mod.rs"])];
    assert [] + ["inner_module"] == ["inner_module"];
    assert Classify([]) == Success(Classified([], [], []));
    assert CheckGuards(r, [], ["inner_module"]) == Done(true, []);
    assert ProcessOverrides(r, [], ["inner_module"], [], false, LoopState([], true, [])) == Done(LoopState([], true, []), []);
    DocLookup();
    assert NaturalCfg(false, []) == None;
    assert [] + [DocCandidate()] == [DocCandidate()] && [] + calls == calls;
    assert FindCandidates(r, [], "inner_module", ["inner_module"], [], [], false) == Done([DocCandidate()], calls);
  }

  function DocExpanded(): Item
  {
    Mod([], [], "inner_module", Inline([TraitFoo()]))
  }

  lemma DocCopies(fuel: nat)
    requires fuel >= 1
    ensures ExpandCopies(fuel, DocResolver(), [DocCandidate()], [], [], "inner_module", ["inner_module"], false)
            == Expanded([DocExpanded()], [])
  {
    ExpandWithoutExternals(fuel - 1, DocResolver(), [TraitFoo()], ["inner_module"], [["inner_module"]], [["inner_module"]], false);
    assert [DocCandidate()][1..] == [];
  }

  lemma DocItem(fuel: nat)
    requires fuel >= 1
    ensures ExpandItem(fuel, DocResolver(), Mod([], [], "inner_module", External), [], [], [], false)
            == Expanded([DocExpanded()],
                        [Resolve(["inner_module"], ["inner_module.rs"]), Resolve(["inner_module"], ["inner_module", "mod.rs"])])
  {
    var item := Mod([], [], "inner_module", External);
    var calls := [Resolve(["inner_module"], ["inner_module.rs"]), Resolve(["inner_module"], ["inner_module", "mod.rs"])];
    DocPlan();
    DocCopies(fuel);
    assert [] + ["inner_module"] == ["inner_module"];
    ExpandFromPlan(fuel, DocResolver(), item, [], [], [], false, [], [DocCandidate()], calls, [DocExpanded()], []);
    assert calls + [] == calls;
  }

  /**
   * The documented example: `mod inner_module;` with only
   * `inner_module/mod.rs` holding `trait Foo { }` becomes
   * `mod inner_module { trait Foo { } }`, after asking for
   * `inner_module.rs` and then `inner_module/mod.rs`.
   */
  lemma DocExample(fuel: nat)
    requires fuel >= 1
    ensures ExpandModulesIntoInlineModules(File([], [Mod([], [], "inner_module", External)]), DocResolver(), fuel)
            == Completed(File([], [Mod([], [], "inner_module", Inline([TraitFoo()]))]),
                         [Resolve(["inner_module"], ["inner_module.rs"]),
                          Resolve(["inner_module"], ["inner_module", "mod.rs"])])
  {
    ExpandSingleItem(fuel, DocResolver(), Mod([], [], "inner_module", External), [], [], [], false);
    DocItem(fuel);
  }

  // ---------------------------------------------------------------------
  // Two guarded overrides, the first false and the second true

  /** Two overrides followed by a pass-through attribute classify into those two buckets, in order. */
  lemma ClassifyThree(a: Attribute, b: Attribute, c: Attribute, o1: PathOverride, o2: PathOverride)
    requires ClassifyOne(a) == Success(Override(o1)) && ClassifyOne(b) == Success(Override(o2))
    requires ClassifyOne(c) == Success(Pass(c))
    ensures Classify([a, b, c]) == Success(Classified([o1, o2], [c], []))
  {
    ClassifySingle(a);
    assert [o1] + [] == [o1];
    assert Classify([a]) == Success(Classified([o1], [], []));
    ClassifySingle(b);
    assert [o2] + [] == [o2];
    assert Classify([b]) == Success(Classified([o2], [], []));
    ClassifySingle(c);
    assert [c] + [] == [c];
    assert Classify([c]) == Success(Classified([], [c], []));
    ClassifyAppend([b], [c]);
    assert [b] + [c] == [b, c];
    assert [o2] + [] == [o2] && [] + [c] == [c];
    assert Classify([b, c]) == Success(Classified([o2], [c], []));
    ClassifyAppend([a], [b, c]);
    assert [a] + [b, c] == [a, b, c];
    assert [o1] + [o2] == [o1, o2] && [] + [c] == [c];
  }

  /** The attributes of the two-guard example: `cfg_attr(g1, path = "lol.rs")`, `cfg_attr(g2, path = "win.rs")`, then `other`. */
  function TwoGuardAttrs(g1: seq<TokenTree>, g2: seq<TokenTree>, other: Attribute): seq<Attribute>
  {
    [CfgAttrPathAttribute(g1, "lol.rs"), CfgAttrPathAttribute(g2, "win.rs"), other]
  }

  lemma ClassifyTwoGuards(g1: seq<TokenTree>, g2: seq<TokenTree>, other: Attribute)
    requires Comma !in g1 && Comma !in g2
    requires ClassifyOne(other) == Success(Pass(other))
    ensures Classify(TwoGuardAttrs(g1, g2, other))
            == Success(Classified([PathOverride(PathAttrTokens("lol.rs"), Some(g1)),
                                   PathOverride(PathAttrTokens("win.rs"), Some(g2))], [other], []))
  {
    CfgAttrPathRoundTrip(g1, "lol.rs");
    CfgAttrPathRoundTrip(g2, "win.rs");
    var o1 := PathOverride(PathAttrTokens("lol.rs"), Some(g1));
    var o2 := PathOverride(PathAttrTokens("win.rs"), Some(g2));
    ClassifyThree(CfgAttrPathAttribute(g1, "lol.rs"), CfgAttrPathAttribute(g2, "win.rs"), other, o1, o2);
  }

  /** The first override of the two-guard example is rejected by its guard, after validation, with one call. */
  lemma RejectedLol(r: Resolver, g1: seq<TokenTree>, modulePath: ModPath, dirsAttr: seq<Path>, st: LoopState)
    requires IsMeta(g1) && r.checkCfg(Meta(g1)) == Success(false)
    ensures OverrideStep(r, PathOverride(PathAttrTokens("lol.rs"), Some(g1)), modulePath, dirsAttr, false, st)
            == Done(st, [CheckCfg(Meta(g1))])
  {
    PathAttributeRoundTrip("lol.rs");
  }

  /** The second override of the two-guard example is taken: its guard holds and its file is loaded. */
  lemma AcceptedWin(r: Resolver, g2: seq<TokenTree>, f: File, modulePath: ModPath, dirsAttr: seq<Path>)
    requires IsMeta(g2) && r.checkCfg(Meta(g2)) == Success(true)
    requires r.resolve(modulePath, OverrideFile(dirsAttr, "win.rs")) == Success(Some(f))
    ensures var win := OverrideFile(dirsAttr, "win.rs");
            OverrideStep(r, PathOverride(PathAttrTokens("win.rs"), Some(g2)), modulePath, dirsAttr, false,
                         LoopState([], true, []))
            == Done(LoopState([Candidate(Some(f), OverrideDirs(win), OverrideDirs(win), Some(Meta(g2)))], false, [Meta(g2)]),
                    [CheckCfg(Meta(g2)), Resolve(modulePath, win)])
  {
    PathAttributeRoundTrip("win.rs");
    var win := OverrideFile(dirsAttr, "win.rs");
    var cand := Candidate(Some(f), OverrideDirs(win), OverrideDirs(win), Some(Meta(g2)));
    assert [] + [cand] == [cand];
    assert [] + [Meta(g2)] == [Meta(g2)];
  }

  /** The override loop of the two-guard example: the first guard is rejected, the second taken. */
  lemma TwoGuardOverrides(r: Resolver, g1: seq<TokenTree>, g2: seq<TokenTree>, f: File,
                          modulePath: ModPath, dirsAttr: seq<Path>)
    requires IsMeta(g1) && IsMeta(g2)
    requires r.checkCfg(Meta(g1)) == Success(false) && r.checkCfg(Meta(g2)) == Success(true)
    requires r.resolve(modulePath, OverrideFile(dirsAttr, "win.rs")) == Success(Some(f))
    ensures var win := OverrideFile(dirsAttr, "win.rs");
            ProcessOverrides(r, [PathOverride(PathAttrTokens("lol.rs"), Some(g1)),
                                 PathOverride(PathAttrTokens("win.rs"), Some(g2))],
                             modulePath, dirsAttr, false, LoopState([], true, []))
            == Done(LoopState([Candidate(Some(f), OverrideDirs(win), OverrideDirs(win), Some(Meta(g2)))], false, [Meta(g2)]),
                    [CheckCfg(Meta(g1)), CheckCfg(Meta(g2)), Resolve(modulePath, win)])
  {
    var o1 := PathOverride(PathAttrTokens("lol.rs"), Some(g1));
    var o2 := PathOverride(PathAttrTokens("win.rs"), Some(g2));
    var st0 := LoopState([], true, []);
    RejectedLol(r, g1, modulePath, dirsAttr, st0);
    AcceptedWin(r, g2, f, modulePath, dirsAttr);
    var step2 := OverrideStep(r, o2, modulePath, dirsAttr, false, st0);
    assert [o1, o2][1..] == [o2];
    assert [o2][1..] == [];
    assert ProcessOverrides(r, [o2], modulePath, dirsAttr, false, st0) == Prefixed(step2.calls, Done(step2.value, []));
  }

  /** Planning the two-guard example: the unrelated attribute passes through, `win.rs` is the one candidate. */
  lemma TwoGuardPlan(r: Resolver, g1: seq<TokenTree>, g2: seq<TokenTree>, other: Attribute,
                     f: File, stack: ModPath, dirsNat: seq<Path>, dirsAttr: seq<Path>)
    requires Comma !in g1 && Comma !in g2 && IsMeta(g1) && IsMeta(g2)
    requires ClassifyOne(other) == Success(Pass(other))
    requires r.checkCfg(Meta(g1)) == Success(false) && r.checkCfg(Meta(g2)) == Success(true)
    requires r.resolve(stack + ["qqq"], OverrideFile(dirsAttr, "win.rs")) == Success(Some(f))
    ensures var win := OverrideFile(dirsAttr, "win.rs");
            PlanModule(r, TwoGuardAttrs(g1, g2, other), "qqq", stack, dirsNat, dirsAttr, false)
            == Done(Expand([other], [Candidate(Some(f), OverrideDirs(win), OverrideDirs(win), Some(Meta(g2)))]),
                    [CheckCfg(Meta(g1)), CheckCfg(Meta(g2)), Resolve(stack + ["qqq"], win)])
  {
    var mp := stack + ["qqq"];
    ClassifyTwoGuards(g1, g2, other);
    TwoGuardOverrides(r, g1, g2, f, mp, dirsAttr);
    assert CheckGuards(r, [], mp) == Done(true, []);
    var calls := [CheckCfg(Meta(g1)), CheckCfg(Meta(g2)), Resolve(mp, OverrideFile(dirsAttr, "win.rs"))];
    assert [] + calls == calls;
  }

  /** In single mode a candidate whose file has no `mod name;` becomes one copy: pass-through attributes, then the file's. */
  lemma PlainCopy(fuel: nat, r: Resolver, c: Candidate, passThrough: seq<Attribute>, vis: seq<TokenTree>,
                  name: string, modulePath: ModPath)
    requires fuel >= 1 && c.result.Some? && NoExternalMods(c.result.value.items)
    ensures ExpandCopies(fuel, r, [c], passThrough, vis, name, modulePath, false)
            == Expanded([Mod(passThrough + c.result.value.attrs, vis, name, Inline(c.result.value.items))], [])
  {
    ExpandWithoutExternals(fuel - 1, r, c.result.value.items, modulePath, c.dirsNat, c.dirsAttr, false);
    assert [c][1..] == [];
    assert CfgMark(c, false) == [];
    assert passThrough + [] + c.result.value.attrs == passThrough + c.result.value.attrs;
  }

  /**
   * The two-guard example: `mod qqq;` carrying `cfg_attr(g1, path = "lol.rs")`,
   * `cfg_attr(g2, path = "win.rs")` and an unrelated attribute, with g1
   * false and g2 true, becomes `qqq` inlined from `win.rs`, the unrelated
   * attribute kept on it, and `lol.rs` never asked for.
   */
  lemma TwoGuardExample(fuel: nat, r: Resolver, g1: seq<TokenTree>, g2: seq<TokenTree>, other: Attribute,
                        f: File, vis: seq<TokenTree>, stack: ModPath, dirsNat: seq<Path>, dirsAttr: seq<Path>)
    requires fuel >= 1
    requires Comma !in g1 && Comma !in g2 && IsMeta(g1) && IsMeta(g2)
    requires ClassifyOne(other) == Success(Pass(other))
    requires r.checkCfg(Meta(g1)) == Success(false) && r.checkCfg(Meta(g2)) == Success(true)
    requires r.resolve(stack + ["qqq"], OverrideFile(dirsAttr, "win.rs")) == Success(Some(f))
    requires NoExternalMods(f.items)
    ensures ExpandItem(fuel, r, Mod(TwoGuardAttrs(g1, g2, other), vis, "qqq", External), stack, dirsNat, dirsAttr, false)
            == Expanded([Mod([other] + f.attrs, vis, "qqq", Inline(f.items))],
                        [CheckCfg(Meta(g1)), CheckCfg(Meta(g2)), Resolve(stack + ["qqq"], OverrideFile(dirsAttr, "win.rs"))])
  {
    var mp := stack + ["qqq"];
    var win := OverrideFile(dirsAttr, "win.rs");
    var cand := Candidate(Some(f), OverrideDirs(win), OverrideDirs(win), Some(Meta(g2)));
    TwoGuardPlan(r, g1, g2, other, f, stack, dirsNat, dirsAttr);
    PlainCopy(fuel, r, cand, [other], vis, "qqq", mp);
    var calls := [CheckCfg(Meta(g1)), CheckCfg(Meta(g2)), Resolve(mp, win)];
    assert calls + [] == calls;
    ExpandFromPlan(fuel, r, Mod(TwoGuardAttrs(g1, g2, other), vis, "qqq", External), stack, dirsNat, dirsAttr, false,
                   [other], [cand], calls, [Mod([other] + f.attrs, vis, "qqq", Inline(f.items))], []);
  }

  // ---------------------------------------------------------------------
  // Multi-variant mode: one guarded override plus the conventional file

  /** `cfg_attr(g, path = s)` alone classifies as one guarded override. */
  lemma ClassifyOneGuard(g: seq<TokenTree>, s: string)
    requires Comma !in g
    ensures Classify([CfgAttrPathAttribute(g, s)]) == Success(Classified([PathOverride(PathAttrTokens(s), Some(g))], [], []))
  {
    CfgAttrPathRoundTrip(g, s);
    ClassifySingle(CfgAttrPathAttribute(g, s));
    var o := PathOverride(PathAttrTokens(s), Some(g));
    assert [o] + [] == [o];
  }

  /** The override taken in multi-variant mode leaves the conventional lookup due. */
  lemma MultiGuardStep(r: Resolver, g: seq<TokenTree>, s: string, fa: File, modulePath: ModPath, dirsAttr: seq<Path>)
    requires IsMeta(g) && r.checkCfg(Meta(g)) == Success(true)
    requires r.resolve(modulePath, OverrideFile(dirsAttr, s)) == Success(Some(fa))
    ensures var file := OverrideFile(dirsAttr, s);
            ProcessOverrides(r, [PathOverride(PathAttrTokens(s), Some(g))], modulePath, dirsAttr, true, LoopState([], true, []))
            == Done(LoopState([Candidate(Some(fa), OverrideDirs(file), OverrideDirs(file), Some(Meta(g)))], true, [Meta(g)]),
                    [CheckCfg(Meta(g)), Resolve(modulePath, file)])
  {
    PathAttributeRoundTrip(s);
    var file := OverrideFile(dirsAttr, s);
    var cand := Candidate(Some(fa), OverrideDirs(file), OverrideDirs(file), Some(Meta(g)));
    assert [] + [cand] == [cand];
    assert [] + [Meta(g)] == [Meta(g)];
    var o := PathOverride(PathAttrTokens(s), Some(g));
    assert [o][1..] == [];
    var step := OverrideStep(r, o, modulePath, dirsAttr, true, LoopState([], true, []));
    assert ProcessOverrides(r, [o], modulePath, dirsAttr, true, LoopState([], true, [])) == Prefixed(step.calls, Done(step.value, []));
  }

  /** The conventional lookup finds `name.rs` only; its copy carries the residual `not(any(g))`. */
  lemma MultiNaturalLookup(r: Resolver, name: string, fb: File, g: seq<TokenTree>, modulePath: ModPath,
                           dirsNat: seq<Path>, dirsAttr: seq<Path>)
    requires r.resolve(modulePath, NameRsFile(dirsNat, name)) == Success(Some(fb))
    requires r.resolve(modulePath, ModRsFile(dirsNat, name)) == Success(None)
    ensures NaturalLookup(r, modulePath, name, dirsNat, dirsAttr, true, NaturalCfg(true, [Meta(g)]))
            == Done(Candidate(Some(fb), dirsNat, dirsNat + [[name]], Some(NotAny([Meta(g)]))),
                    [Resolve(modulePath, NameRsFile(dirsNat, name)), Resolve(modulePath, ModRsFile(dirsNat, name))])
  {
  }

  function GuardCand(fa: File, g: seq<TokenTree>, dirsAttr: seq<Path>, s: string): Candidate
  {
    var file := OverrideFile(dirsAttr, s);
    Candidate(Some(fa), OverrideDirs(file), OverrideDirs(file), Some(Meta(g)))
  }

  function NaturalCand(fb: File, g: seq<TokenTree>, name: string, dirsNat: seq<Path>): Candidate
  {
    Candidate(Some(fb), dirsNat, dirsNat + [[name]], Some(NotAny([Meta(g)])))
  }

  function MultiCalls(g: seq<TokenTree>, s: string, name: string, modulePath: ModPath,
                      dirsNat: seq<Path>, dirsAttr: seq<Path>): seq<Call>
  {
    [CheckCfg(Meta(g)), Resolve(modulePath, OverrideFile(dirsAttr, s)),
     Resolve(modulePath, NameRsFile(dirsNat, name)), Resolve(modulePath, ModRsFile(dirsNat, name))]
  }

  /** The candidate search of the multi-variant example: the guarded override's candidate, then the conventional one. */
  lemma MultiCandidates(r: Resolver, g: seq<TokenTree>, s: string, name: string, fa: File, fb: File,
                        modulePath: ModPath, dirsNat: seq<Path>, dirsAttr: seq<Path>)
    requires IsMeta(g) && r.checkCfg(Meta(g)) == Success(true)
    requires r.resolve(modulePath, OverrideFile(dirsAttr, s)) == Success(Some(fa))
    requires r.resolve(modulePath, NameRsFile(dirsNat, name)) == Success(Some(fb))
    requires r.resolve(modulePath, ModRsFile(dirsNat, name)) == Success(None)
    ensures FindCandidates(r, [PathOverride(PathAttrTokens(s), Some(g))], name, modulePath, dirsNat, dirsAttr, true)
            == Done([GuardCand(fa, g, dirsAttr, s), NaturalCand(fb, g, name, dirsNat)],
                    MultiCalls(g, s, name, modulePath, dirsNat, dirsAttr))
  {
    MultiGuardStep(r, g, s, fa, modulePath, dirsAttr);
    MultiNaturalLookup(r, name, fb, g, modulePath, dirsNat, dirsAttr);
    assert [GuardCand(fa, g, dirsAttr, s)] + [NaturalCand(fb, g, name, dirsNat)]
        == [GuardCand(fa, g, dirsAttr, s), NaturalCand(fb, g, name, dirsNat)];
  }

  /** Planning the multi-variant example: two candidates, the guarded override's and the conventional one. */
  lemma MultiPlan(r: Resolver, g: seq<TokenTree>, s: string, name: string, fa: File, fb: File,
                  stack: ModPath, dirsNat: seq<Path>, dirsAttr: seq<Path>)
    requires Comma !in g && IsMeta(g) && r.checkCfg(Meta(g)) == Success(true)
    requires r.resolve(stack + [name], OverrideFile(dirsAttr, s)) == Success(Some(fa))
    requires r.resolve(stack + [name], NameRsFile(dirsNat, name)) == Success(Some(fb))
    requires r.resolve(stack + [name], ModRsFile(dirsNat, name)) == Success(None)
    ensures PlanModule(r, [CfgAttrPathAttribute(g, s)], name, stack, dirsNat, dirsAttr, true)
            == Done(Expand([], [GuardCand(fa, g, dirsAttr, s), NaturalCand(fb, g, name, dirsNat)]),
                    MultiCalls(g, s, name, stack + [name], dirsNat, dirsAttr))
  {
    var mp := stack + [name];
    ClassifyOneGuard(g, s);
    MultiCandidates(r, g, s, name, fa, fb, mp, dirsNat, dirsAttr);
    assert CheckGuards(r, [], mp) == Done(true, []);
    assert [] + MultiCalls(g, s, name, mp, dirsNat, dirsAttr) == MultiCalls(g, s, name, mp, dirsNat, dirsAttr);
  }

  /** The copy of a marked candidate whose file has no `mod name;`, in front of the copies of the rest. */
  lemma MarkedCopyCons(fuel: nat, r: Resolver, cands: seq<Candidate>, vis: seq<TokenTree>,
                       name: string, modulePath: ModPath)
    requires fuel >= 1 && |cands| > 0 && cands[0].result.Some? && cands[0].cfg.Some?
    requires NoExternalMods(cands[0].result.value.items)
    requires ExpandCopies(fuel, r, cands[1..], [], vis, name, modulePath, true).Expanded?
    ensures var c := cands[0];
            var rest := ExpandCopies(fuel, r, cands[1..], [], vis, name, modulePath, true);
            ExpandCopies(fuel, r, cands, [], vis, name, modulePath, true)
            == Expanded([Mod([CfgAttribute(c.cfg.value)] + c.result.value.attrs, vis, name,
                             Inline(NonMods(c.result.value.items)))] + rest.items, rest.calls)
  {
    var c := cands[0];
    ExpandWithoutExternals(fuel - 1, r, c.result.value.items, modulePath, c.dirsNat, c.dirsAttr, true);
    assert [] + [CfgAttribute(c.cfg.value)] + c.result.value.attrs == [CfgAttribute(c.cfg.value)] + c.result.value.attrs;
    var rest := ExpandCopies(fuel, r, cands[1..], [], vis, name, modulePath, true);
    assert [] + rest.calls == rest.calls;
  }

  /** In multi-variant mode each candidate whose file has no `mod name;` becomes a copy marked with its predicate. */
  lemma MarkedCopies(fuel: nat, r: Resolver, c1: Candidate, c2: Candidate, vis: seq<TokenTree>,
                     name: string, modulePath: ModPath)
    requires fuel >= 1 && c1.result.Some? && c2.result.Some? && c1.cfg.Some? && c2.cfg.Some?
    requires NoExternalMods(c1.result.value.items) && NoExternalMods(c2.result.value.items)
    ensures ExpandCopies(fuel, r, [c1, c2], [], vis, name, modulePath, true)
            == Expanded([Mod([CfgAttribute(c1.cfg.value)] + c1.result.value.attrs, vis, name,
                             Inline(NonMods(c1.result.value.items))),
                         Mod([CfgAttribute(c2.cfg.value)] + c2.result.value.attrs, vis, name,
                             Inline(NonMods(c2.result.value.items)))], [])
  {
    assert [c1, c2][1..] == [c2];
    assert [c2][1..] == [];
    assert ExpandCopies(fuel, r, [], [], vis, name, modulePath, true) == Expanded([], []);
    MarkedCopyCons(fuel, r, [c2], vis, name, modulePath);
    MarkedCopyCons(fuel, r, [c1, c2], vis, name, modulePath);
  }

  /**
   * Multi-variant mode: `mod name;` with `cfg_attr(g, path = s)`, g true,
   * `s` and `name.rs` both present, becomes two copies: one from `s` marked
   * `#[cfg(g)]`, one from `name.rs` marked `#[cfg(not(any(g)))]`.
   */
  lemma MultiVariantExample(fuel: nat, r: Resolver, g: seq<TokenTree>, s: string, name: string, fa: File, fb: File,
                            vis: seq<TokenTree>, stack: ModPath, dirsNat: seq<Path>, dirsAttr: seq<Path>)
    requires fuel >= 1
    requires Comma !in g && IsMeta(g) && r.checkCfg(Meta(g)) == Success(true)
    requires r.resolve(stack + [name], OverrideFile(dirsAttr, s)) == Success(Some(fa))
    requires r.resolve(stack + [name], NameRsFile(dirsNat, name)) == Success(Some(fb))
    requires r.resolve(stack + [name], ModRsFile(dirsNat, name)) == Success(None)
    requires NoExternalMods(fa.items) && NoExternalMods(fb.items)
    ensures ExpandItem(fuel, r, Mod([CfgAttrPathAttribute(g, s)], vis, name, External), stack, dirsNat, dirsAttr, true)
            == Expanded([Mod([CfgAttribute(Meta(g))] + fa.attrs, vis, name, Inline(NonMods(fa.items))),
                         Mod([CfgAttribute(NotAny([Meta(g)]))] + fb.attrs, vis, name, Inline(NonMods(fb.items)))],
                        MultiCalls(g, s, name, stack + [name], dirsNat, dirsAttr))
  {
    var c1 := GuardCand(fa, g, dirsAttr, s);
    var c2 := NaturalCand(fb, g, name, dirsNat);
    var calls := MultiCalls(g, s, name, stack + [name], dirsNat, dirsAttr);
    MultiPlan(r, g, s, name, fa, fb, stack, dirsNat, dirsAttr);
    MarkedCopies(fuel, r, c1, c2, vis, name, stack + [name]);
    assert calls + [] == calls;
    ExpandFromPlan(fuel, r, Mod([CfgAttrPathAttribute(g, s)], vis, name, External), stack, dirsNat, dirsAttr, true,
                   [], [c1, c2], calls,
                   [Mod([CfgAttribute(Meta(g))] + fa.attrs, vis, name, Inline(NonMods(fa.items))),
                    Mod([CfgAttribute(NotAny([Meta(g)]))] + fb.attrs, vis, name, Inline(NonMods(fb.items)))], []);
  }
}
