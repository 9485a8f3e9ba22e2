/**
 * The module-expansion engine: for every `mod name;` of an item list it
 * classifies the attributes, evaluates `cfg` guards, computes candidate
 * files from two directory stacks, asks the resolver for them, applies the
 * conflict rules and splices each loaded file in as `mod name { ... }`,
 * expanding the file's own items first.
 *
 * `dirsNat` is the directory stack for conventional lookups (`name.rs`,
 * `name/mod.rs`); `dirsAttr` the one `#[path]` overrides are joined to.
 */
module ExpandImpl {
  import opened Base
  import opened Syntax
  import opened Paths
  import opened Errors
  import opened Attrs
  import opened Resolvers
  import opened MetaSyntax

  /**
   * One way a module may be found: the file loaded (none if the resolver
   * had none), the directory stacks its own children use, and the
   * predicate its copy is gated by in multi-variant mode.
   */
  datatype Candidate = Candidate(result: Option<File>, dirsAttr: seq<Path>, dirsNat: seq<Path>, cfg: Option<Cfg>)

  /** A non-recursive phase: its value and the resolver calls it made, or the error that stopped it. */
  datatype Step<T> = Done(value: T, calls: seq<Call>) | Failed(error: Error, calls: seq<Call>)

  /** The expansion of an item list: the new items, or the first error; `OutOfFuel` when the descent bound ran out. */
  datatype Expansion = Expanded(items: seq<Item>, calls: seq<Call>) | Aborted(error: Error, calls: seq<Call>) | OutOfFuel

  function Prefixed<T>(pre: seq<Call>, s: Step<T>): (r: Step<T>)
    ensures r.Done? == s.Done? && r.calls == pre + s.calls
    ensures r.Done? ==> r.value == s.value
    ensures r.Failed? ==> r.error == s.error
  {
    match s
    case Done(v, c) => Done(v, pre + c)
    case Failed(e, c) => Failed(e, pre + c)
  }

  // ---------------------------------------------------------------------
  // Synthesized attributes

  /** The tokens of a predicate, as `quote!` prints a `syn::Meta`. */
  function CfgTokens(c: Cfg): seq<TokenTree>
  {
    match c
    case Meta(ts) => ts
    case NotAny(alts) =>
      var parts := seq(|alts|, i requires 0 <= i < |alts| => CfgTokens(alts[i]));
      [Ident("not"), Group(Parenthesis, [Ident("any"), Group(Parenthesis, Commaed(parts))])]
  }

  /** `#[cfg(c)]`, built from `simple_path("cfg")` and the parenthesised predicate. */
  function CfgAttribute(c: Cfg): Attribute
  {
    Attribute(false, ["cfg"], [Group(Parenthesis, CfgTokens(c))])
  }

  // ---------------------------------------------------------------------
  // Candidate paths

  /** `name.rs` under the natural directory stack. */
  function NameRsFile(dirsNat: seq<Path>, name: string): Path
  {
    Flatten(dirsNat) + [name + ".rs"]
  }

  /** `name/mod.rs` under the natural directory stack. */
  function ModRsFile(dirsNat: seq<Path>, name: string): Path
  {
    Flatten(dirsNat) + [name, "mod.rs"]
  }

  /** An override's path joined onto the attribute directory stack. */
  function OverrideFile(dirsAttr: seq<Path>, explicitPath: string): Path
  {
    Flatten(dirsAttr) + PathFromString(explicitPath)
  }

  /** The directory stack of a module found through an override: the file's parent, if it has one. */
  function OverrideDirs(file: Path): seq<Path>
  {
    match Parent(file)
    case None => []
    case Some(q) => [q]
  }

  // ---------------------------------------------------------------------
  // Phases for one `mod name;`

  /** A guard holds: it parses as a meta and the resolver answers true for it. */
  predicate Holds(r: Resolver, guard: seq<TokenTree>)
  {
    IsMeta(guard) && r.checkCfg(Meta(guard)) == Success(true)
  }

  /** The position of the first guard that does not hold; `|guards|` if all do. */
  function FirstNotHolding(r: Resolver, guards: seq<seq<TokenTree>>): (k: nat)
    ensures k <= |guards|
    ensures forall i :: 0 <= i < k ==> Holds(r, guards[i])
    ensures k < |guards| ==> !Holds(r, guards[k])
    decreases |guards|
  {
    if |guards| == 0 || !Holds(r, guards[0]) then 0
    else
      var k := 1 + FirstNotHolding(r, guards[1..]);
      assert forall i :: 1 <= i < k ==> guards[i] == guards[1..][i - 1];
      k
  }

  /** The calls that check `guards` in order. */
  function GuardCalls(guards: seq<seq<TokenTree>>): (calls: seq<Call>)
    ensures |calls| == |guards|
    ensures forall i :: 0 <= i < |guards| ==> calls[i] == CheckCfg(Meta(guards[i]))
  {
    seq(|guards|, i requires 0 <= i < |guards| => CheckCfg(Meta(guards[i])))
  }

  /** How many guards reach the resolver: those that hold, and the first that does not if it parses. */
  function GuardsAsked(r: Resolver, guards: seq<seq<TokenTree>>): (n: nat)
    ensures n <= |guards|
  {
    var k := FirstNotHolding(r, guards);
    if k < |guards| && IsMeta(guards[k]) then k + 1 else k
  }

  /**
   * What checking the guards comes to, stated through the first guard that
   * does not hold: all hold; it does not parse (`SynParseError`); the
   * resolver answers false; or the resolver fails (`ErrorFromCallback`).
   */
  function GuardOutcome(r: Resolver, guards: seq<seq<TokenTree>>, modulePath: ModPath): Step<bool>
  {
    var k := FirstNotHolding(r, guards);
    var calls := GuardCalls(guards[..GuardsAsked(r, guards)]);
    if k == |guards| then Done(true, calls)
    else if !IsMeta(guards[k]) then Failed(Error(modulePath, SynParseError(guards[k])), calls)
    else match r.checkCfg(Meta(guards[k]))
      case Success(_) => Done(false, calls)
      case Failure(e) => Failed(Error(modulePath, ErrorFromCallback(e)), calls)
  }

  /** The `#[cfg]` guards in order: each is parsed as a meta, then put to the resolver, until one does not hold. */
  function CheckGuards(r: Resolver, guards: seq<seq<TokenTree>>, modulePath: ModPath): (s: Step<bool>)
    ensures s == GuardOutcome(r, guards, modulePath)
    decreases |guards|
  {
    if |guards| == 0 then Done(true, [])
    else if !IsMeta(guards[0]) then Failed(Error(modulePath, SynParseError(guards[0])), [])
    else
      var c := Meta(guards[0]);
      match r.checkCfg(c)
      case Failure(e) =>
        FirstGuardDecides(r, guards);
        Failed(Error(modulePath, ErrorFromCallback(e)), [CheckCfg(c)])
      case Success(false) =>
        FirstGuardDecides(r, guards);
        Done(false, [CheckCfg(c)])
      case Success(true) =>
        var rest := CheckGuards(r, guards[1..], modulePath);
        GuardOutcomeCons(r, guards, modulePath);
        Prefixed([CheckCfg(c)], rest)
  }

  /** A first guard that parses but does not hold decides the outcome after one call. */
  lemma FirstGuardDecides(r: Resolver, guards: seq<seq<TokenTree>>)
    requires |guards| > 0 && IsMeta(guards[0]) && !Holds(r, guards[0])
    ensures FirstNotHolding(r, guards) == 0 && GuardsAsked(r, guards) == 1
    ensures GuardCalls(guards[..1]) == [CheckCfg(Meta(guards[0]))]
  {
  }

  /** Past a guard that holds, the outcome is that of the remaining guards with one more call in front. */
  lemma GuardOutcomeCons(r: Resolver, guards: seq<seq<TokenTree>>, modulePath: ModPath)
    requires |guards| > 0 && Holds(r, guards[0])
    ensures GuardOutcome(r, guards, modulePath) == Prefixed([CheckCfg(Meta(guards[0]))], GuardOutcome(r, guards[1..], modulePath))
  {
    var k := FirstNotHolding(r, guards[1..]);
    assert FirstNotHolding(r, guards) == k + 1;
    var n := GuardsAsked(r, guards[1..]);
    assert GuardsAsked(r, guards) == n + 1 by {
      if k < |guards[1..]| {
        assert guards[k + 1] == guards[1..][k];
      }
    }
    GuardCallsCons(guards, n);
    if k < |guards[1..]| {
      assert guards[k + 1] == guards[1..][k];
    }
  }

  lemma GuardCallsCons(guards: seq<seq<TokenTree>>, n: nat)
    requires n < |guards|
    ensures GuardCalls(guards[..n + 1]) == [CheckCfg(Meta(guards[0]))] + GuardCalls(guards[1..][..n])
  {
    assert guards[..n + 1] == [guards[0]] + guards[1..][..n];
  }

  /** The state of the loop over path overrides. */
  datatype LoopState = LoopState(cands: seq<Candidate>, needNatural: bool, accumulated: seq<Cfg>)

  /**
   * The source's own assertion in single mode: at most one candidate, and
   * the conventional lookup is still due exactly when there is none.
   */
  predicate SingleModeState(st: LoopState)
  {
    |st.cands| <= 1 && (st.needNatural <==> |st.cands| == 0)
  }

  /** Every file load among `calls` is for `modulePath`. */
  predicate LoadsOnly(calls: seq<Call>, modulePath: ModPath)
  {
    forall i :: 0 <= i < |calls| && calls[i].Resolve? ==> calls[i].modulePath == modulePath
  }

  /**
   * One path override of the loop in `expand_impl`. An unguarded override
   * after a candidate is an error in single mode, found before its payload
   * is validated; a guarded one is validated before its guard is evaluated
   * and is an error only once its guard held.
   */
  function OverrideStep(r: Resolver, ov: PathOverride, modulePath: ModPath, dirsAttr: seq<Path>,
                        multi: bool, st: LoopState): (s: Step<LoopState>)
    ensures !multi && SingleModeState(st) && s.Done? ==> SingleModeState(s.value)
    ensures s.Done? ==>
              |st.cands| <= |s.value.cands| <= |st.cands| + 1 && s.value.cands[..|st.cands|] == st.cands
    ensures s.Done? && multi ==> (s.value.needNatural <==> st.needNatural && ov.guard.Some?)
    ensures s.Done? && st.needNatural && !s.value.needNatural ==> |s.value.cands| > |st.cands|
    ensures LoadsOnly(s.calls, modulePath)
  {
    if ov.guard.None? && |st.cands| > 0 && !multi then
      Failed(Error(modulePath, MultipleExplicitPathsSpecifiedForOneModule), [])
    else match ExtractPathFromAttr(ov.tokens)
      case Failure(e) => Failed(Error(modulePath, AttrParse(e)), [])
      case Success(explicitPath) =>
        var file := OverrideFile(dirsAttr, explicitPath);
        var dirs := OverrideDirs(file);
        match ov.guard
        case Some(g) =>
          var c := Meta(g);
          if !IsMeta(g) then Failed(Error(modulePath, SynParseError(g)), [])
          else (match r.checkCfg(c)
           case Failure(e) => Failed(Error(modulePath, ErrorFromCallback(e)), [CheckCfg(c)])
           case Success(false) => Done(st, [CheckCfg(c)])
           case Success(true) =>
             if |st.cands| > 0 && !multi then
               Failed(Error(modulePath, MultipleExplicitPathsSpecifiedForOneModule), [CheckCfg(c)])
             else match r.resolve(modulePath, file)
               case Failure(e) => Failed(e, [CheckCfg(c), Resolve(modulePath, file)])
               case Success(res) =>
                 Done(LoopState(st.cands + [Candidate(res, dirs, dirs, Some(c))],
                                if multi then st.needNatural else false,
                                st.accumulated + [c]),
                      [CheckCfg(c), Resolve(modulePath, file)]))
        case None =>
          match r.resolve(modulePath, file)
          case Failure(e) => Failed(e, [Resolve(modulePath, file)])
          case Success(res) =>
            Done(LoopState(st.cands + [Candidate(res, dirs, dirs, None)], false, st.accumulated),
                 [Resolve(modulePath, file)])
  }

  /** The loop over path overrides, in attribute order, stopping at the first error. */
  function ProcessOverrides(r: Resolver, ovs: seq<PathOverride>, modulePath: ModPath, dirsAttr: seq<Path>,
                            multi: bool, st: LoopState): (s: Step<LoopState>)
    ensures !multi && SingleModeState(st) && s.Done? ==> SingleModeState(s.value)
    ensures s.Done? ==> |s.value.cands| >= |st.cands| && s.value.cands[..|st.cands|] == st.cands
    ensures s.Done? && multi ==>
              (s.value.needNatural <==> st.needNatural && forall i :: 0 <= i < |ovs| ==> ovs[i].guard.Some?)
    ensures s.Done? && st.needNatural && !s.value.needNatural ==> |s.value.cands| > |st.cands|
    ensures LoadsOnly(s.calls, modulePath)
    decreases |ovs|
  {
    if |ovs| == 0 then Done(st, [])
    else
      match OverrideStep(r, ovs[0], modulePath, dirsAttr, multi, st)
      case Failed(e, calls) => Failed(e, calls)
      case Done(st', calls) =>
        var rest := ProcessOverrides(r, ovs[1..], modulePath, dirsAttr, multi, st');
        assert rest.Done? ==> rest.value.cands[..|st.cands|] == st.cands by {
          if rest.Done? {
            assert rest.value.cands[..|st.cands|] == rest.value.cands[..|st'.cands|][..|st.cands|];
          }
        }
        assert forall i :: 1 <= i < |ovs| ==> ovs[1..][i - 1] == ovs[i];
        LoadsOnlyAppend(calls, rest.calls, modulePath);
        Prefixed(calls, rest)
  }

  lemma LoadsOnlyAppend(a: seq<Call>, b: seq<Call>, modulePath: ModPath)
    requires LoadsOnly(a, modulePath) && LoadsOnly(b, modulePath)
    ensures LoadsOnly(a + b, modulePath)
  {
    forall i | 0 <= i < |a + b| && (a + b)[i].Resolve?
      ensures (a + b)[i].modulePath == modulePath
    {
      if i >= |a| {
        assert (a + b)[i] == b[i - |a|];
      }
    }
  }

  /** The resolver found a file. */
  predicate Found(a: Result<Option<File>, Error>)
  {
    a.Success? && a.value.Some?
  }

  /** The resolver's answer was the error `FailedToOpenFile`. */
  predicate IsFailedToOpen(a: Result<Option<File>, Error>)
  {
    a.Failure? && a.error.inner.FailedToOpenFile?
  }

  /**
   * The outcome table of the conventional lookup, from the resolver's two
   * answers `a1` (for `name.rs`) and `a2` (for `name/mod.rs`).
   */
  predicate NaturalOutcomes(r: Resolver, modulePath: ModPath, name: string, dirsNat: seq<Path>, multi: bool,
                            s: Step<Candidate>)
  {
    var a1 := r.resolve(modulePath, NameRsFile(dirsNat, name));
    var a2 := r.resolve(modulePath, ModRsFile(dirsNat, name));
    && (Found(a1) && Found(a2) ==> s.Failed? && s.error == Error(modulePath, BothModRsAndNameRsPresent))
    && (a1 == Success(None) && a2 == Success(None) ==> s.Done? && s.value.result.None?)
    && (s.Done? && s.value.result.Some? && Found(a1) ==>
          s.value.result == a1.value && s.value.dirsAttr == dirsNat && s.value.dirsNat == dirsNat + [[name]])
    && (s.Done? && s.value.result.Some? && !Found(a1) ==>
          && Found(a2) && s.value.result == a2.value
          && s.value.dirsAttr == dirsNat + [[name]] && s.value.dirsNat == dirsNat + [[name]])
    && (s.Done? && s.value.result.Some? ==> Found(a1) != Found(a2))
    && (s.Done? && s.value.result.None? ==> !Found(a1) && !Found(a2))
    && (s.Done? ==> (a1.Success? || IsFailedToOpen(a1)) && (a2.Success? || IsFailedToOpen(a2)))
    && (s.Done? && IsFailedToOpen(a1) ==> Found(a2) || (multi && IsFailedToOpen(a2)))
    && (s.Done? && IsFailedToOpen(a2) ==> Found(a1) || (multi && IsFailedToOpen(a1)))
    && (s.Failed? ==> || (a1.Failure? && s.error == a1.error)
                      || (a2.Failure? && s.error == a2.error)
                      || (Found(a1) && Found(a2) && s.error == Error(modulePath, BothModRsAndNameRsPresent)))
  }

  /**
   * The conventional lookup: `name.rs`, then `name/mod.rs`. An error other
   * than `FailedToOpenFile` from either is returned as soon as it is seen.
   */
  function NaturalLookup(r: Resolver, modulePath: ModPath, name: string, dirsNat: seq<Path>, dirsAttr: seq<Path>,
                         multi: bool, cfg: Option<Cfg>): (s: Step<Candidate>)
    ensures s.Done? ==> s.value.cfg == cfg
    ensures s.calls == [Resolve(modulePath, NameRsFile(dirsNat, name))]
         || s.calls == [Resolve(modulePath, NameRsFile(dirsNat, name)), Resolve(modulePath, ModRsFile(dirsNat, name))]
    ensures s.Done? ==> |s.calls| == 2
    ensures NaturalOutcomes(r, modulePath, name, dirsNat, multi, s)
  {
    var nameRs := NameRsFile(dirsNat, name);
    var modRs := ModRsFile(dirsNat, name);
    var inner1 := r.resolve(modulePath, nameRs);
    if inner1.Failure? && !IsFailedToOpen(inner1) then Failed(inner1.error, [Resolve(modulePath, nameRs)])
    else
      var inner2 := r.resolve(modulePath, modRs);
      var calls := [Resolve(modulePath, nameRs), Resolve(modulePath, modRs)];
      if inner2.Failure? && !IsFailedToOpen(inner2) then Failed(inner2.error, calls)
      else if inner1.Success? && inner1.value.Some? && inner2.Success? && inner2.value.Some? then
        Failed(Error(modulePath, BothModRsAndNameRsPresent), calls)
      else if inner1 == Success(None) && inner2 == Success(None) then
        Done(Candidate(None, dirsAttr, dirsNat, cfg), calls)
      else if inner1.Success? && inner1.value.Some? then
        Done(Candidate(inner1.value, dirsNat, dirsNat + [[name]], cfg), calls)
      else if inner2.Success? && inner2.value.Some? then
        Done(Candidate(inner2.value, dirsNat + [[name]], dirsNat + [[name]], cfg), calls)
      else if inner1.Failure? && inner2.Failure? && multi then
        Done(Candidate(None, dirsAttr, dirsNat, cfg), calls)
      else if inner1.Failure? then Failed(inner1.error, calls)
      else Failed(inner2.error, calls)
  }

  /** What to do with one `mod name;`: leave it (a guard was false) or emit copies from these candidates. */
  datatype Plan = Skip | Expand(passThrough: seq<Attribute>, cands: seq<Candidate>)

  /** The residual predicate of the conventional copy in multi-variant mode. */
  function NaturalCfg(multi: bool, accumulated: seq<Cfg>): Option<Cfg>
  {
    if multi && |accumulated| > 0 then Some(NotAny(accumulated)) else None
  }

  /** Everything `expand_impl` does for one `mod name;` before splicing. */
  function PlanModule(r: Resolver, attrs: seq<Attribute>, name: string, stack: ModPath,
                      dirsNat: seq<Path>, dirsAttr: seq<Path>, multi: bool): (s: Step<Plan>)
    ensures s.Done? && s.value.Expand? && !multi ==> |s.value.cands| == 1
    ensures s.Done? && s.value.Expand? ==> |s.value.cands| >= 1
    ensures LoadsOnly(s.calls, stack + [name])
  {
    var modulePath := stack + [name];
    match Classify(attrs)
    case Failure(e) => Failed(Error(modulePath, AttrParse(e)), [])
    case Success(cl) =>
      match CheckGuards(r, cl.guards, modulePath)
      case Failed(e, calls) => Failed(e, calls)
      case Done(holds, calls) =>
        if !holds then Done(Skip, calls)
        else
          var c := FindCandidates(r, cl.overrides, name, modulePath, dirsNat, dirsAttr, multi);
          LoadsOnlyAppend(calls, c.calls, modulePath);
          match c
          case Failed(e, calls2) => Failed(e, calls + calls2)
          case Done(cands, calls2) => Done(Expand(cl.passThrough, cands), calls + calls2)
  }

  /** The override loop, then the conventional lookup if it is still due. */
  function FindCandidates(r: Resolver, overrides: seq<PathOverride>, name: string, modulePath: ModPath,
                          dirsNat: seq<Path>, dirsAttr: seq<Path>, multi: bool): (s: Step<seq<Candidate>>)
    ensures s.Done? && !multi ==> |s.value| == 1
    ensures s.Done? ==> |s.value| >= 1
    ensures LoadsOnly(s.calls, modulePath)
  {
    match ProcessOverrides(r, overrides, modulePath, dirsAttr, multi, LoopState([], true, []))
    case Failed(e, calls) => Failed(e, calls)
    case Done(st, calls) =>
      if !st.needNatural then Done(st.cands, calls)
      else
        var n := NaturalLookup(r, modulePath, name, dirsNat, dirsAttr, multi, NaturalCfg(multi, st.accumulated));
        LoadsOnlyAppend(calls, n.calls, modulePath);
        match n
        case Failed(e, calls2) => Failed(e, calls + calls2)
        case Done(c, calls2) => Done(st.cands + [c], calls + calls2)
  }

  // ---------------------------------------------------------------------
  // Expansion

  /** The items that are not modules, in order. */
  function NonMods(items: seq<Item>): seq<Item>
  {
    if |items| == 0 then []
    else (if items[0].Mod? then [] else [items[0]]) + NonMods(items[1..])
  }

  lemma {:induction false} NonModsAppend(a: seq<Item>, b: seq<Item>)
    ensures NonMods(a + b) == NonMods(a) + NonMods(b)
  {
    if |a| == 0 {
      assert a + b == b;
    } else {
      assert (a + b)[0] == a[0];
      assert (a + b)[1..] == a[1..] + b;
      NonModsAppend(a[1..], b);
    }
  }

  lemma {:induction false} NonModsOfMods(items: seq<Item>)
    requires forall i :: 0 <= i < |items| ==> items[i].Mod?
    ensures NonMods(items) == []
    decreases |items|
  {
    if |items| > 0 {
      NonModsOfMods(items[1..]);
    }
  }

  /** Every module among the items has an inline body. */
  predicate AllModsInline(items: seq<Item>)
  {
    forall i :: 0 <= i < |items| ==> items[i].Mod? ==> items[i].body.Inline?
  }

  /** Every file load was for a module below `stack`. */
  predicate ResolvesBelow(calls: seq<Call>, stack: ModPath)
  {
    forall i :: 0 <= i < |calls| ==> calls[i].Resolve? ==>
      |calls[i].modulePath| > |stack| && calls[i].modulePath[..|stack|] == stack
  }

  lemma ResolvesBelowAppend(a: seq<Call>, b: seq<Call>, stack: ModPath)
    requires ResolvesBelow(a, stack) && ResolvesBelow(b, stack)
    ensures ResolvesBelow(a + b, stack)
  {
    forall i | 0 <= i < |a + b|
      ensures (a + b)[i].Resolve? ==> |(a + b)[i].modulePath| > |stack| && (a + b)[i].modulePath[..|stack|] == stack
    {
      if i >= |a| {
        assert (a + b)[i] == b[i - |a|];
      }
    }
  }

  /**
   * `expand_impl` over an item list. In single mode each item is replaced in
   * place; in multi-variant mode the list is rebuilt from non-module items
   * and module copies. `fuel` bounds the descent into loaded files.
   */
  function ExpandItems(fuel: nat, r: Resolver, items: seq<Item>, stack: ModPath,
                       dirsNat: seq<Path>, dirsAttr: seq<Path>, multi: bool): (e: Expansion)
    ensures e.Expanded? && !multi ==> ReplacedInPlace(items, e.items)
    ensures e.Expanded? && multi ==> NonMods(e.items) == NonMods(items) && AllModsInline(e.items)
    ensures !e.OutOfFuel? ==> ResolvesBelow(e.calls, stack)
    decreases fuel, |items|, 2, 0
  {
    if |items| == 0 then Expanded([], [])
    else
      match ExpandItem(fuel, r, items[0], stack, dirsNat, dirsAttr, multi)
      case OutOfFuel => OutOfFuel
      case Aborted(err, calls) => Aborted(err, calls)
      case Expanded(out, calls) =>
        match ExpandItems(fuel, r, items[1..], stack, dirsNat, dirsAttr, multi)
        case OutOfFuel => OutOfFuel
        case Aborted(err, calls2) =>
          ResolvesBelowAppend(calls, calls2, stack);
          Aborted(err, calls + calls2)
        case Expanded(out2, calls2) =>
          ResolvesBelowAppend(calls, calls2, stack);
          if multi then
            MultiCons(items, out, out2);
            Expanded(out + out2, calls + calls2)
          else
            ReplacedInPlaceCons(items, out, out2);
            Expanded(out + out2, calls + calls2)
  }

  /** `after` may stand for `before` in single mode: an external module that has been inlined, keeping its name and visibility. */
  predicate MayReplace(before: Item, after: Item)
  {
    || after == before
    || (before.IsExternalMod() && after.Mod? && after.body.Inline? && after.ident == before.ident && after.vis == before.vis)
  }

  /** Single mode: the same number of items, each item left alone or its external module inlined. */
  predicate ReplacedInPlace(items: seq<Item>, out: seq<Item>)
  {
    |out| == |items| && forall i :: 0 <= i < |items| ==> MayReplace(items[i], out[i])
  }

  lemma ReplacedInPlaceCons(items: seq<Item>, out: seq<Item>, out2: seq<Item>)
    requires |items| > 0 && |out| == 1 && MayReplace(items[0], out[0])
    requires ReplacedInPlace(items[1..], out2)
    ensures ReplacedInPlace(items, out + out2)
  {
    forall i | 1 <= i < |items|
      ensures MayReplace(items[i], (out + out2)[i])
    {
      assert items[i] == items[1..][i - 1] && (out + out2)[i] == out2[i - 1];
    }
  }

  lemma AllModsInlineAppend(a: seq<Item>, b: seq<Item>)
    requires AllModsInline(a) && AllModsInline(b)
    ensures AllModsInline(a + b)
  {
    forall i | 0 <= i < |a + b| && (a + b)[i].Mod?
      ensures (a + b)[i].body.Inline?
    {
      if i >= |a| {
        assert (a + b)[i] == b[i - |a|];
      }
    }
  }

  lemma MultiCons(items: seq<Item>, out: seq<Item>, out2: seq<Item>)
    requires |items| > 0
    requires NonMods(out) == NonMods([items[0]]) && AllModsInline(out)
    requires NonMods(out2) == NonMods(items[1..]) && AllModsInline(out2)
    ensures NonMods(out + out2) == NonMods(items) && AllModsInline(out + out2)
  {
    NonModsAppend(out, out2);
    assert items == [items[0]] + items[1..];
    NonModsAppend([items[0]], items[1..]);
    AllModsInlineAppend(out, out2);
  }

  /** One item of the loop in `expand_impl`: the items that replace it. */
  function ExpandItem(fuel: nat, r: Resolver, item: Item, stack: ModPath,
                      dirsNat: seq<Path>, dirsAttr: seq<Path>, multi: bool): (e: Expansion)
    ensures e.Expanded? && !multi ==> |e.items| == 1 && MayReplace(item, e.items[0])
    ensures e.Expanded? && multi ==> NonMods(e.items) == NonMods([item]) && AllModsInline(e.items)
    ensures !e.OutOfFuel? ==> ResolvesBelow(e.calls, stack)
    decreases fuel, 0, 1, 0
  {
    match item
    case Mod(attrs, vis, name, body) =>
      if body.Inline? then Expanded(if multi then [] else [item], [])
      else
        var modulePath := stack + [name];
        (match PlanModule(r, attrs, name, stack, dirsNat, dirsAttr, multi)
        case Failed(err, calls) =>
          PlanResolvesBelow(r, attrs, name, stack, dirsNat, dirsAttr, multi);
          Aborted(err, calls)
        case Done(Skip, calls) =>
          PlanResolvesBelow(r, attrs, name, stack, dirsNat, dirsAttr, multi);
          Expanded(if multi then [] else [item], calls)
        case Done(Expand(passThrough, cands), calls) =>
          PlanResolvesBelow(r, attrs, name, stack, dirsNat, dirsAttr, multi);
          match ExpandCopies(fuel, r, cands, passThrough, vis, name, modulePath, multi)
          case OutOfFuel => OutOfFuel
          case Aborted(err, calls2) =>
            BelowChild(calls2, stack, name);
            ResolvesBelowAppend(calls, calls2, stack);
            Aborted(err, calls + calls2)
          case Expanded(copies, calls2) =>
            BelowChild(calls2, stack, name);
            ResolvesBelowAppend(calls, calls2, stack);
            if multi then
              NonModsOfMods(copies);
              Expanded(copies, calls + calls2)
            else if |copies| == 0 then Expanded([item], calls + calls2)
            else Expanded(copies, calls + calls2))
    case _ =>
      Expanded([item], [])
  }

  /** The candidates that found a file, in order. */
  function Loaded(cands: seq<Candidate>): (l: seq<Candidate>)
    ensures forall i :: 0 <= i < |l| ==> l[i].result.Some?
  {
    if |cands| == 0 then []
    else (if cands[0].result.Some? then [cands[0]] else []) + Loaded(cands[1..])
  }

  /** In multi-variant mode a candidate with a predicate is marked `#[cfg(c)]`. */
  function CfgMark(c: Candidate, multi: bool): seq<Attribute>
  {
    if multi && c.cfg.Some? then [CfgAttribute(c.cfg.value)] else []
  }

  /** The attributes of a copy: pass-through, then the candidate's mark, then the loaded file's own. */
  function CopyAttrs(passThrough: seq<Attribute>, c: Candidate, multi: bool): seq<Attribute>
    requires c.result.Some?
  {
    passThrough + CfgMark(c, multi) + c.result.value.attrs
  }

  /**
   * `items` are the copies made from `cands`: one per candidate that found
   * a file, in order (only the first in single mode), each an inline
   * `mod name` with the declaration's visibility and the copy's attributes.
   */
  predicate CopiesOf(items: seq<Item>, cands: seq<Candidate>, passThrough: seq<Attribute>,
                     vis: seq<TokenTree>, name: string, multi: bool)
  {
    var l := Loaded(cands);
    && |items| == (if multi || |l| == 0 then |l| else 1)
    && forall i :: 0 <= i < |items| ==>
         && items[i].Mod? && items[i].body.Inline? && items[i].ident == name && items[i].vis == vis
         && items[i].attrs == CopyAttrs(passThrough, l[i], multi)
  }

  lemma CopiesSkip(e: Expansion, cands: seq<Candidate>, passThrough: seq<Attribute>,
                   vis: seq<TokenTree>, name: string, multi: bool)
    requires |cands| > 0 && cands[0].result.None?
    requires e.Expanded? ==> CopiesOf(e.items, cands[1..], passThrough, vis, name, multi)
    ensures e.Expanded? ==> CopiesOf(e.items, cands, passThrough, vis, name, multi)
  {
    assert Loaded(cands) == Loaded(cands[1..]);
  }

  lemma CopiesFirst(m: Item, rest: seq<Item>, cands: seq<Candidate>, passThrough: seq<Attribute>,
                    vis: seq<TokenTree>, name: string, multi: bool)
    requires |cands| > 0 && cands[0].result.Some?
    requires m.Mod? && m.body.Inline?
    requires m == Mod(CopyAttrs(passThrough, cands[0], multi), vis, name, m.body)
    requires multi ==> CopiesOf(rest, cands[1..], passThrough, vis, name, multi)
    requires !multi ==> rest == []
    ensures CopiesOf([m] + rest, cands, passThrough, vis, name, multi)
  {
    var l := Loaded(cands);
    assert l == [cands[0]] + Loaded(cands[1..]);
    forall i | 1 <= i < |rest| + 1
      ensures ([m] + rest)[i] == rest[i - 1] && l[i] == Loaded(cands[1..])[i - 1]
    {
    }
  }

  /**
   * The splice loop over candidates: each candidate with a file becomes
   * `mod name { items }` with the pass-through attributes, then `#[cfg(c)]`
   * in multi-variant mode when the candidate has a predicate, then the
   * file's own attributes; its items are expanded first. Single mode stops
   * at the first such candidate.
   */
  function ExpandCopies(fuel: nat, r: Resolver, cands: seq<Candidate>, passThrough: seq<Attribute>,
                        vis: seq<TokenTree>, name: string, modulePath: ModPath, multi: bool): (e: Expansion)
    ensures e.Expanded? ==> CopiesOf(e.items, cands, passThrough, vis, name, multi)
    ensures !e.OutOfFuel? ==> ResolvesBelow(e.calls, modulePath)
    decreases fuel, 0, 0, |cands|
  {
    if |cands| == 0 then Expanded([], [])
    else
      var c := cands[0];
      match c.result
      case None =>
        var e := ExpandCopies(fuel, r, cands[1..], passThrough, vis, name, modulePath, multi);
        CopiesSkip(e, cands, passThrough, vis, name, multi);
        e
      case Some(file) =>
        if fuel == 0 then OutOfFuel
        else
          var attrsCopy := passThrough + CfgMark(c, multi) + file.attrs;
          match ExpandItems(fuel - 1, r, file.items, modulePath, c.dirsNat, c.dirsAttr, multi)
          case OutOfFuel => OutOfFuel
          case Aborted(err, calls) => Aborted(err, calls)
          case Expanded(inner, calls) =>
            var m := Mod(attrsCopy, vis, name, Inline(inner));
            if !multi then
              CopiesFirst(m, [], cands, passThrough, vis, name, multi);
              Expanded([m], calls)
            else
              match ExpandCopies(fuel, r, cands[1..], passThrough, vis, name, modulePath, multi)
              case OutOfFuel => OutOfFuel
              case Aborted(err, calls2) =>
                ResolvesBelowAppend(calls, calls2, modulePath);
                Aborted(err, calls + calls2)
              case Expanded(rest, calls2) =>
                ResolvesBelowAppend(calls, calls2, modulePath);
                CopiesFirst(m, rest, cands, passThrough, vis, name, multi);
                Expanded([m] + rest, calls + calls2)
  }

  /** Loads below `stack + [name]` are loads below `stack`. */
  lemma BelowChild(calls: seq<Call>, stack: ModPath, name: string)
    requires ResolvesBelow(calls, stack + [name])
    ensures ResolvesBelow(calls, stack)
  {
    forall i | 0 <= i < |calls| && calls[i].Resolve?
      ensures |calls[i].modulePath| > |stack| && calls[i].modulePath[..|stack|] == stack
    {
      assert calls[i].modulePath[..|stack|] == calls[i].modulePath[..|stack| + 1][..|stack|];
    }
  }

  /** Every load a plan makes names the module being planned. */
  lemma PlanResolvesBelow(r: Resolver, attrs: seq<Attribute>, name: string, stack: ModPath,
                          dirsNat: seq<Path>, dirsAttr: seq<Path>, multi: bool)
    ensures ResolvesBelow(PlanModule(r, attrs, name, stack, dirsNat, dirsAttr, multi).calls, stack)
  {
    var calls := PlanModule(r, attrs, name, stack, dirsNat, dirsAttr, multi).calls;
    forall i | 0 <= i < |calls| && calls[i].Resolve?
      ensures |calls[i].modulePath| > |stack| && calls[i].modulePath[..|stack|] == stack
    {
      assert (stack + [name])[..|stack|] == stack;
    }
  }
}
