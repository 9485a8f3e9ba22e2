/**
 * Properties of the expansion engine that relate several calls or hold
 * over all inputs: what is left alone, the order of file loads, the
 * conflict rules, the outcome of the override loop and the shape of the
 * copies spliced in.
 */
module ExpandProps {
  import opened Base
  import opened Syntax
  import opened Paths
  import opened Errors
  import opened Attrs
  import opened Resolvers
  import opened MetaSyntax
  import opened ExpandImpl

  // ---------------------------------------------------------------------
  // What the engine leaves alone

  /** An item that is not a module is kept as it is, in both modes, and costs no call. */
  lemma NonModuleItemKept(fuel: nat, r: Resolver, item: Item, stack: ModPath,
                          dirsNat: seq<Path>, dirsAttr: seq<Path>, multi: bool)
    requires !item.Mod?
    ensures ExpandItem(fuel, r, item, stack, dirsNat, dirsAttr, multi) == Expanded([item], [])
  {
  }

  /** An inline module is not descended into: kept as it is in single mode, dropped in multi-variant mode. */
  lemma InlineModuleNotDescended(fuel: nat, r: Resolver, item: Item, stack: ModPath,
                                 dirsNat: seq<Path>, dirsAttr: seq<Path>, multi: bool)
    requires item.Mod? && item.body.Inline?
    ensures ExpandItem(fuel, r, item, stack, dirsNat, dirsAttr, multi) == Expanded(if multi then [] else [item], [])
  {
  }

  /** No item is an external module declaration. */
  predicate NoExternalMods(items: seq<Item>)
  {
    forall i :: 0 <= i < |items| ==> !items[i].IsExternalMod()
  }

  /** A list whose head and tail both expand expands to the two results concatenated. */
  lemma ExpandItemsCons(fuel: nat, r: Resolver, items: seq<Item>, stack: ModPath, dirsNat: seq<Path>,
                        dirsAttr: seq<Path>, multi: bool, out: seq<Item>, calls: seq<Call>,
                        out2: seq<Item>, calls2: seq<Call>)
    requires |items| > 0
    requires ExpandItem(fuel, r, items[0], stack, dirsNat, dirsAttr, multi) == Expanded(out, calls)
    requires ExpandItems(fuel, r, items[1..], stack, dirsNat, dirsAttr, multi) == Expanded(out2, calls2)
    ensures ExpandItems(fuel, r, items, stack, dirsNat, dirsAttr, multi) == Expanded(out + out2, calls + calls2)
  {
  }

  /**
   * Items with no `mod name;` need no resolver at all: single mode returns
   * them unchanged, multi-variant mode returns the non-module items.
   */
  lemma {:induction false} ExpandWithoutExternals(fuel: nat, r: Resolver, items: seq<Item>, stack: ModPath,
                                                  dirsNat: seq<Path>, dirsAttr: seq<Path>, multi: bool)
    requires NoExternalMods(items)
    ensures ExpandItems(fuel, r, items, stack, dirsNat, dirsAttr, multi)
            == Expanded(if multi then NonMods(items) else items, [])
    decreases |items|
  {
    if |items| > 0 {
      var item, rest := items[0], items[1..];
      assert !item.IsExternalMod();
      if item.Mod? {
        InlineModuleNotDescended(fuel, r, item, stack, dirsNat, dirsAttr, multi);
      } else {
        NonModuleItemKept(fuel, r, item, stack, dirsNat, dirsAttr, multi);
      }
      assert NonMods([item]) == if item.Mod? then [] else [item] by {
        assert [item][1..] == [];
      }
      var head := if multi then NonMods([item]) else [item];
      assert NoExternalMods(rest) by {
        assert forall i :: 1 <= i < |items| ==> rest[i - 1] == items[i];
      }
      ExpandWithoutExternals(fuel, r, rest, stack, dirsNat, dirsAttr, multi);
      var tail := if multi then NonMods(rest) else rest;
      ExpandItemsCons(fuel, r, items, stack, dirsNat, dirsAttr, multi, head, [], tail, []);
      assert items == [item] + rest;
      NonModsAppend([item], rest);
      assert head + tail == if multi then NonMods(items) else items;
    }
  }

  // ---------------------------------------------------------------------
  // The override loop, stated override by override

  /** The file an override names, when its payload is a valid `= "..."`. */
  function OverrideTarget(ov: PathOverride, dirsAttr: seq<Path>): Option<Path>
  {
    match ExtractPathFromAttr(ov.tokens)
    case Success(p) => Some(OverrideFile(dirsAttr, p))
    case Failure(_) => None
  }

  /** An override is taken when it is unguarded or its guard holds. */
  predicate Taken(r: Resolver, ov: PathOverride)
  {
    ov.guard.None? || Holds(r, ov.guard.value)
  }

  /** The predicate a taken override's candidate carries. */
  function GuardCfg(ov: PathOverride): Option<Cfg>
  {
    match ov.guard
    case None => None
    case Some(g) => Some(Meta(g))
  }

  /** The load a taken override makes. */
  function TakenLoad(r: Resolver, ov: PathOverride, modulePath: ModPath, dirsAttr: seq<Path>): seq<Call>
  {
    match OverrideTarget(ov, dirsAttr)
    case Some(f) => if Taken(r, ov) then [Resolve(modulePath, f)] else []
    case None => []
  }

  /** The candidate a taken override records: the file loaded, its parent as both directory stacks, its predicate. */
  function TakenCand(r: Resolver, ov: PathOverride, modulePath: ModPath, dirsAttr: seq<Path>): seq<Candidate>
  {
    match OverrideTarget(ov, dirsAttr)
    case Some(f) =>
      if Taken(r, ov) && r.resolve(modulePath, f).Success? then
        [Candidate(r.resolve(modulePath, f).value, OverrideDirs(f), OverrideDirs(f), GuardCfg(ov))]
      else []
    case None => []
  }

  /** The predicate a guarded override contributes to the residual `not(any(..))`. */
  function TakenGuard(r: Resolver, ov: PathOverride): seq<Cfg>
  {
    match ov.guard
    case Some(g) => if Holds(r, g) then [Meta(g)] else []
    case None => []
  }

  function TakenLoads(r: Resolver, ovs: seq<PathOverride>, modulePath: ModPath, dirsAttr: seq<Path>): seq<Call>
  {
    if |ovs| == 0 then [] else TakenLoad(r, ovs[0], modulePath, dirsAttr) + TakenLoads(r, ovs[1..], modulePath, dirsAttr)
  }

  function TakenCands(r: Resolver, ovs: seq<PathOverride>, modulePath: ModPath, dirsAttr: seq<Path>): seq<Candidate>
  {
    if |ovs| == 0 then [] else TakenCand(r, ovs[0], modulePath, dirsAttr) + TakenCands(r, ovs[1..], modulePath, dirsAttr)
  }

  function TakenGuards(r: Resolver, ovs: seq<PathOverride>): seq<Cfg>
  {
    if |ovs| == 0 then [] else TakenGuard(r, ovs[0]) + TakenGuards(r, ovs[1..])
  }

  /**
   * Whether the conventional lookup still happens after the overrides: in
   * multi-variant mode unless some override is unguarded, in single mode
   * unless some override is taken.
   */
  predicate NaturalDue(r: Resolver, ovs: seq<PathOverride>, multi: bool)
  {
    || |ovs| == 0
    || ((if multi then ovs[0].guard.Some? else !Taken(r, ovs[0])) && NaturalDue(r, ovs[1..], multi))
  }

  /** One completed override step in those terms. */
  lemma OverrideStepOutcome(r: Resolver, ov: PathOverride, modulePath: ModPath, dirsAttr: seq<Path>,
                            multi: bool, st: LoopState)
    requires OverrideStep(r, ov, modulePath, dirsAttr, multi, st).Done?
    ensures var s := OverrideStep(r, ov, modulePath, dirsAttr, multi, st);
            && Resolves(s.calls) == TakenLoad(r, ov, modulePath, dirsAttr)
            && s.value.cands == st.cands + TakenCand(r, ov, modulePath, dirsAttr)
            && s.value.accumulated == st.accumulated + TakenGuard(r, ov)
            && s.value.needNatural == (st.needNatural && NaturalDue(r, [ov], multi))
  {
    var p := ExtractPathFromAttr(ov.tokens).value;
    var file := OverrideFile(dirsAttr, p);
    var dirs := OverrideDirs(file);
    assert OverrideTarget(ov, dirsAttr) == Some(file);
    if ov.guard.None? {
      UnguardedStep(r, ov, modulePath, dirsAttr, multi, st);
    } else if !Holds(r, ov.guard.value) {
      RejectedStep(r, ov, modulePath, dirsAttr, multi, st);
    } else {
      AcceptedStep(r, ov, modulePath, dirsAttr, multi, st);
    }
  }

  lemma UnguardedStep(r: Resolver, ov: PathOverride, modulePath: ModPath, dirsAttr: seq<Path>,
                      multi: bool, st: LoopState)
    requires OverrideStep(r, ov, modulePath, dirsAttr, multi, st).Done? && ov.guard.None?
    ensures var file := OverrideFile(dirsAttr, ExtractPathFromAttr(ov.tokens).value);
            var res := r.resolve(modulePath, file);
            && res.Success?
            && OverrideStep(r, ov, modulePath, dirsAttr, multi, st)
               == Done(LoopState(st.cands + [Candidate(res.value, OverrideDirs(file), OverrideDirs(file), None)],
                                 false, st.accumulated),
                       [Resolve(modulePath, file)])
            && TakenLoad(r, ov, modulePath, dirsAttr) == [Resolve(modulePath, file)]
            && TakenCand(r, ov, modulePath, dirsAttr)
               == [Candidate(res.value, OverrideDirs(file), OverrideDirs(file), None)]
            && TakenGuard(r, ov) == [] && !NaturalDue(r, [ov], multi)
  {
    assert ExtractPathFromAttr(ov.tokens).Success?;
    var file := OverrideFile(dirsAttr, ExtractPathFromAttr(ov.tokens).value);
    assert OverrideTarget(ov, dirsAttr) == Some(file);
    assert r.resolve(modulePath, file).Success?;
    assert !NaturalDue(r, [ov], multi) by {
      assert [ov][0] == ov;
    }
  }

  lemma RejectedStep(r: Resolver, ov: PathOverride, modulePath: ModPath, dirsAttr: seq<Path>,
                     multi: bool, st: LoopState)
    requires OverrideStep(r, ov, modulePath, dirsAttr, multi, st).Done?
    requires ov.guard.Some? && !Holds(r, ov.guard.value)
    ensures OverrideStep(r, ov, modulePath, dirsAttr, multi, st) == Done(st, [CheckCfg(Meta(ov.guard.value))])
    ensures TakenLoad(r, ov, modulePath, dirsAttr) == [] && TakenCand(r, ov, modulePath, dirsAttr) == []
    ensures TakenGuard(r, ov) == [] && NaturalDue(r, [ov], multi)
  {
  }

  lemma AcceptedStep(r: Resolver, ov: PathOverride, modulePath: ModPath, dirsAttr: seq<Path>,
                     multi: bool, st: LoopState)
    requires OverrideStep(r, ov, modulePath, dirsAttr, multi, st).Done?
    requires ov.guard.Some? && Holds(r, ov.guard.value)
    ensures var file := OverrideFile(dirsAttr, ExtractPathFromAttr(ov.tokens).value);
            var res := r.resolve(modulePath, file);
            var c := Meta(ov.guard.value);
            && res.Success?
            && OverrideStep(r, ov, modulePath, dirsAttr, multi, st)
               == Done(LoopState(st.cands + [Candidate(res.value, OverrideDirs(file), OverrideDirs(file), Some(c))],
                                 if multi then st.needNatural else false, st.accumulated + [c]),
                       [CheckCfg(c), Resolve(modulePath, file)])
            && TakenLoad(r, ov, modulePath, dirsAttr) == [Resolve(modulePath, file)]
            && TakenCand(r, ov, modulePath, dirsAttr)
               == [Candidate(res.value, OverrideDirs(file), OverrideDirs(file), Some(c))]
            && TakenGuard(r, ov) == [c]
            && NaturalDue(r, [ov], multi) == multi
  {
    assert ExtractPathFromAttr(ov.tokens).Success?;
    var file := OverrideFile(dirsAttr, ExtractPathFromAttr(ov.tokens).value);
    assert OverrideTarget(ov, dirsAttr) == Some(file);
    assert r.resolve(modulePath, file).Success?;
    assert NaturalDue(r, [ov], multi) == multi by {
      assert [ov][0] == ov;
    }
  }

  /** A completed override loop is its first step followed by the rest of the loop. */
  lemma ProcessOverridesCons(r: Resolver, ovs: seq<PathOverride>, modulePath: ModPath, dirsAttr: seq<Path>,
                             multi: bool, st: LoopState)
    requires |ovs| > 0 && ProcessOverrides(r, ovs, modulePath, dirsAttr, multi, st).Done?
    ensures var step := OverrideStep(r, ovs[0], modulePath, dirsAttr, multi, st);
            && step.Done?
            && var rest := ProcessOverrides(r, ovs[1..], modulePath, dirsAttr, multi, step.value);
            && rest.Done?
            && ProcessOverrides(r, ovs, modulePath, dirsAttr, multi, st) == Done(rest.value, step.calls + rest.calls)
  {
  }

  /** The files the completed override loop loads are those of the taken overrides, in attribute order. */
  lemma {:induction false} OverridesLoads(r: Resolver, ovs: seq<PathOverride>, modulePath: ModPath,
                                          dirsAttr: seq<Path>, multi: bool, st: LoopState)
    requires ProcessOverrides(r, ovs, modulePath, dirsAttr, multi, st).Done?
    ensures Resolves(ProcessOverrides(r, ovs, modulePath, dirsAttr, multi, st).calls)
            == TakenLoads(r, ovs, modulePath, dirsAttr)
    decreases |ovs|
  {
    if |ovs| > 0 {
      ProcessOverridesCons(r, ovs, modulePath, dirsAttr, multi, st);
      var step := OverrideStep(r, ovs[0], modulePath, dirsAttr, multi, st);
      OverrideStepOutcome(r, ovs[0], modulePath, dirsAttr, multi, st);
      var rest := ProcessOverrides(r, ovs[1..], modulePath, dirsAttr, multi, step.value);
      OverridesLoads(r, ovs[1..], modulePath, dirsAttr, multi, step.value);
      ResolvesAppend(step.calls, rest.calls);
    }
  }

  lemma StepCands(r: Resolver, ov: PathOverride, modulePath: ModPath, dirsAttr: seq<Path>,
                  multi: bool, st: LoopState)
    requires OverrideStep(r, ov, modulePath, dirsAttr, multi, st).Done?
    ensures OverrideStep(r, ov, modulePath, dirsAttr, multi, st).value.cands
            == st.cands + TakenCand(r, ov, modulePath, dirsAttr)
  {
    OverrideStepOutcome(r, ov, modulePath, dirsAttr, multi, st);
  }

  /** Accumulating `head` and then `tail` onto `start` accumulates their concatenation. */
  lemma Chain<T>(start: seq<T>, head: seq<T>, tail: seq<T>, mid: seq<T>, end: seq<T>)
    requires mid == start + head && end == mid + tail
    ensures end == start + (head + tail)
  {
  }

  /** The candidates of the completed override loop are those of the taken overrides, in attribute order. */
  lemma {:induction false} OverridesCands(r: Resolver, ovs: seq<PathOverride>, modulePath: ModPath,
                                          dirsAttr: seq<Path>, multi: bool, st: LoopState)
    requires ProcessOverrides(r, ovs, modulePath, dirsAttr, multi, st).Done?
    ensures ProcessOverrides(r, ovs, modulePath, dirsAttr, multi, st).value.cands
            == st.cands + TakenCands(r, ovs, modulePath, dirsAttr)
    decreases |ovs|
  {
    if |ovs| > 0 {
      ProcessOverridesCons(r, ovs, modulePath, dirsAttr, multi, st);
      var step := OverrideStep(r, ovs[0], modulePath, dirsAttr, multi, st);
      StepCands(r, ovs[0], modulePath, dirsAttr, multi, st);
      var rest := ProcessOverrides(r, ovs[1..], modulePath, dirsAttr, multi, step.value);
      OverridesCands(r, ovs[1..], modulePath, dirsAttr, multi, step.value);
      var head, tail := TakenCand(r, ovs[0], modulePath, dirsAttr), TakenCands(r, ovs[1..], modulePath, dirsAttr);
      assert TakenCands(r, ovs, modulePath, dirsAttr) == head + tail;
      Chain(st.cands, head, tail, step.value.cands, rest.value.cands);
    }
  }

  /** The predicates the completed override loop accumulates are the guards that held, in attribute order. */
  lemma {:induction false} OverridesGuards(r: Resolver, ovs: seq<PathOverride>, modulePath: ModPath,
                                           dirsAttr: seq<Path>, multi: bool, st: LoopState)
    requires ProcessOverrides(r, ovs, modulePath, dirsAttr, multi, st).Done?
    ensures ProcessOverrides(r, ovs, modulePath, dirsAttr, multi, st).value.accumulated
            == st.accumulated + TakenGuards(r, ovs)
    decreases |ovs|
  {
    if |ovs| > 0 {
      ProcessOverridesCons(r, ovs, modulePath, dirsAttr, multi, st);
      var step := OverrideStep(r, ovs[0], modulePath, dirsAttr, multi, st);
      OverrideStepOutcome(r, ovs[0], modulePath, dirsAttr, multi, st);
      var rest := ProcessOverrides(r, ovs[1..], modulePath, dirsAttr, multi, step.value);
      OverridesGuards(r, ovs[1..], modulePath, dirsAttr, multi, step.value);
      var head, tail := TakenGuard(r, ovs[0]), TakenGuards(r, ovs[1..]);
      assert TakenGuards(r, ovs) == head + tail;
      Chain(st.accumulated, head, tail, step.value.accumulated, rest.value.accumulated);
    }
  }

  /** After the completed override loop the conventional lookup is due exactly when `NaturalDue` says so. */
  lemma {:induction false} OverridesNatural(r: Resolver, ovs: seq<PathOverride>, modulePath: ModPath,
                                            dirsAttr: seq<Path>, multi: bool, st: LoopState)
    requires ProcessOverrides(r, ovs, modulePath, dirsAttr, multi, st).Done?
    ensures ProcessOverrides(r, ovs, modulePath, dirsAttr, multi, st).value.needNatural
            == (st.needNatural && NaturalDue(r, ovs, multi))
    decreases |ovs|
  {
    if |ovs| > 0 {
      ProcessOverridesCons(r, ovs, modulePath, dirsAttr, multi, st);
      var step := OverrideStep(r, ovs[0], modulePath, dirsAttr, multi, st);
      OverrideStepOutcome(r, ovs[0], modulePath, dirsAttr, multi, st);
      OverridesNatural(r, ovs[1..], modulePath, dirsAttr, multi, step.value);
      assert [ovs[0]][1..] == [];
      assert NaturalDue(r, [ovs[0]], multi) == (if multi then ovs[0].guard.Some? else !Taken(r, ovs[0]));
    }
  }

  /** The two loads of the conventional lookup: `name.rs`, then `name/mod.rs`. */
  function NaturalLoads(modulePath: ModPath, name: string, dirsNat: seq<Path>): seq<Call>
  {
    [Resolve(modulePath, NameRsFile(dirsNat, name)), Resolve(modulePath, ModRsFile(dirsNat, name))]
  }

  lemma NaturalLoadsAreLoads(modulePath: ModPath, name: string, dirsNat: seq<Path>)
    ensures Resolves(NaturalLoads(modulePath, name, dirsNat)) == NaturalLoads(modulePath, name, dirsNat)
  {
    var calls := NaturalLoads(modulePath, name, dirsNat);
    assert calls[1..][1..] == [];
  }

  /**
   * Candidate search, when it completes: the taken overrides in attribute
   * order, followed by the conventional candidate exactly when it is still
   * due; that candidate carries the residual predicate of the guards that held.
   */
  lemma CandidatesOutcome(r: Resolver, ovs: seq<PathOverride>, name: string, modulePath: ModPath,
                          dirsNat: seq<Path>, dirsAttr: seq<Path>, multi: bool)
    requires FindCandidates(r, ovs, name, modulePath, dirsNat, dirsAttr, multi).Done?
    ensures var s := FindCandidates(r, ovs, name, modulePath, dirsNat, dirsAttr, multi);
            var n := NaturalLookup(r, modulePath, name, dirsNat, dirsAttr, multi, NaturalCfg(multi, TakenGuards(r, ovs)));
            if NaturalDue(r, ovs, multi) then
              && n.Done?
              && s.value == TakenCands(r, ovs, modulePath, dirsAttr) + [n.value]
              && Resolves(s.calls) == TakenLoads(r, ovs, modulePath, dirsAttr) + NaturalLoads(modulePath, name, dirsNat)
            else
              && s.value == TakenCands(r, ovs, modulePath, dirsAttr)
              && Resolves(s.calls) == TakenLoads(r, ovs, modulePath, dirsAttr)
  {
    var st0 := LoopState([], true, []);
    var p := ProcessOverrides(r, ovs, modulePath, dirsAttr, multi, st0);
    OverridesLoads(r, ovs, modulePath, dirsAttr, multi, st0);
    OverridesCands(r, ovs, modulePath, dirsAttr, multi, st0);
    OverridesGuards(r, ovs, modulePath, dirsAttr, multi, st0);
    OverridesNatural(r, ovs, modulePath, dirsAttr, multi, st0);
    assert [] + TakenCands(r, ovs, modulePath, dirsAttr) == TakenCands(r, ovs, modulePath, dirsAttr);
    assert [] + TakenGuards(r, ovs) == TakenGuards(r, ovs);
    if p.value.needNatural {
      var n := NaturalLookup(r, modulePath, name, dirsNat, dirsAttr, multi, NaturalCfg(multi, p.value.accumulated));
      assert n.calls == NaturalLoads(modulePath, name, dirsNat);
      NaturalLoadsAreLoads(modulePath, name, dirsNat);
      ResolvesAppend(p.calls, n.calls);
    }
  }

  /** A trace with no file load. */
  lemma {:induction false} NoLoads(calls: seq<Call>)
    requires forall i :: 0 <= i < |calls| ==> calls[i].CheckCfg?
    ensures Resolves(calls) == []
    decreases |calls|
  {
    if |calls| > 0 {
      NoLoads(calls[1..]);
    }
  }

  /**
   * Planning one `mod name;`, when it completes: the attributes classify;
   * the module is skipped exactly when some `#[cfg]` guard does not hold,
   * and then nothing is loaded; otherwise every guard held, the
   * pass-through attributes are those of the classification, and the
   * candidates and loads are those of the candidate search.
   */
  lemma PlanOutcome(r: Resolver, attrs: seq<Attribute>, name: string, stack: ModPath,
                    dirsNat: seq<Path>, dirsAttr: seq<Path>, multi: bool)
    requires PlanModule(r, attrs, name, stack, dirsNat, dirsAttr, multi).Done?
    ensures Classify(attrs).Success?
    ensures var cl := Classify(attrs).value;
            var s := PlanModule(r, attrs, name, stack, dirsNat, dirsAttr, multi);
            && (s.value.Skip? <==> exists k :: 0 <= k < |cl.guards| && !Holds(r, cl.guards[k]))
            && (s.value.Skip? ==> Resolves(s.calls) == [])
            && (s.value.Expand? ==>
                  var c := FindCandidates(r, cl.overrides, name, stack + [name], dirsNat, dirsAttr, multi);
                  && c.Done?
                  && s.value.passThrough == cl.passThrough
                  && s.value.cands == c.value
                  && Resolves(s.calls) == Resolves(c.calls))
  {
    var cl := Classify(attrs).value;
    var mp := stack + [name];
    var g := CheckGuards(r, cl.guards, mp);
    var k := FirstNotHolding(r, cl.guards);
    var asked := cl.guards[..GuardsAsked(r, cl.guards)];
    NoLoads(GuardCalls(asked));
    if g.value {
      var c := FindCandidates(r, cl.overrides, name, mp, dirsNat, dirsAttr, multi);
      ResolvesAppend(g.calls, c.calls);
    } else {
      assert !Holds(r, cl.guards[k]);
    }
  }

  // ---------------------------------------------------------------------
  // The copies spliced in

  /**
   * Each copy's body is the expansion, one level of fuel down, of the items
   * of the loaded file it was made from, resolved from that candidate's
   * directory stacks.
   */
  predicate CopiesExpand(fuel: nat, r: Resolver, items: seq<Item>, cands: seq<Candidate>,
                         modulePath: ModPath, multi: bool)
  {
    var l := Loaded(cands);
    && |items| <= |l|
    && (|items| > 0 ==> fuel > 0)
    && forall i :: 0 <= i < |items| ==>
         && items[i].Mod? && items[i].body.Inline?
         && var x := ExpandItems(fuel - 1, r, l[i].result.value.items, modulePath, l[i].dirsNat, l[i].dirsAttr, multi);
            x.Expanded? && x.items == items[i].body.items
  }

  /** Copies made from the loaded candidates stay so when one more loaded candidate's copy goes in front. */
  lemma CopiesExpandCons(fuel: nat, r: Resolver, m: Item, rest: seq<Item>, c: Candidate, cands: seq<Candidate>,
                         modulePath: ModPath, multi: bool)
    requires fuel > 0 && c.result.Some? && m.Mod? && m.body.Inline?
    requires var x := ExpandItems(fuel - 1, r, c.result.value.items, modulePath, c.dirsNat, c.dirsAttr, multi);
             x.Expanded? && x.items == m.body.items
    requires CopiesExpand(fuel, r, rest, cands, modulePath, multi)
    ensures CopiesExpand(fuel, r, [m] + rest, [c] + cands, modulePath, multi)
  {
    var l := Loaded([c] + cands);
    assert ([c] + cands)[1..] == cands;
    assert l == [c] + Loaded(cands);
    var items := [m] + rest;
    forall i | 1 <= i < |items|
      ensures items[i] == rest[i - 1] && l[i] == Loaded(cands)[i - 1]
    {
    }
  }

  lemma {:induction false} CopiesContent(fuel: nat, r: Resolver, cands: seq<Candidate>, passThrough: seq<Attribute>,
                                         vis: seq<TokenTree>, name: string, modulePath: ModPath, multi: bool)
    requires ExpandCopies(fuel, r, cands, passThrough, vis, name, modulePath, multi).Expanded?
    ensures CopiesExpand(fuel, r, ExpandCopies(fuel, r, cands, passThrough, vis, name, modulePath, multi).items,
                         cands, modulePath, multi)
    decreases |cands|
  {
    if |cands| > 0 {
      var c := cands[0];
      var e := ExpandCopies(fuel, r, cands, passThrough, vis, name, modulePath, multi);
      assert cands == [c] + cands[1..];
      if c.result.None? {
        assert Loaded(cands) == Loaded(cands[1..]);
        CopiesContent(fuel, r, cands[1..], passThrough, vis, name, modulePath, multi);
      } else {
        var x := ExpandItems(fuel - 1, r, c.result.value.items, modulePath, c.dirsNat, c.dirsAttr, multi);
        assert x.Expanded? && e.items[0].body.items == x.items;
        if multi {
          var rest := ExpandCopies(fuel, r, cands[1..], passThrough, vis, name, modulePath, multi);
          CopiesContent(fuel, r, cands[1..], passThrough, vis, name, modulePath, multi);
          assert e.items == [e.items[0]] + rest.items;
          CopiesExpandCons(fuel, r, e.items[0], rest.items, c, cands[1..], modulePath, multi);
        } else {
          CopiesExpandCons(fuel, r, e.items[0], [], c, [], modulePath, multi);
          assert Loaded(cands)[0] == c;
        }
      }
    }
  }

  /**
   * An external module declaration that expands: its plan completed; a
   * skipped module is kept (single mode) or dropped (multi-variant mode);
   * otherwise the copies made from the candidates replace it, except that
   * in single mode no copy at all keeps the declaration.
   */
  lemma ExternalModExpansion(fuel: nat, r: Resolver, item: Item, stack: ModPath,
                             dirsNat: seq<Path>, dirsAttr: seq<Path>, multi: bool)
    requires item.IsExternalMod()
    requires ExpandItem(fuel, r, item, stack, dirsNat, dirsAttr, multi).Expanded?
    ensures var p := PlanModule(r, item.attrs, item.ident, stack, dirsNat, dirsAttr, multi);
            var e := ExpandItem(fuel, r, item, stack, dirsNat, dirsAttr, multi);
            && p.Done?
            && (p.value.Skip? ==> e.items == (if multi then [] else [item]))
            && (p.value.Expand? ==>
                  var ec := ExpandCopies(fuel, r, p.value.cands, p.value.passThrough, item.vis, item.ident,
                                         stack + [item.ident], multi);
                  && ec.Expanded?
                  && e.items == (if !multi && |ec.items| == 0 then [item] else ec.items))
  {
  }

  /** An external module declaration whose plan and copies are known expands to those copies, after the plan's calls. */
  lemma ExpandFromPlan(fuel: nat, r: Resolver, item: Item, stack: ModPath, dirsNat: seq<Path>, dirsAttr: seq<Path>,
                       multi: bool, passThrough: seq<Attribute>, cands: seq<Candidate>, calls: seq<Call>,
                       copies: seq<Item>, calls2: seq<Call>)
    requires item.IsExternalMod()
    requires PlanModule(r, item.attrs, item.ident, stack, dirsNat, dirsAttr, multi) == Done(Expand(passThrough, cands), calls)
    requires ExpandCopies(fuel, r, cands, passThrough, item.vis, item.ident, stack + [item.ident], multi)
             == Expanded(copies, calls2)
    ensures ExpandItem(fuel, r, item, stack, dirsNat, dirsAttr, multi)
            == Expanded(if !multi && |copies| == 0 then [item] else copies, calls + calls2)
  {
  }

  /** The single-mode copy of one candidate: its file's attributes after the pass-through ones, its items expanded. */
  lemma SingleCopy(fuel: nat, r: Resolver, c: Candidate, passThrough: seq<Attribute>, vis: seq<TokenTree>,
                   name: string, modulePath: ModPath)
    requires ExpandCopies(fuel, r, [c], passThrough, vis, name, modulePath, false).Expanded?
    ensures var ec := ExpandCopies(fuel, r, [c], passThrough, vis, name, modulePath, false);
            && (c.result.None? ==> ec.items == [])
            && (c.result.Some? ==>
                  && fuel > 0
                  && var x := ExpandItems(fuel - 1, r, c.result.value.items, modulePath, c.dirsNat, c.dirsAttr, false);
                  && x.Expanded?
                  && ec.items == [Mod(passThrough + c.result.value.attrs, vis, name, Inline(x.items))])
  {
    var ec := ExpandCopies(fuel, r, [c], passThrough, vis, name, modulePath, false);
    CopiesContent(fuel, r, [c], passThrough, vis, name, modulePath, false);
    assert [c][1..] == [];
    if c.result.Some? {
      assert Loaded([c]) == [c];
      assert CopyAttrs(passThrough, c, false) == passThrough + c.result.value.attrs;
    } else {
      assert Loaded([c]) == [];
    }
  }

  /**
   * Single mode, all inputs: an external module declaration is replaced by
   * one inline module whose attributes are the pass-through attributes
   * followed by the loaded file's inner attributes and whose items are the
   * file's items expanded in turn; when no file was found, or a `#[cfg]`
   * guard did not hold, the declaration is kept as written.
   */
  lemma SingleModeSplice(fuel: nat, r: Resolver, item: Item, stack: ModPath, dirsNat: seq<Path>, dirsAttr: seq<Path>)
    requires item.IsExternalMod()
    requires ExpandItem(fuel, r, item, stack, dirsNat, dirsAttr, false).Expanded?
    ensures var p := PlanModule(r, item.attrs, item.ident, stack, dirsNat, dirsAttr, false);
            var e := ExpandItem(fuel, r, item, stack, dirsNat, dirsAttr, false);
            && p.Done?
            && (p.value.Skip? || p.value.cands[0].result.None? ==> e.items == [item])
            && (p.value.Expand? && p.value.cands[0].result.Some? ==>
                  var c := p.value.cands[0];
                  var file := c.result.value;
                  && fuel > 0
                  && var x := ExpandItems(fuel - 1, r, file.items, stack + [item.ident], c.dirsNat, c.dirsAttr, false);
                  && x.Expanded?
                  && e.items == [Mod(p.value.passThrough + file.attrs, item.vis, item.ident, Inline(x.items))])
  {
    var p := PlanModule(r, item.attrs, item.ident, stack, dirsNat, dirsAttr, false);
    ExternalModExpansion(fuel, r, item, stack, dirsNat, dirsAttr, false);
    if p.value.Expand? {
      var cands := p.value.cands;
      assert cands == [cands[0]];
      SingleCopy(fuel, r, cands[0], p.value.passThrough, item.vis, item.ident, stack + [item.ident]);
    }
  }

  // ---------------------------------------------------------------------
  // Conflicts between overrides

  /**
   * Single mode: a taken override met after a candidate is a conflict,
   * reported before its file is loaded (an unguarded one even before its
   * payload is looked at, a guarded one once its guard was evaluated).
   */
  lemma TakenOverrideAfterCandidateConflicts(r: Resolver, ov: PathOverride, modulePath: ModPath,
                                             dirsAttr: seq<Path>, st: LoopState)
    requires |st.cands| > 0 && Taken(r, ov) && (ov.guard.None? || OverrideTarget(ov, dirsAttr).Some?)
    ensures OverrideStep(r, ov, modulePath, dirsAttr, false, st)
            == Failed(Error(modulePath, MultipleExplicitPathsSpecifiedForOneModule),
                      if ov.guard.None? then [] else [CheckCfg(Meta(ov.guard.value))])
  {
    if ov.guard.Some? {
      assert ExtractPathFromAttr(ov.tokens).Success?;
    }
  }

  /**
   * An override whose payload is not `= "..."` fails as soon as the payload
   * is read, before its guard is evaluated: a malformed `cfg_attr` path is an
   * error even when its predicate is false. Only the single-mode conflict of
   * an unguarded override comes earlier.
   */
  lemma MalformedOverrideFailsBeforeGuard(r: Resolver, ov: PathOverride, modulePath: ModPath,
                                          dirsAttr: seq<Path>, multi: bool, st: LoopState)
    requires ExtractPathFromAttr(ov.tokens).Failure?
    requires ov.guard.Some? || |st.cands| == 0 || multi
    ensures OverrideStep(r, ov, modulePath, dirsAttr, multi, st)
            == Failed(Error(modulePath, AttrParse(ExtractPathFromAttr(ov.tokens).error)), [])
  {
  }

  /**
   * Multi-variant mode never reports conflicting overrides itself: every
   * taken override becomes a variant (the resolver may still return that
   * error of its own accord, which is excluded here).
   */
  lemma {:induction false} MultiModeNoConflict(r: Resolver, ovs: seq<PathOverride>, modulePath: ModPath,
                                               dirsAttr: seq<Path>, st: LoopState)
    requires forall m, p :: r.resolve(m, p).Failure? ==>
               r.resolve(m, p).error.inner != MultipleExplicitPathsSpecifiedForOneModule
    requires ProcessOverrides(r, ovs, modulePath, dirsAttr, true, st).Failed?
    ensures ProcessOverrides(r, ovs, modulePath, dirsAttr, true, st).error.inner
            != MultipleExplicitPathsSpecifiedForOneModule
    decreases |ovs|
  {
    var step := OverrideStep(r, ovs[0], modulePath, dirsAttr, true, st);
    if step.Done? {
      MultiModeNoConflict(r, ovs[1..], modulePath, dirsAttr, step.value);
    } else {
      assert ProcessOverrides(r, ovs, modulePath, dirsAttr, true, st).error == step.error;
    }
  }

  /** Two `#[path]` attributes classify as two unguarded overrides, in order. */
  lemma ClassifyTwoPaths(p1: string, p2: string)
    ensures Classify([PathAttribute(p1), PathAttribute(p2)])
            == Success(Classified([PathOverride(PathAttrTokens(p1), None), PathOverride(PathAttrTokens(p2), None)], [], []))
  {
    var o1 := PathOverride(PathAttrTokens(p1), None);
    var o2 := PathOverride(PathAttrTokens(p2), None);
    PathAttributeRoundTrip(p1);
    PathAttributeRoundTrip(p2);
    ClassifySingle(PathAttribute(p1));
    ClassifySingle(PathAttribute(p2));
    ClassifyAppend([PathAttribute(p1)], [PathAttribute(p2)]);
    assert [PathAttribute(p1)] + [PathAttribute(p2)] == [PathAttribute(p1), PathAttribute(p2)];
    assert [o1] + [o2] == [o1, o2];
    assert Merge(Add(Override(o1), Classified([], [], [])), Add(Override(o2), Classified([], [], [])))
        == Classified([o1, o2], [], []);
  }

  /** Two unguarded overrides in single mode: the first file is loaded, then the second override is a conflict. */
  lemma TwoOverridesConflict(r: Resolver, p1: string, p2: string, modulePath: ModPath, dirsAttr: seq<Path>)
    requires r.resolve(modulePath, OverrideFile(dirsAttr, p1)).Success?
    ensures ProcessOverrides(r, [PathOverride(PathAttrTokens(p1), None), PathOverride(PathAttrTokens(p2), None)],
                             modulePath, dirsAttr, false, LoopState([], true, []))
            == Failed(Error(modulePath, MultipleExplicitPathsSpecifiedForOneModule),
                      [Resolve(modulePath, OverrideFile(dirsAttr, p1))])
  {
    var o1 := PathOverride(PathAttrTokens(p1), None);
    var o2 := PathOverride(PathAttrTokens(p2), None);
    PathAttributeRoundTrip(p1);
    PathAttributeRoundTrip(p2);
    var st0 := LoopState([], true, []);
    var s1 := OverrideStep(r, o1, modulePath, dirsAttr, false, st0);
    assert s1.Done? && |s1.value.cands| == 1 && s1.calls == [Resolve(modulePath, OverrideFile(dirsAttr, p1))];
    TakenOverrideAfterCandidateConflicts(r, o2, modulePath, dirsAttr, s1.value);
    assert [o1, o2][1..] == [o2];
    assert [o2][1..] == [];
  }

  /**
   * Two `#[path]` attributes on one `mod name;` in single mode: the first
   * file is loaded, then the second attribute is a conflict.
   */
  lemma TwoPathAttributesConflict(fuel: nat, r: Resolver, vis: seq<TokenTree>, name: string, p1: string, p2: string,
                                  stack: ModPath, dirsNat: seq<Path>, dirsAttr: seq<Path>)
    requires r.resolve(stack + [name], OverrideFile(dirsAttr, p1)).Success?
    ensures ExpandItem(fuel, r, Mod([PathAttribute(p1), PathAttribute(p2)], vis, name, External), stack,
                       dirsNat, dirsAttr, false)
            == Aborted(Error(stack + [name], MultipleExplicitPathsSpecifiedForOneModule),
                       [Resolve(stack + [name], OverrideFile(dirsAttr, p1))])
  {
    ClassifyTwoPaths(p1, p2);
    TwoOverridesConflict(r, p1, p2, stack + [name], dirsAttr);
  }

  // ---------------------------------------------------------------------
  // The synthesized `#[cfg(..)]` attributes

  /** A predicate the engine can hand to `check_cfg` or write back: every written part parses as a meta. */
  predicate WellFormedCfg(c: Cfg)
  {
    match c
    case Meta(ts) => IsMeta(ts)
    case NotAny(alts) => forall i :: 0 <= i < |alts| ==> WellFormedCfg(alts[i])
  }

  /** A well-formed predicate renders to tokens that parse as a meta again. */
  lemma {:induction false} CfgTokensIsMeta(c: Cfg)
    requires WellFormedCfg(c)
    ensures IsMeta(CfgTokens(c))
  {
    match c
    case Meta(ts) =>
    case NotAny(alts) =>
      var parts := seq(|alts|, i requires 0 <= i < |alts| => CfgTokens(alts[i]));
      forall i | 0 <= i < |alts|
        ensures IsMeta(parts[i])
      {
        CfgTokensIsMeta(alts[i]);
      }
      ListIsMeta("any", parts);
      var inner := [Ident("any"), Group(Parenthesis, Commaed(parts))];
      assert Commaed([inner]) == inner;
      ListIsMeta("not", [inner]);
  }

  /** The attribute written onto a copy is classified again as a `#[cfg]` guard over the same tokens. */
  lemma CfgAttributeRoundTrip(c: Cfg)
    ensures ClassifyOne(CfgAttribute(c)) == Success(Guard(CfgTokens(c)))
  {
  }

  /** The guards that held are all well-formed, and so is the residual predicate built from them. */
  lemma {:induction false} TakenGuardsWellFormed(r: Resolver, ovs: seq<PathOverride>, multi: bool)
    ensures forall i :: 0 <= i < |TakenGuards(r, ovs)| ==> WellFormedCfg(TakenGuards(r, ovs)[i])
    ensures NaturalCfg(multi, TakenGuards(r, ovs)).Some? ==> WellFormedCfg(NaturalCfg(multi, TakenGuards(r, ovs)).value)
    decreases |ovs|
  {
    if |ovs| > 0 {
      TakenGuardsWellFormed(r, ovs[1..], multi);
      var head, tail := TakenGuard(r, ovs[0]), TakenGuards(r, ovs[1..]);
      assert TakenGuards(r, ovs) == head + tail;
      forall i | 0 <= i < |head + tail|
        ensures WellFormedCfg((head + tail)[i])
      {
        if i >= |head| {
          assert (head + tail)[i] == tail[i - |head|];
        }
      }
    }
  }

  // ---------------------------------------------------------------------
  // Item lists as the composition of single items

  /** A one-item list expands exactly as its item does. */
  lemma ExpandSingleItem(fuel: nat, r: Resolver, item: Item, stack: ModPath,
                         dirsNat: seq<Path>, dirsAttr: seq<Path>, multi: bool)
    ensures ExpandItems(fuel, r, [item], stack, dirsNat, dirsAttr, multi)
            == ExpandItem(fuel, r, item, stack, dirsNat, dirsAttr, multi)
  {
    assert [item][1..] == [];
    assert [item][0] == item;
  }

  /** `outs` lists, place by place, the one item each of `items` becomes under `f`. */
  predicate Pointwise(f: Item -> Expansion, items: seq<Item>, outs: seq<Item>)
  {
    && |items| <= |outs|
    && forall i :: 0 <= i < |items| ==> f(items[i]).Expanded? && f(items[i]).items == [outs[i]]
  }

  lemma PointwiseCons(f: Item -> Expansion, item: Item, rest: seq<Item>, out: Item, outs: seq<Item>)
    requires f(item).Expanded? && f(item).items == [out]
    requires Pointwise(f, rest, outs)
    ensures Pointwise(f, [item] + rest, [out] + outs)
  {
    var items, all := [item] + rest, [out] + outs;
    forall i | 1 <= i < |items|
      ensures items[i] == rest[i - 1] && all[i] == outs[i - 1]
    {
    }
  }

  /**
   * Single mode: a list that expands is expanded item by item, the i-th
   * output being the one item the i-th input expands to.
   */
  lemma {:induction false} SingleModePointwise(fuel: nat, r: Resolver, items: seq<Item>, stack: ModPath,
                                               dirsNat: seq<Path>, dirsAttr: seq<Path>)
    requires ExpandItems(fuel, r, items, stack, dirsNat, dirsAttr, false).Expanded?
    ensures var e := ExpandItems(fuel, r, items, stack, dirsNat, dirsAttr, false);
            forall i :: 0 <= i < |items| ==>
              && ExpandItem(fuel, r, items[i], stack, dirsNat, dirsAttr, false).Expanded?
              && ExpandItem(fuel, r, items[i], stack, dirsNat, dirsAttr, false).items == [e.items[i]]
    decreases |items|
  {
    var f := x => ExpandItem(fuel, r, x, stack, dirsNat, dirsAttr, false);
    var e := ExpandItems(fuel, r, items, stack, dirsNat, dirsAttr, false);
    if |items| > 0 {
      var h := ExpandItem(fuel, r, items[0], stack, dirsNat, dirsAttr, false);
      var t := ExpandItems(fuel, r, items[1..], stack, dirsNat, dirsAttr, false);
      SingleModePointwise(fuel, r, items[1..], stack, dirsNat, dirsAttr);
      assert Pointwise(f, items[1..], t.items);
      assert e.items == h.items + t.items;
      assert h.items == [e.items[0]];
      assert items == [items[0]] + items[1..];
      PointwiseCons(f, items[0], items[1..], e.items[0], t.items);
      assert [e.items[0]] + t.items == e.items;
    }
    assert Pointwise(f, items, e.items);
  }
}
