/**
 * The attribute classifier: splits a module declaration's attributes into
 * `cfg` guards, path overrides (`#[path]` and `#[cfg_attr(P, path ...)]`)
 * and pass-through attributes, and validates a path override's payload.
 */
module Attrs {
  import opened Base
  import opened Syntax
  import opened Errors

  /** A path override: the tokens after `path`, and the `cfg_attr` predicate guarding it, if any. */
  datatype PathOverride = PathOverride(tokens: seq<TokenTree>, guard: Option<seq<TokenTree>>)

  /** Where one attribute goes. */
  datatype Bucket = Guard(stream: seq<TokenTree>) | Override(o: PathOverride) | Pass(attr: Attribute)

  /** The three buckets, each in attribute order. */
  datatype Classified = Classified(overrides: seq<PathOverride>, passThrough: seq<Attribute>, guards: seq<seq<TokenTree>>)

  const Comma: TokenTree := Punct(',')

  /** The payload of `#[path = "s"]`. */
  function PathAttrTokens(s: string): seq<TokenTree>
  {
    [Punct('='), Literal(LitStr(s))]
  }

  /** `extract_path_from_attr`: the payload must be `=` followed by a string literal. */
  function ExtractPathFromAttr(tt: seq<TokenTree>): (r: Result<string, AttrParseError>)
    ensures |tt| != 2 ==> r == Failure(NotExactlyTwoTokens)
    ensures |tt| == 2 && tt[0] != Punct('=') ==> r == Failure(FirstTokenIsNotEqualSign)
    ensures (|tt| == 2 && tt[0] == Punct('=') && !(tt[1].Literal? && tt[1].lit.LitStr?))
              ==> r == Failure(SecondTokenIsNotStringLiteral)
  {
    if |tt| != 2 then Failure(NotExactlyTwoTokens)
    else if tt[0] != Punct('=') then Failure(FirstTokenIsNotEqualSign)
    else match tt[1]
      case Literal(LitStr(v)) => Success(v)
      case _ => Failure(SecondTokenIsNotStringLiteral)
  }

  /** A path payload is accepted exactly when it is `= "s"`, and then `s` is what comes out. */
  lemma ExtractPathRoundTrip(tt: seq<TokenTree>, s: string)
    ensures ExtractPathFromAttr(tt) == Success(s) <==> tt == PathAttrTokens(s)
  {
    if ExtractPathFromAttr(tt) == Success(s) {
      assert tt == [tt[0], tt[1]];
    }
  }

  /** The number of top-level commas in a token stream. */
  function Commas(ts: seq<TokenTree>): (n: nat)
    ensures n == 0 <==> Comma !in ts
  {
    if |ts| == 0 then 0 else (if ts[0] == Comma then 1 else 0) + Commas(ts[1..])
  }

  lemma {:induction false} CommasAppend(a: seq<TokenTree>, b: seq<TokenTree>)
    ensures Commas(a + b) == Commas(a) + Commas(b)
  {
    if |a| > 0 {
      assert (a + b)[0] == a[0];
      assert (a + b)[1..] == a[1..] + b;
      CommasAppend(a[1..], b);
    } else {
      assert a + b == b;
    }
  }

  /** How a `cfg_attr` group's tokens split at its one top-level comma. */
  datatype CommaSplit = CommaSplit(before: seq<TokenTree>, after: seq<TokenTree>)

  /**
   * The token loop of the `cfg_attr` branch while no comma has been seen:
   * tokens go to `before`; the first comma switches to `ScanAfterComma`.
   * Nested groups are single tokens, so commas inside them are not seen.
   */
  function ScanBeforeComma(ts: seq<TokenTree>, before: seq<TokenTree>): (r: Result<CommaSplit, AttrParseError>)
    ensures r.Failure? ==> r.error == CfgAttrNotTwoParams
    ensures r.Success? <==> Commas(ts) == 1
    ensures r.Success? ==>
              && before + ts == r.value.before + [Comma] + r.value.after
              && |before| <= |r.value.before|
              && r.value.before[..|before|] == before
              && Comma !in r.value.before[|before|..]
              && Comma !in r.value.after
    decreases |ts|
  {
    if |ts| == 0 then Failure(CfgAttrNotTwoParams)
    else if ts[0] == Comma then
      assert ts == [Comma] + ts[1..];
      ScanAfterComma(ts[1..], before, [])
    else
      assert ts == [ts[0]] + ts[1..];
      var r := ScanBeforeComma(ts[1..], before + [ts[0]]);
      assert r.Success? ==> r.value.before[|before|..] == [ts[0]] + r.value.before[|before| + 1..];
      r
  }

  /** The same loop once the comma has been seen: tokens go to `after`, and a second comma is an error. */
  function ScanAfterComma(ts: seq<TokenTree>, before: seq<TokenTree>, after: seq<TokenTree>)
    : (r: Result<CommaSplit, AttrParseError>)
    ensures r.Failure? ==> r.error == CfgAttrNotTwoParams
    ensures r.Success? <==> Comma !in ts
    ensures r.Success? ==> r.value == CommaSplit(before, after + ts)
    decreases |ts|
  {
    if |ts| == 0 then Success(CommaSplit(before, after))
    else if ts[0] == Comma then Failure(CfgAttrNotTwoParams)
    else
      assert ts == [ts[0]] + ts[1..];
      ScanAfterComma(ts[1..], before, after + [ts[0]])
  }

  /** The `cfg_attr(...)` group's inner tokens: `P, path rest` is an override, anything else passes through. */
  function ClassifyCfgAttr(a: Attribute, inner: seq<TokenTree>): (r: Result<Bucket, AttrParseError>)
    ensures r.Failure? <==> |inner| < 3 || Commas(inner) != 1
    ensures r.Failure? ==> r.error == CfgAttrNotTwoParams
    ensures r.Success? ==> r.value.Pass? || r.value.Override?
    ensures r.Success? && r.value.Pass? ==> r.value.attr == a
    ensures r.Success? && r.value.Override? ==>
              && r.value.o.guard.Some?
              && inner == r.value.o.guard.value + [Comma, Ident("path")] + r.value.o.tokens
              && Comma !in r.value.o.guard.value
  {
    if |inner| < 3 then Failure(CfgAttrNotTwoParams)
    else match ScanBeforeComma(inner, [])
      case Failure(e) => Failure(e)
      case Success(split) =>
        if |split.after| > 0 && split.after[0] == Ident("path") then
          assert split.after == [Ident("path")] + split.after[1..];
          assert inner == split.before + [Comma] + split.after;
          assert inner == split.before + [Comma, Ident("path")] + split.after[1..];
          Success(Override(PathOverride(split.after[1..], Some(split.before))))
        else Success(Pass(a))
  }

  /** A `#[...]` whose tokens are exactly one round-bracket group. */
  predicate IsRoundGroup(tokens: seq<TokenTree>)
  {
    |tokens| == 1 && tokens[0].Group? && tokens[0].delimiter == Parenthesis
  }

  /** The loop body of `read_and_process_attributes` for one attribute. */
  function ClassifyOne(a: Attribute): (r: Result<Bucket, AttrParseError>)
    ensures r.Success? && r.value.Pass? ==> r.value.attr == a
    ensures !a.IsIdent("cfg") && !a.IsIdent("path") && !a.IsIdent("cfg_attr") ==> r == Success(Pass(a))
  {
    if a.IsIdent("cfg") then
      if |a.tokens| != 1 then Failure(MalformedCfg)
      else match a.tokens[0]
        case Group(Parenthesis, stream) => Success(Guard(stream))
        case _ => Failure(MalformedCfg)
    else if a.IsIdent("path") then
      Success(Override(PathOverride(a.tokens, None)))
    else if a.IsIdent("cfg_attr") then
      if |a.tokens| != 1 then Failure(CfgAttrNotRoundGroup)
      else match a.tokens[0]
        case Group(Parenthesis, inner) => ClassifyCfgAttr(a, inner)
        case _ => Failure(CfgAttrNotRoundGroup)
    else Success(Pass(a))
  }

  /** `#[cfg(...)]` records the group's inner stream as a guard; any other shape is `MalformedCfg`. */
  lemma ClassifyCfg(a: Attribute)
    requires a.IsIdent("cfg")
    ensures ClassifyOne(a).Success? <==> IsRoundGroup(a.tokens)
    ensures IsRoundGroup(a.tokens) ==> ClassifyOne(a) == Success(Guard(a.tokens[0].stream))
    ensures !IsRoundGroup(a.tokens) ==> ClassifyOne(a) == Failure(MalformedCfg)
  {
  }

  /** `#[path ...]` becomes an unguarded override holding its raw tokens, not yet validated. */
  lemma ClassifyPath(a: Attribute)
    requires a.IsIdent("path")
    ensures ClassifyOne(a) == Success(Override(PathOverride(a.tokens, None)))
  {
  }

  /**
   * `#[cfg_attr(...)]`: not one round group is `CfgAttrNotRoundGroup`; fewer
   * than three inner tokens or other than one top-level comma is
   * `CfgAttrNotTwoParams`; `P, path rest` is the override `rest` guarded by
   * `P`; anything else passes through unchanged.
   */
  lemma ClassifyCfgAttrCases(a: Attribute)
    requires a.IsIdent("cfg_attr")
    ensures !IsRoundGroup(a.tokens) ==> ClassifyOne(a) == Failure(CfgAttrNotRoundGroup)
    ensures IsRoundGroup(a.tokens) ==>
              var inner := a.tokens[0].stream;
              var r := ClassifyOne(a);
              && (r.Failure? <==> |inner| < 3 || Commas(inner) != 1)
              && (r.Failure? ==> r.error == CfgAttrNotTwoParams)
              && (r.Success? ==> r == Success(Pass(a)) || r.value.Override?)
              && (r.Success? && r.value.Override? ==>
                    && r.value.o.guard.Some?
                    && inner == r.value.o.guard.value + [Comma, Ident("path")] + r.value.o.tokens
                    && Comma !in r.value.o.guard.value)
  {
  }

  function Add(b: Bucket, c: Classified): Classified
  {
    match b
    case Guard(g) => c.(guards := [g] + c.guards)
    case Override(o) => c.(overrides := [o] + c.overrides)
    case Pass(a) => c.(passThrough := [a] + c.passThrough)
  }

  /** Collects per-attribute results in order; the first failure wins. */
  function Gather(bs: seq<Result<Bucket, AttrParseError>>): (r: Result<Classified, AttrParseError>)
    ensures r.Success? <==> forall i :: 0 <= i < |bs| ==> bs[i].Success?
    ensures r.Success? ==> |r.value.guards| + |r.value.overrides| + |r.value.passThrough| == |bs|
  {
    if |bs| == 0 then Success(Classified([], [], []))
    else match bs[0]
      case Failure(e) => Failure(e)
      case Success(b) =>
        match Gather(bs[1..])
        case Failure(e) => Failure(e)
        case Success(c) =>
          assert forall i :: 1 <= i < |bs| ==> bs[i] == bs[1..][i - 1];
          Success(Add(b, c))
  }

  /** `read_and_process_attributes`: the first malformed attribute's error, or all three buckets. */
  function Classify(attrs: seq<Attribute>): (r: Result<Classified, AttrParseError>)
    ensures r.Success? <==> forall i :: 0 <= i < |attrs| ==> ClassifyOne(attrs[i]).Success?
    ensures r.Success? ==> |r.value.guards| + |r.value.overrides| + |r.value.passThrough| == |attrs|
  {
    var bs := seq(|attrs|, i requires 0 <= i < |attrs| => ClassifyOne(attrs[i]));
    assert forall i :: 0 <= i < |attrs| ==> bs[i] == ClassifyOne(attrs[i]);
    Gather(bs)
  }

  function Merge(x: Classified, y: Classified): Classified
  {
    Classified(x.overrides + y.overrides, x.passThrough + y.passThrough, x.guards + y.guards)
  }

  lemma {:induction false} GatherAppend(xs: seq<Result<Bucket, AttrParseError>>, ys: seq<Result<Bucket, AttrParseError>>)
    ensures Gather(xs + ys) ==
      match Gather(xs)
      case Failure(e) => Failure(e)
      case Success(cx) =>
        match Gather(ys)
        case Failure(e) => Failure(e)
        case Success(cy) => Success(Merge(cx, cy))
  {
    if |xs| == 0 {
      assert xs + ys == ys;
      if Gather(ys).Success? {
        var cy := Gather(ys).value;
        assert Merge(Classified([], [], []), cy) == cy;
      }
    } else {
      var s := xs + ys;
      assert s[0] == xs[0];
      assert s[1..] == xs[1..] + ys;
      GatherAppend(xs[1..], ys);
      if xs[0].Success? && Gather(xs[1..]).Success? && Gather(ys).Success? {
        var cx := Gather(xs[1..]).value;
        var cy := Gather(ys).value;
        assert Merge(Add(xs[0].value, cx), cy) == Add(xs[0].value, Merge(cx, cy));
      }
    }
  }

  /**
   * Classifying a concatenation classifies each part and concatenates the
   * buckets, so order is kept within each bucket and the first malformed
   * attribute decides the error.
   */
  lemma ClassifyAppend(xs: seq<Attribute>, ys: seq<Attribute>)
    ensures Classify(xs + ys) ==
      match Classify(xs)
      case Failure(e) => Failure(e)
      case Success(cx) =>
        match Classify(ys)
        case Failure(e) => Failure(e)
        case Success(cy) => Success(Merge(cx, cy))
  {
    var bx := seq(|xs|, i requires 0 <= i < |xs| => ClassifyOne(xs[i]));
    var bsY := seq(|ys|, i requires 0 <= i < |ys| => ClassifyOne(ys[i]));
    var s := xs + ys;
    assert seq(|s|, i requires 0 <= i < |s| => ClassifyOne(s[i])) == bx + bsY;
    GatherAppend(bx, bsY);
  }

  /** A single attribute lands in the bucket `ClassifyOne` names. */
  lemma ClassifySingle(a: Attribute)
    ensures Classify([a]) ==
      match ClassifyOne(a)
      case Failure(e) => Failure(e)
      case Success(b) => Success(Add(b, Classified([], [], [])))
  {
    var bs := seq(1, i requires 0 <= i < 1 => ClassifyOne([a][i]));
    assert bs == [ClassifyOne(a)];
    assert bs[1..] == [];
  }

  /** `#[path = "s"]`. */
  function PathAttribute(s: string): Attribute
  {
    Attribute(false, ["path"], PathAttrTokens(s))
  }

  /** `#[cfg_attr(P, path = "s")]`. */
  function CfgAttrPathAttribute(p: seq<TokenTree>, s: string): Attribute
  {
    Attribute(false, ["cfg_attr"], [Group(Parenthesis, p + [Comma, Ident("path")] + PathAttrTokens(s))])
  }

  /** `#[path = "s"]` becomes an unguarded override whose payload extracts back to `s`. */
  lemma PathAttributeRoundTrip(s: string)
    ensures ClassifyOne(PathAttribute(s)) == Success(Override(PathOverride(PathAttrTokens(s), None)))
    ensures ExtractPathFromAttr(PathAttrTokens(s)) == Success(s)
  {
  }

  /** The position of the first comma. */
  function FirstComma(ts: seq<TokenTree>): (k: nat)
    requires Comma in ts
    ensures k < |ts| && ts[k] == Comma
  {
    if ts[0] == Comma then 0 else 1 + FirstComma(ts[1..])
  }

  /** A comma with none to its left is the first comma. */
  lemma {:induction false} FirstCommaOfSplit(b: seq<TokenTree>, a: seq<TokenTree>)
    requires Comma !in b
    ensures FirstComma(b + [Comma] + a) == |b|
  {
    var s := b + [Comma] + a;
    if |b| > 0 {
      assert s[0] == b[0];
      assert s[1..] == b[1..] + [Comma] + a;
      FirstCommaOfSplit(b[1..], a);
    }
  }

  /** A sequence splits at most one way around a comma that has no comma to its left. */
  lemma SoleCommaSplit(b1: seq<TokenTree>, a1: seq<TokenTree>, b2: seq<TokenTree>, a2: seq<TokenTree>)
    requires b1 + [Comma] + a1 == b2 + [Comma] + a2
    requires Comma !in b1 && Comma !in b2
    ensures b1 == b2 && a1 == a2
  {
    var s := b1 + [Comma] + a1;
    FirstCommaOfSplit(b1, a1);
    FirstCommaOfSplit(b2, a2);
    assert b1 == s[..|b1|];
    assert b2 == s[..|b2|];
    assert a1 == s[|b1| + 1..];
    assert a2 == s[|b2| + 1..];
  }

  /** The group `P, path rest` with no top-level comma in `P` or `rest` is the override `rest` guarded by `P`. */
  lemma CfgAttrGroupSplit(a: Attribute, p: seq<TokenTree>, rest: seq<TokenTree>)
    requires Comma !in p && Comma !in rest
    requires |p| + |rest| >= 1
    ensures ClassifyCfgAttr(a, p + [Comma, Ident("path")] + rest) == Success(Override(PathOverride(rest, Some(p))))
  {
    var after := [Ident("path")] + rest;
    var inner := p + [Comma] + after;
    assert p + [Comma, Ident("path")] + rest == inner;
    assert Comma !in after;
    CommasAppend(p + [Comma], after);
    CommasAppend(p, [Comma]);
    assert Commas([Comma]) == 1;
    var split := ScanBeforeComma(inner, []).value;
    assert [] + inner == split.before + [Comma] + split.after;
    SoleCommaSplit(p, after, split.before, split.after);
    assert after[1..] == rest;
    assert |inner| >= 3;
  }

  /** A group whose top-level commas are not exactly one is `CfgAttrNotTwoParams`. */
  lemma CfgAttrGroupCommas(a: Attribute, p: seq<TokenTree>, rest: seq<TokenTree>)
    requires Comma in p
    ensures ClassifyCfgAttr(a, p + [Comma, Ident("path")] + rest) == Failure(CfgAttrNotTwoParams)
  {
    var inner := p + [Comma, Ident("path")] + rest;
    assert inner == p + ([Comma] + ([Ident("path")] + rest));
    CommasAppend(p, [Comma] + ([Ident("path")] + rest));
    CommasAppend([Comma], [Ident("path")] + rest);
    assert Commas([Comma]) == 1;
  }

  /**
   * `#[cfg_attr(P, path = "s")]` becomes the override `= "s"` guarded by `P`
   * exactly when `P` has no top-level comma; otherwise it is malformed.
   */
  lemma CfgAttrPathRoundTrip(p: seq<TokenTree>, s: string)
    ensures Comma !in p ==> ClassifyOne(CfgAttrPathAttribute(p, s)) == Success(Override(PathOverride(PathAttrTokens(s), Some(p))))
    ensures Comma in p ==> ClassifyOne(CfgAttrPathAttribute(p, s)) == Failure(CfgAttrNotTwoParams)
  {
    var a := CfgAttrPathAttribute(p, s);
    assert a.IsIdent("cfg_attr") && !a.IsIdent("cfg") && !a.IsIdent("path");
    var inner := p + [Comma, Ident("path")] + PathAttrTokens(s);
    assert ClassifyOne(a) == ClassifyCfgAttr(a, inner);
    if Comma !in p {
      CfgAttrGroupSplit(a, p, PathAttrTokens(s));
    } else {
      CfgAttrGroupCommas(a, p, PathAttrTokens(s));
    }
  }
}
