/**
 * Which token streams syn 1 accepts as a `syn::Meta`, the form every `cfg`
 * predicate must have: a path (`a`, `a::b`, `::a`), a path followed by one
 * parenthesised list of nested metas or literals (`any(a, "b")`, a trailing
 * comma allowed), or `path = literal`.
 */
module MetaSyntax {
  import opened Base
  import opened Syntax

  /** The number of token trees in a stream, counting nested ones. */
  function StreamSize(ts: seq<TokenTree>): nat
    decreases ts, 1
  {
    if |ts| == 0 then 0 else TreeSize(ts[0]) + StreamSize(ts[1..])
  }

  function TreeSize(t: TokenTree): (n: nat)
    ensures n >= 1
    decreases t, 0
  {
    match t
    case Group(_, s) => 1 + StreamSize(s)
    case _ => 1
  }

  lemma {:induction false} StreamSizeAppend(a: seq<TokenTree>, b: seq<TokenTree>)
    ensures StreamSize(a + b) == StreamSize(a) + StreamSize(b)
    decreases |a|
  {
    if |a| == 0 {
      assert a + b == b;
    } else {
      assert (a + b)[1..] == a[1..] + b;
      StreamSizeAppend(a[1..], b);
    }
  }

  lemma StreamSizeSplit(ts: seq<TokenTree>, k: nat)
    requires k <= |ts|
    ensures StreamSize(ts) == StreamSize(ts[..k]) + StreamSize(ts[k..])
  {
    assert ts == ts[..k] + ts[k..];
    StreamSizeAppend(ts[..k], ts[k..]);
  }

  /** A group's contents are smaller than a stream that holds the group. */
  lemma GroupSmaller(ts: seq<TokenTree>, k: nat)
    requires k < |ts| && ts[k].Group?
    ensures StreamSize(ts[k].stream) < StreamSize(ts)
  {
    StreamSizeSplit(ts, k);
    assert ts[k..] == [ts[k]] + ts[k + 1..];
    StreamSizeAppend([ts[k]], ts[k + 1..]);
    assert [ts[k]][1..] == [];
  }

  /** The position of the first `,` in a stream, or its length. */
  function CommaIndex(ts: seq<TokenTree>): (k: nat)
    ensures k <= |ts|
    ensures forall i :: 0 <= i < k ==> ts[i] != Punct(',')
    ensures k < |ts| ==> ts[k] == Punct(',')
  {
    if |ts| == 0 || ts[0] == Punct(',') then 0 else 1 + CommaIndex(ts[1..])
  }

  /** A literal as `syn::Lit` parses it: one literal token, `true`/`false`, or a negated number. */
  predicate IsLit(ts: seq<TokenTree>)
  {
    || (|ts| == 1 && (ts[0].Literal? || ts[0] == Ident("true") || ts[0] == Ident("false")))
    || (|ts| == 2 && ts[0] == Punct('-') && ts[1].Literal? && (ts[1].lit.LitInt? || ts[1].lit.LitFloat?))
  }

  /** The number of tokens a leading path occupies: `::`? ident (`::` ident)*; 0 if the stream does not start with one. */
  function PathLen(ts: seq<TokenTree>): (n: nat)
    ensures n <= |ts|
  {
    var lead := if |ts| >= 2 && ts[0] == Punct(':') && ts[1] == Punct(':') then 2 else 0;
    if lead < |ts| && ts[lead].Ident? then lead + 1 + SegmentsLen(ts[lead + 1..]) else 0
  }

  /** The number of tokens taken by a run of `:: ident` pairs. */
  function SegmentsLen(ts: seq<TokenTree>): (n: nat)
    ensures n <= |ts|
  {
    if |ts| >= 3 && ts[0] == Punct(':') && ts[1] == Punct(':') && ts[2].Ident? then 3 + SegmentsLen(ts[3..]) else 0
  }

  /** The whole stream is one `syn::Meta`. */
  predicate IsMeta(ts: seq<TokenTree>)
    decreases StreamSize(ts), 0
  {
    var n := PathLen(ts);
    var rest := ts[n..];
    && n > 0
    && (|| rest == []
        || (|rest| == 1 && rest[0].Group? && rest[0].delimiter == Parenthesis
            && (GroupSmaller(ts, n); IsNestedList(rest[0].stream)))
        || (|rest| >= 1 && rest[0] == Punct('=') && IsLit(rest[1..])))
  }

  /** Comma-separated nested metas or literals, a trailing comma allowed. */
  predicate IsNestedList(ts: seq<TokenTree>)
    decreases StreamSize(ts), 1
  {
    if |ts| == 0 then true
    else
      var k := CommaIndex(ts);
      StreamSizeSplit(ts, k);
      && (IsLit(ts[..k]) || IsMeta(ts[..k]))
      && (k == |ts| || (StreamSizeSplit(ts, k + 1); GroupOrTokenSize(ts, k); IsNestedList(ts[k + 1..])))
  }

  lemma GroupOrTokenSize(ts: seq<TokenTree>, k: nat)
    requires k < |ts|
    ensures StreamSize(ts[k + 1..]) < StreamSize(ts)
  {
    StreamSizeSplit(ts, k + 1);
    StreamSizeSplit(ts[..k + 1], k);
    assert ts[..k + 1][k..] == [ts[k]];
  }

  /** Streams joined by commas, as `Punctuated` prints a list. */
  function Commaed(parts: seq<seq<TokenTree>>): seq<TokenTree>
  {
    if |parts| == 0 then []
    else if |parts| == 1 then parts[0]
    else parts[0] + [Punct(',')] + Commaed(parts[1..])
  }

  /** The leading path of a meta holds no comma. */
  lemma {:induction false} SegmentsNoComma(ts: seq<TokenTree>)
    ensures Punct(',') !in ts[..SegmentsLen(ts)]
    decreases |ts|
  {
    if |ts| >= 3 && ts[0] == Punct(':') && ts[1] == Punct(':') && ts[2].Ident? {
      SegmentsNoComma(ts[3..]);
      assert ts[..SegmentsLen(ts)] == ts[..3] + ts[3..][..SegmentsLen(ts[3..])];
    }
  }

  /** A meta has no comma outside its groups, so it can stand as one element of a list. */
  lemma MetaNoComma(ts: seq<TokenTree>)
    requires IsMeta(ts)
    ensures Punct(',') !in ts
  {
    var n := PathLen(ts);
    var lead := if |ts| >= 2 && ts[0] == Punct(':') && ts[1] == Punct(':') then 2 else 0;
    var segs := ts[lead + 1..];
    SegmentsNoComma(segs);
    assert n == lead + 1 + SegmentsLen(segs);
    assert ts[..n] == ts[..lead + 1] + segs[..SegmentsLen(segs)];
    assert Punct(',') !in ts[..lead + 1];
    AfterPathNoComma(ts[n..]);
    assert ts == ts[..n] + ts[n..];
  }

  lemma AfterPathNoComma(rest: seq<TokenTree>)
    requires || rest == []
             || (|rest| == 1 && rest[0].Group?)
             || (|rest| >= 1 && rest[0] == Punct('=') && IsLit(rest[1..]))
    ensures Punct(',') !in rest
  {
    if |rest| >= 1 && rest[0] == Punct('=') {
      assert rest == [rest[0]] + rest[1..];
    }
  }

  /** Metas joined by commas form a nested list. */
  lemma {:induction false} NestedListOfMetas(parts: seq<seq<TokenTree>>)
    requires forall i :: 0 <= i < |parts| ==> IsMeta(parts[i])
    ensures IsNestedList(Commaed(parts))
    decreases |parts|
  {
    if |parts| == 1 {
      MetaNoComma(parts[0]);
      var ts := Commaed(parts);
      assert CommaIndex(ts) == |ts|;
      assert ts[..|ts|] == ts;
    } else if |parts| > 1 {
      MetaNoComma(parts[0]);
      var p := parts[0];
      var rest := Commaed(parts[1..]);
      var ts := Commaed(parts);
      assert ts == p + [Punct(',')] + rest;
      assert ts[|p|] == Punct(',');
      assert CommaIndex(ts) == |p|;
      assert ts[..|p|] == p;
      assert ts[|p| + 1..] == rest;
      NestedListOfMetas(parts[1..]);
    }
  }

  /** `name(items..)` is a meta when its items are. */
  lemma ListIsMeta(name: string, parts: seq<seq<TokenTree>>)
    requires forall i :: 0 <= i < |parts| ==> IsMeta(parts[i])
    ensures IsMeta([Ident(name), Group(Parenthesis, Commaed(parts))])
  {
    var ts := [Ident(name), Group(Parenthesis, Commaed(parts))];
    assert SegmentsLen(ts[1..]) == 0;
    assert PathLen(ts) == 1;
    assert ts[1..] == [Group(Parenthesis, Commaed(parts))];
    NestedListOfMetas(parts);
  }

  /** `name` and `name = "value"` are metas; an empty stream, a lone literal or two items without a list are not. */
  lemma MetaExamples(name: string, value: string)
    ensures IsMeta([Ident(name)])
    ensures IsMeta([Ident(name), Punct('='), Literal(LitStr(value))])
    ensures !IsMeta([])
    ensures !IsMeta([Literal(LitStr(value))])
    ensures !IsMeta([Ident(name), Punct(','), Ident(name)])
  {
    var a := [Ident(name), Punct('='), Literal(LitStr(value))];
    assert SegmentsLen(a[1..]) == 0;
    assert a[1..][1..] == [Literal(LitStr(value))];
    var b := [Ident(name), Punct(','), Ident(name)];
    assert SegmentsLen(b[1..]) == 0;
    assert SegmentsLen([Ident(name)][1..]) == 0;
  }
}
