/**
 * The two names the command-line tool derives from a `cfg` predicate's
 * tokens: an environment-variable name (`feature = "qqq"` becomes
 * `FEATURE_QQQ`) and the spelling shown on the command line
 * (`feature="qqq"` becomes `feature=qqq`).
 *
 * `EnvName` and `CliName` are the recursive definitions; `GetEnvName` and
 * `GetCliName` are the token-by-token loops of the tool, proved equal to them.
 */
module GetCfgName {
  import opened Base
  import opened Syntax
  import Strings
  import MetaSyntax

  /** `char::to_ascii_uppercase`: only `a`..`z` change. */
  function AsciiUpper(c: char): char
  {
    if 'a' <= c <= 'z' then (c as int - 32) as char else c
  }

  function UpperString(s: string): string
  {
    seq(|s|, i requires 0 <= i < |s| => AsciiUpper(s[i]))
  }

  /** One character of a string literal in an environment name. */
  function EnvStrChar(c: char): char
  {
    if c == ' ' || c == '-' then '_' else AsciiUpper(c)
  }

  function EnvString(s: string): string
  {
    seq(|s|, i requires 0 <= i < |s| => EnvStrChar(s[i]))
  }

  function BoolText(b: bool): string
  {
    if b then "true" else "false"
  }

  /** What a literal contributes to the environment name. */
  function EnvLit(l: Lit): string
  {
    match l
    case LitStr(v) => EnvString(v)
    case LitChar(c) => [c]
    case LitInt(text) => text
    case LitBool(b) => BoolText(b)
    case _ => ""
  }

  /** What a literal contributes to the command-line name. */
  function CliLit(l: Lit): string
  {
    match l
    case LitStr(v) => v
    case LitChar(c) => [c]
    case LitInt(text) => text
    case LitBool(b) => BoolText(b)
    case _ => ""
  }

  /** A token tree's own contribution to the environment name; a group contributes the name of its contents. */
  function EnvFragment(t: TokenTree): string
    decreases t, 0
  {
    match t
    case Group(_, s) => EnvName(s)
    case Ident(name) => UpperString(name)
    case Literal(l) => EnvLit(l)
    case Punct(_) => ""
  }

  /** The non-empty fragments of a stream, in order. */
  function EnvParts(ts: seq<TokenTree>): (r: seq<string>)
    ensures forall i :: 0 <= i < |r| ==> r[i] != ""
    decreases ts, 1
  {
    if |ts| == 0 then []
    else
      var f := EnvFragment(ts[0]);
      (if f == "" then [] else [f]) + EnvParts(ts[1..])
  }

  /** The environment name: the non-empty fragments joined by single underscores. */
  function EnvName(ts: seq<TokenTree>): string
    decreases ts, 2
  {
    Join(EnvParts(ts), "_")
  }

  function Open(d: Delimiter): string
  {
    match d
    case Parenthesis => "("
    case Brace => "{"
    case Bracket => "["
    case NoDelimiter => ""
  }

  function Close(d: Delimiter): string
  {
    match d
    case Parenthesis => ")"
    case Brace => "}"
    case Bracket => "]"
    case NoDelimiter => ""
  }

  /** A token tree as the command line spells it; a group keeps its delimiters. */
  function CliFragment(t: TokenTree): string
    decreases t, 0
  {
    match t
    case Group(d, s) => Open(d) + CliName(s) + Close(d)
    case Ident(name) => name
    case Literal(l) => CliLit(l)
    case Punct(c) => [c]
  }

  /** The command-line name: the fragments concatenated with no separator. */
  function CliName(ts: seq<TokenTree>): string
    decreases ts, 1
  {
    if |ts| == 0 then "" else CliFragment(ts[0]) + CliName(ts[1..])
  }

  /** The part a token adds to the list of non-empty fragments. */
  function PartOf(t: TokenTree): seq<string>
  {
    var f := EnvFragment(t);
    if f == "" then [] else [f]
  }

  lemma {:induction false} EnvPartsAppend(a: seq<TokenTree>, b: seq<TokenTree>)
    ensures EnvParts(a + b) == EnvParts(a) + EnvParts(b)
    decreases |a|
  {
    if |a| == 0 {
      assert a + b == b;
    } else {
      assert (a + b)[0] == a[0];
      assert (a + b)[1..] == a[1..] + b;
      EnvPartsAppend(a[1..], b);
    }
  }

  lemma EnvPartsSingle(t: TokenTree)
    ensures EnvParts([t]) == PartOf(t)
  {
    assert [t][1..] == [];
  }

  /**
   * `get_env_name`: walk the stream once, appending each non-empty
   * fragment, preceded by `_` when something was appended before.
   */
  method GetEnvName(ts: seq<TokenTree>) returns (buf: string)
    ensures buf == EnvName(ts)
    decreases MetaSyntax.StreamSize(ts)
  {
    buf := "";
    var needUnderscore := false;
    var i := 0;
    while i < |ts|
      invariant 0 <= i <= |ts|
      invariant buf == Join(EnvParts(ts[..i]), "_")
      invariant needUnderscore <==> |EnvParts(ts[..i])| > 0
      decreases |ts| - i
    {
      var t := ts[i];
      var toInsert: string;
      match t {
        case Group(_, s) =>
          MetaSyntax.GroupSmaller(ts, i);
          toInsert := GetEnvName(s);
        case Ident(name) =>
          toInsert := UpperString(name);
        case Literal(l) =>
          toInsert := EnvLit(l);
        case Punct(_) =>
          toInsert := "";
      }
      assert toInsert == EnvFragment(t);
      assert ts[..i + 1] == ts[..i] + [t];
      EnvPartsAppend(ts[..i], [t]);
      EnvPartsSingle(t);
      if toInsert != "" {
        JoinSnoc(EnvParts(ts[..i]), toInsert, "_");
        if needUnderscore {
          buf := buf + "_";
        }
        buf := buf + toInsert;
        needUnderscore := true;
      } else {
        assert EnvParts(ts[..i]) + [] == EnvParts(ts[..i]);
      }
      i := i + 1;
    }
    assert ts[..i] == ts;
  }

  /** `get_cli_name`: walk the stream once, appending each fragment. */
  method GetCliName(ts: seq<TokenTree>) returns (buf: string)
    ensures buf == CliName(ts)
    decreases MetaSyntax.StreamSize(ts)
  {
    buf := "";
    var i := 0;
    while i < |ts|
      invariant 0 <= i <= |ts|
      invariant buf == CliName(ts[..i])
      decreases |ts| - i
    {
      var t := ts[i];
      var toInsert: string;
      match t {
        case Group(d, s) =>
          MetaSyntax.GroupSmaller(ts, i);
          var inner := GetCliName(s);
          toInsert := Open(d) + inner + Close(d);
        case Ident(name) =>
          toInsert := name;
        case Literal(l) =>
          toInsert := CliLit(l);
        case Punct(c) =>
          toInsert := [c];
      }
      assert ts[..i + 1] == ts[..i] + [t];
      CliNameAppend(ts[..i], [t]);
      assert [t][1..] == [];
      buf := buf + toInsert;
      i := i + 1;
    }
    assert ts[..i] == ts;
  }

  /** Two strings put together as `get_env_name` puts fragments together. */
  function Glue(x: string, y: string): string
  {
    if x == "" then y else if y == "" then x else x + "_" + y
  }

  /** The environment name of a concatenation is the two names glued with one `_`, or whichever is non-empty. */
  lemma EnvNameAppend(a: seq<TokenTree>, b: seq<TokenTree>)
    ensures EnvName(a + b) == Glue(EnvName(a), EnvName(b))
  {
    EnvPartsAppend(a, b);
    JoinAppend(EnvParts(a), EnvParts(b), "_");
    JoinEmpty(EnvParts(a), "_");
    JoinEmpty(EnvParts(b), "_");
  }

  /** A group contributes the name of its contents: delimiters are dropped and nesting is flattened. */
  lemma EnvNameGroupFlattened(a: seq<TokenTree>, d: Delimiter, s: seq<TokenTree>, b: seq<TokenTree>)
    ensures EnvName(a + [Group(d, s)] + b) == EnvName(a + s + b)
  {
    var g := Group(d, s);
    EnvPartsSingle(g);
    JoinEmpty(EnvParts(s), "_");
    assert EnvName([g]) == EnvName(s);
    EnvNameAppend(a, [g]);
    EnvNameAppend(a + [g], b);
    EnvNameAppend(a, s);
    EnvNameAppend(a + s, b);
  }

  /** Tokens the environment name ignores: punctuation and byte, byte-string, float and unrecognised literals. */
  predicate EnvSilent(t: TokenTree)
  {
    || t.Punct?
    || (t.Literal? && (t.lit.LitByteStr? || t.lit.LitByte? || t.lit.LitFloat? || t.lit.LitVerbatim?))
  }

  lemma EnvNameSilent(a: seq<TokenTree>, t: TokenTree, b: seq<TokenTree>)
    requires EnvSilent(t)
    ensures EnvName(a + [t] + b) == EnvName(a + b)
  {
    EnvPartsSingle(t);
    assert EnvName([t]) == "";
    EnvNameAppend(a, [t]);
    EnvNameAppend(a + [t], b);
    EnvNameAppend(a, b);
  }

  /** An identifier contributes itself ASCII-upper-cased; a string literal also turns spaces and dashes into `_`. */
  lemma EnvNameOfIdentAndString(name: string, value: string)
    ensures EnvName([Ident(name)]) == UpperString(name)
    ensures EnvName([Literal(LitStr(value))]) == EnvString(value)
    ensures forall i :: 0 <= i < |EnvString(value)| ==>
      EnvString(value)[i] == (if value[i] in " -" then '_' else AsciiUpper(value[i]))
  {
    EnvPartsSingle(Ident(name));
    EnvPartsSingle(Literal(LitStr(value)));
  }

  /**
   * When no fragment holds `_`, splitting the name at `_` gives back the
   * fragments: exactly one underscore between neighbours, none at either end.
   */
  lemma EnvNameSplits(ts: seq<TokenTree>)
    requires forall i :: 0 <= i < |EnvParts(ts)| ==> '_' !in EnvParts(ts)[i]
    requires |EnvParts(ts)| > 0
    ensures Strings.SplitOn(EnvName(ts), "_") == EnvParts(ts)
    ensures forall i :: 0 <= i < |Strings.SplitOn(EnvName(ts), "_")| ==> Strings.SplitOn(EnvName(ts), "_")[i] != ""
  {
    Strings.SplitJoin(EnvParts(ts), "_");
  }

  /** The command-line name of a concatenation is the concatenation of the names. */
  lemma {:induction false} CliNameAppend(a: seq<TokenTree>, b: seq<TokenTree>)
    ensures CliName(a + b) == CliName(a) + CliName(b)
    decreases |a|
  {
    if |a| == 0 {
      assert a + b == b;
    } else {
      assert (a + b)[0] == a[0];
      assert (a + b)[1..] == a[1..] + b;
      CliNameAppend(a[1..], b);
    }
  }

  /** A group is spelled inside its own delimiter pair. */
  lemma CliNameGroup(a: seq<TokenTree>, d: Delimiter, s: seq<TokenTree>, b: seq<TokenTree>)
    ensures CliName(a + [Group(d, s)] + b) == CliName(a) + (Open(d) + CliName(s) + Close(d)) + CliName(b)
  {
    var g := Group(d, s);
    assert [g][1..] == [];
    assert CliName([g]) == Open(d) + CliName(s) + Close(d);
    CliNameAppend(a, [g]);
    CliNameAppend(a + [g], b);
  }

  /** An invisible group is spelled bare, as if its contents stood in its place. */
  lemma CliNameBareGroup(a: seq<TokenTree>, s: seq<TokenTree>, b: seq<TokenTree>)
    ensures CliName(a + [Group(NoDelimiter, s)] + b) == CliName(a + s + b)
  {
    CliNameGroup(a, NoDelimiter, s, b);
    assert Open(NoDelimiter) + CliName(s) + Close(NoDelimiter) == CliName(s);
    CliNameAppend(a, s);
    CliNameAppend(a + s, b);
  }

  /** `feature = "qqq"`: `FEATURE_QQQ` in the environment, `feature=qqq` on the command line. */
  lemma FeatureExample()
    ensures EnvName([Ident("feature"), Punct('='), Literal(LitStr("qqq"))]) == "FEATURE_QQQ"
    ensures CliName([Ident("feature"), Punct('='), Literal(LitStr("qqq"))]) == "feature=qqq"
  {
    var ts := [Ident("feature"), Punct('='), Literal(LitStr("qqq"))];
    assert UpperString("feature") == "FEATURE";
    assert EnvString("qqq") == "QQQ";
    assert ts[1..] == [Punct('='), Literal(LitStr("qqq"))];
    assert ts[1..][1..] == [Literal(LitStr("qqq"))];
    assert ts[1..][1..][1..] == [];
    assert EnvParts(ts) == ["FEATURE", "QQQ"];
    assert ["FEATURE", "QQQ"][1..] == ["QQQ"];
  }

  /** `not(unix)`: `NOT_UNIX` in the environment, `not(unix)` on the command line. */
  lemma NestedExample()
    ensures EnvName([Ident("not"), Group(Parenthesis, [Ident("unix")])]) == "NOT_UNIX"
    ensures CliName([Ident("not"), Group(Parenthesis, [Ident("unix")])]) == "not(unix)"
  {
    var inner := [Ident("unix")];
    var ts := [Ident("not"), Group(Parenthesis, inner)];
    assert UpperString("not") == "NOT";
    assert UpperString("unix") == "UNIX";
    assert inner[1..] == [];
    assert EnvParts(inner) == ["UNIX"];
    assert EnvName(inner) == "UNIX";
    assert ts[1..] == [Group(Parenthesis, inner)];
    assert ts[1..][1..] == [];
    assert EnvFragment(ts[0]) == "NOT";
    assert EnvFragment(ts[1]) == "UNIX";
    assert EnvParts(ts[1..]) == ["UNIX"];
    assert EnvParts(ts) == ["NOT", "UNIX"];
    assert ["NOT", "UNIX"][1..] == ["UNIX"];
    assert CliName(inner) == "unix";
  }
}
