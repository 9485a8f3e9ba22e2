/**
 * The syntax-tree shapes the engine and the command-line helpers work on:
 * proc_macro2 token trees and the part of syn's item tree that is inspected
 * or rebuilt. Anything else an item carries is kept as an opaque token
 * sequence (`sig`), copied verbatim.
 */
module Syntax {
  import opened Base

  datatype Delimiter = Parenthesis | Brace | Bracket | NoDelimiter

  /** A literal token as `syn::Lit` classifies it. */
  datatype Lit =
    | LitStr(value: string)
    | LitByteStr(text: string)
    | LitByte(text: string)
    | LitChar(ch: char)
    | LitInt(text: string)
    | LitFloat(text: string)
    | LitBool(b: bool)
    | LitVerbatim(text: string)

  datatype TokenTree =
    | Group(delimiter: Delimiter, stream: seq<TokenTree>)
    | Ident(name: string)
    | Punct(ch: char)
    | Literal(lit: Lit)

  /** `#[path tokens]`; `global` is a leading `::` on the path. */
  datatype Attribute = Attribute(global: bool, path: seq<string>, tokens: seq<TokenTree>)
  {
    /** syn's `Path::get_ident`: the path is one plain identifier. */
    function GetIdent(): Option<string>
    {
      if !global && |path| == 1 then Some(path[0]) else None
    }

    predicate IsIdent(name: string)
    {
      GetIdent() == Some(name)
    }
  }

  datatype Block = Block(stmts: seq<Stmt>)

  datatype Stmt =
    | ExprStmt(expr: Expr, semi: bool)
    | OtherStmt(tokens: seq<TokenTree>)

  datatype Expr =
    | Loop(attrs: seq<Attribute>, loopLabel: Option<string>, body: Block)
    | OtherExpr(tokens: seq<TokenTree>)

  datatype TraitItem =
    | TraitConst(attrs: seq<Attribute>, sig: seq<TokenTree>, defaultExpr: Option<Expr>)
    | TraitFn(attrs: seq<Attribute>, sig: seq<TokenTree>, defaultBody: Option<Block>)
    | TraitType(attrs: seq<Attribute>, sig: seq<TokenTree>)
    | TraitMacro(attrs: seq<Attribute>, mac: seq<TokenTree>)
    | TraitVerbatim(tokens: seq<TokenTree>)

  datatype ImplItem =
    | ImplConst(attrs: seq<Attribute>, sig: seq<TokenTree>, expr: Expr)
    | ImplFn(attrs: seq<Attribute>, sig: seq<TokenTree>, block: Block)
    | ImplType(attrs: seq<Attribute>, sig: seq<TokenTree>)
    | ImplMacro(attrs: seq<Attribute>, mac: seq<TokenTree>)
    | ImplVerbatim(tokens: seq<TokenTree>)

  /** An enum variant or a struct/union field. */
  datatype Member = Member(attrs: seq<Attribute>, sig: seq<TokenTree>)

  /**
   * A module body: `mod m { items }` or `mod m;`. syn allows a module with
   * both or neither, on which the engine panics; here that is unrepresentable.
   */
  datatype ModBody = Inline(items: seq<Item>) | External

  datatype Item =
    | Const(attrs: seq<Attribute>, sig: seq<TokenTree>, expr: Expr)
    | Static(attrs: seq<Attribute>, sig: seq<TokenTree>, expr: Expr)
    | Fn(attrs: seq<Attribute>, sig: seq<TokenTree>, block: Block)
    | Trait(attrs: seq<Attribute>, sig: seq<TokenTree>, traitItems: seq<TraitItem>)
    | Impl(attrs: seq<Attribute>, sig: seq<TokenTree>, implItems: seq<ImplItem>)
    | Mod(attrs: seq<Attribute>, vis: seq<TokenTree>, ident: string, body: ModBody)
    | Macro(attrs: seq<Attribute>, mac: seq<TokenTree>)
    | ForeignMod(attrs: seq<Attribute>, sig: seq<TokenTree>)
    | ExternCrate(attrs: seq<Attribute>, sig: seq<TokenTree>)
    | Enum(attrs: seq<Attribute>, sig: seq<TokenTree>, variants: seq<Member>)
    | Struct(attrs: seq<Attribute>, sig: seq<TokenTree>, fields: seq<Member>)
    | Union(attrs: seq<Attribute>, sig: seq<TokenTree>, namedFields: seq<Member>)
    | TraitAlias(attrs: seq<Attribute>, sig: seq<TokenTree>)
    | TypeAlias(attrs: seq<Attribute>, sig: seq<TokenTree>)
    | Use(attrs: seq<Attribute>, sig: seq<TokenTree>)
    | Verbatim(tokens: seq<TokenTree>)
  {
    /** `mod name;` — the only item the engine resolves. */
    predicate IsExternalMod()
    {
      Mod? && body.External?
    }
  }

  /** A parsed source file: inner attributes and items. */
  datatype File = File(attrs: seq<Attribute>, items: seq<Item>)
}
