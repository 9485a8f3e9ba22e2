/** The error taxonomy of the library and how an error is displayed. */
module Errors {
  import opened Base
  import opened Paths
  import opened Syntax

  /** The identifiers from the crate root to a module; the root module is the empty path. */
  type ModPath = seq<string>

  /** An error reported by a user callback; only its message is kept. */
  type UserError = string

  /** Malformed `#[path]`, `#[cfg]` or `#[cfg_attr]` attributes. */
  datatype AttrParseError =
    | NotExactlyTwoTokens
    | FirstTokenIsNotEqualSign
    | SecondTokenIsNotStringLiteral
    | CfgAttrNotRoundGroup
    | CfgAttrNotTwoParams
    | MalformedCfg

  /**
   * The specific reason an expansion failed. `FailedToOpenFile` carries the
   * I/O error's message; `SynParseError` the predicate tokens syn could not
   * parse as a meta.
   */
  datatype ErrorCase =
    | FailedToOpenFile(path: Path, reason: string)
    | MultipleExplicitPathsSpecifiedForOneModule
    | BothModRsAndNameRsPresent
    | AttrParse(attrError: AttrParseError)
    | SynParseError(unparsed: seq<TokenTree>)
    | ErrorFromCallback(callbackError: UserError)

  /** An error together with the module being expanded when it happened. */
  datatype Error = Error(modulePath: ModPath, inner: ErrorCase)

  /** A module path rendered for messages: its identifiers joined by `::`. */
  function PathForDisplay(m: ModPath): string
  {
    Join(m, "::")
  }

  function AttrParseErrorMessage(e: AttrParseError): string
  {
    match e
    case NotExactlyTwoTokens => "#[path] attribute has not exactly two tokens: equal sign and a path"
    case FirstTokenIsNotEqualSign => "#[path] attribute's first token is not an equal sign punctuation"
    case SecondTokenIsNotStringLiteral => "#[path] attribute's second token is not a string literal"
    case CfgAttrNotRoundGroup => "#[cfg_attr] attribute is not followed by a single round brackets group"
    case CfgAttrNotTwoParams => "#[cfg_attr] attribute does not have exactly two parameters"
    case MalformedCfg => "`#[cfg` is not followed by a sole round parentheses group"
  }

  function ErrorCaseMessage(c: ErrorCase): string
  {
    match c
    case FailedToOpenFile(path, reason) => "Cannot open file " + PathToString(path) + ": " + reason
    case MultipleExplicitPathsSpecifiedForOneModule => "The module has multiple explicit #[path] directives"
    case BothModRsAndNameRsPresent => "Both name/mod.rs and name.rs present"
    case AttrParse(e) => "error parsing attribute: " + AttrParseErrorMessage(e)
    case SynParseError(_) => "syn parsing error: "
    case ErrorFromCallback(u) => "Error from callback: " + u
  }

  function ErrorMessage(e: Error): string
  {
    "Expanding module `" + PathForDisplay(e.modulePath) + "`: " + ErrorCaseMessage(e.inner)
  }

  /** The root module is displayed as the empty string, a single module as its own name. */
  lemma DisplayRootAndSingle(name: string)
    ensures PathForDisplay([]) == ""
    ensures PathForDisplay([name]) == name
  {
  }

  /** Displaying a child appends `::` and its name to the parent's display. */
  lemma DisplayChild(parent: ModPath, name: string)
    requires |parent| > 0
    ensures PathForDisplay(parent + [name]) == PathForDisplay(parent) + "::" + name
  {
    JoinSnoc(parent, name, "::");
  }

  /** The display is lossless: splitting it at `::` recovers the module path, since identifiers hold no `:`. */
  lemma DisplayRoundTrip(m: ModPath)
    requires |m| > 0
    requires forall i :: 0 <= i < |m| ==> ':' !in m[i]
    ensures Strings.SplitOn(PathForDisplay(m), "::") == m
  {
    Strings.SplitJoin(m, "::");
  }
}
