/**
 * The resolver the engine consults: loading a module's file and evaluating
 * a `cfg` predicate are callbacks, modelled as pure functions. The engine
 * also reports the calls it makes, in order.
 */
module Resolvers {
  import opened Base
  import opened Syntax
  import opened Paths
  import opened Errors

  /**
   * A `syn::Meta` passed to `check_cfg` or rendered into a `#[cfg(..)]`:
   * a predicate as written in an attribute, kept as its tokens, or the
   * `not(any(..))` the engine synthesizes.
   */
  datatype Cfg = Meta(tokens: seq<TokenTree>) | NotAny(alts: seq<Cfg>)

  /** One call into the resolver. */
  datatype Call = CheckCfg(cfg: Cfg) | Resolve(modulePath: ModPath, path: Path)

  /**
   * The `Resolver` trait. `resolve` answers a file (`Some`), no file
   * (`None`) or an error; `checkCfg` answers a predicate or a user error;
   * `allowDuplicateModulesAndConvertCfg` selects the multi-variant mode.
   */
  datatype Resolver = Resolver(
    resolve: (ModPath, Path) -> Result<Option<File>, Error>,
    checkCfg: Cfg -> Result<bool, UserError>,
    allowDuplicateModulesAndConvertCfg: bool)

  /** The calls that load a file, in order. */
  function Resolves(calls: seq<Call>): (r: seq<Call>)
    ensures forall i :: 0 <= i < |r| ==> r[i].Resolve? && r[i] in calls
    ensures |r| <= |calls|
  {
    if |calls| == 0 then []
    else (if calls[0].Resolve? then [calls[0]] else []) + Resolves(calls[1..])
  }

  lemma {:induction false} ResolvesAppend(a: seq<Call>, b: seq<Call>)
    ensures Resolves(a + b) == Resolves(a) + Resolves(b)
  {
    if |a| == 0 {
      assert a + b == b;
    } else {
      assert (a + b)[0] == a[0];
      assert (a + b)[1..] == a[1..] + b;
      ResolvesAppend(a[1..], b);
    }
  }
}
