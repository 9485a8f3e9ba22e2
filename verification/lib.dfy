/**
 * The crate's entry point: expand every `mod name;` of a parsed file, from
 * the crate root, in the mode the resolver selects; and `ResolverHelper`,
 * a resolver built from two closures.
 */
module Lib {
  import opened Base
  import opened Syntax
  import opened Paths
  import opened Errors
  import opened Resolvers
  import opened ExpandImpl
  import opened ExpandProps

  /** What `expand_modules_into_inline_modules` leaves behind, with the resolver calls it made. */
  datatype Outcome =
    | Completed(file: File, calls: seq<Call>)
    | Stopped(error: Error, calls: seq<Call>)
    | FuelExhausted

  /**
   * `expand_modules_into_inline_modules`: expand the file's items from the
   * root module (empty module path, empty directory stacks); the file's
   * own attributes are kept. Every file load is for a module below the root.
   */
  function ExpandModulesIntoInlineModules(content: File, r: Resolver, fuel: nat): (o: Outcome)
    ensures o.Completed? ==> o.file.attrs == content.attrs
    ensures o.Completed? && !r.allowDuplicateModulesAndConvertCfg ==> ReplacedInPlace(content.items, o.file.items)
    ensures o.Completed? && r.allowDuplicateModulesAndConvertCfg ==>
              NonMods(o.file.items) == NonMods(content.items) && AllModsInline(o.file.items)
    ensures !o.FuelExhausted? ==> forall i :: 0 <= i < |o.calls| && o.calls[i].Resolve? ==> |o.calls[i].modulePath| > 0
  {
    match ExpandItems(fuel, r, content.items, [], [], [], r.allowDuplicateModulesAndConvertCfg)
    case Expanded(items, calls) => Completed(content.(items := items), calls)
    case Aborted(e, calls) => Stopped(e, calls)
    case OutOfFuel => FuelExhausted
  }

  /** `ResolverHelper(f1, f2)`: a resolver from two closures, in single mode. */
  function ResolverHelper(f1: (ModPath, Path) -> Result<Option<File>, Error>,
                          f2: Cfg -> Result<bool, UserError>): (r: Resolver)
    ensures !r.allowDuplicateModulesAndConvertCfg
    ensures forall m, p :: r.resolve(m, p) == f1(m, p)
    ensures forall c :: r.checkCfg(c) == f2(c)
  {
    Resolver(f1, f2, false)
  }

  /**
   * A resolver built by `ResolverHelper` never duplicates a module: the
   * expanded file has one item per original item, each either unchanged or
   * the inline form of a `mod name;` with the same name and visibility.
   */
  lemma HelperReplacesInPlace(f1: (ModPath, Path) -> Result<Option<File>, Error>,
                              f2: Cfg -> Result<bool, UserError>, content: File, fuel: nat)
    requires ExpandModulesIntoInlineModules(content, ResolverHelper(f1, f2), fuel).Completed?
    ensures var f := ExpandModulesIntoInlineModules(content, ResolverHelper(f1, f2), fuel).file;
            && |f.items| == |content.items|
            && forall i :: 0 <= i < |f.items| ==>
                 f.items[i] == content.items[i]
                 || (content.items[i].IsExternalMod() && f.items[i].Mod? && f.items[i].body.Inline?
                     && f.items[i].ident == content.items[i].ident)
  {
    var f := ExpandModulesIntoInlineModules(content, ResolverHelper(f1, f2), fuel).file;
    assert ReplacedInPlace(content.items, f.items);
    forall i | 0 <= i < |f.items|
      ensures MayReplace(content.items[i], f.items[i])
    {
    }
  }

  /** A file with no `mod name;` is returned as it is, in single mode, without a call. */
  lemma NothingToExpand(content: File, r: Resolver, fuel: nat)
    requires !r.allowDuplicateModulesAndConvertCfg && NoExternalMods(content.items)
    ensures ExpandModulesIntoInlineModules(content, r, fuel) == Completed(content, [])
  {
    ExpandWithoutExternals(fuel, r, content.items, [], [], [], false);
  }
}
