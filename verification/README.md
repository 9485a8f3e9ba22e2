# syn-file-expand, modelled in Dafny

`syn-file-expand` takes a parsed Rust source file and replaces every
out-of-line module declaration `mod name;` with an inline module
`mod name { ... }` holding the contents of the file that declaration refers
to. It does this recursively, and it never reads a file itself. A caller-supplied
`Resolver` loads each candidate file and answers each `cfg` predicate. The
engine works out which files are candidates:

- the conventional `name.rs` and `name/mod.rs` under a "natural" directory
  stack;
- or explicit `#[path = "..."]` and `#[cfg_attr(P, path = "...")]`
  overrides, joined onto an "attribute" directory stack.

It applies `#[cfg(P)]` guards and enforces the conflict rules. In
multi-variant mode (`allow_duplicate_modules_and_convert_cfg`) it keeps
every variant instead of rejecting conflicts, and gates each one with a
synthesised `#[cfg(..)]`.

The companion command-line tool adds three passes that are modelled here:

- the environment-variable and command-line names it derives from a `cfg`
  predicate;
- `--undoc`, which strips `#[doc]` attributes;
- `--loopify`, which replaces code bodies with `loop {}`.

## Layout

| file | module | what it holds |
|---|---|---|
| base.dfy | `Base`, `Strings` | `Option`, `Result`, `Join`, `SplitOn` and their round trip |
| syntax.dfy | `Syntax` | token trees, attributes, items, files |
| paths.dfy | `Paths` | relative paths as component lists; `PathBuf::from`, `parent`, pushing a directory stack |
| errors.dfy | `Errors` | `AttrParseError`, `ErrorCase`, `Error`, `PathForDisplay` and the messages |
| resolvers.dfy | `Resolvers` | the `Resolver` trait as pure functions, and the trace of calls made into it |
| meta.dfy | `MetaSyntax` | which token streams parse as a `syn::Meta` |
| attrs.dfy | `Attrs` | `extract_path_from_attr` and `read_and_process_attributes` |
| expand_impl.dfy | `ExpandImpl` | `expand_impl`, split into its phases |
| expand_props.dfy | `ExpandProps` | properties of the engine over all inputs |
| lib.dfy | `Lib` | `expand_modules_into_inline_modules` and `ResolverHelper` |
| scenarios.dfy | `Scenarios` | the documented example and two worked multi-attribute cases |
| getcfgname.dfy | `GetCfgName` | `get_env_name` and `get_cli_name` |
| undoc.dfy | `Undoc` | the `--undoc` pass |
| loopify.dfy | `Loopify` | the `--loopify` pass |

### The resolver

A resolver is a value: `resolve` and `checkCfg` are total functions, and
the mode flag is a field.

Every engine function returns the error or result it computes together with
the sequence of calls it made into the resolver, in order. Call order and
call counts can therefore be stated.

`expand_impl` is recursive through the files it loads. Its model takes a
`fuel` argument that is spent one unit per descent into a loaded file. It
reports `OutOfFuel` when the fuel runs out.

### Phases of the engine

The engine is split into phases that follow the source's own blocks:

- `Classify` reads the attributes.
- `CheckGuards` checks the `#[cfg]` guards.
- `OverrideStep` and `ProcessOverrides` run the loop over path overrides.
- `NaturalLookup` is the conventional lookup.
- `PlanModule` and `FindCandidates` chain the phases above.
- `ExpandCopies` splices the candidates in.
- `ExpandItem` and `ExpandItems` walk the items.

### Where the model follows the code

- Inline modules are not descended into. An inline module `mod m { ... }` is kept unchanged in
  single mode and disappears from the output in multi-variant mode, because
  the source `continue`s before pushing it (src/expand_impl.rs:28).
- A module whose `#[cfg]` guard is false is kept unexpanded in single mode
  and dropped in multi-variant mode (src/expand_impl.rs:117).
- The `explicit_paths` test in tests/test.rs expects `#[path = "qqq.rs"] mod qqq;`
  to look for the nested `mod www;` under `qqq/www.rs` (tests/test.rs:202).
  By the code, the override's parent directory is the empty path and both stacks become that
  directory (src/expand_impl.rs:138-141, 159-160), so the code asks for
  `www.rs`. The model does what the code does.

## Model

| member | source | states |
|---|---|---|
| Paths.Parent | src/expand_impl.rs:138-141 | a path has no parent exactly when it is empty; otherwise the parent plus the last component is the path |
| Paths.PathFromString | src/expand_impl.rs:129-136 | the components of `PathBuf::from` of the attribute's string are all real names: empty segments and interior `.` segments are gone (a leading `.` is not modelled) |
| Paths.PathStringRoundTrip | src/expand_impl.rs:136 | rendering a relative path and parsing it back with `PathBuf::from` gives the same components |
| Paths.FlattenSnoc | src/expand_impl.rs:60-66 | pushing a directory stack one more directory appends that directory's components |
| Errors.DisplayRootAndSingle | src/lib.rs:56-69 | the root module displays as the empty string, a one-segment path as its identifier |
| Errors.DisplayChild | src/lib.rs:64-69 | displaying a child module appends `::` and its name to the parent's display |
| Errors.DisplayRoundTrip | src/lib.rs:64-69 | the display is lossless: splitting at `::` gives back the module path when no identifier holds `:` |
| Strings.SplitJoin | src/lib.rs:67 | splitting a `join` at its separator gives back the joined parts |
| Resolvers.ResolvesAppend | src/lib.rs:73-101 | the file loads of two traces are the loads of each, in order |
| Attrs.ExtractPathFromAttr | src/attrs.rs:14-52 | a payload not of two tokens is `NotExactlyTwoTokens`; a first token other than `=` is `FirstTokenIsNotEqualSign`; a second token that is not a string literal is `SecondTokenIsNotStringLiteral` |
| Attrs.ExtractPathRoundTrip | src/attrs.rs:14-52 | a payload yields the path `s` exactly when it is `= "s"` |
| Attrs.ScanBeforeComma | src/attrs.rs:97-119 | the comma loop succeeds exactly when the group has one top-level comma, and then splits it around that comma |
| Attrs.ScanAfterComma | src/attrs.rs:100-116 | after the comma, a second comma is `CfgAttrNotTwoParams`; otherwise every token goes after it |
| Attrs.ClassifyCfgAttr | src/attrs.rs:93-133 | fewer than three inner tokens or a top-level comma count other than one is `CfgAttrNotTwoParams`; `P, path rest` is the override `rest` guarded by `P`; anything else passes through unchanged |
| Attrs.ClassifyOne | src/attrs.rs:60-136 | an attribute that is not `cfg`, `path` or `cfg_attr` passes through unchanged |
| Attrs.ClassifyCfg | src/attrs.rs:62-72 | `#[cfg]` succeeds exactly on one round group, recording its inner stream as a guard; any other shape is `MalformedCfg` |
| Attrs.ClassifyPath | src/attrs.rs:73-76 | `#[path ...]` is an unguarded override holding its raw tokens, not yet validated |
| Attrs.ClassifyCfgAttrCases | src/attrs.rs:77-134 | `#[cfg_attr]` that is not one round group is `CfgAttrNotRoundGroup`; the group's failures and overrides are as for `ClassifyCfgAttr` |
| Attrs.Gather | src/attrs.rs:60-138 | collecting per-attribute results succeeds exactly when every attribute does, and then every attribute lands in exactly one bucket |
| Attrs.Classify | src/attrs.rs:54-139 | `read_and_process_attributes` succeeds exactly when every attribute classifies; the three buckets together hold one entry per attribute |
| Attrs.ClassifyAppend | src/attrs.rs:60-137 | classifying a concatenation is classifying each part and concatenating buckets: order is kept in each bucket and the first malformed attribute decides the error |
| Attrs.ClassifySingle | src/attrs.rs:60-136 | a single attribute lands in the bucket its own classification names |
| Attrs.PathAttributeRoundTrip | src/attrs.rs:73-76 | `#[path = "s"]` becomes an unguarded override whose payload extracts back to `s` |
| Attrs.SoleCommaSplit | src/attrs.rs:97-116 | a stream splits at most one way around a comma with no comma to its left |
| Attrs.CfgAttrGroupSplit | src/attrs.rs:121-130 | `P, path rest` with no top-level comma in `P` or `rest` is the override `rest` guarded by `P` |
| Attrs.CfgAttrGroupCommas | src/attrs.rs:102-105 | a comma inside `P` makes a second top-level comma: `CfgAttrNotTwoParams` |
| Attrs.CfgAttrPathRoundTrip | src/attrs.rs:77-133 | `#[cfg_attr(P, path = "s")]` is the override `= "s"` guarded by `P` exactly when `P` has no top-level comma, and malformed otherwise |
| MetaSyntax.MetaNoComma | src/expand_impl.rs:112 | a meta has no top-level comma |
| MetaSyntax.NestedListOfMetas | src/expand_impl.rs:233-241 | metas joined by commas form a nested-meta list |
| MetaSyntax.ListIsMeta | src/expand_impl.rs:230-244 | `name(m1, .., mk)` is a meta when each `mi` is |
| MetaSyntax.MetaExamples | src/expand_impl.rs:112 | `name` and `name = "v"` are metas; the empty stream, a lone literal and two comma-separated items are not |
| ExpandImpl.Prefixed | src/expand_impl.rs:113-116 | putting calls in front of a phase keeps its outcome and value and prepends the calls |
| ExpandImpl.FirstNotHolding | src/expand_impl.rs:111-119 | the index of the first guard that does not hold: every earlier guard holds |
| ExpandImpl.GuardCalls | src/expand_impl.rs:113 | one `check_cfg` call per guard, in order, with that guard's tokens |
| ExpandImpl.CheckGuards | src/expand_impl.rs:111-119 | the guard loop's outcome is decided by the first guard that does not hold: all hold; it does not parse; the resolver says false; or the resolver fails |
| ExpandImpl.FirstGuardDecides | src/expand_impl.rs:111-119 | a first guard that parses but does not hold stops the loop after one call |
| ExpandImpl.GuardOutcomeCons | src/expand_impl.rs:111-119 | past a guard that holds, the outcome is that of the remaining guards with one more call in front |
| ExpandImpl.OverrideStep | src/expand_impl.rs:124-175 | one override step: single mode keeps at most one candidate; candidates only grow, by at most one; in multi mode the conventional lookup stays due exactly when this override is guarded; every load names the module |
| ExpandImpl.ProcessOverrides | src/expand_impl.rs:124-177 | the whole override loop: single mode keeps at most one candidate (the source's own assertion); in multi mode the conventional lookup stays due exactly when every override is guarded; every load names the module |
| ExpandImpl.NaturalLookup | src/expand_impl.rs:179-227 | `name.rs` is asked first, then `name/mod.rs` unless the first answer was an error other than failing to open; both found is `BothModRsAndNameRsPresent`; in multi mode two open failures give no file |
| ExpandImpl.PlanModule | src/expand_impl.rs:100-177 | a planned expansion has exactly one candidate in single mode and at least one in multi mode; every load names the module |
| ExpandImpl.FindCandidates | src/expand_impl.rs:121-259 | the candidate list is non-empty, and has exactly one entry in single mode |
| ExpandImpl.ExpandItems | src/expand_impl.rs:22-328 | single mode replaces each item in place; multi mode keeps the non-module items in order and leaves only inline modules; every load is below the current module |
| ExpandImpl.ExpandItem | src/expand_impl.rs:22-323 | one item becomes one item in single mode, and in multi mode becomes its non-module self or inline module copies |
| ExpandImpl.Loaded | src/expand_impl.rs:268 | the candidates that found a file, each with a file |
| ExpandImpl.ExpandCopies | src/expand_impl.rs:261-323 | each candidate with a file becomes one inline `mod name` with the declaration's visibility and attributes, in order; single mode stops after the first |
| ExpandImpl.NonModsAppend | src/expand_impl.rs:32-36 | the non-module items of a concatenation are those of each part |
| ExpandProps.NonModuleItemKept | src/expand_impl.rs:32-37 | an item that is not a module is kept unchanged, in both modes, with no call |
| ExpandProps.InlineModuleNotDescended | src/expand_impl.rs:28 | an inline module is kept unchanged in single mode and dropped in multi mode, with no call |
| ExpandProps.ExpandWithoutExternals | src/expand_impl.rs:22-38 | items with no `mod name;` need no resolver: single mode returns them unchanged, multi mode returns the non-module items |
| ExpandProps.OverrideStepOutcome | src/expand_impl.rs:124-175 | a completed override step loads exactly the taken override's file and adds exactly its candidate and guard |
| ExpandProps.UnguardedStep | src/expand_impl.rs:165-174 | an unguarded override loads its file, adds an unguarded candidate and ends the conventional lookup |
| ExpandProps.RejectedStep | src/expand_impl.rs:143-149 | an override whose guard is false costs one `check_cfg` call and changes nothing |
| ExpandProps.AcceptedStep | src/expand_impl.rs:143-164 | an override whose guard holds asks `check_cfg` and then loads its file; it adds a candidate gated by the guard and records the guard; it ends the conventional lookup in single mode only |
| ExpandProps.ProcessOverridesCons | src/expand_impl.rs:124 | a completed override loop is its first step followed by the loop over the rest |
| ExpandProps.OverridesLoads | src/expand_impl.rs:143-174 | the completed loop loads exactly the files of the taken overrides, in attribute order |
| ExpandProps.OverridesCands | src/expand_impl.rs:157-173 | the completed loop's candidates are those of the taken overrides, in attribute order |
| ExpandProps.OverridesGuards | src/expand_impl.rs:163 | the accumulated predicates are the guards that held, in attribute order |
| ExpandProps.OverridesNatural | src/expand_impl.rs:121-166 | the conventional lookup is still due exactly when no override is unguarded (multi mode) or none is taken (single mode) |
| ExpandProps.CandidatesOutcome | src/expand_impl.rs:121-254 | the candidates are the taken overrides followed by the conventional candidate exactly when it is due; that candidate carries `not(any(..))` of the guards that held; the loads are the same, in order |
| ExpandProps.NoLoads | src/expand_impl.rs:111-119 | a trace of `check_cfg` calls loads nothing |
| ExpandProps.PlanOutcome | src/expand_impl.rs:100-177 | the module is skipped exactly when some `#[cfg]` guard does not hold, and then loads nothing; otherwise the pass-through attributes and candidates are those of the classifier and the candidate search |
| ExpandProps.CopiesContent | src/expand_impl.rs:268-300 | each copy's body is the loaded file's items expanded one level down, from that candidate's directory stacks |
| ExpandProps.ExternalModExpansion | src/expand_impl.rs:100-323 | an expanded `mod name;` is kept (single mode) or dropped (multi mode) when skipped; otherwise the copies replace it, except that single mode keeps it when no file was found |
| ExpandProps.ExpandFromPlan | src/expand_impl.rs:261-323 | a known plan and known copies determine the item's expansion and its calls |
| ExpandProps.SingleCopy | src/expand_impl.rs:268-317 | the single-mode copy of a candidate carries the pass-through attributes, then the file's own, and the file's items expanded |
| ExpandProps.SingleModeSplice | src/expand_impl.rs:268-318 | in single mode `mod name;` becomes one inline module: pass-through attributes, then the file's attributes, then its items expanded with the candidate's stacks; a skipped or unfound module stays as it is |
| ExpandProps.TakenOverrideAfterCandidateConflicts | src/expand_impl.rs:125-152 | in single mode a taken override after a candidate is `MultipleExplicitPathsSpecifiedForOneModule`, reported before any load: an unguarded one with no call and whatever its payload, a guarded one after its `check_cfg` |
| ExpandProps.MalformedOverrideFailsBeforeGuard | src/expand_impl.rs:125-148 | a payload that is not `= "..."` fails with its `AttrParse` error and no call, so the guard is never asked, even when it would be false |
| ExpandProps.MultiModeNoConflict | src/expand_impl.rs:125-152 | multi mode never raises the conflicting-overrides error itself |
| ExpandProps.ClassifyTwoPaths | src/attrs.rs:73-76 | two `#[path]` attributes classify as two unguarded overrides, in order |
| ExpandProps.TwoOverridesConflict | src/expand_impl.rs:124-175 | two unguarded overrides in single mode load the first file, then fail on the second |
| ExpandProps.TwoPathAttributesConflict | src/expand_impl.rs:124-175 | `mod name;` with two `#[path]` attributes in single mode aborts with the conflict after one load |
| ExpandProps.CfgAttributeRoundTrip | src/expand_impl.rs:274-286 | the `#[cfg(..)]` written onto a copy classifies again as a guard over the same predicate tokens |
| ExpandProps.CfgTokensIsMeta | src/expand_impl.rs:229-286 | the synthesised `not(any(..))` of predicates that parse renders to tokens that parse as a meta again |
| ExpandProps.TakenGuardsWellFormed | src/expand_impl.rs:143-247 | the guards that held all parse, and so does the residual predicate built from them |
| ExpandProps.ExpandSingleItem | src/expand_impl.rs:22 | a one-item list expands exactly as its item |
| ExpandProps.SingleModePointwise | src/expand_impl.rs:22-38 | in single mode the i-th output item is the one item the i-th input expands to |
| Lib.ExpandModulesIntoInlineModules | src/lib.rs:164-179 | the file's own attributes are kept; single mode replaces items in place; multi mode keeps non-module items and leaves only inline modules; every load is for a module below the root |
| Lib.ResolverHelper | src/lib.rs:103-124 | `resolve` is the first closure, `check_cfg` the second, and the mode is the default, single |
| Lib.HelperReplacesInPlace | src/lib.rs:100-179 | with a `ResolverHelper` the output has one item per input item, each unchanged or the inline form of a `mod name;` with the same name |
| Lib.NothingToExpand | src/lib.rs:164-179 | a file with no `mod name;` is returned unchanged, in single mode, without a call |
| Scenarios.DocExample | src/lib.rs:136-161 | the documented example: with only `inner_module/mod.rs` present, `mod inner_module;` becomes `mod inner_module { trait Foo {} }` after asking for `inner_module.rs` then `inner_module/mod.rs` |
| Scenarios.TwoGuardExample | src/expand_impl.rs:121-318 | `cfg_attr(g1, path = "lol.rs")` with g1 false and `cfg_attr(g2, path = "win.rs")` with g2 true inline `win.rs`; the other attribute is kept and the calls are two checks and one load |
| Scenarios.MultiVariantExample | src/expand_impl.rs:143-321 | in multi mode, a guarded override that holds and a conventional `name.rs` give two copies, gated by `#[cfg(g)]` and `#[cfg(not(any(g)))]` |
| GetCfgName.GetEnvName | crates/syn-file-expand-cli/src/getcfgname.rs:3-48 | the token loop computes the non-empty fragments joined by single underscores, groups flattened recursively |
| GetCfgName.GetCliName | crates/syn-file-expand-cli/src/getcfgname.rs:50-89 | the token loop computes the fragments concatenated, groups inside their delimiters |
| GetCfgName.EnvNameAppend | crates/syn-file-expand-cli/src/getcfgname.rs:39-45 | the name of a concatenation is the two names joined by one `_`, or whichever is non-empty |
| GetCfgName.EnvNameGroupFlattened | crates/syn-file-expand-cli/src/getcfgname.rs:8-11 | a group contributes the name of its contents, and its delimiters are dropped |
| GetCfgName.EnvNameSilent | crates/syn-file-expand-cli/src/getcfgname.rs:24-37 | punctuation and byte, byte-string, float and unrecognised literals contribute nothing |
| GetCfgName.EnvNameOfIdentAndString | crates/syn-file-expand-cli/src/getcfgname.rs:12-23 | an identifier is ASCII-upper-cased; a string literal is upper-cased with spaces and dashes turned into `_` |
| GetCfgName.EnvNameSplits | crates/syn-file-expand-cli/src/getcfgname.rs:39-45 | when no fragment holds `_`, splitting the name at `_` gives back the fragments: exactly one `_` between neighbours and none at either end |
| GetCfgName.CliNameAppend | crates/syn-file-expand-cli/src/getcfgname.rs:84-86 | the command-line name of a concatenation is the concatenation of the names |
| GetCfgName.CliNameGroup | crates/syn-file-expand-cli/src/getcfgname.rs:54-61 | a group is spelled inside its own delimiter pair |
| GetCfgName.CliNameBareGroup | crates/syn-file-expand-cli/src/getcfgname.rs:60 | an invisible group is spelled bare, as if its contents stood in its place |
| GetCfgName.FeatureExample | crates/syn-file-expand-cli/src/main.rs:7-8 | `feature = "qqq"` is `FEATURE_QQQ` in the environment and `feature=qqq` on the command line |
| GetCfgName.NestedExample | crates/syn-file-expand-cli/src/getcfgname.rs:8-57 | `not(unix)` is `NOT_UNIX` in the environment and `not(unix)` on the command line |
| Undoc.UndocAttrs | crates/syn-file-expand-cli/src/undoc.rs:2-9 | an attribute is kept exactly when it is not `#[doc]`; none of the result is `#[doc]`; nothing is added |
| Undoc.UndocAttrsAppend | crates/syn-file-expand-cli/src/undoc.rs:2-9 | filtering a concatenation filters each part, so the kept attributes stay in order |
| Undoc.UndocAttrsFixpoint | crates/syn-file-expand-cli/src/undoc.rs:2-9 | the filter changes nothing exactly when there is no `#[doc]`, so a second pass changes nothing |
| Undoc.UndocItemUndocumented | crates/syn-file-expand-cli/src/undoc.rs:10-80 | no `#[doc]` remains on an item, its trait and impl members, variants, fields, or inline module contents |
| Undoc.UndocItemBare | crates/syn-file-expand-cli/src/undoc.rs:10-80 | only the attribute lists the pass visits change; `use` and verbatim items are kept whole |
| Undoc.UndocItemAttrLists | crates/syn-file-expand-cli/src/undoc.rs:10-80 | every attribute list the pass visits, in source order (the item's own, its members', an inline module's items'), becomes that list with `#[doc]` removed and the other attributes kept in order |
| Undoc.ItemDetermined | crates/syn-file-expand-cli/src/undoc.rs:10-80 | two items with the same bare form and the same attribute lists are equal, so attribute lists are all the pass can change |
| Undoc.UndocItemUnique | crates/syn-file-expand-cli/src/undoc.rs:10-80 | the pass's result is the only item with the original's bare form whose attribute lists are the originals with `#[doc]` removed |
| Undoc.UndocItemFixpoint | crates/syn-file-expand-cli/src/undoc.rs:10-80 | an item with no `#[doc]` where the pass looks is unchanged |
| Undoc.UndocItemIdempotent | crates/syn-file-expand-cli/src/undoc.rs:10-80 | a second pass over an item changes nothing |
| Undoc.Undoc | crates/syn-file-expand-cli/src/undoc.rs:82-87 | the file's attributes lose `#[doc]` and keep the others in order; item count and order are kept; each item is undocumented, has its bare form unchanged, and each of its attribute lists is the original with `#[doc]` removed |
| Undoc.UndocIdempotent | crates/syn-file-expand-cli/src/undoc.rs:82-87 | a second pass over a file changes nothing |
| Undoc.UndocLeavesAlone | crates/syn-file-expand-cli/src/undoc.rs:32-77 | an external `mod x;` loses only its own `#[doc]`; `use` and verbatim items are untouched even when they carry `#[doc]` |
| Loopify.LoopifyBlock | crates/syn-file-expand-cli/src/loopify.rs:3-16 | the block holds exactly one statement, an unlabelled `loop {}` with no attributes and no semicolon |
| Loopify.LoopifyExpr | crates/syn-file-expand-cli/src/loopify.rs:18-28 | the expression becomes an unlabelled `loop {}` with no attributes |
| Loopify.LoopifyItemLoopified | crates/syn-file-expand-cli/src/loopify.rs:34-96 | every fn body and const/static initialiser the pass visits, trait defaults included, becomes an empty loop |
| Loopify.LoopifyItemShape | crates/syn-file-expand-cli/src/loopify.rs:34-96 | attributes, signatures, macros, data declarations and whether a trait member has a default are unchanged |
| Loopify.LoopifyItemFixpoint | crates/syn-file-expand-cli/src/loopify.rs:34-96 | an item whose code is already all empty loops is unchanged |
| Loopify.LoopifyItemUnique | crates/syn-file-expand-cli/src/loopify.rs:34-96 | the pass's result is the only item with the same shape whose code is all empty loops |
| Loopify.LoopifyItemIdempotent | crates/syn-file-expand-cli/src/loopify.rs:34-96 | a second pass over an item changes nothing |
| Loopify.LoopifyFile | crates/syn-file-expand-cli/src/loopify.rs:98-102 | the file's attributes are untouched; item count and order are kept, each item loopified and otherwise unchanged |
| Loopify.LoopifyIdempotent | crates/syn-file-expand-cli/src/loopify.rs:98-102 | a second pass over a file changes nothing |

## Left out

- File I/O is not modelled: `read_full_crate_source_code` and its duplicating variant (src/lib.rs:210-354), which read files, parse them and print.
- Parsing is not modelled. `syn::parse2` of a file is the resolver's business. Parsing a predicate as a `syn::Meta` is modelled by the grammar in `MetaSyntax`, without token spacing.
- The text of syn's own parse errors is left out. `SynParseError` carries the tokens that did not parse.
- Parsing the second token of `#[path]` as a literal (src/attrs.rs:40-44) is left out: a literal token is taken as already classified, so the `SynParseError` branch there cannot arise.
- The semantics of `check_cfg` are not modelled: it is an oracle, and the model does not interpret the cfg expression language.
- Resolvers are pure functions. The source's `FnMut` closures may change state between calls; a resolver whose answers depend on history is not modelled.
- When an error stops the source, it has already mutated the items vector partly in place. The model returns only the error and the calls made.
- Spans, the `len_hint` capacity arithmetic (src/expand_impl.rs:52-58), `im_rc` sharing, the attribute style of the synthesised `#[cfg]`, and the `mod` token and brace spans are left out.
- Paths.PathFromString: a leading `.` segment is dropped, whereas `PathBuf` keeps it as `Component::CurDir`; so `#[path = "./x.rs"]` at the crate root asks the resolver for `x.rs` here, where the source asks for `./x.rs` and gives its children the directory stack `[.]`. Paths are component lists, and modelling `CurDir` only at the head of a path would complicate every join.
- Absolute paths are left out: `PathBuf::push` of an absolute path replaces the buffer, but paths here are relative component lists, with `""` and `.` components dropped.
- The panics on a module with both or neither of `{}` and `;` (src/expand_impl.rs:26-27) are not modelled. Such a module cannot be represented.
- The assertions at src/expand_impl.rs:177 and 256-259 are not modelled as panics. They are proved instead, as the `ProcessOverrides` and `FindCandidates` contracts.
- ExpandImpl.ExpandItems: recursion through loaded files is bounded by `fuel`. A resolver that leads into endless recursion (src/lib.rs:191) gives `OutOfFuel` here instead of exhausting the stack.
- ExpandProps.MultiModeNoConflict: states that the engine itself never raises the conflict error in multi mode. It assumes the resolver never returns that error of its own accord, since a resolver may return any error.
- crates/syn-file-expand-cli/src/main.rs is not part of this model: argument parsing, environment variables and output.
- The `eprintln!` on a literal that syn cannot parse (crates/syn-file-expand-cli/src/getcfgname.rs:32-35, 79-82) is left out. Its result is the same `""` as `LitVerbatim`.
- The `expand.rs` example program is not part of this model: it is an I/O driver.
- The test files are not part of this model. Their closure signatures and `read_crate` call no longer match the API.
