# Peephole pass manager, array join and ARIA prop types of oxc, in Dafny

This project models four parts of the oxc JavaScript toolchain and proves
properties of the model.

- `ast_passes.dfy` (module `AstPasses`): the minifier's peephole pass
  manager `PeepholeOptimizations` and its dead-code variant
  `DeadCodeElimination`.
  - Both are classes. The field `rules` holds the rule instances with
    their `changed` flags.
  - The hook methods send each node to a fixed, ordered list of rules.
  - `reset_changed` and `changed` clear and combine the flags.
  - `run_in_loop` repeats `build` until no flag among x0 to x8 is set or
    the counter passes 10. The flag of x9 is never consulted.
  - The program tree is a type parameter. A rule's hook call is the
    parameter `step`. It receives the rule, the hook kind and the whole
    tree, and gives the new tree and whether the rule reported a change.
    It gets no node position and no `TraverseCtx`.
  - The traversal engine is the parameter `walk`: the hook events one walk
    of a tree fires.
  - Each method is proved against a specification function (`Dispatch`,
    `Traverse`, `RunLoop`). The properties of the loop are lemmas about
    those functions.
- `array_join.rs` is modelled by `array_join.dfy` (module `ArrayJoin`):
  `array_join` for an array expression.
  - The per-element string conversion is the parameter `toJsString`.
  - The join is proved equal to the left fold of section 23.1.3.18 of
    ECMA-262.
  - The unit test's two expected results are proved.
- `aria_proptypes.dfy` (module `AriaProptypes`): the lint rule
  `jsx-a11y/aria-proptypes`.
  - It holds the constant table `ARIA_PROP_TYPES`, with its structural
    facts proved row by row.
  - It holds `validate_boolean`, characterised exactly.
  - It holds the early-return guards of `run`.
- `props_struct.dfy` (module `PropsStruct`): the script that generates the
  table.
  - `map_type`, the value filter and the boolean test are functions.
  - The loop over the properties is a method.
  - The method is proved to produce one entry per property, in order.
  - The 51 generated entries are proved equal to the 51 rows of the
    Rust table.
- `wrappers.dfy` holds the `Option` type.

The table agreement is stated on the model's own copies of the two tables.
`props_struct.js` lists the properties; `aria_proptypes.rs` spells the
table out. Each copy is written in five runs of consecutive entries, so
that the verifier can take one run at a time.

The loop cap allows 12 builds, not 10. In
`crates/oxc_minifier/src/ast_passes/mod.rs`, line 108 is
`debug_assert!(false, "Ran loop more than 10 times.")`. That line sits behind
the test `i > 10` at line 107, and `i` counts from 0. So the break comes only
after the 12th build. The model follows the code (`RunLoop`,
`NonConvergingRunsTwelveBuilds`).

## Model

| member | source | states |
|---|---|---|
| AstPasses.NewPeepholeRules | crates/oxc_minifier/src/ast_passes/mod.rs:53-69 | `new` builds the ten rules x0 to x9 in declaration order, all flags clear; exactly x5, x6 and x9 receive `in_fixed_loop`, and they receive the argument given |
| AstPasses.PeepholeOptimizations.constructor | crates/oxc_minifier/src/ast_passes/mod.rs:53-69 | the new pass manager holds exactly the rules `new` builds, and has made no calls |
| AstPasses.PeepholeDispatch | crates/oxc_minifier/src/ast_passes/mod.rs:122-192 | every hook calls only rules among x0 to x9, each at most once, in declaration order |
| AstPasses.Apply | crates/oxc_minifier/src/ast_passes/mod.rs:124-125 | a rule's hook call hands the rule's result tree on; it sets that rule's flag when the rule reports a change; it never clears a flag and touches no other rule |
| AstPasses.DispatchCalls | crates/oxc_minifier/src/ast_passes/mod.rs:122-192 | a hook calls exactly its rules, in its order, and nothing else |
| AstPasses.DispatchFrame | crates/oxc_minifier/src/ast_passes/mod.rs:122-192 | a hook leaves every rule it does not call unchanged, and keeps every rule's identity and setup |
| AstPasses.Dispatch | crates/oxc_minifier/src/ast_passes/mod.rs:122-192 | one hook: its rules are called in the listed order, each on the tree the previous one left, flagging each rule that reports a change; the rule list keeps its length (partners: `DispatchCalls`, `DispatchFrame`, `Apply`) |
| AstPasses.Traverse | crates/oxc_minifier/src/ast_passes/mod.rs:116-119 | one build: the hook of each event of the walk is dispatched in turn; the rule list keeps its length (partners: `TraverseCalls`, `TraverseFrame`) |
| AstPasses.AnyChanged | crates/oxc_minifier/src/ast_passes/mod.rs:83-93 | `changed` holds when a flag among x0 to x8 is set (partners: `PeepholeOptimizations.Changed`, `X9NotConsulted`) |
| AstPasses.TraverseCalls | crates/oxc_minifier/src/ast_passes/mod.rs:116-119 | one build makes exactly the calls of each event's hook, event after event |
| AstPasses.TraverseFrame | crates/oxc_minifier/src/ast_passes/mod.rs:116-119 | a build keeps every rule's identity and setup, clears no flag, and leaves the rules no event reaches unchanged |
| AstPasses.ResetFlags | crates/oxc_minifier/src/ast_passes/mod.rs:71-81 | `reset_changed` clears the flags of x0 to x8, keeps x9 as it was, and changes nothing else |
| AstPasses.ResetClearsChanged | crates/oxc_minifier/src/ast_passes/mod.rs:71-93 | right after `reset_changed`, `changed` is false, while x9's flag is still what it was |
| AstPasses.X9NotConsulted | crates/oxc_minifier/src/ast_passes/mod.rs:83-93 | the flag of x9 never affects `changed` |
| AstPasses.RunLoop | crates/oxc_minifier/src/ast_passes/mod.rs:100-112 | from counter i the loop makes between 1 and 12 - i builds; if it stops before the cap, the last build left `changed` false |
| AstPasses.NonConvergingRunsTwelveBuilds | crates/oxc_minifier/src/ast_passes/mod.rs:104-111 | when every walk ends at the program exit and every rule's `exit_program` hook reports a change on any tree, the loop makes exactly 12 builds from counter 0, not 10 |
| AstPasses.TraverseOnStable | crates/oxc_minifier/src/ast_passes/mod.rs:116-119 | on a tree no rule rewrites, a build changes neither the tree nor any flag |
| AstPasses.RunLoopOnStable | crates/oxc_minifier/src/ast_passes/mod.rs:100-106 | on a tree that is already a fixed point, the loop makes one build and returns the tree unchanged |
| AstPasses.DispatchSetsFlag | crates/oxc_minifier/src/ast_passes/mod.rs:122-192 | when a hook's rules all report a change, the last rule it calls ends with its flag set |
| AstPasses.TraverseSetsFlag | crates/oxc_minifier/src/ast_passes/mod.rs:122-126 | a build whose last event is the program exit, where every rule's `exit_program` reports a change, leaves `changed` true, because x4, the last rule that hook calls, is flagged |
| AstPasses.PeepholeOptimizations.ResetChanged | crates/oxc_minifier/src/ast_passes/mod.rs:71-81 | the method clears x0 to x8 one field at a time; the new rules are `ResetFlags` of the old ones, and only the call log grows |
| AstPasses.PeepholeOptimizations.Changed | crates/oxc_minifier/src/ast_passes/mod.rs:83-93 | the OR of the nine flags x0 to x8 is true exactly when some rule among x0 to x8 is flagged |
| AstPasses.PeepholeOptimizations.Invoke | crates/oxc_minifier/src/ast_passes/mod.rs:124-125 | one rule of a hook sees the node the hook's earlier rules left; the state then matches `Dispatch` over one more rule |
| AstPasses.PeepholeOptimizations.OnExitProgram | crates/oxc_minifier/src/ast_passes/mod.rs:123-126 | `exit_program` calls x0 then x4, and the new rules, tree and calls are those `Dispatch` gives |
| AstPasses.PeepholeOptimizations.OnExitFunctionBody | crates/oxc_minifier/src/ast_passes/mod.rs:128-130 | `exit_function_body` calls x0 only, as `Dispatch` gives |
| AstPasses.PeepholeOptimizations.OnExitStatements | crates/oxc_minifier/src/ast_passes/mod.rs:132-138 | `exit_statements` calls x1, x2, x3, x4, x5 in that order, as `Dispatch` gives |
| AstPasses.PeepholeOptimizations.OnExitStatement | crates/oxc_minifier/src/ast_passes/mod.rs:140-143 | `exit_statement` calls x4 then x5, as `Dispatch` gives |
| AstPasses.PeepholeOptimizations.OnExitBlockStatement | crates/oxc_minifier/src/ast_passes/mod.rs:145-147 | `exit_block_statement` calls x0 only, as `Dispatch` gives |
| AstPasses.PeepholeOptimizations.OnExitReturnStatement | crates/oxc_minifier/src/ast_passes/mod.rs:149-151 | `exit_return_statement` calls x6 only, as `Dispatch` gives |
| AstPasses.PeepholeOptimizations.OnExitVariableDeclaration | crates/oxc_minifier/src/ast_passes/mod.rs:153-159 | `exit_variable_declaration` calls x6 only, as `Dispatch` gives |
| AstPasses.PeepholeOptimizations.OnExitExpression | crates/oxc_minifier/src/ast_passes/mod.rs:161-167 | `exit_expression` calls x4, x5, x6, x7, x8 in that order, as `Dispatch` gives |
| AstPasses.PeepholeOptimizations.OnEnterCallExpression | crates/oxc_minifier/src/ast_passes/mod.rs:169-171 | `enter_call_expression` calls x6 only, as `Dispatch` gives |
| AstPasses.PeepholeOptimizations.OnExitCallExpression | crates/oxc_minifier/src/ast_passes/mod.rs:173-175 | `exit_call_expression` calls x6 only, as `Dispatch` gives |
| AstPasses.PeepholeOptimizations.OnExitPropertyKey | crates/oxc_minifier/src/ast_passes/mod.rs:177-179 | `exit_property_key` calls x9 only, as `Dispatch` gives |
| AstPasses.PeepholeOptimizations.OnExitMemberExpression | crates/oxc_minifier/src/ast_passes/mod.rs:181-187 | `exit_member_expression` calls x9 only, as `Dispatch` gives |
| AstPasses.PeepholeOptimizations.OnExitCatchClause | crates/oxc_minifier/src/ast_passes/mod.rs:189-191 | `exit_catch_clause` calls x6 only, as `Dispatch` gives |
| AstPasses.PeepholeOptimizations.OnHook | crates/oxc_minifier/src/ast_passes/mod.rs:122-192 | any hook event leaves the rules, tree and calls that `Dispatch` gives for that hook's rules |
| AstPasses.PeepholeOptimizations.Build | crates/oxc_minifier/src/ast_passes/mod.rs:116-119 | `build` is exactly one traversal: the new rules, tree and calls are those `Traverse` gives, and only `build` is logged |
| AstPasses.PeepholeOptimizations.RunInLoop | crates/oxc_minifier/src/ast_passes/mod.rs:95-113 | the rules, the tree and the rule hook calls made end as `RunLoop` gives; every build is preceded by `reset_changed`, with 1 to 12 such pairs |
| AstPasses.DeadCodeDispatch | crates/oxc_minifier/src/ast_passes/mod.rs:214-231 | the dead-code hooks call only its two rules, each at most once, in declaration order |
| AstPasses.FoldOrderDiffers | crates/oxc_minifier/src/ast_passes/mod.rs:161-167 | in `DeadCodeElimination` the expression exit folds constants before it removes dead code; `PeepholeOptimizations` does the opposite |
| AstPasses.DeadCodeElimination.constructor | crates/oxc_minifier/src/ast_passes/mod.rs:199-206 | `new` builds fold-constants and remove-dead-code, without arguments and with flags clear |
| AstPasses.DeadCodeElimination.Invoke | crates/oxc_minifier/src/ast_passes/mod.rs:228-229 | one rule of a dead-code hook sees the node the earlier rules left, as `Dispatch` describes |
| AstPasses.DeadCodeElimination.OnHook | crates/oxc_minifier/src/ast_passes/mod.rs:214-231 | `exit_statement`, `exit_program` and `exit_statements` call remove-dead-code; `exit_expression` calls fold-constants then remove-dead-code; other hooks call nothing |
| AstPasses.DeadCodeElimination.Build | crates/oxc_minifier/src/ast_passes/mod.rs:208-212 | `build` is one traversal, with no reset, no flag test and no loop |
| ArrayJoin.Collect | crates/oxc_ecmascript/src/array_join.rs:12-13 | the collection is `None` exactly when some element fails to convert; otherwise it holds every element's string, in order |
| ArrayJoin.ArrayJoin | crates/oxc_ecmascript/src/array_join.rs:10-16 | the result is `None` exactly when some element fails to convert; otherwise it is the join of the element strings in array order |
| ArrayJoin.Join | crates/oxc_ecmascript/src/array_join.rs:15 | Rust's `join`: the strings with the separator between each two neighbours (partners: `JoinIsSpecJoin`, `JoinAppend`, `JoinLength`) |
| ArrayJoin.SpecJoin | crates/oxc_ecmascript/src/array_join.rs:5-7 | the independent reference: the left fold of section 23.1.3.18 of ECMA-262, adding a separator before every element but the first (partner: `JoinIsSpecJoin`) |
| ArrayJoin.JoinIsSpecJoin | crates/oxc_ecmascript/src/array_join.rs:5-7 | the join equals the fold of section 23.1.3.18 of ECMA-262 on every input |
| ArrayJoin.JoinAppend | crates/oxc_ecmascript/src/array_join.rs:15 | joining two non-empty runs puts exactly one separator between them |
| ArrayJoin.JoinSnoc | crates/oxc_ecmascript/src/array_join.rs:15 | one more string adds one separator and that string |
| ArrayJoin.JoinSmall | crates/oxc_ecmascript/src/array_join.rs:15 | no strings join to ""; one string joins to itself |
| ArrayJoin.JoinLength | crates/oxc_ecmascript/src/array_join.rs:15 | n >= 1 strings join to their total length plus n - 1 separator lengths |
| ArrayJoin.DefaultSeparator | crates/oxc_ecmascript/src/array_join.rs:15 | no separator gives the same result as "," |
| ArrayJoin.ArrayJoinSmall | crates/oxc_ecmascript/src/array_join.rs:15 | an empty array gives `Some("")`; a one-element array gives that element's string |
| ArrayJoin.JoinTestStrings | crates/oxc_ecmascript/src/array_join.rs:31-49 | the test's first six strings join to two separators, then "42", "foo", "true" and "42n" with separators between them |
| ArrayJoin.JoinTestNested | crates/oxc_ecmascript/src/array_join.rs:52 | the nested array's default join is ",,42,foo,true,42n" |
| ArrayJoin.JoinTest2Strings | crates/oxc_ecmascript/src/array_join.rs:50-55 | the second array's eight strings join, with any separator, to the pieces the test expects |
| ArrayJoin.TestNestedConverts | crates/oxc_ecmascript/src/array_join.rs:52 | the nested array element converts to its default join |
| ArrayJoin.TestArraysConvert | crates/oxc_ecmascript/src/array_join.rs:50-55 | every element of the second array converts, giving the eight expected strings |
| ArrayJoin.JoinTest | crates/oxc_ecmascript/src/array_join.rs:56-64 | the test's two assertions: "__42_foo_true_42n_,,42,foo,true,42n_[object Object]" with "_", and the comma-separated version with no separator |
| AriaProptypes.Lookup | crates/oxc_linter/src/rules/jsx_a11y/aria_proptypes.rs:140-142 | the lookup fails exactly when no row has the name; otherwise it gives a row with that name |
| AriaProptypes.Rows0Facts | crates/oxc_linter/src/rules/jsx_a11y/aria_proptypes.rs:45-55 | rows 0 to 10 satisfy the table facts (listed under `TableFacts`) |
| AriaProptypes.Rows1Facts | crates/oxc_linter/src/rules/jsx_a11y/aria_proptypes.rs:56-66 | rows 11 to 21 satisfy the table facts |
| AriaProptypes.Rows2Facts | crates/oxc_linter/src/rules/jsx_a11y/aria_proptypes.rs:67-77 | rows 22 to 32 satisfy the table facts |
| AriaProptypes.Rows3Facts | crates/oxc_linter/src/rules/jsx_a11y/aria_proptypes.rs:78-88 | rows 33 to 43 satisfy the table facts |
| AriaProptypes.Rows4Facts | crates/oxc_linter/src/rules/jsx_a11y/aria_proptypes.rs:89-95 | rows 44 to 50 satisfy the table facts |
| AriaProptypes.TableFacts | crates/oxc_linter/src/rules/jsx_a11y/aria_proptypes.rs:44-96 | every name starts with "aria-"; tokens are listed iff the type is `Token` or `TokenList`; booleans are allowed iff the name is aria-current, aria-haspopup or aria-invalid; `undefined` is allowed iff the name is aria-expanded, aria-grabbed, aria-hidden or aria-selected, all `Boolean` |
| AriaProptypes.RowOf | crates/oxc_linter/src/rules/jsx_a11y/aria_proptypes.rs:140 | a name the table knows is the name of the row it gives |
| AriaProptypes.NamedRowsPresent | crates/oxc_linter/src/rules/jsx_a11y/aria_proptypes.rs:56-89 | the table has rows for the seven properties that accept a boolean or `undefined` |
| AriaProptypes.NamesAreAria | crates/oxc_linter/src/rules/jsx_a11y/aria_proptypes.rs:44-96 | every name the table knows starts with "aria-" |
| AriaProptypes.AllowedValuesForTokens | crates/oxc_linter/src/rules/jsx_a11y/aria_proptypes.rs:44-96 | a row lists tokens exactly when its type is `Token` or `TokenList` |
| AriaProptypes.BooleanValuesExactly | crates/oxc_linter/src/rules/jsx_a11y/aria_proptypes.rs:56-68 | booleans are allowed for aria-current, aria-haspopup and aria-invalid, and for no other name |
| AriaProptypes.UndefinedExactly | crates/oxc_linter/src/rules/jsx_a11y/aria_proptypes.rs:63-89 | `undefined` is allowed for aria-expanded, aria-grabbed, aria-hidden and aria-selected, all `Boolean`, and for no other name |
| AriaProptypes.AriaPropTypeOf | crates/oxc_linter/src/rules/jsx_a11y/aria_proptypes.rs:140-142 | `ARIA_PROP_TYPES.get`: the table row of a name, if any (partners: `Lookup`, `RowOf`, `NamedRowsPresent`) |
| AriaProptypes.ValidateBoolean | crates/oxc_linter/src/rules/jsx_a11y/aria_proptypes.rs:154-166 | `validate_boolean` by its match arms (partners: `ValidateBooleanExactly`, `ContainedStringLikeBare`, `ValidateBooleanShapes`) |
| AriaProptypes.ValidateBooleanExactly | crates/oxc_linter/src/rules/jsx_a11y/aria_proptypes.rs:154-166 | `validate_boolean` accepts exactly six shapes: "true" or "false" written bare or in a container, or a boolean literal in a container |
| AriaProptypes.ContainedStringLikeBare | crates/oxc_linter/src/rules/jsx_a11y/aria_proptypes.rs:156-160 | a string in a container is judged like the same string written bare; the test is case-sensitive |
| AriaProptypes.ValidateBooleanShapes | crates/oxc_linter/src/rules/jsx_a11y/aria_proptypes.rs:157-164 | any boolean literal in a container passes; any other expression, an empty container, an element or a fragment fails |
| AriaProptypes.ToLowerFacts | crates/oxc_linter/src/rules/jsx_a11y/aria_proptypes.rs:131 | lower-casing leaves no ASCII capital; a name without capitals comes back unchanged; each character is kept or replaced by its small letter |
| AriaProptypes.ToLowerIdempotent | crates/oxc_linter/src/rules/jsx_a11y/aria_proptypes.rs:131 | lower-casing twice is lower-casing once |
| AriaProptypes.Run | crates/oxc_linter/src/rules/jsx_a11y/aria_proptypes.rs:125-152 | `run` gets past its guards exactly for an attribute whose lower-cased name starts with "aria-", is a valid ARIA property, has a value and has a table row; it then ends with that row, and with `validate_boolean`'s verdict exactly for `Boolean` properties |
| AriaProptypes.NonAriaIgnored | crates/oxc_linter/src/rules/jsx_a11y/aria_proptypes.rs:131-134 | a name whose lower-cased form does not start with "aria-" is ignored, whatever its value |
| AriaProptypes.RunIgnoresCase | crates/oxc_linter/src/rules/jsx_a11y/aria_proptypes.rs:131 | `run` gives the same outcome for a name and its lower-cased form |
| PropsStruct.MapType | props_struct.js:223-244 | `map_type`: each of the nine type names gives its variant; any other name gives `None`, the script's `undefined` (partner: `MapTypeInverse`) |
| PropsStruct.MapTypeInverse | props_struct.js:223-244 | `map_type` maps each of the nine type names to its variant, and only those names map to a variant |
| PropsStruct.StringValues | props_struct.js:253 | the filter `typeof val !== "boolean"`, keeping the strings (partners: `StringValuesMembers`, `StringValuesAppend`) |
| PropsStruct.SomeBoolean | props_struct.js:254 | the test `some(val => typeof val === "boolean")` (partner: `SomeBooleanExists`) |
| PropsStruct.Convert | props_struct.js:248-262 | one loop iteration: name, mapped type, filtered tokens when `values` exists, `allowundefined` and the boolean test (partners: `ConvertAllowedValues`, `ConvertBooleanValues`, `ConvertUndefined`) |
| PropsStruct.StringValuesMembers | props_struct.js:253 | the filtered list holds exactly the string values and is no longer than the list |
| PropsStruct.StringValuesAppend | props_struct.js:253 | the filter keeps strings in input order and drops booleans |
| PropsStruct.SomeBooleanExists | props_struct.js:254 | the boolean test holds exactly when some value is a boolean |
| PropsStruct.ConvertAllowedValues | props_struct.js:252-257 | an entry lists tokens exactly when its property has `values`, and the tokens are its string values |
| PropsStruct.ConvertBooleanValues | props_struct.js:251-254 | an entry allows booleans exactly when its property has `values` holding a boolean; without `values` it is false |
| PropsStruct.ConvertUndefined | props_struct.js:259 | an entry allows `undefined` exactly when `allowundefined` is true |
| PropsStruct.Generate | props_struct.js:247-263 | the loop produces one entry per property, in order, each the conversion of its property |
| PropsStruct.SetOfMembers | props_struct.js:253 | the printed `phf_set!` holds exactly the listed tokens |
| PropsStruct.CurrentRow | props_struct.js:43-54 | aria-current's booleans give `allow_boolean_values: true`, and only its five string values become tokens, as in its Rust row |
| PropsStruct.Properties0Agree | props_struct.js:4-42 | properties 0 to 10 turn into rows 0 to 10 of the Rust table |
| PropsStruct.Properties1Agree | props_struct.js:43-103 | properties 11 to 21 turn into rows 11 to 21 of the Rust table |
| PropsStruct.Properties2Agree | props_struct.js:104-153 | properties 22 to 32 turn into rows 22 to 32 of the Rust table |
| PropsStruct.Properties3Agree | props_struct.js:154-192 | properties 33 to 43 turn into rows 33 to 43 of the Rust table |
| PropsStruct.Properties4Agree | props_struct.js:193-220 | properties 44 to 50 turn into rows 44 to 50 of the Rust table |
| PropsStruct.PropertiesAgree | props_struct.js:3-221 | all 51 properties have a known type, and the i-th turns into the i-th row of the Rust table |
| PropsStruct.GeneratedTable | props_struct.js:247-263 | the entries the loop produces for `properties` are the Rust table, row by row |

## Left out

- The rewrite rules themselves (statement fusion, constant folding and the rest) are not modelled. Their code is not part of this model. Each rule is reduced to the parameter `step`, which may rewrite the node and report a change.
- The traversal engine `traverse_mut_with_ctx` is not modelled. One build is the sequence of hook events `walk` gives for the tree at the start of the build. The model therefore does not capture the engine reacting to rewrites made during the walk.
- The rules' own constructors are not shown. The model takes every new rule to start with its flag clear.
- `Normalize`, `RemoveSyntax` and `RemoveUnusedCode` are declared in the module but not wired into these pass managers, so they are left out.
- The `debug_assert!` at the loop cap is left out. It only changes debug builds; the model keeps the `break`.
- The compression options passed to x6 are left out. Only the unseen rule logic reads them.
- `ToJsString`, including number-to-string conversion of floating-point values, is not modelled. It is the parameter `toJsString`. The unit test's conversions are stated as a hypothesis (`TestConversions`).
- The expected strings in `JoinTest` are written as concatenations of their pieces, because the verifier cannot compare the unit test's long literals directly. The pieces concatenate to exactly the test's literals.
- LowerChar: maps only the ASCII capitals 'A' to 'Z' to small letters. Every other character, one Unicode lower-cases included, stays as it is.
- ToLower: lower-cases ASCII letters only, through LowerChar. Rust's `to_lowercase` follows Unicode. For example, the Kelvin sign in "aria-\u{212A}eyshortcuts" becomes "k" in Rust, so `run` inspects that attribute, while the model keeps the sign and ignores it.
- A rule's `step` sees neither the node it is called on nor the `TraverseCtx`, only the whole tree. The model therefore does not capture a rule reacting to the node's position or to the context.
- `VALID_ARIA_PROPS` is the parameter `validAriaProps`. `get_jsx_attribute_name` is left out: the attribute name arrives as a string.
- `run` prints with `dbg!` and reports no diagnostic. The model returns the row whose `allow_undefined` it prints, and the verdict of `validate_boolean`.
- The lint rule's unit test lists are left out. `run` emits no diagnostics, so their pass and fail expectations are not behaviour of the code.
- The script's `console.log` output is not modelled as text. The model produces the entries as values. An unknown type, printed as `undefined`, is `None`.
- JavaScript truthiness of `allowundefined` is modelled for its only values here: absent, true or false.
