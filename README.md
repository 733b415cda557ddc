# Factorio production planner: verified model of the core

factorio-web is a browser planner for Factorio factories. It reads a game catalog with these parts:
- recipes and their ingredient variants;
- materials and their temperatures;
- machines and their limits;
- modules and their effects;
- the display order of all of the above.

The user fills in three pages:
- production targets and which materials may enter or leave the factory;
- a machine, module and beacon choice for every group of recipes;
- one or more production lines, each with its own allowed recipes, inputs and outputs.

The planner turns these into a linear program and hands it to a simplex solver. It then decodes the solver's answer into per-line lists of recipe activities and totals the per-item balance for display.

This project models that core in Dafny and proves properties of the model. It has nine modules:

| module | file | models |
|---|---|---|
| `Collections` | collections.dfy | the sequence helpers the source gets from `flat`, `filter` and `map`: `Flatten`, `Filter`, `Replace` and `RemoveAt` |
| `Text` | text.dfy | the planner's naming scheme. `name@index` variant keys, `L<i>#name` line-scoped variables, the `-`/`$` escaping of LP names, and `parseInt` of a line number |
| `Data` | data.dfy | the catalog and the user configuration, as datatypes |
| `Recipe` | recipe.dfy | `src/recipe.js`: variant enumeration, the `canProduce` and `canInsertModule` tests, the machine and module splitters, and `getRecipeGroup` |
| `Balance` | balance.dfy | `recipeBalance` in `src/algorithm.js`: net ingredient and product amounts, speed and productivity effects, and per-minute normalisation |
| `LpModel` | lp_model.dfy | `productionLineRecipes`, `productionLineConstraints` and `targetConstraints` in `src/algorithm.js` |
| `Solver` | solver.dfy | `solve` and `resolveLine` in `src/algorithm.js`. This covers the transposition into rows, the relations, the short-circuit, and the decoding of the answer. The simplex solver is an oracle parameter |
| `Components` | components.dfy | the state handlers of `src/components.js`: machine, module and beacon selection, the `SelectPanel` class, the target rows, and the result list's item balance |
| `Page` | page.dfy | the default pages of `src/page.js` and the production-line tab edits |

**Where the source loops, the model loops.** The splitters, `groupByCategory`, `recipeBalance`, the constraint builders, the transposition, the decoding, `resolveLine` and the item-balance aggregation are methods with loop invariants. Each is proved equal to a specification function. The properties the source promises are lemmas about those functions.

**Pure code stays pure.** Expression-only code (`canProduce`, `canInsertModule`, `allTemp*`, the handlers built from `map`, `filter` and `concat`) is modelled as functions.

**`SelectPanel` is a class.** Its toggle changes a `Set` in place, so `SelectPanel` holds its selection as a field and its methods modify it.

## Model

| member | source | states |
|---|---|---|
| `Recipe.AllTempRecipes` | src/recipe.js:1-19 | the enumeration has exactly one entry per catalog recipe group |
| `Recipe.AllTempRecipesMember` | src/recipe.js:5-17 | a group listed once enumerates exactly the enumerable variants of its subgroups' recipes. A group that `recipe_group` lists more than once keeps its number of subgroups but enumerates nothing, because the second loop's repeated pass filters the `{name, index}` objects through `recipe_attr` |
| `Recipe.RecipeEntriesMember` | src/recipe.js:1-19 | a recipe variant is enumerated iff its name is listed in some recipe group that is listed once and it is enumerable. Enumerable means unlockable, with known attributes, and an index below its ingredient-variant count |
| `Recipe.AllTempMaterials` | src/recipe.js:21-34 | the enumeration has exactly one entry per catalog material group |
| `Recipe.MaterialEntriesMember` | src/recipe.js:21-34 | a material variant is enumerated iff the material is listed in some group and the index is below its temperature count. That count is 1 when the material has no temperature list |
| `Recipe.ExpandMember` | src/recipe.js:13-14 | expanding names yields exactly the indices `0 .. count-1` of every listed name |
| `Recipe.AllTempResource` | src/recipe.js:36-41 | a resource variant is listed iff the resource is in the resource order and the index is below its ingredient-variant count |
| `Recipe.CanProduce` | src/recipe.js:71-81 | a machine that can produce a recipe is listed for that recipe's category, and the recipe is known |
| `Recipe.FixedMachineProduces` | src/recipe.js:74-76 | a listed fixed-function machine produces exactly the recipe it is fixed to |
| `Recipe.UnlimitedMachineProduces` | src/recipe.js:77-80 | a listed general machine whose three limits are all negative produces every recipe of its category, even one without ingredient variants, which it then never reads |
| `Recipe.LimitedMachineNeedsIngredients` | src/recipe.js:77-78 | a general machine with a non-negative input limit rejects a recipe without ingredient variants, where the source would fail reading `ingredients[0]` |
| `Recipe.CanInsertModule` | src/recipe.js:152-160 | an empty slot always fits. A module does not fit iff some channel among consumption, speed, productivity and pollution has a non-zero effect and is missing from the machine's effect list |
| `Recipe.SplitRecipeByMachine` | src/recipe.js:83-99 | the pieces partition the input as a multiset. Each recipe's machine list is the order-preserving sublist of `machines` able to produce it. Pieces are non-empty, and no two pieces carry the same machine list |
| `Recipe.SplitRecipeByModule` | src/recipe.js:101-123 | the pieces partition the input. Each recipe's module list is the catalog-ordered list of modules applicable to it: those with no limitation, or whose limitation names the recipe. Pieces are non-empty, and no two pieces carry the same module list |
| `Recipe.SplitEachApart` | src/recipe.js:86-97 | one round of the split, over entries with pairwise different lists, again gives entries with pairwise different lists, provided a recipe's list holds the round's selector only when the round's test accepts the recipe |
| `Recipe.MachineStepApart` | src/recipe.js:85-97 | one machine round keeps the machine lists of the pieces pairwise different |
| `Recipe.ModuleStepApart` | src/recipe.js:103-120 | one module round, either kind, keeps the module lists of the pieces pairwise different |
| `Recipe.CleanRecipeMachinePair` | src/recipe.js:125-127 | exactly the pairs with a non-empty machine list are kept |
| `Recipe.GroupByCategory` | src/recipe.js:133-137 | the categories are those of the input, each once, in order of first appearance (the Map's insertion order). Each key's list is the input filtered to that category, in input order, and the lists together hold every input recipe exactly as often as the input does |
| `Recipe.CategoriesMember` | src/recipe.js:133-137 | a category is listed iff some input recipe has it |
| `Recipe.CategoriesFirstSeen` | src/recipe.js:133-137 | of two listed categories, the earlier one has a recipe that comes before every recipe of the later one |
| `Recipe.CategoryRecipesPush` | src/recipe.js:133-137 | with distinct categories, one more recipe lands in exactly one list, its own category's, or in none when its category is not listed |
| `Recipe.CategoryPairs` | src/recipe.js:138 | each pair holds only recipes of one category and carries that category's machine list. The pairs together hold every input recipe exactly as often as the input does. Recipes of different pairs have different categories |
| `Recipe.SplitAllByMachine` | src/recipe.js:140 | splitting every pair keeps the recipes as a multiset. Each recipe's machine list is its capable machines. When the pairs hold recipes of different categories, recipes of different entries differ in category or in capable machines |
| `Recipe.MachineSplitApart` | src/recipe.js:140 | appending the split of one more pair keeps recipes of different entries apart by category and capable machines |
| `Recipe.SplitAllByModule` | src/recipe.js:142 | every resulting group has a machine and a recipe. Each recipe of a group has that group's capable machines and applicable modules. The groups together hold the pairs' recipes exactly as often as the pairs do. When recipes of different pairs differ in category or machines, recipes of different groups differ in category, machines or modules |
| `Recipe.ModuleGroupsApart` | src/recipe.js:142 | appending the groups of one more pair keeps recipes of different groups apart by category, capable machines and applicable modules |
| `Recipe.FilterKeysApart` | src/recipe.js:125-127 | dropping entries, as `cleanRecipeMachinePair` does, keeps recipes of different entries apart by any key |
| `Recipe.PairsApart` | src/recipe.js:133-138 | the per-category pairs hold recipes of different categories |
| `Recipe.PartitionRecipes` | src/recipe.js:133-148 | groups carry each member recipe's capable machines and applicable modules. A recipe is grouped iff some machine can produce it. `nonProducible` is exactly the recipes no machine can produce. The groups and `nonProducible` together hold every input recipe exactly as often as the input does, so each lands exactly once. Recipes with the same category, capable machines and applicable modules are in the same group |
| `Recipe.GetRecipeGroup` | src/recipe.js:129-150 | the same, over the enumerated recipes and resources: every enumerated recipe lands exactly once, in one group or in `nonProducible`, and recipes with the same category, capable machines and applicable modules share a group |
| `Recipe.PartitionOnce` | src/recipe.js:139-149 | when every recipe is grouped iff it has a capable machine, the groups plus the ungrouped input recipes hold the input exactly as often as it does |
| `Recipe.MachinelessIncapable` | src/recipe.js:125-127 | an entry that `cleanRecipeMachinePair` drops, having no machine, holds only recipes no machine can produce |
| `Recipe.GroupedIsCapable` | src/recipe.js:139-141 | a recipe that appears in a group has at least one capable machine |
| `Balance.NetBalance` | src/algorithm.js:12-20 | the balance has a key for every material named by an ingredient or product, keyed as `name@0` when the name has no `@` |
| `Balance.RawBalance` | src/algorithm.js:12-20 | the two accumulation loops compute, per key, the product total minus the ingredient total |
| `Balance.AmountOfAbsent` | src/algorithm.js:15 | a key no entry names contributes 0 |
| `Balance.ModuleBalance` | src/algorithm.js:37 | the productivity step keeps the key set |
| `Balance.ModuleBalanceSign` | src/algorithm.js:37 | productivity scales only strictly positive entries: the sign is kept, products never shrink when the multiplier is at least 1, and non-positive entries are unchanged |
| `Balance.PerMinuteClosedForm` | src/algorithm.js:25-38 | `v / ((time/speed)/speedEff) * 60` equals `60·v·speed·speedEff/time` |
| `Balance.FinalBalance` | src/algorithm.js:38 | per-minute normalisation keeps the key set |
| `Balance.EntryBalanceAt` | src/algorithm.js:37-38 | each entry of a recipe's final balance is the per-minute rate of its productivity-scaled net amount |
| `Balance.EntryClosedForm` | src/algorithm.js:12-39 | a recipe entry's keys are the materials of its ingredient variant and products. Each value is the net amount, scaled by productivity and turned into a rate by machine speed and speed effect |
| `Balance.NeutralEffects` | src/algorithm.js:26-35 | with no module and no beacon, zero base productivity and a non-resource recipe, both multipliers are 1 |
| `Balance.PlainMachineRate` | src/algorithm.js:25-38 | with neutral effects the entry is the plain rate of the net amount |
| `Balance.UnitRate` | src/algorithm.js:25-38 | one unit of net output at time T and speed S gives 60·S/T per minute |
| `Balance.RecipeEntry` | src/algorithm.js:9-39 | one recipe's entry is built as specified |
| `Balance.RecipeBalance` | src/algorithm.js:4-43 | the nested loops build exactly the recipe table |
| `Balance.AddGroup` | src/algorithm.js:8-40 | one group's recipes are added to the table |
| `Balance.RecipeTableKeys` | src/algorithm.js:7-9 | the table has a key `name@index` iff that recipe variant is in some group |
| `Balance.RecipeTableEntry` | src/algorithm.js:21-39 | a grouped recipe's entry uses its group's machine, module, beacon module and count |
| `LpModel.Bound` | src/algorithm.js:91-95 | min is present iff input is not allowed, and max is present iff output is not allowed. Both carry the given value |
| `LpModel.VariableAt` | src/algorithm.js:45-58 | variable `L<i>#r` exists iff line i exists, r is allowed on it, and r has a balance. Its coefficients are that balance |
| `LpModel.CoefficientsAt` | src/algorithm.js:51-54 | a variable's coefficients hold each balance value under both the bare material key and the `L<i>#` key |
| `LpModel.ProductionLineRecipes` | src/algorithm.js:45-58 | the loop builds exactly the variable map |
| `LpModel.AddLineRecipes` | src/algorithm.js:49-55 | one line's allowed, balanced recipes are added under their scoped names |
| `LpModel.LineConstraintAt` | src/algorithm.js:60-77 | a line constraint exists iff the material is not both an allowed input and an allowed output. It has min 0 iff input is disallowed and max 0 iff output is disallowed |
| `LpModel.ProductionLineConstraints` | src/algorithm.js:60-77 | the nested loops build exactly the line constraints |
| `LpModel.SumTargets` | src/algorithm.js:82-85 | rows with no item are skipped, and duplicate items are summed |
| `LpModel.TargetSumUnnamed` | src/algorithm.js:82-85 | an item no row names has target 0 |
| `LpModel.TargetConstraintAt` | src/algorithm.js:88-96 | a global constraint exists iff the material is not both allowed in and out. Its bounds equal the summed target, or 0 when there is none |
| `LpModel.TargetConstraintsOf` | src/algorithm.js:79-99 | the loops build exactly the global constraints |
| `LpModel.ConstraintsTight` | src/algorithm.js:141-142 | every merged constraint has a bound, and when it has both they are equal. That equality is the assumption on line 142 |
| `LpModel.LinesAt` | src/algorithm.js:47-55 | the per-line union holds exactly the scoped names of each line |
| `Solver.TransposeAt` | src/algorithm.js:121-127 | row `cons` has column `rec` iff variable `rec` has coefficient `cons`, with the same value, and no row is empty |
| `Solver.TransposeTwice` | src/algorithm.js:121-127 | transposing twice gives back every variable that has a coefficient |
| `Solver.TransposeVariables` | src/algorithm.js:121-127 | the nested loops build exactly the transposition |
| `Solver.RelationOf` | src/algorithm.js:141-142 | `<= max` when only max is present, `>= min` when only min is present, and `= max` when both are |
| `Solver.RelationMeaning` | src/algorithm.js:141-142 | the relation holds of a value iff the value lies in the constraint's range |
| `Solver.BuildRows` | src/algorithm.js:131-145 | for any test applied to a constraint without variables, the loop gives up iff some such constraint fails the test, and otherwise yields exactly one row per constraint that has variables |
| `Solver.BuildProgram` | src/algorithm.js:131-145 | the loop as written gives up iff some constraint without variables has a non-zero bound (`range.min \|\| range.max`), even one that 0 meets. Otherwise it builds one row per constraint that has variables |
| `Solver.BuildProgramIntended` | src/algorithm.js:131-145 | the loop with the corrected test gives up iff some constraint without variables is not met by 0. Otherwise it builds the same rows |
| `Solver.IntendedGiveUpExact` | src/algorithm.js:131-145 | with the corrected test, giving up means no plan meets every constraint. Otherwise a plan meets every constraint iff it meets every row of the program |
| `Solver.UnmeetableIsForced` | src/algorithm.js:133-134 | the test as written gives up on every constraint the corrected test gives up on |
| `Solver.ShortCircuitsDiffer` | src/algorithm.js:131-138 | the as-written give-up holds iff the corrected one holds or some constraint without variables has a non-zero bound that 0 meets |
| `Solver.ShortCircuitsRejectsMeetable` | src/algorithm.js:133-135 | on the lone constraint `m <= 5` without variables the loop as written gives up, the corrected loop does not, and 0 meets it |
| `Solver.Forced` | src/algorithm.js:133-134 | the short-circuit test as written: no variables and a non-zero bound |
| `Solver.ForcedRejectsMeetable` | src/algorithm.js:133-134 | the test as written gives up on `<= 5` with no variables, which 0 meets |
| `Solver.ForcedAgrees` | src/algorithm.js:133-134 | the test as written and the corrected test agree on zero bounds |
| `Solver.DecodeName` | src/algorithm.js:166 | un-escaping inverts escaping for names without `$` |
| `Text.UnescapeEscape` | src/algorithm.js:129 | `$`→`-` inverts `-`→`$` on every `$`-free name |
| `Text.EscapeInjective` | src/algorithm.js:129 | distinct `$`-free names stay distinct after escaping |
| `Solver.CollectColumns` | src/algorithm.js:160-163 | only non-zero columns are collected, in order |
| `Solver.MaxValueIsMax` | src/algorithm.js:164 | the maximum is attained by some column and bounds all of them |
| `Solver.SignificantAgainst` | src/algorithm.js:165 | for a positive maximum, `|v|/max > 1e-9` iff `|v| > max·1e-9`. For a negative maximum nothing passes |
| `Solver.Unescaped` | src/algorithm.js:166 | every name is un-escaped and every value kept, position by position |
| `Solver.DecodeAnswer` | src/algorithm.js:158-166 | the decoding steps compute the specified decoding |
| `Solver.DecodeMember` | src/algorithm.js:160-166 | every decoded column comes from a non-zero, significant solver column, with its name un-escaped and its value kept |
| `Solver.DecodeKeeps` | src/algorithm.js:160-166 | every significant column survives decoding |
| `Solver.Resolve` | src/algorithm.js:101-110 | a successful resolution has one list per production line |
| `Solver.ResolveDefined` | src/algorithm.js:104-107 | resolution succeeds iff every name parses as `L<i>#r` with line i in range |
| `Solver.ResolveLines` | src/algorithm.js:101-110 | line i's list holds, in order, the activities of the results scoped to line i |
| `Solver.ResolveStep` | src/algorithm.js:104-108 | one loop step pushes the activity onto the line its name parses to |
| `Solver.ResolveFails` | src/algorithm.js:105-107 | one unreadable name makes resolution fail |
| `Solver.ActivitiesMember` | src/algorithm.js:107 | an activity is listed iff some result produced it |
| `Solver.ResolvedActivity` | src/algorithm.js:101-110 | every resolved activity comes from a result with its line and recipe name and its amount. It carries the recipe table's entry for that recipe when there is one |
| `Solver.ResolveLine` | src/algorithm.js:101-110 | the loop computes exactly the resolution |
| `Solver.ConstraintsHaveSides` | src/algorithm.js:117-119 | every merged constraint has a bound to state |
| `Solver.Solve` | src/algorithm.js:112-169 | `solve` computes exactly: empty lists when it gives up (the test as written) or the solver is not optimal, and otherwise the resolved, decoded answer |
| `Solver.SolveEmpty` | src/algorithm.js:131-156 | when some constraint no variable touches has a non-zero bound, even one that 0 meets, or the solver is not optimal, the result is one empty list per line |
| `Solver.TransposeMissing` | src/algorithm.js:121-127 | a constraint is absent from the transposition iff no variable has a coefficient for it |
| `Solver.GivesUpDiffers` | src/algorithm.js:131-138 | `solve` gives up iff some constraint no variable touches has a non-zero bound. The corrected test gives up iff some such constraint is not met by 0. The first covers the second and goes beyond it only on constraints with a non-zero bound that 0 meets |
| `Solver.ProgramRow` | src/algorithm.js:131-145 | the program has a row for a constraint iff some variable touches it. The row's terms are those variables' coefficients, and its relation holds exactly in the constraint's range |
| `Solver.SolveActivity` | src/algorithm.js:158-168 | every activity in the answer comes from a non-zero solver column whose un-escaped name is `L<i>#r` and whose value is the amount |
| `Solver.DecodedActivity` | src/algorithm.js:160-168 | the same, for decoding followed by resolution |
| `Text.ParseVarScoped` | src/algorithm.js:105-106 | parsing `L<i>#r` back gives line i and name r |
| `Text.ScopedInjective` | src/algorithm.js:51 | distinct (line, name) pairs give distinct variable names |
| `Text.KeyInjective` | src/recipe.js:13-14 | distinct (name, index) pairs give distinct `name@index` keys |
| `Text.ParseIntOfNatToString` | src/algorithm.js:106 | `parseInt` reads back a rendered line number |
| `Text.ParseIntTrimmed` | src/algorithm.js:106 | `parseInt` skips leading white space before decimal digits and reads their value |
| `Text.ParseIntSigned` | src/algorithm.js:106 | `parseInt` reads one `+` or `-` before decimal digits, negating the value after `-` |
| `Text.ParseIntHex` | src/algorithm.js:106 | after a `0x` or `0X` prefix `parseInt` reads hexadecimal digits |
| `Text.ParseVarSplit` | src/algorithm.js:105-106 | `k.split('#')` cuts at the first `#`; the line is `parseInt` of the head after its first character, and a NaN or negative line gives `None` |
| `Text.ParseVarSigned` | src/algorithm.js:105-107 | `L+<i>#r` reaches line i, `L-0#r` line 0, and `L-<i>#r` with i > 0 a negative line, hence `None` |
| `Text.ParseVarUnsplit` | src/algorithm.js:105-107 | a name without `#` has no recipe part and gives `None` |
| `Components.KeptModule` | src/components.js:396-397 | a slot's module is kept iff it is set and fits the new machine |
| `Components.ToggleMachine` | src/components.js:395-404 | only entry `index` changes. The machine becomes the new one, the modules are kept iff they fit, and the beacon counts are unchanged |
| `Components.ToggleMachineFits` | src/components.js:395-404 | switching the machine keeps every selected module compatible with its machine |
| `Components.ToggleModule` | src/components.js:406-413 | only module slot `index` changes, and every other array is unchanged |
| `Components.ToggleBeaconModule` | src/components.js:415-422 | only beacon slot `index` changes, and every other array is unchanged |
| `Components.ChangeBeaconModuleCount` | src/components.js:424-431 | only count `index` changes, and every other array is unchanged |
| `Components.ToggleModuleFits` | src/components.js:406-413 | after a single-slot change every module fits iff the new module fits that slot's machine |
| `Components.AllSlot` | src/components.js:436-438 | a null module clears the slot. A module is set iff the group allows it and it fits the machine; otherwise the slot is kept |
| `Components.ToggleAllModule` | src/components.js:433-442 | every slot follows that rule, and nothing else changes |
| `Components.ToggleAllBeaconModule` | src/components.js:444-453 | the same rule for beacon slots |
| `Components.ToggleAllModuleFits` | src/components.js:433-453 | the bulk changes keep every module compatible. A slot becomes the chosen module iff the module is null, or is allowed and fits, or the slot already held it |
| `Components.ChangeAllBeaconModuleCount` | src/components.js:455-462 | every count becomes `count`, one per recipe group |
| `Components.ChangeAllBeaconModuleCountAligns` | src/components.js:455-462 | the four arrays stay aligned with the groups |
| `Components.Toggled` | src/components.js:288-292 | toggling flips membership of exactly the toggled item |
| `Components.ToggledTwice` | src/components.js:288-292 | toggling an item twice restores the set |
| `Components.ToggledCommute` | src/components.js:288-292 | toggles of two items commute |
| `Components.SelectPanel.constructor` | src/components.js:283-285 | a panel starts with the given mode, choice and selection |
| `Components.SelectPanel.ToggleItem` | src/components.js:284-295 | in single mode the shown selection becomes exactly the item. In multi mode exactly the item's membership flips |
| `Components.SelectPanel.UnselectAll` | src/components.js:298 | the selection becomes empty |
| `Components.SelectPanel.SelectAll` | src/components.js:299-312 | the selection becomes the keys of every entry of the panel's kind |
| `Components.SelectAllMember` | src/components.js:299-312 | select-all picks a key iff its material, recipe or resource variant is enumerated. A recipe counts only from a group listed once |
| `Components.KeySetMember` | src/components.js:303-312 | a key is selected iff its variant is in the list |
| `Components.ShownTargets` | src/components.js:611 | an empty target list is shown as one blank row. A non-empty list is shown unchanged |
| `Components.DeleteTargetDemand` | src/components.js:615 | deleting removes exactly row `index`, and the total demand drops by that row's demand |
| `Components.EditTargetDemand` | src/components.js:616-623 | editing replaces only row `index`, and the demand changes by the new row's minus the old row's |
| `Components.AddTargetDemand` | src/components.js:629-631 | adding appends one blank row and leaves every demand unchanged |
| `Components.TargetSumAppend` | src/algorithm.js:82-85 | demand is additive over concatenated target lists |
| `Components.TargetSumReplace` | src/components.js:616-623 | replacing one row changes demand by exactly that row's difference |
| `Components.AddBalance` | src/components.js:658-660 | one activity's balance is added, scaled by its amount, to the running totals |
| `Components.ItemBalance` | src/components.js:656-661 | the item balance has a key for every item some activity names. Its value is the sum over activities of `balance[item] × amount` |
| `Components.ItemsStep` | src/components.js:657-661 | one more activity adds its scaled contribution and its items |
| `Components.ItemTotalUnnamed` | src/components.js:657-661 | an item no activity names totals 0 |
| `Components.ShownLargest` | src/components.js:663-664 | resource items are never shown. The item with the largest magnitude is shown unless it is a resource |
| `Components.ShownItems` | src/components.js:662-664 | the maximum bounds every magnitude and is attained. The shown items are exactly the non-resource items whose relative magnitude is at least 1e-12 |
| `Page.DefaultTargetPage` | src/page.js:7-15 | productivity 0, no targets, no allowed outputs |
| `Page.DefaultTargetPageMember` | src/page.js:10-13 | the allowed inputs are exactly the enumerated free-fluid materials, and the allowed resources are exactly the enumerated resources |
| `Page.DefaultTargetConstraints` | src/page.js:7-15 | under the default target page every material is capped at output 0, and only free fluids may be drawn in |
| `Page.DefaultMachinePage` | src/page.js:29-37 | the arrays are aligned with the groups. Each group gets its first machine, no modules and count 0, and that machine produces the group's recipes. Every grouped recipe is enumerated, `nonProducible` is exactly the enumerated recipes that no machine can produce, and the groups and `nonProducible` together hold the enumerated recipes as a multiset. Recipes with the same category, capable machines and applicable modules share a group |
| `Page.FirstChoices` | src/page.js:31-34 | the selections are one per group: its first machine, null, null and 0 |
| `Page.FirstMachinesProduce` | src/page.js:31 | every group's first machine produces all of the group's recipes |
| `Page.DefaultProductionLine` | src/page.js:54-55 | the allowed inputs equal the allowed outputs |
| `Page.DefaultProductionLineMember` | src/page.js:48-57 | the default line allows every enumerated recipe, every resource, and every material as input and output |
| `Page.DefaultLineUnconstrained` | src/page.js:48-57 | a default line puts no bound on any material |
| `Page.DefaultLineRunsResources` | src/page.js:48-57 | a default line may run every resource the target page allows |
| `Page.DefaultProductionLinePage` | src/page.js:67-69 | the default page is exactly one default line |
| `Page.CurrentLines` | src/page.js:78 | a missing list becomes one default line. A present list, even an empty one, is used as is |
| `Page.DeleteLine` | src/page.js:83-84 | deleting removes only tab `index`. Deleting the last tab leaves one default line, so the list is never empty |
| `Page.DeleteLinePage` | src/page.js:85 | the page after a deletion is a valid tab, never below 0. When another tab is deleted it still shows the same line |
| `Page.AddLine` | src/page.js:95 | one default line is appended, and the rest are unchanged |
| `Page.EditLine` | src/page.js:98-100 | only the current page's line is replaced |
| `Recipe.CannotHalf` | src/recipe.js:87-88 | the "cannot" half holds only recipes failing the test, and the two halves together hold every input recipe exactly as often |
| `Collections.RemoveAtMultiset` | src/components.js:615 | removing one position removes exactly that element |

## Left out

- The simplex solver (`glpk`, src/algorithm.js:147-157) is not modelled. `Solver.Solve` takes it as an oracle parameter from the program to a status and column values, and the model states nothing about optimality.
- The LP text itself is not modelled. The number rendering in the text, the objective line and the `End` line are left out. The program is a map from constraint name to a row of coefficients plus a relation; `LpName` gives only the escaping of names.
- `parseFloat` of the target amounts (src/algorithm.js:84) and of typed inputs is not modelled. All amounts are already `real`.
- IEEE-754 doubles are modelled as exact reals, so rounding noise is not reproduced. A zero crafting speed or speed multiplier makes the machine time infinite in JavaScript; the model gives the resulting rate of 0 explicitly.
- `Balance.PerMinute` requires a non-zero recipe time. A zero time would give an infinite rate in JavaScript, which reals cannot express.
- `Solver.Decode`: `Math.max` of an empty list is `-Infinity`. The model decodes an empty list to empty, which is the same outcome.
- JavaScript object and `Set` iteration order is not modelled. Maps and sets stand for the objects and `Set`s, and the display order of results and items is left out.
- `Solver.Resolve`: a name without `#` pushes an activity named `undefined` in the source, and a line that `parseInt` reads as NaN, as a negative number or as past the last line makes the push throw. The model gives `None` in each case. `parseInt` itself is modelled with its white space, sign and `0x` prefix, so `L+1#r` and `L-0#r` reach lines 1 and 0 as they do in the source.
- Column names that contain `#` in the recipe part, or `$` in the original name, are not modelled. Results for such names may collide or mis-parse in the source.
- `Solver.Decode` works on a sequence of columns, not a JavaScript object. Two columns whose names coincide after un-escaping are not merged.
- `Recipe.CanProduce`: the source throws for a missing recipe, a category without a machine list, or a missing machine, and for a recipe without ingredient variants when a non-negative input limit reads `ingredients[0]`. The model answers false in each case; with both input limits negative the variants are not read and a recipe without them can be produced, as in the source.
- `Recipe.CanInsertModule`: the source throws for a machine or module missing from the catalog. The model answers false, and its contract speaks only of known names.
- Catalog-consistency requirements (`Balance.Balanceable`, `RecipeGroupsKnown`, `MaterialGroupsKnown`, `ResourcesKnown`, `ModulesKnown`) stand where the source would throw on a missing catalog entry.
- `Components.ItemBalance` requires every activity to carry a table entry. The source reads `balance` from the entry and would throw without one.
- `Components.ToggleAllModule` and `Components.ToggleAllBeaconModule` require the selection arrays to have one entry per group, as the source indexes `recipeGroup` by the position in `machineSelect`.
- The empty module name `""` is modelled as a present module. In the source it is falsy and behaves like `null`; the catalog has no such module.
- `Recipe.AllTempRecipes` assumes that no recipe is named `[object Object]`. A repeated group's second pass looks its `{name, index}` objects up under that key, and such a recipe would keep them under a name that is not a string.
- `tempRecipeInfo` and `tempMaterialInfo` (src/recipe.js:43-69) are not modelled. They build localised display names from catalog lookups.
- React rendering, JSX, CSS, tooltips, icons, `toFixed`/`toPrecision` and event wiring are not modelled. The handlers are modelled as functions from the old state and the event to the new state, and the `page` tab index as an integer argument.
- `src/App.js` is not modelled: it fetches the catalog and mounts the form.
- `DataForm` and `ResultPage` (src/page.js:106-175) are not modelled. They only route between pages and call `solve`, which `Solver.Solve` models.

## Findings

| source | as written | input that shows it | evidently intended | confidence | as-written member | corrected member |
|---|---|---|---|---|---|---|
| src/algorithm.js:133-138 | a constraint that no variable touches makes `solve` give up with empty lists whenever `range.min \|\| range.max` is truthy, that is, whenever a bound is non-zero | a target of 5 on a material that is an allowed input but not an allowed output, which no allowed recipe touches. The constraint is `<= 5`, which activity 0 meets, yet `solve` returns empty lists | give up only when 0 is outside the constraint's range, since a constraint without variables evaluates to 0 | medium; not executed | `Solver.ShortCircuitsRejectsMeetable` | `Solver.BuildProgramIntended` |

`Solver.Solve`, `Solver.GivesUp` and `Solver.SolveEmpty` keep the test as written, since they model what `solve` does. The corrected loop `Solver.BuildProgramIntended` is proved exact by `Solver.IntendedGiveUpExact`, and `Solver.GivesUpDiffers` states how far the two give-ups differ on every configuration.
