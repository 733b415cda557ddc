/** The default configuration of each page and the list rules of the
    production-line tabs. */
module Page {
  import opened Collections
  import opened Text
  import opened Data
  import opened Recipe
  import opened LpModel
  import opened Components

  // ---------------------------------------------------------------------
  // Target page
  // ---------------------------------------------------------------------

  function FreeFluid(c: Catalog): TempRef -> bool
  {
    (t: TempRef) => t.name in c.freeFluids
  }

  /** `defaultTargetPage(data)`: productivity 0, no targets, every raw
      resource allowed, nothing allowed out, and the free fluids (every
      variant of them) allowed in. */
  function DefaultTargetPage(c: Catalog): (r: TargetConfig)
    requires MaterialGroupsKnown(c) && ResourcesKnown(c)
    ensures r.productivity == 0.0 && r.target == [] && r.io.allowedOutput == {}
  {
    TargetConfig(0.0, [], IOConfig(
      KeySet(Filter(MaterialEntries(c), FreeFluid(c))),
      {},
      KeySet(AllTempResource(c))))
  }

  /** The default inputs are exactly the enumerated variants of the free
      fluids; the default resources are exactly the raw-resource variants. */
  lemma DefaultTargetPageMember(c: Catalog, name: string, index: nat)
    requires MaterialGroupsKnown(c) && ResourcesKnown(c)
    ensures Key(name, index) in DefaultTargetPage(c).io.allowedInput <==>
      TempRef(name, index) in MaterialEntries(c) && name in c.freeFluids
    ensures Key(name, index) in DefaultTargetPage(c).io.allowedResource <==>
      name in c.resourceOrder && index < |c.recipeAttr[name].ingredients|
  {
    KeySetMember(Filter(MaterialEntries(c), FreeFluid(c)), name, index);
    FilterMember(MaterialEntries(c), FreeFluid(c), TempRef(name, index));
    KeySetMember(AllTempResource(c), name, index);
  }

  /** Under the default target page every material is held to a plan-wide
      balance: nothing may leave (its maximum is 0), and it must not be
      consumed from outside (its minimum is 0) unless it is a free fluid. */
  lemma DefaultTargetConstraints(c: Catalog, cfg: Config, name: string, index: nat)
    requires MaterialGroupsKnown(c) && ResourcesKnown(c)
    requires cfg.targetConfig == DefaultTargetPage(c)
    requires TempRef(name, index) in MaterialEntries(c)
    ensures Key(name, index) in TargetConstraints(cfg, MaterialKeys(c))
    ensures var r := TargetConstraints(cfg, MaterialKeys(c))[Key(name, index)];
      r.max == Some(0.0) && (r.min == Some(0.0) <==> name !in c.freeFluids) && (r.min.None? <==> name in c.freeFluids)
  {
    var m := Key(name, index);
    KeysOfMember(MaterialEntries(c), name, index);
    DefaultTargetPageMember(c, name, index);
    TargetConstraintAt(cfg, MaterialKeys(c), m);
  }

  // ---------------------------------------------------------------------
  // Machine page
  // ---------------------------------------------------------------------

  /** `defaultMachinePage(data)`: the recipe groups, each with its first
      capable machine and no modules, beacon modules or beacon count. */
  method DefaultMachinePage(c: Catalog) returns (m: MachineConfig)
    requires RecipeGroupsKnown(c) && ResourcesKnown(c) && ModulesKnown(c)
    ensures Aligned(m) && Fits(c, m)
    ensures forall k :: 0 <= k < |m.recipeGroup| ==>
      && |m.recipeGroup[k].machine| > 0
      && m.machineSelect[k] == m.recipeGroup[k].machine[0]
      && m.moduleSelect[k].None? && m.beaconModuleSelect[k].None? && m.beaconModuleCount[k] == 0.0
    ensures forall k, r :: 0 <= k < |m.recipeGroup| && r in m.recipeGroup[k].recipe ==>
      CanProduce(c, r.name, m.machineSelect[k])
    ensures forall r :: r in EnumeratedRecipes(c) ==> (InSomeGroup(m.recipeGroup, r) <==> r !in m.nonProducible)
    ensures forall g, r :: g in m.recipeGroup && r in g.recipe ==> r in EnumeratedRecipes(c)
    ensures forall r :: r in m.nonProducible <==> r in EnumeratedRecipes(c) && CapableMachines(c, r) == []
    ensures multiset(GroupedRecipes(m.recipeGroup)) + multiset(m.nonProducible) == multiset(EnumeratedRecipes(c))
    ensures GroupsApart(c, m.recipeGroup)
  {
    var recipeGroup, nonProducible := GetRecipeGroup(c);
    m := FirstChoices(recipeGroup, nonProducible);
    FirstMachinesProduce(c, recipeGroup);
  }

  lemma FirstMachinesProduce(c: Catalog, groups: seq<RecipeGroup>)
    requires forall g :: g in groups ==> GroupFits(c, g)
    ensures forall k :: 0 <= k < |groups| ==> |groups[k].machine| > 0
    ensures forall k, r :: 0 <= k < |groups| && r in groups[k].recipe ==> CanProduce(c, r.name, groups[k].machine[0])
  {
    forall k | 0 <= k < |groups|
      ensures |groups[k].machine| > 0
      ensures forall r :: r in groups[k].recipe ==> CanProduce(c, r.name, groups[k].machine[0])
    {
      assert GroupFits(c, groups[k]);
      forall r | r in groups[k].recipe
        ensures CanProduce(c, r.name, groups[k].machine[0])
      {
        FirstMachineProduces(c, groups[k], r);
      }
    }
  }

  /** The selections of a fresh machine page: each group's first machine,
      no modules, no beacons. */
  function FirstChoices(groups: seq<RecipeGroup>, nonProducible: seq<TempRef>): (m: MachineConfig)
    requires forall g :: g in groups ==> |g.machine| > 0
    ensures m.recipeGroup == groups && m.nonProducible == nonProducible && Aligned(m)
    ensures forall k :: 0 <= k < |groups| ==>
      && m.machineSelect[k] == groups[k].machine[0]
      && m.moduleSelect[k].None? && m.beaconModuleSelect[k].None? && m.beaconModuleCount[k] == 0.0
  {
    var n := |groups|;
    MachineConfig(groups, nonProducible,
      seq(n, k requires 0 <= k < n => assert groups[k] in groups; groups[k].machine[0]),
      seq(n, k => None), seq(n, k => None), seq(n, k => 0.0))
  }

  /** The first machine of a group whose machines are a recipe's capable
      machines can produce that recipe. */
  lemma FirstMachineProduces(c: Catalog, g: RecipeGroup, r: TempRef)
    requires |g.machine| > 0 && g.machine == CapableMachines(c, r)
    ensures CanProduce(c, r.name, g.machine[0])
  {
    assert g.machine[0] in CapableMachines(c, r);
    FilterMember(MachinesOf(c, c.recipeAttr[r.name].category), Producer(c, r.name), g.machine[0]);
  }

  // ---------------------------------------------------------------------
  // Production lines
  // ---------------------------------------------------------------------

  /** `defaultProductionLine(data)`: every enumerated recipe and raw
      resource allowed, every material allowed both in and out. */
  function DefaultProductionLine(c: Catalog): (r: ProductionLine)
    requires RecipeGroupsKnown(c) && MaterialGroupsKnown(c) && ResourcesKnown(c)
    ensures r.allowedInput == r.allowedOutput
  {
    ProductionLine(
      KeySet(RecipeEntries(c)),
      KeySet(AllTempResource(c)),
      KeySet(MaterialEntries(c)),
      KeySet(MaterialEntries(c)))
  }

  /** The default line allows exactly the enumerated recipe variants and raw
      resource variants, and exactly the enumerated material variants both ways. */
  lemma DefaultProductionLineMember(c: Catalog, name: string, index: nat)
    requires RecipeGroupsKnown(c) && MaterialGroupsKnown(c) && ResourcesKnown(c)
    ensures Key(name, index) in DefaultProductionLine(c).allowedRecipe <==> TempRef(name, index) in RecipeEntries(c)
    ensures Key(name, index) in DefaultProductionLine(c).allowedResource <==>
      name in c.resourceOrder && index < |c.recipeAttr[name].ingredients|
    ensures Key(name, index) in DefaultProductionLine(c).allowedInput <==> TempRef(name, index) in MaterialEntries(c)
  {
    KeySetMember(RecipeEntries(c), name, index);
    KeySetMember(AllTempResource(c), name, index);
    KeySetMember(MaterialEntries(c), name, index);
  }

  /** A default line puts no balance constraint on any material. */
  lemma DefaultLineUnconstrained(c: Catalog, cfg: Config, i: nat, m: string)
    requires RecipeGroupsKnown(c) && MaterialGroupsKnown(c) && ResourcesKnown(c)
    requires i < |cfg.productionLineConfig| && cfg.productionLineConfig[i] == DefaultProductionLine(c)
    ensures Scoped(i, m) !in LineConstraints(cfg, MaterialKeys(c))
  {
    LineConstraintAt(cfg, MaterialKeys(c), i, m);
  }

  /** With the default target page, a default line may run every raw
      resource variant. */
  lemma DefaultLineRunsResources(c: Catalog, cfg: Config, i: nat, name: string, index: nat)
    requires RecipeGroupsKnown(c) && MaterialGroupsKnown(c) && ResourcesKnown(c)
    requires i < |cfg.productionLineConfig| && cfg.productionLineConfig[i] == DefaultProductionLine(c)
    requires cfg.targetConfig == DefaultTargetPage(c)
    requires name in c.resourceOrder && index < |c.recipeAttr[name].ingredients|
    ensures Key(name, index) in AllowedRecipes(cfg, i)
  {
    DefaultProductionLineMember(c, name, index);
    DefaultTargetPageMember(c, name, index);
  }

  /** `defaultProductionLinePage(data)`: one default line. */
  function DefaultProductionLinePage(c: Catalog): (r: seq<ProductionLine>)
    requires RecipeGroupsKnown(c) && MaterialGroupsKnown(c) && ResourcesKnown(c)
    ensures |r| == 1 && r[0] == DefaultProductionLine(c)
  {
    [DefaultProductionLine(c)]
  }

  /** `this.props.config || [defaultProductionLine(data)]`: a missing list
      becomes one default line; a present list, even an empty one, is kept. */
  function CurrentLines(c: Catalog, config: Option<seq<ProductionLine>>): (r: seq<ProductionLine>)
    requires RecipeGroupsKnown(c) && MaterialGroupsKnown(c) && ResourcesKnown(c)
    ensures config.None? ==> r == DefaultProductionLinePage(c)
    ensures config.Some? ==> r == config.value
  {
    if config.Some? then config.value else DefaultProductionLinePage(c)
  }

  /** The delete button of tab `index`: the tab is removed; removing the last
      one leaves a single default line. */
  function DeleteLine(c: Catalog, config: seq<ProductionLine>, index: int): (r: seq<ProductionLine>)
    requires RecipeGroupsKnown(c) && MaterialGroupsKnown(c) && ResourcesKnown(c)
    ensures |r| > 0
    ensures 0 <= index < |config| && |config| > 1 ==> r == RemoveAt(config, index)
    ensures 0 <= index < |config| && |config| == 1 ==> r == DefaultProductionLinePage(c)
  {
    var kept := RemoveAt(config, index);
    if |kept| == 0 then DefaultProductionLinePage(c) else kept
  }

  /** The page shown after deleting tab `index`. */
  function PageAfterDelete(page: int, index: int): int
  {
    if page >= index then (if page - 1 > 0 then page - 1 else 0) else page
  }

  /** Deleting a tab leaves the current page on a tab that exists, never
      below 0, and, when a tab other than the current one is deleted, on the
      same line as before. */
  lemma DeleteLinePage(c: Catalog, config: seq<ProductionLine>, index: int, page: int)
    requires RecipeGroupsKnown(c) && MaterialGroupsKnown(c) && ResourcesKnown(c)
    requires 0 <= page < |config| && 0 <= index < |config|
    ensures 0 <= PageAfterDelete(page, index) < |DeleteLine(c, config, index)|
    ensures page != index ==> DeleteLine(c, config, index)[PageAfterDelete(page, index)] == config[page]
  {
    if page != index {
      assert |config| > 1;
    }
  }

  /** The add button: one default line appended. */
  function AddLine(c: Catalog, config: seq<ProductionLine>): (r: seq<ProductionLine>)
    requires RecipeGroupsKnown(c) && MaterialGroupsKnown(c) && ResourcesKnown(c)
    ensures |r| == |config| + 1 && r[..|config|] == config && r[|config|] == DefaultProductionLine(c)
  {
    config + [DefaultProductionLine(c)]
  }

  /** Editing the current page's line: only that line is replaced. */
  function EditLine(config: seq<ProductionLine>, page: int, line: ProductionLine): (r: seq<ProductionLine>)
    ensures |r| == |config|
    ensures 0 <= page < |config| ==> r[page] == line
    ensures forall k :: 0 <= k < |config| && k != page ==> r[k] == config[k]
  {
    Replace(config, page, line)
  }
}
