/** The planner's inputs: the read-only game catalog (`info.json`) and the
    user configuration the pages edit. Names of recipes, machines, modules and
    materials are the catalog's string identifiers; a material or recipe
    variant is addressed by `name@index` (see Text.Key). */
module Data {
  import opened Collections

  /** One `[name, amount]` pair of an ingredient or product list. */
  datatype Amount = Amount(name: string, amount: real)

  /** `recipe_attr[name]`: the ingredient list exists once per ingredient
      variant (temperature), the products are shared by all variants. */
  datatype RecipeAttr = RecipeAttr(
    name: string,
    time: real,
    category: string,
    ingredients: seq<seq<Amount>>,
    products: seq<Amount>)

  /** `machine_attr[name]`: crafting speed, module slot count (`module`), base
      productivity, the effect channels modules may use, the one recipe of a
      fixed-function machine (`""` when none), and the item-input, fluid-input
      and fluid-output limits (negative means unbounded). */
  datatype MachineAttr = MachineAttr(
    speed: real,
    slots: int,
    baseProd: real,
    effects: seq<string>,
    fixed: string,
    itemIn: int,
    fluidIn: int,
    fluidOut: int)

  /** The four effect channels of a module (0 where the module has none). */
  datatype Effects = Effects(consumption: real, speed: real, productivity: real, pollution: real)

  /** `module_attr[name]`: an empty limitation means "any recipe". */
  datatype ModuleAttr = ModuleAttr(effects: Effects, limitation: seq<string>)

  /** `data`: the attribute tables and the `order_info` lists. */
  datatype Catalog = Catalog(
    recipeAttr: map<string, RecipeAttr>,
    machineAttr: map<string, MachineAttr>,
    moduleAttr: map<string, ModuleAttr>,
    temperatureAttr: map<string, seq<seq<real>>>,
    recipeGroups: seq<string>,
    recipeOrder: map<string, seq<seq<string>>>,
    materialGroups: seq<string>,
    materialOrder: map<string, seq<seq<string>>>,
    resourceOrder: seq<string>,
    machineOrder: map<string, seq<string>>,
    moduleOrder: seq<string>,
    freeFluids: seq<string>,
    unlockable: seq<string>)

  /** Every recipe group listed has its subgroup table (src/recipe.js:7). */
  predicate RecipeGroupsKnown(c: Catalog)
  {
    forall g :: g in c.recipeGroups ==> g in c.recipeOrder
  }

  /** Every material group listed has its subgroup table (src/recipe.js:26). */
  predicate MaterialGroupsKnown(c: Catalog)
  {
    forall g :: g in c.materialGroups ==> g in c.materialOrder
  }

  /** Every raw-resource recipe has attributes (src/recipe.js:38). */
  predicate ResourcesKnown(c: Catalog)
  {
    forall r :: r in c.resourceOrder ==> r in c.recipeAttr
  }

  /** Every module in catalog order has attributes (src/recipe.js:104). */
  predicate ModulesKnown(c: Catalog)
  {
    forall m :: m in c.moduleOrder ==> m in c.moduleAttr
  }

  /** A recipe enumerated as `{name, index}` (one ingredient variant), or a
      material enumerated as `{name, index}` (one temperature variant). */
  datatype TempRef = TempRef(name: string, index: nat)

  /** One entry of `recipeGroup`: recipes sharing the same capable machines
      (in category order) and the same applicable modules (`module`, in catalog
      order). */
  datatype RecipeGroup = RecipeGroup(recipe: seq<TempRef>, machine: seq<string>, modules: seq<string>)

  /** The machine page: one selection per recipe group. */
  datatype MachineConfig = MachineConfig(
    recipeGroup: seq<RecipeGroup>,
    nonProducible: seq<TempRef>,
    machineSelect: seq<string>,
    moduleSelect: seq<Option<string>>,
    beaconModuleSelect: seq<Option<string>>,
    beaconModuleCount: seq<real>)

  /** The four selection arrays run parallel to `recipeGroup`. */
  predicate Aligned(m: MachineConfig)
  {
    && |m.machineSelect| == |m.recipeGroup|
    && |m.moduleSelect| == |m.recipeGroup|
    && |m.beaconModuleSelect| == |m.recipeGroup|
    && |m.beaconModuleCount| == |m.recipeGroup|
  }

  /** Allow-sets of the target page, keyed by `name@index`. */
  datatype IOConfig = IOConfig(allowedInput: set<string>, allowedOutput: set<string>, allowedResource: set<string>)

  /** One target row; `item` is `null` until the user picks a material. */
  datatype Target = Target(item: Option<string>, amount: real)

  datatype TargetConfig = TargetConfig(productivity: real, target: seq<Target>, io: IOConfig)

  /** The allow-sets of one production line. */
  datatype ProductionLine = ProductionLine(
    allowedRecipe: set<string>,
    allowedResource: set<string>,
    allowedInput: set<string>,
    allowedOutput: set<string>)

  /** The whole form state handed to `solve`. */
  datatype Config = Config(
    targetConfig: TargetConfig,
    machineConfig: MachineConfig,
    productionLineConfig: seq<ProductionLine>)
}
