/** The catalog accessor and the recipe/machine/module partitioner of
    src/recipe.js: variant enumeration, the machine and module compatibility
    tests, and the splitting of recipes into groups that share the same
    capable machines and applicable modules. */
module Recipe {
  import opened Collections
  import opened Text
  import opened Data

  // ---------------------------------------------------------------------
  // Enumeration of variants
  // ---------------------------------------------------------------------

  /** `Array.from(Array(n).keys()).map((i) => ({name, index: i}))`. */
  function Variants(name: string, n: nat): seq<TempRef>
  {
    seq(n, i requires 0 <= i => TempRef(name, i))
  }

  /** One entry per variant index of each name, names in their given order. */
  function Expand(names: seq<string>, count: string -> nat): seq<TempRef>
  {
    if names == [] then []
    else Expand(names[..|names| - 1], count) + Variants(names[|names| - 1], count(names[|names| - 1]))
  }

  /** Expansion yields exactly the indices `0 .. count(name) - 1` of every listed name. */
  lemma {:induction false} ExpandMember(names: seq<string>, count: string -> nat, t: TempRef)
    ensures t in Expand(names, count) <==> t.name in names && t.index < count(t.name)
    decreases |names|
  {
    if names != [] {
      var p, last := names[..|names| - 1], names[|names| - 1];
      ExpandMember(p, count, t);
      assert names == p + [last];
      if t.name == last && t.index < count(last) {
        assert Variants(last, count(last))[t.index] == t;
      }
    }
  }

  /** Number of ingredient variants of a recipe (`ingredients.keys()`). */
  function RecipeVariantCount(c: Catalog): string -> nat
  {
    n => if n in c.recipeAttr then |c.recipeAttr[n].ingredients| else 0
  }

  /** Number of temperature variants of a material: `temperature_attr[m] || [0]`. */
  function TemperatureCount(c: Catalog): string -> nat
  {
    m => Temperatures(c, m)
  }

  function Unlockable(c: Catalog): string -> bool
  {
    n => n in c.unlockable
  }

  function HasRecipeAttr(c: Catalog): string -> bool
  {
    n => n in c.recipeAttr
  }

  /** One subgroup of a recipe group: its unlockable recipes that have
      attributes, once per ingredient variant; no entry at all when no recipe
      of the subgroup is unlockable. */
  function SubgroupPart(c: Catalog, sub: seq<string>): seq<seq<TempRef>>
  {
    var unlocked := Filter(sub, Unlockable(c));
    if |unlocked| > 0 then [Expand(Filter(unlocked, HasRecipeAttr(c)), RecipeVariantCount(c))] else []
  }

  /** The subgroups of one recipe group: unlockable recipes only, subgroups
      left empty by that filter dropped, then recipes without attributes
      skipped and the rest expanded per ingredient variant. */
  function SubgroupRecipes(c: Catalog, subs: seq<seq<string>>): seq<seq<TempRef>>
  {
    if subs == [] then [] else SubgroupRecipes(c, subs[..|subs| - 1]) + SubgroupPart(c, subs[|subs| - 1])
  }

  /** The recipe variant a subgroup contributes. */
  predicate Enumerable(c: Catalog, t: TempRef)
  {
    t.name in c.unlockable && t.name in c.recipeAttr && t.index < |c.recipeAttr[t.name].ingredients|
  }

  lemma SubgroupPartMember(c: Catalog, sub: seq<string>, t: TempRef)
    ensures t in Flatten(SubgroupPart(c, sub)) <==> t.name in sub && Enumerable(c, t)
  {
    var unlocked := Filter(sub, Unlockable(c));
    FilterMember(sub, Unlockable(c), t.name);
    if |unlocked| > 0 {
      var e := Expand(Filter(unlocked, HasRecipeAttr(c)), RecipeVariantCount(c));
      FlattenSingle(e);
      ExpandMember(Filter(unlocked, HasRecipeAttr(c)), RecipeVariantCount(c), t);
      FilterMember(unlocked, HasRecipeAttr(c), t.name);
    } else {
      assert t.name !in unlocked;
    }
  }

  /** A recipe variant is enumerated in a group iff the recipe is listed in one
      of its subgroups, is unlockable, has attributes, and the index is one of
      its ingredient variants. */
  lemma {:induction false} SubgroupRecipesMember(c: Catalog, subs: seq<seq<string>>, t: TempRef)
    ensures t in Flatten(SubgroupRecipes(c, subs)) <==> t.name in Flatten(subs) && Enumerable(c, t)
    decreases |subs|
  {
    if subs != [] {
      var p, last := subs[..|subs| - 1], subs[|subs| - 1];
      SubgroupRecipesMember(c, p, t);
      SubgroupPartMember(c, last, t);
      FlattenAppend(SubgroupRecipes(c, p), SubgroupPart(c, last));
      assert Flatten(subs) == Flatten(p) + last;
    }
  }

  /** `recipe_group` lists group `g` exactly once. */
  predicate ListedOnce(c: Catalog, g: string)
  {
    multiset(c.recipeGroups)[g] == 1
  }

  /** `allTempRecipes(data)`: group name to its subgroups of recipe variants.
      The second loop of the source runs once per listing of a group; a group
      listed again has its variants filtered once more by `recipe_attr`,
      which knows no `{name, index}` object, so each of its subgroups ends
      up empty. */
  function AllTempRecipes(c: Catalog): (r: map<string, seq<seq<TempRef>>>)
    requires RecipeGroupsKnown(c)
    ensures forall g :: g in r <==> g in c.recipeGroups
  {
    map g | g in c.recipeGroups ::
      var subs := SubgroupRecipes(c, c.recipeOrder[g]);
      if ListedOnce(c, g) then subs else seq(|subs|, j => [])
  }

  /** A listed group enumerates a recipe variant iff the group is listed
      once, the recipe is in one of its subgroups, and the variant is
      enumerable; a group listed more than once keeps its number of
      subgroups but enumerates nothing. */
  lemma AllTempRecipesMember(c: Catalog, g: string, t: TempRef)
    requires RecipeGroupsKnown(c) && g in c.recipeGroups
    ensures |AllTempRecipes(c)[g]| == |SubgroupRecipes(c, c.recipeOrder[g])|
    ensures t in Flatten(AllTempRecipes(c)[g]) <==>
      ListedOnce(c, g) && t.name in Flatten(c.recipeOrder[g]) && Enumerable(c, t)
  {
    var subs := AllTempRecipes(c)[g];
    FlattenMember(subs, t);
    if ListedOnce(c, g) {
      SubgroupRecipesMember(c, c.recipeOrder[g], t);
    } else {
      assert forall j :: 0 <= j < |subs| ==> subs[j] == [];
    }
  }

  /** `allTempMaterials(data)`: every material of every subgroup, once per
      temperature variant (once, index 0, when it has no temperatures). */
  function AllTempMaterials(c: Catalog): (r: map<string, seq<seq<TempRef>>>)
    requires MaterialGroupsKnown(c)
    ensures forall g :: g in r <==> g in c.materialGroups
  {
    map g | g in c.materialGroups ::
      var subs := c.materialOrder[g];
      seq(|subs|, j requires 0 <= j < |subs| => Expand(subs[j], TemperatureCount(c)))
  }

  /** `allTempResource(data)`: every raw-resource recipe once per ingredient variant. */
  function AllTempResource(c: Catalog): (r: seq<TempRef>)
    requires ResourcesKnown(c)
    ensures forall t :: t in r <==> t.name in c.resourceOrder && t.index < |c.recipeAttr[t.name].ingredients|
  {
    var r := Expand(c.resourceOrder, RecipeVariantCount(c));
    assert forall t :: t in r <==> t.name in c.resourceOrder && t.index < RecipeVariantCount(c)(t.name) by {
      forall t { ExpandMember(c.resourceOrder, RecipeVariantCount(c), t); }
    }
    r
  }

  /** `recipe_group.map(group => recipes[group]).flat().flat()`. */
  function RecipeEntries(c: Catalog): seq<TempRef>
    requires RecipeGroupsKnown(c)
  {
    var all := AllTempRecipes(c);
    Flatten(Flatten(seq(|c.recipeGroups|, i requires 0 <= i < |c.recipeGroups| => all[c.recipeGroups[i]])))
  }

  /** `material_group.map(group => materials[group]).flat().flat()`. */
  function MaterialEntries(c: Catalog): seq<TempRef>
    requires MaterialGroupsKnown(c)
  {
    var all := AllTempMaterials(c);
    Flatten(Flatten(seq(|c.materialGroups|, i requires 0 <= i < |c.materialGroups| => all[c.materialGroups[i]])))
  }

  /** `.map(({name, index}) => name + '@' + index)`. */
  function KeysOf(ts: seq<TempRef>): (r: seq<string>)
    ensures |r| == |ts|
  {
    seq(|ts|, i requires 0 <= i < |ts| => Key(ts[i].name, ts[i].index))
  }

  lemma KeysOfMember(ts: seq<TempRef>, name: string, index: nat)
    ensures Key(name, index) in KeysOf(ts) <==> TempRef(name, index) in ts
  {
    if Key(name, index) in KeysOf(ts) {
      var i :| 0 <= i < |ts| && KeysOf(ts)[i] == Key(name, index);
      KeyInjective(ts[i].name, ts[i].index, name, index);
    }
    if TempRef(name, index) in ts {
      var i :| 0 <= i < |ts| && ts[i] == TempRef(name, index);
      assert KeysOf(ts)[i] == Key(name, index);
    }
  }

  /** The key of every material variant, in catalog order. */
  function MaterialKeys(c: Catalog): seq<string>
    requires MaterialGroupsKnown(c)
  {
    KeysOf(MaterialEntries(c))
  }

  /** A recipe variant is enumerated iff it is listed in some subgroup of a
      recipe group that `recipe_group` lists once, is unlockable, has
      attributes, and its index is one of its ingredient variants. */
  lemma RecipeEntriesMember(c: Catalog, t: TempRef)
    requires RecipeGroupsKnown(c)
    ensures t in RecipeEntries(c) <==>
      (exists g :: g in c.recipeGroups && ListedOnce(c, g) && t.name in Flatten(c.recipeOrder[g])) && Enumerable(c, t)
  {
    var all := AllTempRecipes(c);
    var gs := seq(|c.recipeGroups|, i requires 0 <= i < |c.recipeGroups| => all[c.recipeGroups[i]]);
    FlattenTwiceMember(gs, t);
    if t in RecipeEntries(c) {
      var i :| 0 <= i < |gs| && t in Flatten(gs[i]);
      AllTempRecipesMember(c, c.recipeGroups[i], t);
    }
    if (exists g :: g in c.recipeGroups && ListedOnce(c, g) && t.name in Flatten(c.recipeOrder[g])) && Enumerable(c, t) {
      var g :| g in c.recipeGroups && ListedOnce(c, g) && t.name in Flatten(c.recipeOrder[g]);
      var i :| 0 <= i < |c.recipeGroups| && c.recipeGroups[i] == g;
      AllTempRecipesMember(c, g, t);
      assert gs[i] == all[g];
    }
  }

  /** Number of temperature variants of a material. */
  function Temperatures(c: Catalog, m: string): nat
  {
    if m in c.temperatureAttr then |c.temperatureAttr[m]| else 1
  }

  /** Expanding every subgroup and flattening enumerates exactly the variants
      of the listed names. */
  lemma ExpandEachMember(subs: seq<seq<string>>, count: string -> nat, t: TempRef)
    ensures t in Flatten(seq(|subs|, j requires 0 <= j < |subs| => Expand(subs[j], count)))
      <==> t.name in Flatten(subs) && t.index < count(t.name)
  {
    var es := seq(|subs|, j requires 0 <= j < |subs| => Expand(subs[j], count));
    FlattenMember(es, t);
    FlattenMember(subs, t.name);
    if t in Flatten(es) {
      var j :| 0 <= j < |es| && t in es[j];
      ExpandMember(subs[j], count, t);
    }
    if t.name in Flatten(subs) && t.index < count(t.name) {
      var j :| 0 <= j < |subs| && t.name in subs[j];
      ExpandMember(subs[j], count, t);
      assert t in es[j];
    }
  }

  /** A material variant is enumerated iff the material is listed in some
      subgroup of a material group and the index is one of its temperature
      variants (only 0 when it has none). */
  lemma MaterialEntriesMember(c: Catalog, t: TempRef)
    requires MaterialGroupsKnown(c)
    ensures t in MaterialEntries(c) <==>
      (exists g :: g in c.materialGroups && t.name in Flatten(c.materialOrder[g])) && t.index < Temperatures(c, t.name)
  {
    var all := AllTempMaterials(c);
    var gs := seq(|c.materialGroups|, i requires 0 <= i < |c.materialGroups| => all[c.materialGroups[i]]);
    FlattenTwiceMember(gs, t);
    if t in MaterialEntries(c) {
      var i :| 0 <= i < |gs| && t in Flatten(gs[i]);
      ExpandEachMember(c.materialOrder[c.materialGroups[i]], TemperatureCount(c), t);
    }
    if (exists g :: g in c.materialGroups && t.name in Flatten(c.materialOrder[g])) && t.index < Temperatures(c, t.name) {
      var g :| g in c.materialGroups && t.name in Flatten(c.materialOrder[g]);
      var i :| 0 <= i < |c.materialGroups| && c.materialGroups[i] == g;
      ExpandEachMember(c.materialOrder[g], TemperatureCount(c), t);
      assert gs[i] == all[g];
    }
  }

  // ---------------------------------------------------------------------
  // Machines and modules
  // ---------------------------------------------------------------------

  /** `order_info.machine[category]`, empty when the category has no list. */
  function MachinesOf(c: Catalog, category: string): seq<string>
  {
    if category in c.machineOrder then c.machineOrder[category] else []
  }

  /** Number of entries satisfying `p`: `list.filter(p).length`. */
  function Count(list: seq<Amount>, p: Amount -> bool): nat
  {
    |Filter(list, p)|
  }

  /** `canProduce(data, recipe, machine)`: the machine is listed for the
      recipe's category and either is fixed to exactly this recipe or, for a
      general machine, the first ingredient variant's item inputs, positive
      fluid inputs and positive fluid outputs fit its non-negative limits.
      An input limit that is negative is not checked, so the ingredient
      variant is read only for a non-negative one. Names missing from the
      catalog, and a missing variant that must be read, give false. */
  predicate CanProduce(c: Catalog, recipe: string, machine: string)
    ensures CanProduce(c, recipe, machine) ==>
      && BeforeFirst(recipe, '@') in c.recipeAttr
      && machine in MachinesOf(c, c.recipeAttr[BeforeFirst(recipe, '@')].category)
  {
    var base := BeforeFirst(recipe, '@');
    && base in c.recipeAttr
    && var r := c.recipeAttr[base];
    && machine in MachinesOf(c, r.category)
    && machine in c.machineAttr
    && var m := c.machineAttr[machine];
    if m.fixed != "" then m.fixed == r.name
    else
      && (m.itemIn < 0 ||
          (|r.ingredients| > 0 && Count(r.ingredients[0], (a: Amount) => StartsWith(a.name, "item")) <= m.itemIn))
      && (m.fluidIn < 0 ||
          (|r.ingredients| > 0 && Count(r.ingredients[0], (a: Amount) => StartsWith(a.name, "fluid") && a.amount > 0.0) <= m.fluidIn))
      && (m.fluidOut < 0 || Count(r.products, (a: Amount) => StartsWith(a.name, "fluid") && a.amount > 0.0) <= m.fluidOut)
  }

  /** A fixed-function machine listed for the category produces exactly the
      recipe it is fixed to, whatever its limits say. */
  lemma FixedMachineProduces(c: Catalog, recipe: string, machine: string)
    requires BeforeFirst(recipe, '@') in c.recipeAttr && machine in c.machineAttr
    requires machine in MachinesOf(c, c.recipeAttr[BeforeFirst(recipe, '@')].category)
    requires c.machineAttr[machine].fixed != ""
    ensures CanProduce(c, recipe, machine) <==>
      c.machineAttr[machine].fixed == c.recipeAttr[BeforeFirst(recipe, '@')].name
  {
  }

  /** A general machine whose three limits are all negative (unbounded)
      produces every recipe of a listed category; with both input limits
      negative the ingredient variants are never read. */
  lemma UnlimitedMachineProduces(c: Catalog, recipe: string, machine: string)
    requires BeforeFirst(recipe, '@') in c.recipeAttr && machine in c.machineAttr
    requires machine in MachinesOf(c, c.recipeAttr[BeforeFirst(recipe, '@')].category)
    requires c.machineAttr[machine].fixed == ""
    requires c.machineAttr[machine].itemIn < 0 && c.machineAttr[machine].fluidIn < 0
    requires c.machineAttr[machine].fluidOut < 0
    ensures CanProduce(c, recipe, machine)
  {
  }

  /** A general machine with a non-negative input limit rejects a recipe
      without ingredient variants (where the source would fail reading
      `ingredients[0]`). */
  lemma LimitedMachineNeedsIngredients(c: Catalog, recipe: string, machine: string)
    requires BeforeFirst(recipe, '@') in c.recipeAttr && machine in c.machineAttr
    requires c.machineAttr[machine].fixed == ""
    requires c.machineAttr[machine].itemIn >= 0 || c.machineAttr[machine].fluidIn >= 0
    requires |c.recipeAttr[BeforeFirst(recipe, '@')].ingredients| == 0
    ensures !CanProduce(c, recipe, machine)
  {
  }

  /** The effect channels a machine may or may not accept, in source order. */
  const Channels: seq<string> := ["consumption", "speed", "productivity", "pollution"]

  function EffectOf(e: Effects, channel: string): real
  {
    if channel == "consumption" then e.consumption
    else if channel == "speed" then e.speed
    else if channel == "productivity" then e.productivity
    else if channel == "pollution" then e.pollution
    else 0.0
  }

  /** `canInsertModule(data, machine, module)`: no module always fits; a
      module fits iff each channel it affects is one the machine accepts.
      Names missing from the catalog give false. */
  predicate CanInsertModule(c: Catalog, machine: string, slotModule: Option<string>)
    ensures slotModule.None? ==> CanInsertModule(c, machine, slotModule)
    ensures slotModule.Some? && machine in c.machineAttr && slotModule.value in c.moduleAttr ==>
      (!CanInsertModule(c, machine, slotModule) <==>
         exists i :: 0 <= i < |Channels| && Channels[i] !in c.machineAttr[machine].effects
                     && EffectOf(c.moduleAttr[slotModule.value].effects, Channels[i]) != 0.0)
  {
    match slotModule
    case None => true
    case Some(m) =>
      && machine in c.machineAttr
      && m in c.moduleAttr
      && forall i :: 0 <= i < |Channels| ==>
           Channels[i] in c.machineAttr[machine].effects || EffectOf(c.moduleAttr[m].effects, Channels[i]) == 0.0
  }

  // ---------------------------------------------------------------------
  // Partitioning
  // ---------------------------------------------------------------------

  /** A worklist entry of the splitters: some recipes and the selectors
      (machines, or modules) chosen for them so far. */
  datatype Split = Split(recipe: seq<TempRef>, chosen: seq<string>)

  /** All recipes of a worklist, group after group. */
  function RecipesOf(ps: seq<Split>): seq<TempRef>
  {
    if ps == [] then [] else RecipesOf(ps[..|ps| - 1]) + ps[|ps| - 1].recipe
  }

  lemma {:induction false} RecipesOfAppend(a: seq<Split>, b: seq<Split>)
    ensures RecipesOf(a + b) == RecipesOf(a) + RecipesOf(b)
    decreases |b|
  {
    if b == [] {
      assert a + b == a;
    } else {
      var b', last := b[..|b| - 1], b[|b| - 1];
      assert (a + b)[..|a + b| - 1] == a + b';
      assert (a + b)[|a + b| - 1] == last;
      RecipesOfAppend(a, b');
      calc {
        RecipesOf(a + b);
        RecipesOf(a + b') + last.recipe;
        RecipesOf(a) + RecipesOf(b') + last.recipe;
        RecipesOf(a) + (RecipesOf(b') + last.recipe);
      }
    }
  }

  lemma {:induction false} RecipesOfMember(ps: seq<Split>, r: TempRef)
    ensures r in RecipesOf(ps) <==> exists q :: q in ps && r in q.recipe
    decreases |ps|
  {
    if ps != [] {
      var p := ps[..|ps| - 1];
      RecipesOfMember(p, r);
      assert ps == p + [ps[|ps| - 1]];
    }
  }

  /** The machines of a list able to produce a recipe, in list order. */
  function Producer(c: Catalog, recipe: string): string -> bool
  {
    m => CanProduce(c, recipe, m)
  }

  /** The recipes a machine is able to produce. */
  function MadeBy(c: Catalog, machine: string): TempRef -> bool
  {
    (r: TempRef) => CanProduce(c, r.name, machine)
  }

  function NotIn(xs: seq<TempRef>): TempRef -> bool
  {
    r => r !in xs
  }

  /** The non-empty halves of a split step, accepted recipes first. */
  function Pieces(can: seq<TempRef>, cannot: seq<TempRef>, chosen: seq<string>, selector: string): seq<Split>
  {
    (if |can| > 0 then [Split(can, chosen + [selector])] else [])
      + (if |cannot| > 0 then [Split(cannot, chosen)] else [])
  }

  /** One split step: `can` keeps the recipes `p` accepts and gets the
      selector appended, `cannot` keeps the rest; empty halves are dropped. */
  function SplitBy(s: Split, p: TempRef -> bool, selector: string): seq<Split>
  {
    var can := Filter(s.recipe, p);
    Pieces(can, Filter(s.recipe, NotIn(can)), s.chosen, selector)
  }

  /** `ret.map(split).flat()`. */
  function SplitEach(ps: seq<Split>, p: TempRef -> bool, selector: string): seq<Split>
  {
    if ps == [] then [] else SplitEach(ps[..|ps| - 1], p, selector) + SplitBy(ps[|ps| - 1], p, selector)
  }

  lemma RecipesOfSingle(q: Split)
    ensures RecipesOf([q]) == q.recipe
  {
    assert [q][..0] == [];
  }

  /** The two halves of a split step: the accepted recipes, then the rest. */
  lemma PiecesRecipes(can: seq<TempRef>, cannot: seq<TempRef>, chosen: seq<string>, selector: string)
    ensures RecipesOf(Pieces(can, cannot, chosen, selector)) == can + cannot
  {
    var a := if |can| > 0 then [Split(can, chosen + [selector])] else [];
    var b := if |cannot| > 0 then [Split(cannot, chosen)] else [];
    RecipesOfAppend(a, b);
    if |can| > 0 {
      RecipesOfSingle(a[0]);
    } else {
      assert can == [];
    }
    if |cannot| > 0 {
      RecipesOfSingle(b[0]);
    } else {
      assert cannot == [];
    }
  }

  lemma PiecesChosen(recipe: seq<TempRef>, p: TempRef -> bool, can: seq<TempRef>, cannot: seq<TempRef>, chosen: seq<string>, selector: string)
    requires forall r :: r in can ==> r in recipe && p(r)
    requires forall r :: r in cannot ==> r in recipe && !p(r)
    ensures forall q, r :: q in Pieces(can, cannot, chosen, selector) && r in q.recipe ==>
      r in recipe && q.chosen == chosen + (if p(r) then [selector] else [])
    ensures forall q :: q in Pieces(can, cannot, chosen, selector) ==> |q.recipe| > 0
  {
    var ps := Pieces(can, cannot, chosen, selector);
    assert forall q :: q in ps ==> q == Split(can, chosen + [selector]) || q == Split(cannot, chosen);
  }

  lemma PiecesParts(recipe: seq<TempRef>, p: TempRef -> bool, can: seq<TempRef>, cannot: seq<TempRef>, chosen: seq<string>, selector: string)
    requires forall r :: r in can ==> r in recipe && p(r)
    requires forall r :: r in cannot ==> r in recipe && !p(r)
    requires multiset(can) + multiset(cannot) == multiset(recipe)
    ensures multiset(RecipesOf(Pieces(can, cannot, chosen, selector))) == multiset(recipe)
    ensures forall q, r :: q in Pieces(can, cannot, chosen, selector) && r in q.recipe ==>
      r in recipe && q.chosen == chosen + (if p(r) then [selector] else [])
    ensures forall q :: q in Pieces(can, cannot, chosen, selector) ==> |q.recipe| > 0
  {
    PiecesRecipes(can, cannot, chosen, selector);
    PiecesChosen(recipe, p, can, cannot, chosen, selector);
  }

  /** `r => !can.includes(r)` selects exactly the recipes `p` rejects. */
  lemma CannotHalf(recipe: seq<TempRef>, p: TempRef -> bool)
    ensures forall r :: r in Filter(recipe, NotIn(Filter(recipe, p))) ==> r in recipe && !p(r)
    ensures multiset(Filter(recipe, p)) + multiset(Filter(recipe, NotIn(Filter(recipe, p)))) == multiset(recipe)
  {
    var can := Filter(recipe, p);
    forall x | x in recipe
      ensures NotIn(can)(x) == Not(p)(x)
    {
      FilterMember(recipe, p, x);
    }
    FilterExt(recipe, NotIn(can), Not(p));
    FilterPartition(recipe, p);
  }

  /** Splitting every entry keeps the recipes (with their multiplicity), keeps
      every entry non-empty, and extends each recipe's selectors by the new
      selector exactly when `p` accepts the recipe. */
  lemma {:induction false} SplitEachRecipes(ps: seq<Split>, p: TempRef -> bool, selector: string)
    ensures multiset(RecipesOf(SplitEach(ps, p, selector))) == multiset(RecipesOf(ps))
    decreases |ps|
  {
    if ps != [] {
      var init, last := ps[..|ps| - 1], ps[|ps| - 1];
      SplitEachRecipes(init, p, selector);
      var can := Filter(last.recipe, p);
      var cannot := Filter(last.recipe, NotIn(can));
      CannotHalf(last.recipe, p);
      PiecesRecipes(can, cannot, last.chosen, selector);
      RecipesOfAppend(SplitEach(init, p, selector), Pieces(can, cannot, last.chosen, selector));
    }
  }

  lemma {:induction false} SplitEachMember(ps: seq<Split>, p: TempRef -> bool, selector: string, q: Split)
    requires q in SplitEach(ps, p, selector)
    ensures exists s :: s in ps && q in SplitBy(s, p, selector)
    decreases |ps|
  {
    var init, last := ps[..|ps| - 1], ps[|ps| - 1];
    if q in SplitEach(init, p, selector) {
      SplitEachMember(init, p, selector, q);
      var s :| s in init && q in SplitBy(s, p, selector);
      assert s in ps;
    } else {
      assert q in SplitBy(last, p, selector);
    }
  }

  lemma SplitByChosen(s: Split, p: TempRef -> bool, selector: string)
    ensures forall q, r :: q in SplitBy(s, p, selector) && r in q.recipe ==>
      r in s.recipe && q.chosen == s.chosen + (if p(r) then [selector] else [])
    ensures forall q :: q in SplitBy(s, p, selector) ==> |q.recipe| > 0
  {
    var can := Filter(s.recipe, p);
    var cannot := Filter(s.recipe, NotIn(can));
    CannotHalf(s.recipe, p);
    PiecesChosen(s.recipe, p, can, cannot, s.chosen, selector);
    assert SplitBy(s, p, selector) == Pieces(can, cannot, s.chosen, selector);
  }

  /** Splitting every entry keeps the recipes (with their multiplicity), keeps
      every entry non-empty, and extends each recipe's selectors by the new
      selector exactly when `p` accepts the recipe. */
  lemma SplitEachParts(ps: seq<Split>, p: TempRef -> bool, selector: string, f: TempRef -> seq<string>)
    requires forall q, r :: q in ps && r in q.recipe ==> q.chosen == f(r)
    ensures multiset(RecipesOf(SplitEach(ps, p, selector))) == multiset(RecipesOf(ps))
    ensures forall q, r :: q in SplitEach(ps, p, selector) && r in q.recipe ==>
      q.chosen == f(r) + (if p(r) then [selector] else [])
    ensures forall q :: q in SplitEach(ps, p, selector) ==> |q.recipe| > 0
  {
    SplitEachRecipes(ps, p, selector);
    forall q | q in SplitEach(ps, p, selector)
      ensures |q.recipe| > 0
      ensures forall r :: r in q.recipe ==> q.chosen == f(r) + (if p(r) then [selector] else [])
    {
      SplitEachMember(ps, p, selector, q);
      var s :| s in ps && q in SplitBy(s, p, selector);
      SplitByChosen(s, p, selector);
    }
  }

  /** No two entries carry the same selector list. */
  predicate ChosenApart(ps: seq<Split>)
  {
    forall i, j :: 0 <= i < j < |ps| ==> ps[i].chosen != ps[j].chosen
  }

  lemma AppendApart(a: seq<Split>, b: seq<Split>)
    requires ChosenApart(a) && ChosenApart(b)
    requires forall x, y :: x in a && y in b ==> x.chosen != y.chosen
    ensures ChosenApart(a + b)
  {
    var s := a + b;
    forall i, j | 0 <= i < j < |s|
      ensures s[i].chosen != s[j].chosen
    {
      if j < |a| {
        assert s[i] == a[i] && s[j] == a[j];
      } else if i >= |a| {
        assert s[i] == b[i - |a|] && s[j] == b[j - |a|];
      } else {
        assert s[i] in a && s[j] in b;
      }
    }
  }

  /** Two distinct lists stay distinct when each is extended by a selector
      it does not already hold. */
  lemma ExtendedApart(u: seq<string>, v: seq<string>, pu: bool, pv: bool, selector: string)
    requires u != v
    requires selector in u ==> pu
    requires selector in v ==> pv
    ensures u + (if pu then [selector] else []) != v + (if pv then [selector] else [])
  {
    var eu, ev := u + (if pu then [selector] else []), v + (if pv then [selector] else []);
    assert eu[..|u|] == u && ev[..|v|] == v;
    if pu && !pv {
      assert eu[|u|] == selector;
    } else if pv && !pu {
      assert ev[|v|] == selector;
    }
  }

  /** The entries one split step makes from one entry carry distinct lists. */
  lemma SplitByApart(s: Split, p: TempRef -> bool, selector: string)
    ensures ChosenApart(SplitBy(s, p, selector))
  {
    var ps := SplitBy(s, p, selector);
    assert |ps| <= 2;
    assert |ps| == 2 ==> ps[0].chosen == s.chosen + [selector] && ps[1].chosen == s.chosen;
  }

  /** Splitting entries whose lists are apart by a selector that a recipe's
      list holds only if `p` accepts it keeps the lists apart. */
  lemma {:induction false} SplitEachApart(ps: seq<Split>, p: TempRef -> bool, selector: string, f: TempRef -> seq<string>)
    requires ChosenApart(ps)
    requires forall q, r :: q in ps && r in q.recipe ==> q.chosen == f(r)
    requires forall r :: selector in f(r) ==> p(r)
    ensures ChosenApart(SplitEach(ps, p, selector))
    decreases |ps|
  {
    if ps != [] {
      var n := |ps| - 1;
      var init, last := ps[..n], ps[n];
      assert forall q :: q in init ==> q in ps;
      assert ChosenApart(init) by {
        forall i, j | 0 <= i < j < |init| ensures init[i].chosen != init[j].chosen {
          assert init[i] == ps[i] && init[j] == ps[j];
        }
      }
      SplitEachApart(init, p, selector, f);
      var a, b := SplitEach(init, p, selector), SplitBy(last, p, selector);
      SplitByApart(last, p, selector);
      SplitByChosen(last, p, selector);
      forall x, y | x in a && y in b
        ensures x.chosen != y.chosen
      {
        SplitEachMember(init, p, selector, x);
        var s :| s in init && x in SplitBy(s, p, selector);
        ApartFromLast(ps, s);
        PiecesApart(s, last, p, selector, f, x, y);
      }
      assert SplitEach(ps, p, selector) == a + b;
      AppendApart(a, b);
    }
  }

  lemma ApartFromLast(ps: seq<Split>, s: Split)
    requires ChosenApart(ps) && |ps| > 0 && s in ps[..|ps| - 1]
    ensures s.chosen != ps[|ps| - 1].chosen
  {
    var i :| 0 <= i < |ps| - 1 && ps[..|ps| - 1][i] == s;
    assert ps[i] == s;
  }

  /** Pieces of two entries with distinct lists have distinct lists. */
  lemma PiecesApart(s: Split, t: Split, p: TempRef -> bool, selector: string, f: TempRef -> seq<string>, x: Split, y: Split)
    requires s.chosen != t.chosen
    requires forall r :: r in s.recipe ==> s.chosen == f(r)
    requires forall r :: r in t.recipe ==> t.chosen == f(r)
    requires forall r :: selector in f(r) ==> p(r)
    requires x in SplitBy(s, p, selector) && y in SplitBy(t, p, selector)
    ensures x.chosen != y.chosen
  {
    SplitByChosen(s, p, selector);
    SplitByChosen(t, p, selector);
    var r1, r2 := x.recipe[0], y.recipe[0];
    assert r1 in x.recipe && r2 in y.recipe;
    ExtendedApart(f(r1), f(r2), p(r1), p(r2), selector);
  }

  /** One round of `splitRecipeByMachine`: after splitting by machine `k`,
      each recipe's machines are the capable ones among the first `k + 1`. */
  lemma MachineStep(c: Catalog, machines: seq<string>, k: nat, ret: seq<Split>)
    requires k < |machines|
    requires forall q, r :: q in ret && r in q.recipe ==> q.chosen == Filter(machines[..k], Producer(c, r.name))
    ensures multiset(RecipesOf(SplitEach(ret, MadeBy(c, machines[k]), machines[k]))) == multiset(RecipesOf(ret))
    ensures forall q, r :: q in SplitEach(ret, MadeBy(c, machines[k]), machines[k]) && r in q.recipe ==>
      q.chosen == Filter(machines[..k + 1], Producer(c, r.name))
    ensures forall q :: q in SplitEach(ret, MadeBy(c, machines[k]), machines[k]) ==> |q.recipe| > 0
  {
    var m := machines[k];
    SplitEachParts(ret, MadeBy(c, m), m, (r: TempRef) => Filter(machines[..k], Producer(c, r.name)));
    var next := SplitEach(ret, MadeBy(c, m), m);
    forall q, r | q in next && r in q.recipe
      ensures q.chosen == Filter(machines[..k + 1], Producer(c, r.name))
    {
      assert q.chosen == Filter(machines[..k], Producer(c, r.name)) + (if MadeBy(c, m)(r) then [m] else []);
      assert MadeBy(c, m)(r) == Producer(c, r.name)(machines[k]);
      FilterSnoc(machines, Producer(c, r.name), k);
    }
  }

  /** Splitting by machine `k` keeps the machine lists apart. */
  lemma MachineStepApart(c: Catalog, machines: seq<string>, k: nat, ret: seq<Split>)
    requires k < |machines|
    requires forall q, r :: q in ret && r in q.recipe ==> q.chosen == Filter(machines[..k], Producer(c, r.name))
    requires ChosenApart(ret)
    ensures ChosenApart(SplitEach(ret, MadeBy(c, machines[k]), machines[k]))
  {
    var m := machines[k];
    var f := (r: TempRef) => Filter(machines[..k], Producer(c, r.name));
    forall r | m in f(r)
      ensures MadeBy(c, m)(r)
    {
      assert Producer(c, r.name)(m);
    }
    SplitEachApart(ret, MadeBy(c, m), m, f);
  }

  /** `splitRecipeByMachine(data, recipes, machines)`: the recipes are split
      into non-empty groups that together hold every recipe exactly as often
      as the input does; each group's machine list is the order-preserving
      selection of `machines` able to produce its recipes. */
  method SplitRecipeByMachine(c: Catalog, recipes: seq<TempRef>, machines: seq<string>) returns (ret: seq<Split>)
    ensures multiset(RecipesOf(ret)) == multiset(recipes)
    ensures forall q, r :: q in ret && r in q.recipe ==> q.chosen == Filter(machines, Producer(c, r.name))
    ensures |recipes| > 0 || |machines| > 0 ==> forall q :: q in ret ==> |q.recipe| > 0
    ensures ChosenApart(ret)
  {
    ret := [Split(recipes, [])];
    assert RecipesOf(ret) == recipes by {
      assert ret[..0] == [];
    }
    for k := 0 to |machines|
      invariant multiset(RecipesOf(ret)) == multiset(recipes)
      invariant forall q, r :: q in ret && r in q.recipe ==> q.chosen == Filter(machines[..k], Producer(c, r.name))
      invariant |recipes| > 0 || k > 0 ==> forall q :: q in ret ==> |q.recipe| > 0
      invariant ChosenApart(ret)
    {
      MachineStep(c, machines, k, ret);
      MachineStepApart(c, machines, k, ret);
      ret := SplitEach(ret, MadeBy(c, machines[k]), machines[k]);
    }
    assert machines[..|machines|] == machines;
  }

  /** Whether a module may be used for a recipe: no limitation, or the
      recipe is named in it. */
  function AppliesTo(c: Catalog, recipe: string): string -> bool
  {
    m => m in c.moduleAttr && (|c.moduleAttr[m].limitation| == 0 || recipe in c.moduleAttr[m].limitation)
  }

  function NamedIn(limitation: seq<string>): TempRef -> bool
  {
    (r: TempRef) => r.name in limitation
  }

  /** `ret.forEach((value) => { value.module.push(module) })`. */
  function AppendToAll(ps: seq<Split>, selector: string): (r: seq<Split>)
    ensures |r| == |ps|
    ensures forall i :: 0 <= i < |ps| ==> r[i] == Split(ps[i].recipe, ps[i].chosen + [selector])
  {
    if ps == [] then [] else AppendToAll(ps[..|ps| - 1], selector) + [Split(ps[|ps| - 1].recipe, ps[|ps| - 1].chosen + [selector])]
  }

  lemma {:induction false} AppendToAllRecipes(ps: seq<Split>, selector: string)
    ensures RecipesOf(AppendToAll(ps, selector)) == RecipesOf(ps)
    decreases |ps|
  {
    if ps != [] {
      AppendToAllRecipes(ps[..|ps| - 1], selector);
      var r := AppendToAll(ps, selector);
      assert r[..|r| - 1] == AppendToAll(ps[..|ps| - 1], selector);
    }
  }

  /** The worklist after module `k` of `splitRecipeByModule`. */
  function ModuleRound(c: Catalog, k: nat, ret: seq<Split>): seq<Split>
    requires ModulesKnown(c) && k < |c.moduleOrder|
  {
    var m := c.moduleOrder[k];
    var limit := c.moduleAttr[m].limitation;
    if |limit| == 0 then AppendToAll(ret, m) else SplitEach(ret, NamedIn(limit), m)
  }

  /** One round of `splitRecipeByModule`: after module `k`, each recipe's
      modules are the applicable ones among the first `k + 1`. */
  lemma ModuleStep(c: Catalog, k: nat, ret: seq<Split>)
    requires ModulesKnown(c) && k < |c.moduleOrder|
    requires forall q, r :: q in ret && r in q.recipe ==> q.chosen == Filter(c.moduleOrder[..k], AppliesTo(c, r.name))
    ensures multiset(RecipesOf(ModuleRound(c, k, ret))) == multiset(RecipesOf(ret))
    ensures forall q, r :: q in ModuleRound(c, k, ret) && r in q.recipe ==>
      q.chosen == Filter(c.moduleOrder[..k + 1], AppliesTo(c, r.name))
    ensures (forall q :: q in ret ==> |q.recipe| > 0) ==> forall q :: q in ModuleRound(c, k, ret) ==> |q.recipe| > 0
  {
    if |c.moduleAttr[c.moduleOrder[k]].limitation| == 0 {
      ModuleStepUnlimited(c, k, ret);
    } else {
      ModuleStepLimited(c, k, ret);
    }
  }

  /** A round for a module without a limitation appends it to every entry. */
  lemma ModuleStepUnlimited(c: Catalog, k: nat, ret: seq<Split>)
    requires ModulesKnown(c) && k < |c.moduleOrder|
    requires forall q, r :: q in ret && r in q.recipe ==> q.chosen == Filter(c.moduleOrder[..k], AppliesTo(c, r.name))
    requires |c.moduleAttr[c.moduleOrder[k]].limitation| == 0
    ensures multiset(RecipesOf(ModuleRound(c, k, ret))) == multiset(RecipesOf(ret))
    ensures forall q, r :: q in ModuleRound(c, k, ret) && r in q.recipe ==>
      q.chosen == Filter(c.moduleOrder[..k + 1], AppliesTo(c, r.name))
    ensures (forall q :: q in ret ==> |q.recipe| > 0) ==> forall q :: q in ModuleRound(c, k, ret) ==> |q.recipe| > 0
  {
    var m := c.moduleOrder[k];
    var next := ModuleRound(c, k, ret);
    AppendToAllRecipes(ret, m);
    forall q, r | q in next && r in q.recipe
      ensures q.chosen == Filter(c.moduleOrder[..k + 1], AppliesTo(c, r.name))
    {
      var i :| 0 <= i < |next| && next[i] == q;
      assert ret[i] in ret && r in ret[i].recipe;
      FilterSnoc(c.moduleOrder, AppliesTo(c, r.name), k);
    }
    forall q | q in next
      ensures |q.recipe| > 0 || exists p :: p in ret && |p.recipe| == 0
    {
      var i :| 0 <= i < |next| && next[i] == q;
      assert ret[i] in ret;
    }
  }

  /** A round for a module with a limitation splits every entry by it. */
  lemma ModuleStepLimited(c: Catalog, k: nat, ret: seq<Split>)
    requires ModulesKnown(c) && k < |c.moduleOrder|
    requires forall q, r :: q in ret && r in q.recipe ==> q.chosen == Filter(c.moduleOrder[..k], AppliesTo(c, r.name))
    requires |c.moduleAttr[c.moduleOrder[k]].limitation| > 0
    ensures multiset(RecipesOf(ModuleRound(c, k, ret))) == multiset(RecipesOf(ret))
    ensures forall q, r :: q in ModuleRound(c, k, ret) && r in q.recipe ==>
      q.chosen == Filter(c.moduleOrder[..k + 1], AppliesTo(c, r.name))
    ensures (forall q :: q in ret ==> |q.recipe| > 0) ==> forall q :: q in ModuleRound(c, k, ret) ==> |q.recipe| > 0
  {
    var m := c.moduleOrder[k];
    var limit := c.moduleAttr[m].limitation;
    var next := ModuleRound(c, k, ret);
    SplitEachParts(ret, NamedIn(limit), m, (r: TempRef) => Filter(c.moduleOrder[..k], AppliesTo(c, r.name)));
    forall q, r | q in next && r in q.recipe
      ensures q.chosen == Filter(c.moduleOrder[..k + 1], AppliesTo(c, r.name))
    {
      assert q.chosen == Filter(c.moduleOrder[..k], AppliesTo(c, r.name)) + (if NamedIn(limit)(r) then [m] else []);
      assert NamedIn(limit)(r) == AppliesTo(c, r.name)(c.moduleOrder[k]);
      FilterSnoc(c.moduleOrder, AppliesTo(c, r.name), k);
    }
  }

  /** Appending one selector to every list keeps the lists apart. */
  lemma AppendToAllApart(ps: seq<Split>, selector: string)
    requires ChosenApart(ps)
    ensures ChosenApart(AppendToAll(ps, selector))
  {
    var r := AppendToAll(ps, selector);
    forall i, j | 0 <= i < j < |r|
      ensures r[i].chosen != r[j].chosen
    {
      assert r[i].chosen[..|ps[i].chosen|] == ps[i].chosen;
      assert r[j].chosen[..|ps[j].chosen|] == ps[j].chosen;
    }
  }

  /** A round of `splitRecipeByModule` keeps the module lists apart. */
  lemma ModuleStepApart(c: Catalog, k: nat, ret: seq<Split>)
    requires ModulesKnown(c) && k < |c.moduleOrder|
    requires forall q, r :: q in ret && r in q.recipe ==> q.chosen == Filter(c.moduleOrder[..k], AppliesTo(c, r.name))
    requires ChosenApart(ret)
    ensures ChosenApart(ModuleRound(c, k, ret))
  {
    var m := c.moduleOrder[k];
    var limit := c.moduleAttr[m].limitation;
    if |limit| == 0 {
      AppendToAllApart(ret, m);
    } else {
      var f := (r: TempRef) => Filter(c.moduleOrder[..k], AppliesTo(c, r.name));
      forall r | m in f(r)
        ensures NamedIn(limit)(r)
      {
        assert AppliesTo(c, r.name)(m);
      }
      SplitEachApart(ret, NamedIn(limit), m, f);
    }
  }

  /** The worklist of `splitRecipeByModule` after the first `k` modules: it
      holds the recipes, each entry's modules are the applicable ones among
      the first `k`, the entries are non-empty and their lists apart. */
  ghost predicate ModuleSplitAt(c: Catalog, recipes: seq<TempRef>, k: nat, ret: seq<Split>)
    requires k <= |c.moduleOrder|
  {
    && multiset(RecipesOf(ret)) == multiset(recipes)
    && (forall q, r :: q in ret && r in q.recipe ==> q.chosen == Filter(c.moduleOrder[..k], AppliesTo(c, r.name)))
    && (|recipes| > 0 ==> forall q :: q in ret ==> |q.recipe| > 0)
    && ChosenApart(ret)
  }

  lemma ModuleRoundStep(c: Catalog, recipes: seq<TempRef>, k: nat, ret: seq<Split>)
    requires ModulesKnown(c) && k < |c.moduleOrder|
    requires ModuleSplitAt(c, recipes, k, ret)
    ensures ModuleSplitAt(c, recipes, k + 1, ModuleRound(c, k, ret))
  {
    ModuleStep(c, k, ret);
    ModuleStepApart(c, k, ret);
  }

  /** `splitRecipeByModule(data, recipes)`: the recipes are split into groups
      that together hold every recipe exactly as often as the input does
      (non-empty groups when the input is non-empty); each group's module list
      is the order-preserving selection of the catalog's modules that apply to
      its recipes: those without a limitation, and those whose limitation
      names the recipe. */
  method SplitRecipeByModule(c: Catalog, recipes: seq<TempRef>) returns (ret: seq<Split>)
    requires ModulesKnown(c)
    ensures multiset(RecipesOf(ret)) == multiset(recipes)
    ensures forall q, r :: q in ret && r in q.recipe ==> q.chosen == Filter(c.moduleOrder, AppliesTo(c, r.name))
    ensures |recipes| > 0 ==> forall q :: q in ret ==> |q.recipe| > 0
    ensures ChosenApart(ret)
  {
    ret := [Split(recipes, [])];
    assert RecipesOf(ret) == recipes by {
      assert ret[..0] == [];
    }
    for k := 0 to |c.moduleOrder|
      invariant ModuleSplitAt(c, recipes, k, ret)
    {
      ModuleRoundStep(c, recipes, k, ret);
      ret := ModuleRound(c, k, ret);
    }
    assert c.moduleOrder[..|c.moduleOrder|] == c.moduleOrder;
  }

  /** Entries whose selector list (the machines) is non-empty. */
  function HasChosen(): Split -> bool
  {
    (p: Split) => |p.chosen| > 0
  }

  /** `cleanRecipeMachinePair(pair)`: keeps, in order, exactly the entries
      that have at least one machine. */
  function CleanRecipeMachinePair(ps: seq<Split>): (r: seq<Split>)
    ensures forall q :: q in r <==> q in ps && |q.chosen| > 0
  {
    var r := Filter(ps, HasChosen());
    assert forall q :: q in r <==> q in ps && |q.chosen| > 0 by {
      forall q { FilterMember(ps, HasChosen(), q); }
    }
    r
  }

  /** The recipe variants `getRecipeGroup` partitions: every enumerated
      recipe, then every raw-resource variant (src/recipe.js:130-132). */
  function EnumeratedRecipes(c: Catalog): seq<TempRef>
    requires RecipeGroupsKnown(c) && ResourcesKnown(c)
  {
    RecipeEntries(c) + AllTempResource(c)
  }

  lemma EnumeratedRecipesKnown(c: Catalog, t: TempRef)
    requires RecipeGroupsKnown(c) && ResourcesKnown(c)
    requires t in EnumeratedRecipes(c)
    ensures t.name in c.recipeAttr
  {
    RecipeEntriesMember(c, t);
  }

  /** The machines of a recipe's category able to produce it, in category order. */
  function CapableMachines(c: Catalog, r: TempRef): seq<string>
  {
    if r.name in c.recipeAttr then Filter(MachinesOf(c, c.recipeAttr[r.name].category), Producer(c, r.name)) else []
  }

  /** The modules applicable to a recipe, in catalog order. */
  function ApplicableModules(c: Catalog, r: TempRef): seq<string>
  {
    Filter(c.moduleOrder, AppliesTo(c, r.name))
  }

  function InCategory(c: Catalog, category: string): TempRef -> bool
  {
    (r: TempRef) => r.name in c.recipeAttr && c.recipeAttr[r.name].category == category
  }

  /** A category pair: each of its recipes is known and its machines are
      those of the recipe's category. */
  predicate CategoryPair(c: Catalog, q: Split)
  {
    forall r :: r in q.recipe ==> r.name in c.recipeAttr && q.chosen == MachinesOf(c, c.recipeAttr[r.name].category)
  }

  /** An entry of the machine split: its machines are the capable machines
      of each of its recipes. */
  predicate SplitFits(c: Catalog, q: Split)
  {
    forall r :: r in q.recipe ==> q.chosen == CapableMachines(c, r)
  }

  /** Either kind of entry without machines holds only recipes without a
      capable machine. */
  lemma MachinelessIncapable(c: Catalog, q: Split, r: TempRef)
    requires CategoryPair(c, q) || SplitFits(c, q)
    requires r in q.recipe && |q.chosen| == 0
    ensures CapableMachines(c, r) == []
  {
    if CategoryPair(c, q) {
      assert q.chosen == MachinesOf(c, c.recipeAttr[r.name].category);
    }
  }

  /** A group as `getRecipeGroup` builds it: it has recipes and machines,
      its machines are the capable machines of each of its recipes and its
      modules the modules applicable to each of them. */
  predicate GroupFits(c: Catalog, g: RecipeGroup)
  {
    && |g.machine| > 0 && |g.recipe| > 0
    && forall r :: r in g.recipe ==> g.machine == CapableMachines(c, r) && g.modules == ApplicableModules(c, r)
  }

  /** The recipes no machine of their category can produce. */
  function NoMachine(c: Catalog): TempRef -> bool
  {
    r => CapableMachines(c, r) == []
  }

  predicate InSomeGroup(groups: seq<RecipeGroup>, r: TempRef)
  {
    exists g :: g in groups && r in g.recipe
  }

  function NotGrouped(groups: seq<RecipeGroup>): TempRef -> bool
  {
    r => !InSomeGroup(groups, r)
  }

  lemma FilterNone<T>(s: seq<T>, p: T -> bool)
    requires forall x :: x in s ==> !p(x)
    ensures Filter(s, p) == []
  {
    if Filter(s, p) != [] {
      assert Filter(s, p)[0] in Filter(s, p);
    }
  }

  /** `byCat` groups the recipes `done` by category; `cats` lists its keys. */
  ghost predicate GroupedByCategory(c: Catalog, done: seq<TempRef>, cats: seq<string>, byCat: map<string, seq<TempRef>>)
    requires forall r :: r in done ==> r.name in c.recipeAttr
  {
    && (forall k :: k in byCat <==> k in cats)
    && (forall k :: k in byCat ==> byCat[k] == Filter(done, InCategory(c, k)))
    && (forall r :: r in done ==> c.recipeAttr[r.name].category in byCat)
  }

  /** Adding one more recipe to its category's list (a new list when the
      category is new) keeps the grouping exact. */
  lemma GroupOneMore(c: Catalog, done: seq<TempRef>, r: TempRef, cats: seq<string>, byCat: map<string, seq<TempRef>>)
    requires forall x :: x in done + [r] ==> x.name in c.recipeAttr
    requires GroupedByCategory(c, done, cats, byCat)
    ensures
      var category := c.recipeAttr[r.name].category;
      if category in byCat then GroupedByCategory(c, done + [r], cats, byCat[category := byCat[category] + [r]])
      else GroupedByCategory(c, done + [r], cats + [category], byCat[category := [r]])
  {
    var category := c.recipeAttr[r.name].category;
    var all := done + [r];
    var cats', next :=
      if category in byCat then cats else cats + [category],
      if category in byCat then byCat[category := byCat[category] + [r]] else byCat[category := [r]];
    if category !in byCat {
      forall x | x in done
        ensures !InCategory(c, category)(x)
      {
      }
      FilterNone(done, InCategory(c, category));
    }
    forall k | k in next
      ensures next[k] == Filter(all, InCategory(c, k))
    {
      FilterPush(done, r, InCategory(c, k));
    }
    assert forall x :: x in all ==> x in done || x == r;
    assert GroupedByCategory(c, all, cats', next);
  }

  /** The recipes of `s` category by category, in the order of `cats`. */
  function CategoryRecipes(c: Catalog, s: seq<TempRef>, cats: seq<string>): seq<TempRef>
  {
    if cats == [] then [] else CategoryRecipes(c, s, cats[..|cats| - 1]) + Filter(s, InCategory(c, cats[|cats| - 1]))
  }

  /** The categories of `s`, each once, in order of first appearance: the
      key order of the `recipeByCat` Map, which is insertion order. */
  function Categories(c: Catalog, s: seq<TempRef>): seq<string>
    requires forall r :: r in s ==> r.name in c.recipeAttr
  {
    if s == [] then []
    else
      var p := Categories(c, s[..|s| - 1]);
      var k := c.recipeAttr[s[|s| - 1].name].category;
      if k in p then p else p + [k]
  }

  /** One more recipe of a prefix adds its category at the end when new. */
  lemma CategoriesSnoc(c: Catalog, s: seq<TempRef>, i: nat)
    requires forall r :: r in s ==> r.name in c.recipeAttr
    requires i < |s|
    ensures var p, k := Categories(c, s[..i]), c.recipeAttr[s[i].name].category;
      Categories(c, s[..i + 1]) == if k in p then p else p + [k]
  {
    assert s[..i + 1][..i] == s[..i];
  }

  /** A category is listed iff some recipe has it. */
  lemma {:induction false} CategoriesMember(c: Catalog, s: seq<TempRef>, k: string)
    requires forall r :: r in s ==> r.name in c.recipeAttr
    ensures k in Categories(c, s) <==> exists a :: 0 <= a < |s| && InCategory(c, k)(s[a])
    decreases |s|
  {
    if s != [] {
      var p := s[..|s| - 1];
      CategoriesMember(c, p, k);
      if exists a :: 0 <= a < |s| && InCategory(c, k)(s[a]) {
        var a :| 0 <= a < |s| && InCategory(c, k)(s[a]);
        if a < |p| {
          assert InCategory(c, k)(p[a]);
        }
      }
      if exists a :: 0 <= a < |p| && InCategory(c, k)(p[a]) {
        var a :| 0 <= a < |p| && InCategory(c, k)(p[a]);
        assert InCategory(c, k)(s[a]);
      }
    }
  }

  /** Categories are listed in order of first appearance: for any two listed
      categories, some recipe of the earlier one comes before every recipe
      of the later one. */
  lemma {:induction false} CategoriesFirstSeen(c: Catalog, s: seq<TempRef>, i: nat, j: nat)
    requires forall r :: r in s ==> r.name in c.recipeAttr
    requires i < j < |Categories(c, s)|
    ensures exists a ::
      && 0 <= a < |s|
      && InCategory(c, Categories(c, s)[i])(s[a])
      && forall b :: 0 <= b <= a ==> !InCategory(c, Categories(c, s)[j])(s[b])
    decreases |s|
  {
    var n := |s| - 1;
    var p, k := s[..n], c.recipeAttr[s[n].name].category;
    var cp, cs := Categories(c, p), Categories(c, s);
    if j < |cp| {
      assert cs[i] == cp[i] && cs[j] == cp[j];
      CategoriesFirstSeen(c, p, i, j);
      var a :| && 0 <= a < |p| && InCategory(c, cp[i])(p[a])
               && forall b :: 0 <= b <= a ==> !InCategory(c, cp[j])(p[b]);
      assert InCategory(c, cs[i])(s[a]);
      forall b | 0 <= b <= a
        ensures !InCategory(c, cs[j])(s[b])
      {
        assert s[b] == p[b];
      }
    } else {
      assert k !in cp && cs == cp + [k] && cs[j] == k && cs[i] == cp[i];
      CategoriesMember(c, p, cp[i]);
      CategoriesMember(c, p, k);
      var a :| 0 <= a < |p| && InCategory(c, cp[i])(p[a]);
      assert InCategory(c, cs[i])(s[a]);
      forall b | 0 <= b <= a
        ensures !InCategory(c, cs[j])(s[b])
      {
        assert s[b] == p[b];
      }
    }
  }

  predicate Distinct(cats: seq<string>)
  {
    forall i, j :: 0 <= i < j < |cats| ==> cats[i] != cats[j]
  }

  /** The category lists of `cats` hold every recipe of `done` exactly once. */
  predicate OnceEach(c: Catalog, done: seq<TempRef>, cats: seq<string>)
  {
    Distinct(cats) && multiset(CategoryRecipes(c, done, cats)) == multiset(done)
  }

  /** One more recipe lands once, in the list of its own category, when the
      categories are distinct. */
  lemma {:induction false} CategoryRecipesPush(c: Catalog, s: seq<TempRef>, r: TempRef, cats: seq<string>)
    requires r.name in c.recipeAttr
    requires Distinct(cats)
    ensures multiset(CategoryRecipes(c, s + [r], cats)) ==
      multiset(CategoryRecipes(c, s, cats)) + (if c.recipeAttr[r.name].category in cats then multiset{r} else multiset{})
    decreases |cats|
  {
    if cats != [] {
      var init, k := cats[..|cats| - 1], cats[|cats| - 1];
      var category := c.recipeAttr[r.name].category;
      assert cats == init + [k];
      assert k !in init;
      CategoryRecipesPush(c, s, r, init);
      FilterPush(s, r, InCategory(c, k));
    }
  }

  /** Pairs holding, category by category, the recipes of that category
      hold all of them in the order of `CategoryRecipes`. */
  lemma {:induction false} PairsRecipes(c: Catalog, recipes: seq<TempRef>, cats: seq<string>, pairs: seq<Split>)
    requires |pairs| == |cats|
    requires forall j :: 0 <= j < |cats| ==> pairs[j].recipe == Filter(recipes, InCategory(c, cats[j]))
    ensures RecipesOf(pairs) == CategoryRecipes(c, recipes, cats)
    decreases |cats|
  {
    if cats != [] {
      PairsRecipes(c, recipes, cats[..|cats| - 1], pairs[..|pairs| - 1]);
    }
  }

  /** The pairs built from a grouping by category put every recipe in the
      pair of its own category. */
  lemma PairsCategory(c: Catalog, recipes: seq<TempRef>, cats: seq<string>, byCat: map<string, seq<TempRef>>, pairs: seq<Split>)
    requires forall r :: r in recipes ==> r.name in c.recipeAttr
    requires forall k :: k in byCat <==> k in cats
    requires forall k :: k in byCat ==> byCat[k] == Filter(recipes, InCategory(c, k))
    requires pairs == seq(|cats|, j requires 0 <= j < |cats| => Split(byCat[cats[j]], MachinesOf(c, cats[j])))
    ensures forall q :: q in pairs ==> CategoryPair(c, q)
    ensures forall q, r :: q in pairs && r in q.recipe ==> r in recipes
  {
    forall q | q in pairs
      ensures CategoryPair(c, q) && forall r :: r in q.recipe ==> r in recipes
    {
      var j :| 0 <= j < |cats| && pairs[j] == q;
      forall r | r in q.recipe
        ensures r in recipes && r.name in c.recipeAttr && q.chosen == MachinesOf(c, c.recipeAttr[r.name].category)
      {
        FilterMember(recipes, InCategory(c, cats[j]), r);
      }
    }
  }

  /** The pairs built from a grouping by category hold every recipe exactly
      once. */
  lemma PairsOnce(c: Catalog, recipes: seq<TempRef>, cats: seq<string>, byCat: map<string, seq<TempRef>>, pairs: seq<Split>)
    requires forall k :: k in byCat <==> k in cats
    requires forall k :: k in byCat ==> byCat[k] == Filter(recipes, InCategory(c, k))
    requires multiset(CategoryRecipes(c, recipes, cats)) == multiset(recipes)
    requires pairs == seq(|cats|, j requires 0 <= j < |cats| => Split(byCat[cats[j]], MachinesOf(c, cats[j])))
    ensures multiset(RecipesOf(pairs)) == multiset(recipes)
  {
    PairsFilter(c, recipes, cats, byCat, pairs);
    PairsRecipes(c, recipes, cats, pairs);
  }

  /** The pair of the `j`-th category holds that category's recipes. */
  lemma PairsFilter(c: Catalog, recipes: seq<TempRef>, cats: seq<string>, byCat: map<string, seq<TempRef>>, pairs: seq<Split>)
    requires forall k :: k in byCat <==> k in cats
    requires forall k :: k in byCat ==> byCat[k] == Filter(recipes, InCategory(c, k))
    requires pairs == seq(|cats|, j requires 0 <= j < |cats| => Split(byCat[cats[j]], MachinesOf(c, cats[j])))
    ensures |pairs| == |cats|
    ensures forall j :: 0 <= j < |cats| ==> pairs[j].recipe == Filter(recipes, InCategory(c, cats[j]))
  {
    forall j | 0 <= j < |cats|
      ensures pairs[j].recipe == Filter(recipes, InCategory(c, cats[j]))
    {
      assert cats[j] in byCat;
    }
  }

  /** Adding one more recipe, and its category when new, keeps every recipe
      in exactly one category list. */
  lemma CategoryRecipesGrow(c: Catalog, done: seq<TempRef>, r: TempRef, cats: seq<string>)
    requires forall x :: x in done + [r] ==> x.name in c.recipeAttr
    requires forall x :: x in done ==> c.recipeAttr[x.name].category in cats
    requires OnceEach(c, done, cats)
    ensures var category := c.recipeAttr[r.name].category;
      OnceEach(c, done + [r], if category in cats then cats else cats + [category])
  {
    if c.recipeAttr[r.name].category in cats {
      CategoryRecipesPush(c, done, r, cats);
    } else {
      CategoryRecipesNew(c, done, r, cats);
    }
  }

  /** A recipe of a new category lands once, in the list added for it. */
  lemma CategoryRecipesNew(c: Catalog, done: seq<TempRef>, r: TempRef, cats: seq<string>)
    requires forall x :: x in done + [r] ==> x.name in c.recipeAttr
    requires forall x :: x in done ==> c.recipeAttr[x.name].category in cats
    requires OnceEach(c, done, cats)
    requires c.recipeAttr[r.name].category !in cats
    ensures OnceEach(c, done + [r], cats + [c.recipeAttr[r.name].category])
  {
    var category := c.recipeAttr[r.name].category;
    var grown := cats + [category];
    assert Distinct(grown) by {
      forall i, j | 0 <= i < j < |grown|
        ensures grown[i] != grown[j]
      {
        assert grown[i] in cats;
      }
    }
    assert grown[..|cats|] == cats;
    assert CategoryRecipes(c, done + [r], grown) == CategoryRecipes(c, done + [r], cats) + Filter(done + [r], InCategory(c, category));
    forall x | x in done
      ensures !InCategory(c, category)(x)
    {
    }
    FilterNone(done, InCategory(c, category));
    FilterPush(done, r, InCategory(c, category));
    assert Filter(done + [r], InCategory(c, category)) == [r];
    CategoryRecipesPush(c, done, r, cats);
    assert multiset(CategoryRecipes(c, done + [r], cats)) == multiset(done);
  }

  /** The loop state of `GroupByCategory`: the lists are exact and every
      recipe lands in exactly one of them. */
  ghost predicate Grouping(c: Catalog, done: seq<TempRef>, cats: seq<string>, byCat: map<string, seq<TempRef>>)
    requires forall r :: r in done ==> r.name in c.recipeAttr
  {
    GroupedByCategory(c, done, cats, byCat) && OnceEach(c, done, cats)
  }

  /** One more recipe keeps the loop state of `GroupByCategory`. */
  lemma GroupStep(c: Catalog, recipes: seq<TempRef>, i: nat, cats: seq<string>, byCat: map<string, seq<TempRef>>)
    requires forall x :: x in recipes ==> x.name in c.recipeAttr
    requires i < |recipes|
    requires Grouping(c, recipes[..i], cats, byCat)
    ensures var r := recipes[i]; var category := c.recipeAttr[r.name].category;
      category in byCat ==> Grouping(c, recipes[..i + 1], cats, byCat[category := byCat[category] + [r]])
    ensures var r := recipes[i]; var category := c.recipeAttr[r.name].category;
      category !in byCat ==> Grouping(c, recipes[..i + 1], cats + [category], byCat[category := [r]])
  {
    var r, done := recipes[i], recipes[..i];
    PrefixSnoc(recipes, i);
    GroupOneMore(c, done, r, cats, byCat);
    CategoryRecipesGrow(c, done, r, cats);
  }

  /** Recipes grouped by category, categories in order of first appearance
      (the `recipeByCat` Map of src/recipe.js:133-137). */
  method GroupByCategory(c: Catalog, recipes: seq<TempRef>) returns (cats: seq<string>, byCat: map<string, seq<TempRef>>)
    requires forall r :: r in recipes ==> r.name in c.recipeAttr
    ensures forall k :: k in byCat <==> k in cats
    ensures forall k :: k in byCat ==> byCat[k] == Filter(recipes, InCategory(c, k))
    ensures forall r :: r in recipes ==> c.recipeAttr[r.name].category in byCat
    ensures cats == Categories(c, recipes)
    ensures Distinct(cats)
    ensures multiset(CategoryRecipes(c, recipes, cats)) == multiset(recipes)
  {
    cats, byCat := [], map[];
    for i := 0 to |recipes|
      invariant Grouping(c, recipes[..i], cats, byCat)
      invariant cats == Categories(c, recipes[..i])
    {
      var r := recipes[i];
      var category := c.recipeAttr[r.name].category;
      GroupStep(c, recipes, i, cats, byCat);
      CategoriesSnoc(c, recipes, i);
      if category in byCat {
        byCat := byCat[category := byCat[category] + [r]];
      } else {
        byCat := byCat[category := [r]];
        cats := cats + [category];
      }
    }
    assert recipes[..|recipes|] == recipes;
  }

  /** One (recipes, machines) pair per category, in order of first
      appearance, carrying `order_info.machine[category]`
      (src/recipe.js:138-140): every recipe lands in the pair of its own
      category. */
  method CategoryPairs(c: Catalog, recipes: seq<TempRef>) returns (pairs: seq<Split>)
    requires forall r :: r in recipes ==> r.name in c.recipeAttr
    ensures forall q :: q in pairs ==> CategoryPair(c, q)
    ensures forall q, r :: q in pairs && r in q.recipe ==> r in recipes
    ensures forall r :: r in recipes ==> r in RecipesOf(pairs)
    ensures multiset(RecipesOf(pairs)) == multiset(recipes)
    ensures KeysApart(pairs, CategoryOf(c))
  {
    var cats, byCat := GroupByCategory(c, recipes);
    pairs := seq(|cats|, j requires 0 <= j < |cats| => Split(byCat[cats[j]], MachinesOf(c, cats[j])));
    PairsCategory(c, recipes, cats, byCat, pairs);
    PairsOnce(c, recipes, cats, byCat, pairs);
    PairsFilter(c, recipes, cats, byCat, pairs);
    PairsApart(c, recipes, cats, pairs);
    forall r | r in recipes
      ensures r in RecipesOf(pairs)
    {
      assert r in multiset(recipes);
    }
  }

  lemma MachineSplitJoin(c: Catalog, pairs: seq<Split>, j: nat, split: seq<Split>, s: seq<Split>)
    requires j < |pairs|
    requires CategoryPair(c, pairs[j])
    requires multiset(RecipesOf(split)) == multiset(RecipesOf(pairs[..j]))
    requires multiset(RecipesOf(s)) == multiset(pairs[j].recipe)
    requires forall q, r :: q in s && r in q.recipe ==> q.chosen == Filter(pairs[j].chosen, Producer(c, r.name))
    ensures multiset(RecipesOf(split + s)) == multiset(RecipesOf(pairs[..j + 1]))
    ensures forall q :: q in s ==> SplitFits(c, q)
  {
    forall q | q in s
      ensures SplitFits(c, q)
    {
      forall r | r in q.recipe
        ensures q.chosen == CapableMachines(c, r)
      {
        RecipesOfMember(s, r);
        assert r in multiset(pairs[j].recipe);
      }
    }
    RecipesOfJoin(pairs, j, split, s);
  }

  lemma RecipesOfJoin(pairs: seq<Split>, j: nat, split: seq<Split>, s: seq<Split>)
    requires j < |pairs|
    requires multiset(RecipesOf(split)) == multiset(RecipesOf(pairs[..j]))
    requires multiset(RecipesOf(s)) == multiset(pairs[j].recipe)
    ensures multiset(RecipesOf(split + s)) == multiset(RecipesOf(pairs[..j + 1]))
  {
    assert pairs[..j + 1][..j] == pairs[..j];
    assert RecipesOf(pairs[..j + 1]) == RecipesOf(pairs[..j]) + pairs[j].recipe;
    RecipesOfAppend(split, s);
  }

  /** `pair.map(({recipe, machine}) => splitRecipeByMachine(...)).flat()`
      (src/recipe.js:141-142): each recipe ends up with exactly the machines
      of its category able to produce it. */
  method SplitAllByMachine(c: Catalog, pairs: seq<Split>) returns (split: seq<Split>)
    requires forall q :: q in pairs ==> CategoryPair(c, q)
    requires forall q :: q in pairs ==> |q.chosen| > 0
    ensures multiset(RecipesOf(split)) == multiset(RecipesOf(pairs))
    ensures forall q :: q in split ==> SplitFits(c, q)
    ensures forall q :: q in split ==> |q.recipe| > 0
    ensures KeysApart(pairs, CategoryOf(c)) ==> KeysApart(split, MachineKey(c))
  {
    split := [];
    for j := 0 to |pairs|
      invariant MachineSplitSoFar(c, pairs, j, split)
    {
      assert pairs[j] in pairs;
      var s := SplitRecipeByMachine(c, pairs[j].recipe, pairs[j].chosen);
      MachineSplitStep(c, pairs, j, split, s);
      split := split + s;
    }
    assert pairs[..|pairs|] == pairs;
  }

  /** The machine split of the first `j` pairs: it holds their recipes
      exactly, each entry has recipes and fits them, and it keeps recipes of
      different categories or machines apart when the pairs keep categories
      apart. */
  ghost predicate MachineSplitSoFar(c: Catalog, pairs: seq<Split>, j: nat, split: seq<Split>)
    requires j <= |pairs|
  {
    && multiset(RecipesOf(split)) == multiset(RecipesOf(pairs[..j]))
    && (forall q :: q in split ==> SplitFits(c, q))
    && (forall q :: q in split ==> |q.recipe| > 0)
    && (KeysApart(pairs, CategoryOf(c)) ==> KeysApart(split, MachineKey(c)))
  }

  lemma MachineSplitStep(c: Catalog, pairs: seq<Split>, j: nat, split: seq<Split>, s: seq<Split>)
    requires j < |pairs| && CategoryPair(c, pairs[j]) && |pairs[j].chosen| > 0
    requires MachineSplitSoFar(c, pairs, j, split)
    requires multiset(RecipesOf(s)) == multiset(pairs[j].recipe)
    requires forall q, r :: q in s && r in q.recipe ==> q.chosen == Filter(pairs[j].chosen, Producer(c, r.name))
    requires forall q :: q in s ==> |q.recipe| > 0
    requires ChosenApart(s)
    ensures MachineSplitSoFar(c, pairs, j + 1, split + s)
  {
    MachineSplitJoin(c, pairs, j, split, s);
    if KeysApart(pairs, CategoryOf(c)) {
      MachineSplitApart(c, pairs, j, split, s);
    }
  }

  /** The groups made from one (recipes, machines) pair: one per module split. */
  function GroupsOf(pair: Split, s: seq<Split>): (r: seq<RecipeGroup>)
    ensures |r| == |s|
  {
    seq(|s|, t requires 0 <= t < |s| => RecipeGroup(s[t].recipe, pair.chosen, s[t].chosen))
  }

  /** All recipes of the groups, group after group. */
  function GroupedRecipes(groups: seq<RecipeGroup>): seq<TempRef>
  {
    if groups == [] then [] else GroupedRecipes(groups[..|groups| - 1]) + groups[|groups| - 1].recipe
  }

  lemma {:induction false} GroupedRecipesAppend(a: seq<RecipeGroup>, b: seq<RecipeGroup>)
    ensures GroupedRecipes(a + b) == GroupedRecipes(a) + GroupedRecipes(b)
    decreases |b|
  {
    if b == [] {
      assert a + b == a;
    } else {
      var b', last := b[..|b| - 1], b[|b| - 1];
      assert (a + b)[..|a + b| - 1] == a + b';
      assert (a + b)[|a + b| - 1] == last;
      GroupedRecipesAppend(a, b');
      calc {
        GroupedRecipes(a + b);
        GroupedRecipes(a + b') + last.recipe;
        GroupedRecipes(a) + GroupedRecipes(b') + last.recipe;
        GroupedRecipes(a) + (GroupedRecipes(b') + last.recipe);
      }
    }
  }

  lemma {:induction false} GroupedRecipesMember(groups: seq<RecipeGroup>, r: TempRef)
    ensures r in GroupedRecipes(groups) <==> InSomeGroup(groups, r)
    decreases |groups|
  {
    if groups != [] {
      var init := groups[..|groups| - 1];
      GroupedRecipesMember(init, r);
      assert groups == init + [groups[|groups| - 1]];
    }
  }

  /** The groups of one pair hold the recipes of its module split, in order. */
  lemma {:induction false} GroupsOfRecipes(pair: Split, s: seq<Split>)
    ensures GroupedRecipes(GroupsOf(pair, s)) == RecipesOf(s)
    decreases |s|
  {
    if s != [] {
      var g := GroupsOf(pair, s);
      assert g[..|g| - 1] == GroupsOf(pair, s[..|s| - 1]);
      GroupsOfRecipes(pair, s[..|s| - 1]);
    }
  }

  /** Appending the groups of pair `j` extends the grouped recipes by the
      recipes of that pair. */
  lemma GroupsJoin(pairs: seq<Split>, j: nat, groups: seq<RecipeGroup>, s: seq<Split>)
    requires j < |pairs|
    requires multiset(GroupedRecipes(groups)) == multiset(RecipesOf(pairs[..j]))
    requires multiset(RecipesOf(s)) == multiset(pairs[j].recipe)
    ensures multiset(GroupedRecipes(groups + GroupsOf(pairs[j], s))) == multiset(RecipesOf(pairs[..j + 1]))
  {
    assert pairs[..j + 1][..j] == pairs[..j];
    assert RecipesOf(pairs[..j + 1]) == RecipesOf(pairs[..j]) + pairs[j].recipe;
    GroupedRecipesAppend(groups, GroupsOf(pairs[j], s));
    GroupsOfRecipes(pairs[j], s);
  }

  /** `machinePair.map(({recipe, machine}) => splitRecipeByModule(...)
      .map(...)).flat()` (src/recipe.js:144-147): every recipe of a pair ends
      up in a group that keeps the pair's machines and carries the modules
      applicable to it. */
  method SplitAllByModule(c: Catalog, pairs: seq<Split>) returns (groups: seq<RecipeGroup>)
    requires ModulesKnown(c)
    requires forall q :: q in pairs ==> |q.chosen| > 0 && |q.recipe| > 0
    requires forall q :: q in pairs ==> SplitFits(c, q)
    ensures forall g :: g in groups ==> GroupFits(c, g)
    ensures forall g, r :: g in groups && r in g.recipe ==> r in RecipesOf(pairs)
    ensures forall r :: r in RecipesOf(pairs) ==> InSomeGroup(groups, r)
    ensures multiset(GroupedRecipes(groups)) == multiset(RecipesOf(pairs))
    ensures KeysApart(pairs, MachineKey(c)) ==> GroupsApart(c, groups)
  {
    groups := [];
    for j := 0 to |pairs|
      invariant GroupsSoFar(c, pairs, j, groups)
      invariant KeysApart(pairs, MachineKey(c)) ==> GroupsApart(c, groups)
    {
      var pair := pairs[j];
      assert pair in pairs;
      var s := SplitRecipeByModule(c, pair.recipe);
      if KeysApart(pairs, MachineKey(c)) {
        ModuleGroupsApart(c, pairs, j, groups, s);
      }
      GroupsStep(c, pairs, j, groups, s);
      groups := groups + GroupsOf(pair, s);
    }
    assert pairs[..|pairs|] == pairs;
    forall r | r in RecipesOf(pairs)
      ensures InSomeGroup(groups, r)
    {
      assert r in multiset(GroupedRecipes(groups));
      GroupedRecipesMember(groups, r);
    }
  }

  /** The groups made from the first `j` pairs: each has recipes and
      machines, each recipe carries its capable machines and applicable
      modules, and together they hold the pairs' recipes exactly. */
  ghost predicate GroupsSoFar(c: Catalog, pairs: seq<Split>, j: nat, groups: seq<RecipeGroup>)
    requires j <= |pairs|
  {
    && multiset(GroupedRecipes(groups)) == multiset(RecipesOf(pairs[..j]))
    && (forall g :: g in groups ==> GroupFits(c, g))
    && (forall g, r :: g in groups && r in g.recipe ==> r in RecipesOf(pairs))
  }

  lemma GroupsStep(c: Catalog, pairs: seq<Split>, j: nat, groups: seq<RecipeGroup>, s: seq<Split>)
    requires j < |pairs| && |pairs[j].chosen| > 0
    requires SplitFits(c, pairs[j])
    requires GroupsSoFar(c, pairs, j, groups)
    requires multiset(RecipesOf(s)) == multiset(pairs[j].recipe)
    requires forall q, r :: q in s && r in q.recipe ==> q.chosen == ApplicableModules(c, r)
    requires forall q :: q in s ==> |q.recipe| > 0
    ensures GroupsSoFar(c, pairs, j + 1, groups + GroupsOf(pairs[j], s))
  {
    var more := GroupsOf(pairs[j], s);
    assert pairs[j] in pairs;
    ModuleGroups(c, pairs, pairs[j], s, more);
    GroupsJoin(pairs, j, groups, s);
  }

  lemma ModuleGroups(c: Catalog, pairs: seq<Split>, pair: Split, s: seq<Split>, more: seq<RecipeGroup>)
    requires pair in pairs && |pair.chosen| > 0
    requires SplitFits(c, pair)
    requires multiset(RecipesOf(s)) == multiset(pair.recipe)
    requires forall q, r :: q in s && r in q.recipe ==> q.chosen == ApplicableModules(c, r)
    requires forall q :: q in s ==> |q.recipe| > 0
    requires more == GroupsOf(pair, s)
    ensures forall g :: g in more ==> GroupFits(c, g)
    ensures forall g, r :: g in more && r in g.recipe ==> r in RecipesOf(pairs)
  {
    forall g | g in more
      ensures GroupFits(c, g)
    {
      var t :| 0 <= t < |s| && more[t] == g;
      assert s[t] in s;
      forall r | r in g.recipe
        ensures g.machine == CapableMachines(c, r) && g.modules == ApplicableModules(c, r)
      {
        RecipesOfMember(s, r);
        assert r in multiset(RecipesOf(s));
      }
    }
    forall g, r | g in more && r in g.recipe
      ensures r in RecipesOf(pairs)
    {
      var t :| 0 <= t < |s| && more[t] == g;
      assert s[t] in s;
      RecipesOfMember(s, r);
      assert r in multiset(RecipesOf(s));
      RecipesOfMember(pairs, r);
    }
  }

  // ---------------------------------------------------------------------
  // Recipes that share a key share a group
  // ---------------------------------------------------------------------

  /** The category of a recipe, or the empty name for an unknown one. */
  function CategoryKey(c: Catalog, r: TempRef): string
  {
    if r.name in c.recipeAttr then c.recipeAttr[r.name].category else ""
  }

  function CategoryOf(c: Catalog): TempRef -> string
  {
    r => CategoryKey(c, r)
  }

  /** What the machine split tells recipes apart by: category and capable machines. */
  function MachineKey(c: Catalog): TempRef -> (string, seq<string>)
  {
    r => (CategoryKey(c, r), CapableMachines(c, r))
  }

  /** What the whole partition tells recipes apart by: category, capable
      machines and applicable modules. */
  function GroupKey(c: Catalog, r: TempRef): (string, seq<string>, seq<string>)
  {
    (CategoryKey(c, r), CapableMachines(c, r), ApplicableModules(c, r))
  }

  /** Recipes of two different entries never share a key, so recipes
      sharing a key sit in one entry. */
  predicate KeysApart<K(==)>(ps: seq<Split>, key: TempRef -> K)
  {
    forall i, j, r1, r2 :: 0 <= i < j < |ps| && r1 in ps[i].recipe && r2 in ps[j].recipe ==> key(r1) != key(r2)
  }

  /** Recipes of two different groups never share a `GroupKey`: recipes of
      one category with the same capable machines and the same applicable
      modules end up in the same group. */
  predicate GroupsApart(c: Catalog, groups: seq<RecipeGroup>)
  {
    forall i, j, r1, r2 :: 0 <= i < j < |groups| && r1 in groups[i].recipe && r2 in groups[j].recipe ==> GroupKey(c, r1) != GroupKey(c, r2)
  }

  lemma AppendKeysApart<K>(a: seq<Split>, b: seq<Split>, key: TempRef -> K)
    requires KeysApart(a, key) && KeysApart(b, key)
    requires forall x, y, r1, r2 :: x in a && y in b && r1 in x.recipe && r2 in y.recipe ==> key(r1) != key(r2)
    ensures KeysApart(a + b, key)
  {
    var s := a + b;
    forall i, j, r1, r2 | 0 <= i < j < |s| && r1 in s[i].recipe && r2 in s[j].recipe
      ensures key(r1) != key(r2)
    {
      if j < |a| {
        assert s[i] == a[i] && s[j] == a[j];
      } else if i >= |a| {
        assert s[i] == b[i - |a|] && s[j] == b[j - |a|];
      } else {
        assert s[i] in a && s[j] in b;
      }
    }
  }

  lemma AppendGroupsApart(c: Catalog, a: seq<RecipeGroup>, b: seq<RecipeGroup>)
    requires GroupsApart(c, a) && GroupsApart(c, b)
    requires forall g, h, r1, r2 :: g in a && h in b && r1 in g.recipe && r2 in h.recipe ==> GroupKey(c, r1) != GroupKey(c, r2)
    ensures GroupsApart(c, a + b)
  {
    var s := a + b;
    forall i, j, r1, r2 | 0 <= i < j < |s| && r1 in s[i].recipe && r2 in s[j].recipe
      ensures GroupKey(c, r1) != GroupKey(c, r2)
    {
      if j < |a| {
        assert s[i] == a[i] && s[j] == a[j];
      } else if i >= |a| {
        assert s[i] == b[i - |a|] && s[j] == b[j - |a|];
      } else {
        assert s[i] in a && s[j] in b;
      }
    }
  }

  /** Dropping entries keeps the rest apart. */
  lemma {:induction false} FilterKeysApart<K>(ps: seq<Split>, p: Split -> bool, key: TempRef -> K)
    requires KeysApart(ps, key)
    ensures KeysApart(Filter(ps, p), key)
    decreases |ps|
  {
    if ps != [] {
      var init, last := ps[..|ps| - 1], ps[|ps| - 1];
      assert KeysApart(init, key) by {
        forall i, j, r1, r2 | 0 <= i < j < |init| && r1 in init[i].recipe && r2 in init[j].recipe
          ensures key(r1) != key(r2)
        {
          assert init[i] == ps[i] && init[j] == ps[j];
        }
      }
      FilterKeysApart(init, p, key);
      var tail := if p(last) then [last] else [];
      assert KeysApart(tail, key);
      forall x, y, r1, r2 | x in Filter(init, p) && y in tail && r1 in x.recipe && r2 in y.recipe
        ensures key(r1) != key(r2)
      {
        var i :| 0 <= i < |init| && init[i] == x;
        assert ps[i] == x && ps[|ps| - 1] == y;
      }
      AppendKeysApart(Filter(init, p), tail, key);
    }
  }

  /** A recipe of the first `j` entries sits in one of them. */
  lemma InEarlierEntry(ps: seq<Split>, j: nat, r: TempRef) returns (a: nat)
    requires j <= |ps|
    requires r in RecipesOf(ps[..j])
    ensures a < j && r in ps[a].recipe
  {
    RecipesOfMember(ps[..j], r);
    var q :| q in ps[..j] && r in q.recipe;
    a :| a < j && ps[a] == q;
  }

  /** The pairs of a grouping by category hold recipes of different categories. */
  lemma PairsApart(c: Catalog, recipes: seq<TempRef>, cats: seq<string>, pairs: seq<Split>)
    requires Distinct(cats) && |pairs| == |cats|
    requires forall j :: 0 <= j < |cats| ==> pairs[j].recipe == Filter(recipes, InCategory(c, cats[j]))
    ensures KeysApart(pairs, CategoryOf(c))
  {
    forall i, j, r1, r2 | 0 <= i < j < |pairs| && r1 in pairs[i].recipe && r2 in pairs[j].recipe
      ensures CategoryOf(c)(r1) != CategoryOf(c)(r2)
    {
      assert InCategory(c, cats[i])(r1) && InCategory(c, cats[j])(r2);
    }
  }

  /** Appending the machine split of pair `j` keeps recipes of different
      categories or different capable machines in different entries. */
  lemma MachineSplitApart(c: Catalog, pairs: seq<Split>, j: nat, split: seq<Split>, s: seq<Split>)
    requires j < |pairs|
    requires KeysApart(pairs, CategoryOf(c)) && KeysApart(split, MachineKey(c))
    requires multiset(RecipesOf(split)) == multiset(RecipesOf(pairs[..j]))
    requires multiset(RecipesOf(s)) == multiset(pairs[j].recipe)
    requires ChosenApart(s)
    requires forall q :: q in s ==> SplitFits(c, q)
    ensures KeysApart(split + s, MachineKey(c))
  {
    forall a, b, r1, r2 | 0 <= a < b < |s| && r1 in s[a].recipe && r2 in s[b].recipe
      ensures MachineKey(c)(r1) != MachineKey(c)(r2)
    {
      assert s[a] in s && s[b] in s;
    }
    forall x, y, r1, r2 | x in split && y in s && r1 in x.recipe && r2 in y.recipe
      ensures MachineKey(c)(r1) != MachineKey(c)(r2)
    {
      RecipesOfMember(split, r1);
      assert r1 in multiset(RecipesOf(pairs[..j]));
      var a := InEarlierEntry(pairs, j, r1);
      RecipesOfMember(s, r2);
      assert r2 in multiset(pairs[j].recipe);
      assert CategoryOf(c)(r1) != CategoryOf(c)(r2);
    }
    AppendKeysApart(split, s, MachineKey(c));
  }

  /** Appending the groups of pair `j` keeps recipes of different keys in
      different groups. */
  lemma ModuleGroupsApart(c: Catalog, pairs: seq<Split>, j: nat, groups: seq<RecipeGroup>, s: seq<Split>)
    requires j < |pairs|
    requires KeysApart(pairs, MachineKey(c)) && GroupsApart(c, groups)
    requires multiset(GroupedRecipes(groups)) == multiset(RecipesOf(pairs[..j]))
    requires multiset(RecipesOf(s)) == multiset(pairs[j].recipe)
    requires ChosenApart(s)
    requires forall q, r :: q in s && r in q.recipe ==> q.chosen == ApplicableModules(c, r)
    ensures GroupsApart(c, groups + GroupsOf(pairs[j], s))
  {
    var more := GroupsOf(pairs[j], s);
    forall a, b, r1, r2 | 0 <= a < b < |more| && r1 in more[a].recipe && r2 in more[b].recipe
      ensures GroupKey(c, r1) != GroupKey(c, r2)
    {
      assert s[a] in s && s[b] in s;
    }
    forall g, h, r1, r2 | g in groups && h in more && r1 in g.recipe && r2 in h.recipe
      ensures GroupKey(c, r1) != GroupKey(c, r2)
    {
      GroupedRecipesMember(groups, r1);
      assert r1 in multiset(RecipesOf(pairs[..j]));
      var a := InEarlierEntry(pairs, j, r1);
      var t :| 0 <= t < |s| && more[t] == h;
      assert s[t] in s;
      RecipesOfMember(s, r2);
      assert r2 in multiset(pairs[j].recipe);
      assert MachineKey(c)(r1) != MachineKey(c)(r2);
    }
    AppendGroupsApart(c, groups, more);
  }

  /** The partition `getRecipeGroup` computes, over any list of recipe
      variants (src/recipe.js:133-149): each recipe lands exactly once,
      either in one group or in `nonProducible`. */
  method PartitionRecipes(c: Catalog, recipes: seq<TempRef>) returns (groups: seq<RecipeGroup>, nonProducible: seq<TempRef>)
    requires ModulesKnown(c)
    requires forall r :: r in recipes ==> r.name in c.recipeAttr
    ensures forall g :: g in groups ==> GroupFits(c, g)
    ensures forall g, r :: g in groups && r in g.recipe ==> r in recipes
    ensures forall r :: r in recipes ==> (InSomeGroup(groups, r) <==> CapableMachines(c, r) != [])
    ensures forall r :: r in nonProducible <==> r in recipes && CapableMachines(c, r) == []
    ensures multiset(GroupedRecipes(groups)) + multiset(nonProducible) == multiset(recipes)
    ensures GroupsApart(c, groups)
  {
    var pairs := CategoryPairs(c, recipes);
    var live := CleanRecipeMachinePair(pairs);
    FilterKeysApart(pairs, HasChosen(), CategoryOf(c));
    var split := SplitAllByMachine(c, live);
    var cleaned := CleanRecipeMachinePair(split);
    FilterKeysApart(split, HasChosen(), MachineKey(c));
    groups := SplitAllByModule(c, cleaned);
    nonProducible := Filter(recipes, NotGrouped(groups));
    GroupedIffCapable(c, recipes, pairs, split, groups);
    forall r
      ensures r in nonProducible <==> r in recipes && CapableMachines(c, r) == []
    {
      FilterMember(recipes, NotGrouped(groups), r);
    }
    PartitionOnce(c, recipes, pairs, split, groups);
    GroupedInRecipes(recipes, groups, nonProducible);
  }

  /** An input recipe is grouped iff it has a capable machine. */
  lemma GroupedIffCapable(c: Catalog, recipes: seq<TempRef>, pairs: seq<Split>, split: seq<Split>, groups: seq<RecipeGroup>)
    requires forall q :: q in pairs ==> CategoryPair(c, q)
    requires multiset(RecipesOf(pairs)) == multiset(recipes)
    requires multiset(RecipesOf(split)) == multiset(RecipesOf(CleanRecipeMachinePair(pairs)))
    requires forall q :: q in split ==> SplitFits(c, q)
    requires forall g :: g in groups ==> GroupFits(c, g)
    requires multiset(GroupedRecipes(groups)) == multiset(RecipesOf(CleanRecipeMachinePair(split)))
    ensures forall r :: r in recipes ==> (InSomeGroup(groups, r) <==> CapableMachines(c, r) != [])
  {
    var live, cleaned := CleanRecipeMachinePair(pairs), CleanRecipeMachinePair(split);
    GroupedIsCapable(c, groups);
    forall r | r in recipes && CapableMachines(c, r) != []
      ensures InSomeGroup(groups, r)
    {
      assert r in multiset(RecipesOf(pairs));
      CapableSurvives(c, pairs, live, split, cleaned, r);
      assert r in multiset(GroupedRecipes(groups));
      GroupedRecipesMember(groups, r);
    }
  }

  /** The grouped recipes are among the input. */
  lemma GroupedInRecipes(recipes: seq<TempRef>, groups: seq<RecipeGroup>, nonProducible: seq<TempRef>)
    requires multiset(GroupedRecipes(groups)) + multiset(nonProducible) == multiset(recipes)
    ensures forall g, r :: g in groups && r in g.recipe ==> r in recipes
  {
    forall g, r | g in groups && r in g.recipe
      ensures r in recipes
    {
      GroupedRecipesMember(groups, r);
      assert r in multiset(GroupedRecipes(groups));
      assert r in multiset(recipes);
    }
  }

  /** The recipes a machine-less entry drops have no capable machine. */
  lemma DroppedIncapable(c: Catalog, ps: seq<Split>, r: TempRef)
    requires forall q :: q in ps ==> CategoryPair(c, q) || SplitFits(c, q)
    requires r in RecipesOf(Filter(ps, Not(HasChosen())))
    ensures CapableMachines(c, r) == []
  {
    RecipesOfMember(Filter(ps, Not(HasChosen())), r);
    var q :| q in Filter(ps, Not(HasChosen())) && r in q.recipe;
    assert Not(HasChosen())(q);
    MachinelessIncapable(c, q, r);
  }

  /** Dropping the entries without selectors splits the recipes between the
      kept and the dropped entries. */
  lemma {:induction false} RecipesOfFilter(ps: seq<Split>, p: Split -> bool)
    ensures multiset(RecipesOf(Filter(ps, p))) + multiset(RecipesOf(Filter(ps, Not(p)))) == multiset(RecipesOf(ps))
    decreases |ps|
  {
    if ps != [] {
      var init, last := ps[..|ps| - 1], ps[|ps| - 1];
      RecipesOfFilter(init, p);
      assert RecipesOf(ps) == RecipesOf(init) + last.recipe;
      var (yes, no) := if p(last) then (p, Not(p)) else (Not(p), p);
      assert Filter(ps, yes) == Filter(init, yes) + [last];
      assert Filter(ps, no) == Filter(init, no);
      RecipesOfAppend(Filter(init, yes), [last]);
      RecipesOfSingle(last);
    }
  }

  /** The recipes left after dropping the machine-less entries have a
      capable machine. */
  lemma KeptCapable(c: Catalog, split: seq<Split>, r: TempRef)
    requires forall q :: q in split ==> SplitFits(c, q)
    requires r in RecipesOf(Filter(split, HasChosen()))
    ensures CapableMachines(c, r) != []
  {
    RecipesOfMember(Filter(split, HasChosen()), r);
    var q :| q in Filter(split, HasChosen()) && r in q.recipe;
    assert HasChosen()(q);
  }

  /** Every recipe is grouped or non-producible, exactly once: the recipes
      the two clean-ups drop are exactly the ones without a capable machine. */
  lemma PartitionOnce(c: Catalog, recipes: seq<TempRef>, pairs: seq<Split>, split: seq<Split>, groups: seq<RecipeGroup>)
    requires multiset(RecipesOf(pairs)) == multiset(recipes)
    requires forall q :: q in pairs ==> CategoryPair(c, q)
    requires multiset(RecipesOf(split)) == multiset(RecipesOf(Filter(pairs, HasChosen())))
    requires forall q :: q in split ==> SplitFits(c, q)
    requires multiset(GroupedRecipes(groups)) == multiset(RecipesOf(Filter(split, HasChosen())))
    requires forall r :: r in recipes ==> (InSomeGroup(groups, r) <==> CapableMachines(c, r) != [])
    ensures multiset(GroupedRecipes(groups)) + multiset(Filter(recipes, NotGrouped(groups))) == multiset(recipes)
  {
    var grouped := multiset(GroupedRecipes(groups));
    var early, late := RecipesOf(Filter(pairs, Not(HasChosen()))), RecipesOf(Filter(split, Not(HasChosen())));
    var dropped := multiset(early) + multiset(late);
    RecipesOfFilter(pairs, HasChosen());
    RecipesOfFilter(split, HasChosen());
    assert multiset(recipes) == dropped + grouped;
    DroppedAllIncapable(c, pairs, split, dropped);
    forall r | r in grouped
      ensures !NoMachine(c)(r)
    {
      KeptCapable(c, split, r);
    }
    FilterExt(recipes, NotGrouped(groups), NoMachine(c));
    FilterSplit(recipes, NoMachine(c), dropped, grouped);
  }

  lemma DroppedAllIncapable(c: Catalog, pairs: seq<Split>, split: seq<Split>, dropped: multiset<TempRef>)
    requires forall q :: q in pairs ==> CategoryPair(c, q)
    requires forall q :: q in split ==> SplitFits(c, q)
    requires dropped == multiset(RecipesOf(Filter(pairs, Not(HasChosen())))) + multiset(RecipesOf(Filter(split, Not(HasChosen()))))
    ensures forall r :: r in dropped ==> NoMachine(c)(r)
  {
    forall r | r in dropped
      ensures NoMachine(c)(r)
    {
      if r in RecipesOf(Filter(pairs, Not(HasChosen()))) {
        DroppedIncapable(c, pairs, r);
      } else {
        DroppedIncapable(c, split, r);
      }
    }
  }

  /** `getRecipeGroup(data)`: every group has recipes and at least one
      machine; a group's machines are exactly the machines of its recipes'
      category able to produce them (category order) and its modules exactly
      the modules that apply to them (catalog order); an enumerated recipe is
      in some group iff some machine of its category can produce it, and
      `nonProducible` holds exactly the enumerated recipes in no group; the
      groups and `nonProducible` together hold every enumerated recipe
      exactly as often as the enumeration does, so a recipe enumerated once
      sits in exactly one group or in `nonProducible`. */
  method GetRecipeGroup(c: Catalog) returns (groups: seq<RecipeGroup>, nonProducible: seq<TempRef>)
    requires RecipeGroupsKnown(c) && ResourcesKnown(c) && ModulesKnown(c)
    ensures forall g :: g in groups ==> GroupFits(c, g)
    ensures forall g, r :: g in groups && r in g.recipe ==> r in EnumeratedRecipes(c)
    ensures forall r :: r in EnumeratedRecipes(c) ==> (InSomeGroup(groups, r) <==> CapableMachines(c, r) != [])
    ensures forall r :: r in nonProducible <==> r in EnumeratedRecipes(c) && CapableMachines(c, r) == []
    ensures multiset(GroupedRecipes(groups)) + multiset(nonProducible) == multiset(EnumeratedRecipes(c))
    ensures GroupsApart(c, groups)
  {
    var recipes := EnumeratedRecipes(c);
    forall r | r in recipes ensures r.name in c.recipeAttr {
      EnumeratedRecipesKnown(c, r);
    }
    groups, nonProducible := PartitionRecipes(c, recipes);
  }

  lemma GroupedIsCapable(c: Catalog, groups: seq<RecipeGroup>)
    requires forall g :: g in groups ==> GroupFits(c, g)
    ensures forall r :: InSomeGroup(groups, r) ==> CapableMachines(c, r) != []
  {
    forall r | InSomeGroup(groups, r)
      ensures CapableMachines(c, r) != []
    {
      var g :| g in groups && r in g.recipe;
      assert g.machine == CapableMachines(c, r);
    }
  }

  /** A recipe with a capable machine keeps a non-empty machine list through
      both clean-ups. */
  lemma CapableSurvives(c: Catalog, pairs: seq<Split>, live: seq<Split>,
                        split: seq<Split>, cleaned: seq<Split>, r: TempRef)
    requires r in RecipesOf(pairs)
    requires forall q :: q in live <==> q in pairs && |q.chosen| > 0
    requires forall q :: q in pairs ==> CategoryPair(c, q)
    requires multiset(RecipesOf(split)) == multiset(RecipesOf(live))
    requires forall q :: q in split ==> SplitFits(c, q)
    requires forall q :: q in cleaned <==> q in split && |q.chosen| > 0
    requires CapableMachines(c, r) != []
    ensures r in RecipesOf(cleaned)
  {
    RecipesOfMember(pairs, r);
    var q0 :| q0 in pairs && r in q0.recipe;
    if |q0.chosen| == 0 {
      MachinelessIncapable(c, q0, r);
    }
    assert q0 in live;
    RecipesOfMember(live, r);
    assert r in multiset(RecipesOf(split));
    RecipesOfMember(split, r);
    var q :| q in split && r in q.recipe;
    assert q in cleaned;
    RecipesOfMember(cleaned, r);
  }

}
