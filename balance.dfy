/** `recipeBalance` of src/algorithm.js: for every recipe variant of every
    recipe group, the net amount of each material it consumes (negative) or
    yields (positive) per minute on the machine and modules selected for
    its group. */
module Balance {
  import opened Collections
  import opened Text
  import opened Data

  // ---------------------------------------------------------------------
  // Net amounts per craft
  // ---------------------------------------------------------------------

  /** Total amount an ingredient or product list gives under material key `k`
      (a name without a variant counts as variant 0). */
  function AmountOf(list: seq<Amount>, k: string): real
  {
    if list == [] then 0.0
    else AmountOf(list[..|list| - 1], k)
         + (if MaterialKey(list[|list| - 1].name) == k then list[|list| - 1].amount else 0.0)
  }

  /** The material keys an ingredient or product list mentions. */
  function KeysIn(list: seq<Amount>): set<string>
  {
    if list == [] then {} else KeysIn(list[..|list| - 1]) + {MaterialKey(list[|list| - 1].name)}
  }

  lemma {:induction false} AmountOfAbsent(list: seq<Amount>, k: string)
    requires k !in KeysIn(list)
    ensures AmountOf(list, k) == 0.0
    decreases |list|
  {
    if list != [] {
      AmountOfAbsent(list[..|list| - 1], k);
    }
  }

  /** One more list entry adds its amount under its own key and nothing elsewhere. */
  lemma AmountOfSnoc(list: seq<Amount>, i: nat, k: string)
    requires i < |list|
    ensures AmountOf(list[..i + 1], k) ==
      AmountOf(list[..i], k) + (if MaterialKey(list[i].name) == k then list[i].amount else 0.0)
    ensures KeysIn(list[..i + 1]) == KeysIn(list[..i]) + {MaterialKey(list[i].name)}
  {
    assert list[..i + 1][..i] == list[..i];
  }

  /** What one craft yields of material `k` minus what it consumes. */
  function Net(ingredients: seq<Amount>, products: seq<Amount>, k: string): real
  {
    AmountOf(products, k) - AmountOf(ingredients, k)
  }

  /** The net amount per craft of every material a recipe variant mentions:
      the reference definition of the accumulation loops. */
  function NetBalance(ingredients: seq<Amount>, products: seq<Amount>): (b: map<string, real>)
    ensures b.Keys == KeysIn(ingredients) + KeysIn(products)
  {
    map k | k in KeysIn(ingredients) + KeysIn(products) :: Net(ingredients, products, k)
  }

  /** `b` with `amount` added to the entry under `name` (a missing entry counts as 0). */
  function AddTo(b: map<string, real>, name: string, amount: real): map<string, real>
  {
    b[name := (if name in b then b[name] else 0.0) + amount]
  }

  /** Subtracting one more ingredient from the table of a shorter ingredient list. */
  lemma NetIngredientStep(ingredients: seq<Amount>, i: nat)
    requires i < |ingredients|
    ensures NetBalance(ingredients[..i + 1], []) ==
      AddTo(NetBalance(ingredients[..i], []), MaterialKey(ingredients[i].name), -ingredients[i].amount)
  {
    var name := MaterialKey(ingredients[i].name);
    var b := NetBalance(ingredients[..i], []);
    if name !in b {
      AmountOfAbsent(ingredients[..i], name);
    }
    forall k ensures AmountOf(ingredients[..i + 1], k) ==
      AmountOf(ingredients[..i], k) + (if name == k then ingredients[i].amount else 0.0)
    {
      AmountOfSnoc(ingredients, i, k);
    }
    AmountOfSnoc(ingredients, i, name);
  }

  /** Adding one more product to the table of a shorter product list. */
  lemma NetProductStep(ingredients: seq<Amount>, products: seq<Amount>, i: nat)
    requires i < |products|
    ensures NetBalance(ingredients, products[..i + 1]) ==
      AddTo(NetBalance(ingredients, products[..i]), MaterialKey(products[i].name), products[i].amount)
  {
    var name := MaterialKey(products[i].name);
    var b := NetBalance(ingredients, products[..i]);
    if name !in b {
      AmountOfAbsent(ingredients, name);
      AmountOfAbsent(products[..i], name);
    }
    forall k ensures AmountOf(products[..i + 1], k) ==
      AmountOf(products[..i], k) + (if name == k then products[i].amount else 0.0)
    {
      AmountOfSnoc(products, i, k);
    }
    AmountOfSnoc(products, i, name);
  }

  /** The two accumulation loops of src/algorithm.js:12-20. */
  method RawBalance(ingredients: seq<Amount>, products: seq<Amount>) returns (b: map<string, real>)
    ensures b == NetBalance(ingredients, products)
  {
    b := map[];
    assert ingredients[..0] == [];
    for i := 0 to |ingredients|
      invariant b == NetBalance(ingredients[..i], [])
    {
      NetIngredientStep(ingredients, i);
      b := AddTo(b, MaterialKey(ingredients[i].name), -ingredients[i].amount);
    }
    assert ingredients[..|ingredients|] == ingredients;
    assert products[..0] == [];
    for i := 0 to |products|
      invariant b == NetBalance(ingredients, products[..i])
    {
      NetProductStep(ingredients, products, i);
      b := AddTo(b, MaterialKey(products[i].name), products[i].amount);
    }
    assert products[..|products|] == products;
  }

  // ---------------------------------------------------------------------
  // Machine and module effects
  // ---------------------------------------------------------------------

  /** The selections of one recipe group on the machine page. */
  datatype Setting = Setting(machine: string, slotModule: Option<string>, beaconModule: Option<string>, beaconModuleCount: real)

  function SettingOf(mc: MachineConfig, i: nat): Setting
    requires Aligned(mc) && i < |mc.recipeGroup|
  {
    Setting(mc.machineSelect[i], mc.moduleSelect[i], mc.beaconModuleSelect[i], mc.beaconModuleCount[i])
  }

  /** The selected machine and modules have catalog attributes. */
  predicate SettingKnown(c: Catalog, s: Setting)
  {
    && s.machine in c.machineAttr
    && (s.slotModule.Some? ==> s.slotModule.value in c.moduleAttr)
    && (s.beaconModule.Some? ==> s.beaconModule.value in c.moduleAttr)
  }

  /** The speed multiplier: 1, plus the module's speed effect once per
      machine slot, plus the beacon module's once per beacon module. */
  function SpeedEff(c: Catalog, s: Setting): real
    requires SettingKnown(c, s)
  {
    1.0
    + (if s.slotModule.Some? then c.moduleAttr[s.slotModule.value].effects.speed * (c.machineAttr[s.machine].slots as real) else 0.0)
    + (if s.beaconModule.Some? then c.moduleAttr[s.beaconModule.value].effects.speed * s.beaconModuleCount else 0.0)
  }

  /** The productivity multiplier: 1 plus the machine's base productivity,
      plus the mining productivity percentage for resource recipes, plus the
      module and beacon productivity effects counted as for speed. */
  function ProdEff(c: Catalog, s: Setting, recipeKey: string, productivity: real): real
    requires SettingKnown(c, s)
  {
    1.0 + c.machineAttr[s.machine].baseProd
    + (if StartsWith(recipeKey, "resource") then productivity / 100.0 else 0.0)
    + (if s.slotModule.Some? then c.moduleAttr[s.slotModule.value].effects.productivity * (c.machineAttr[s.machine].slots as real) else 0.0)
    + (if s.beaconModule.Some? then c.moduleAttr[s.beaconModule.value].effects.productivity * s.beaconModuleCount else 0.0)
  }

  /** `moduleBalance`: productivity multiplies what the recipe yields and
      leaves what it consumes alone. */
  function ModuleBalance(b: map<string, real>, prodEff: real): (r: map<string, real>)
    ensures r.Keys == b.Keys
  {
    map k | k in b :: Scaled(b[k], prodEff)
  }

  /** One amount under the productivity multiplier. */
  function Scaled(v: real, prodEff: real): real
  {
    if v > 0.0 then v * prodEff else v
  }

  /** A positive multiplier keeps every entry's sign, and a multiplier of at
      least 1 never lowers an entry. */
  lemma ModuleBalanceSign(b: map<string, real>, prodEff: real, k: string)
    requires k in b
    ensures prodEff > 0.0 ==> (ModuleBalance(b, prodEff)[k] > 0.0 <==> b[k] > 0.0)
    ensures prodEff >= 1.0 ==> ModuleBalance(b, prodEff)[k] >= b[k]
    ensures b[k] <= 0.0 ==> ModuleBalance(b, prodEff)[k] == b[k]
  {
    var v := b[k];
    if v > 0.0 && prodEff >= 1.0 {
      assert v * prodEff - v == v * (prodEff - 1.0);
      assert v * (prodEff - 1.0) >= 0.0;
    }
  }

  /** `value / moduleTime * 60` with `moduleTime = (time / speed) / speedEff`.
      A zero speed or speed multiplier makes `moduleTime` infinite in
      JavaScript, so the rate is 0. */
  function PerMinute(v: real, time: real, speed: real, speedEff: real): real
    requires time != 0.0
  {
    if speed == 0.0 || speedEff == 0.0 then 0.0 else v / ((time / speed) / speedEff) * 60.0
  }

  /** `60 · v · speed · speedEff / time`: the closed form of a per-minute rate. */
  function Rate(v: real, time: real, speed: real, speedEff: real): real
    requires time != 0.0
  {
    60.0 * v * speed * speedEff / time
  }

  /** The source's rate is 60 times the amount, the crafting speed and the
      speed multiplier, over the recipe time, also when JavaScript divides
      by an infinite time. */
  lemma PerMinuteClosedForm(v: real, time: real, speed: real, speedEff: real)
    requires time != 0.0
    ensures PerMinute(v, time, speed, speedEff) == Rate(v, time, speed, speedEff)
  {
    if speed != 0.0 && speedEff != 0.0 {
      var mt := (time / speed) / speedEff;
      assert mt * speed * speedEff == time;
      assert (v / mt) * time == v * speed * speedEff by {
        assert (v / mt) * mt == v;
        calc {
          (v / mt) * time;
          (v / mt) * (mt * speed * speedEff);
          ((v / mt) * mt) * (speed * speedEff);
          v * speed * speedEff;
        }
      }
    }
  }

  /** `finalBalance`: every entry as a per-minute rate. */
  function FinalBalance(b: map<string, real>, time: real, speed: real, speedEff: real): (r: map<string, real>)
    requires time != 0.0
    ensures r.Keys == b.Keys
  {
    map k | k in b :: PerMinute(b[k], time, speed, speedEff)
  }

  // ---------------------------------------------------------------------
  // The balance table
  // ---------------------------------------------------------------------

  /** `ret[recipeName]`: the selections of the recipe's group and its
      per-minute balance. */
  datatype Entry = Entry(
    machine: string,
    slotModule: Option<string>,
    beaconModule: Option<string>,
    beaconModuleCount: real,
    balance: map<string, real>)

  function RecipeKey(r: TempRef): string
  {
    Key(r.name, r.index)
  }

  /** The recipe variant has attributes, the variant exists, and its time is
      not zero (a zero time gives JavaScript infinities). */
  predicate RecipeKnown(c: Catalog, r: TempRef)
  {
    r.name in c.recipeAttr && r.index < |c.recipeAttr[r.name].ingredients| && c.recipeAttr[r.name].time != 0.0
  }

  /** What `recipeBalance` needs of its input: parallel selection arrays,
      known selections, and known recipe variants. */
  predicate Balanceable(c: Catalog, cfg: Config)
  {
    var mc := cfg.machineConfig;
    && Aligned(mc)
    && forall i :: 0 <= i < |mc.recipeGroup| ==>
         SettingKnown(c, SettingOf(mc, i)) && RecipesKnown(c, mc.recipeGroup[i].recipe)
  }

  predicate RecipesKnown(c: Catalog, rs: seq<TempRef>)
  {
    forall j :: 0 <= j < |rs| ==> RecipeKnown(c, rs[j])
  }

  /** The entry of one recipe variant under one group's selections. */
  function EntryFor(c: Catalog, productivity: real, s: Setting, r: TempRef): Entry
    requires SettingKnown(c, s) && RecipeKnown(c, r)
  {
    var attr := c.recipeAttr[r.name];
    var net := NetBalance(attr.ingredients[r.index], attr.products);
    var perMinute := EntryBalance(net, ProdEff(c, s, RecipeKey(r), productivity), attr.time,
                                  c.machineAttr[s.machine].speed, SpeedEff(c, s));
    Entry(s.machine, s.slotModule, s.beaconModule, s.beaconModuleCount, perMinute)
  }

  /** A recipe variant's per-minute table from its per-craft table and the
      multipliers of its group. */
  function EntryBalance(net: map<string, real>, prodEff: real, time: real, speed: real, speedEff: real): map<string, real>
    requires time != 0.0
  {
    FinalBalance(ModuleBalance(net, prodEff), time, speed, speedEff)
  }

  /** Every entry in closed form: the per-craft amount under the
      productivity multiplier, as a per-minute rate. */
  lemma EntryBalanceAt(net: map<string, real>, prodEff: real, time: real, speed: real, speedEff: real, k: string)
    requires time != 0.0
    ensures k in EntryBalance(net, prodEff, time, speed, speedEff) <==> k in net
    ensures k in net ==>
      EntryBalance(net, prodEff, time, speed, speedEff)[k] == Rate(Scaled(net[k], prodEff), time, speed, speedEff)
  {
    if k in net {
      PerMinuteClosedForm(Scaled(net[k], prodEff), time, speed, speedEff);
    }
  }

  /** Every balance entry of a recipe variant in closed form: 60 times its
      net amount per craft (times the productivity multiplier when positive),
      the crafting speed and the speed multiplier, over the recipe time. */
  lemma EntryClosedForm(c: Catalog, productivity: real, s: Setting, r: TempRef, k: string)
    requires SettingKnown(c, s) && RecipeKnown(c, r)
    ensures var attr := c.recipeAttr[r.name];
      && (k in EntryFor(c, productivity, s, r).balance <==> k in KeysIn(attr.ingredients[r.index]) + KeysIn(attr.products))
      && (k in EntryFor(c, productivity, s, r).balance ==>
           EntryFor(c, productivity, s, r).balance[k] ==
             Rate(Scaled(Net(attr.ingredients[r.index], attr.products, k),
                         ProdEff(c, s, RecipeKey(r), productivity)),
                  attr.time, c.machineAttr[s.machine].speed, SpeedEff(c, s)))
  {
    var attr := c.recipeAttr[r.name];
    EntryBalanceAt(NetBalance(attr.ingredients[r.index], attr.products), ProdEff(c, s, RecipeKey(r), productivity),
                   attr.time, c.machineAttr[s.machine].speed, SpeedEff(c, s), k);
  }

  /** A machine without modules, beacons or base productivity running a
      non-resource recipe runs at both multipliers 1: by UnitRate it makes
      `60 · speed / time` per minute of each unit of net product, and
      consumes its ingredients at the same rate. */
  lemma PlainMachineRate(c: Catalog, productivity: real, s: Setting, r: TempRef, k: string)
    requires SettingKnown(c, s) && RecipeKnown(c, r)
    requires s.slotModule.None? && s.beaconModule.None?
    requires c.machineAttr[s.machine].baseProd == 0.0 && !StartsWith(RecipeKey(r), "resource")
    requires k in EntryFor(c, productivity, s, r).balance
    ensures var attr := c.recipeAttr[r.name];
      EntryFor(c, productivity, s, r).balance[k] ==
        Rate(Scaled(Net(attr.ingredients[r.index], attr.products, k), 1.0), attr.time, c.machineAttr[s.machine].speed, 1.0)
  {
    EntryClosedForm(c, productivity, s, r, k);
    NeutralEffects(c, s, RecipeKey(r), productivity);
  }

  /** Without modules, beacons, base productivity or mining productivity both multipliers are 1. */
  lemma NeutralEffects(c: Catalog, s: Setting, recipeKey: string, productivity: real)
    requires SettingKnown(c, s) && s.slotModule.None? && s.beaconModule.None?
    requires c.machineAttr[s.machine].baseProd == 0.0 && !StartsWith(recipeKey, "resource")
    ensures ProdEff(c, s, recipeKey, productivity) == 1.0 && SpeedEff(c, s) == 1.0
  {
  }

  /** With both multipliers at 1 the rate of a net amount `n` is `60 · n · speed / time`. */
  lemma UnitRate(n: real, time: real, speed: real)
    requires time != 0.0
    ensures Rate(Scaled(n, 1.0), time, speed, 1.0) == 60.0 * n * speed / time
  {
  }

  /** The entry computation of one group, as a function of the recipe
      variant (an empty balance stands in where the catalog lacks a name,
      which `Balanceable` excludes). */
  function EntryOf(c: Catalog, productivity: real, s: Setting): TempRef -> Entry
  {
    (r: TempRef) =>
      if SettingKnown(c, s) && RecipeKnown(c, r) then EntryFor(c, productivity, s, r)
      else Entry(s.machine, s.slotModule, s.beaconModule, s.beaconModuleCount, map[])
  }

  /** The table after writing `entry` of each of the first `n` recipes of
      `rs` one after another, as the inner loop does. */
  function AddRecipes(rs: seq<TempRef>, n: nat, entry: TempRef -> Entry, acc: map<string, Entry>): map<string, Entry>
    requires n <= |rs|
  {
    if n == 0 then acc
    else AddRecipes(rs, n - 1, entry, acc)[RecipeKey(rs[n - 1]) := entry(rs[n - 1])]
  }

  /** The table after the first `n` recipe groups, group `i` computing
      its entries with `entryOf(i)`. */
  function Tabulate(groups: seq<RecipeGroup>, n: nat, entryOf: nat -> TempRef -> Entry): map<string, Entry>
    requires n <= |groups|
  {
    if n == 0 then map[]
    else AddRecipes(groups[n - 1].recipe, |groups[n - 1].recipe|, entryOf(n - 1), Tabulate(groups, n - 1, entryOf))
  }

  /** Group `i` computes its entries with its own selections. */
  function GroupEntries(c: Catalog, cfg: Config): nat -> TempRef -> Entry
  {
    var mc := cfg.machineConfig;
    (i: nat) =>
      if Aligned(mc) && i < |mc.recipeGroup| then EntryOf(c, cfg.targetConfig.productivity, SettingOf(mc, i))
      else (r: TempRef) => Entry("", None, None, 0.0, map[])
  }

  /** `recipeBalance(data, config)` as a value. */
  function RecipeTable(c: Catalog, cfg: Config): map<string, Entry>
  {
    Tabulate(cfg.machineConfig.recipeGroup, |cfg.machineConfig.recipeGroup|, GroupEntries(c, cfg))
  }

  /** The body of the inner loop (src/algorithm.js:9-39) for one recipe variant. */
  method RecipeEntry(c: Catalog, productivity: real, s: Setting, r: TempRef) returns (e: Entry)
    requires SettingKnown(c, s) && RecipeKnown(c, r)
    ensures e == EntryFor(c, productivity, s, r)
  {
    var attr := c.recipeAttr[r.name];
    var raw := RawBalance(attr.ingredients[r.index], attr.products);
    var prodEff := ProdEff(c, s, RecipeKey(r), productivity);
    var speedEff := SpeedEff(c, s);
    var final := FinalBalance(ModuleBalance(raw, prodEff), attr.time, c.machineAttr[s.machine].speed, speedEff);
    e := Entry(s.machine, s.slotModule, s.beaconModule, s.beaconModuleCount, final);
  }

  /** `recipeBalance(data, config)`: the nested loops over groups and their recipes. */
  method RecipeBalance(c: Catalog, cfg: Config) returns (ret: map<string, Entry>)
    requires Balanceable(c, cfg)
    ensures ret == RecipeTable(c, cfg)
  {
    var mc := cfg.machineConfig;
    ret := map[];
    for i := 0 to |mc.recipeGroup|
      invariant ret == Tabulate(mc.recipeGroup, i, GroupEntries(c, cfg))
    {
      ret := AddGroup(c, cfg.targetConfig.productivity, SettingOf(mc, i), mc.recipeGroup[i].recipe, ret);
    }
  }

  /** The inner loop of `recipeBalance`: one group's recipes written into the table. */
  method AddGroup(c: Catalog, productivity: real, s: Setting, rs: seq<TempRef>, acc: map<string, Entry>)
    returns (ret: map<string, Entry>)
    requires SettingKnown(c, s) && RecipesKnown(c, rs)
    ensures ret == AddRecipes(rs, |rs|, EntryOf(c, productivity, s), acc)
  {
    ret := acc;
    for j := 0 to |rs|
      invariant ret == AddRecipes(rs, j, EntryOf(c, productivity, s), acc)
    {
      var e := RecipeEntry(c, productivity, s, rs[j]);
      ret := ret[RecipeKey(rs[j]) := e];
    }
  }

  /** The keys written by a run of recipes are exactly their keys. */
  lemma {:induction false} AddRecipesKeys(rs: seq<TempRef>, n: nat, entry: TempRef -> Entry, acc: map<string, Entry>, k: string)
    requires n <= |rs|
    ensures k in AddRecipes(rs, n, entry, acc) <==> k in acc || exists j :: 0 <= j < n && RecipeKey(rs[j]) == k
  {
    if n > 0 {
      AddRecipesKeys(rs, n - 1, entry, acc, k);
    }
  }

  /** A recipe of the run ends up with its own entry; any other key keeps its old value. */
  lemma {:induction false} AddRecipesValue(rs: seq<TempRef>, n: nat, entry: TempRef -> Entry, acc: map<string, Entry>, k: string)
    requires n <= |rs|
    requires k in AddRecipes(rs, n, entry, acc)
    ensures forall j :: 0 <= j < n && RecipeKey(rs[j]) == k ==> AddRecipes(rs, n, entry, acc)[k] == entry(rs[j])
    ensures (forall j :: 0 <= j < n ==> RecipeKey(rs[j]) != k) ==> k in acc && AddRecipes(rs, n, entry, acc)[k] == acc[k]
  {
    if n > 0 {
      var last := rs[n - 1];
      if RecipeKey(last) != k {
        AddRecipesValue(rs, n - 1, entry, acc, k);
      } else {
        forall j | 0 <= j < n && RecipeKey(rs[j]) == k ensures rs[j] == last {
          KeyInjective(rs[j].name, rs[j].index, last.name, last.index);
        }
      }
    }
  }

  /** The table holds exactly one entry per recipe variant of some group. */
  lemma {:induction false} TabulateKeys(groups: seq<RecipeGroup>, n: nat, entryOf: nat -> TempRef -> Entry, k: string)
    requires n <= |groups|
    ensures k in Tabulate(groups, n, entryOf) <==>
      exists i, r :: 0 <= i < n && r in groups[i].recipe && RecipeKey(r) == k
  {
    if n > 0 {
      var rs := groups[n - 1].recipe;
      TabulateKeys(groups, n - 1, entryOf, k);
      AddRecipesKeys(rs, |rs|, entryOf(n - 1), Tabulate(groups, n - 1, entryOf), k);
      if exists j :: 0 <= j < |rs| && RecipeKey(rs[j]) == k {
        var j :| 0 <= j < |rs| && RecipeKey(rs[j]) == k;
        assert rs[j] in groups[n - 1].recipe;
      }
      if exists r :: r in rs && RecipeKey(r) == k {
        var r :| r in rs && RecipeKey(r) == k;
        var j :| 0 <= j < |rs| && rs[j] == r;
      }
    }
  }

  /** A recipe variant's entry is the one computed by the last group that lists it. */
  lemma {:induction false} TabulateValue(groups: seq<RecipeGroup>, n: nat, entryOf: nat -> TempRef -> Entry, i: nat, r: TempRef)
    requires i < n <= |groups|
    requires r in groups[i].recipe
    requires forall j :: i < j < n ==> r !in groups[j].recipe
    ensures RecipeKey(r) in Tabulate(groups, n, entryOf)
    ensures Tabulate(groups, n, entryOf)[RecipeKey(r)] == entryOf(i)(r)
  {
    var rs := groups[n - 1].recipe;
    var acc := Tabulate(groups, n - 1, entryOf);
    var k := RecipeKey(r);
    AddRecipesKeys(rs, |rs|, entryOf(n - 1), acc, k);
    if i == n - 1 {
      var j :| 0 <= j < |rs| && rs[j] == r;
      AddRecipesValue(rs, |rs|, entryOf(n - 1), acc, k);
    } else {
      TabulateValue(groups, n - 1, entryOf, i, r);
      forall j | 0 <= j < |rs| ensures RecipeKey(rs[j]) != k {
        assert rs[j] in rs;
        KeyInjective(rs[j].name, rs[j].index, r.name, r.index);
      }
      AddRecipesValue(rs, |rs|, entryOf(n - 1), acc, k);
    }
  }

  /** `recipeBalance` has one entry per recipe variant of the machine page;
      a variant's entry carries the selections of the last group listing it
      and the per-minute balance computed under them. */
  lemma RecipeTableEntry(c: Catalog, cfg: Config, i: nat, r: TempRef)
    requires Balanceable(c, cfg) && i < |cfg.machineConfig.recipeGroup|
    requires r in cfg.machineConfig.recipeGroup[i].recipe
    requires forall j :: i < j < |cfg.machineConfig.recipeGroup| ==> r !in cfg.machineConfig.recipeGroup[j].recipe
    ensures RecipeKey(r) in RecipeTable(c, cfg)
    ensures RecipeTable(c, cfg)[RecipeKey(r)] == EntryFor(c, cfg.targetConfig.productivity, SettingOf(cfg.machineConfig, i), r)
  {
    var groups := cfg.machineConfig.recipeGroup;
    TabulateValue(groups, |groups|, GroupEntries(c, cfg), i, r);
    var j :| 0 <= j < |groups[i].recipe| && groups[i].recipe[j] == r;
    assert RecipeKnown(c, r);
  }

  /** The keys of `recipeBalance` are exactly the keys of the recipe variants of the machine page. */
  lemma RecipeTableKeys(c: Catalog, cfg: Config, k: string)
    ensures k in RecipeTable(c, cfg) <==>
      exists i, r :: 0 <= i < |cfg.machineConfig.recipeGroup| && r in cfg.machineConfig.recipeGroup[i].recipe && RecipeKey(r) == k
  {
    TabulateKeys(cfg.machineConfig.recipeGroup, |cfg.machineConfig.recipeGroup|, GroupEntries(c, cfg), k);
  }
}
