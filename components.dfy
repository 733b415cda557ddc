/** The state transitions of the planner's forms: the machine/module
    selection table, the selection panels, the target list, and the item
    balance shown under a plan. Rendering is not modelled; each handler is
    the new value it hands to `onChange`. */
module Components {
  import opened Collections
  import opened Text
  import opened Data
  import opened Recipe
  import opened LpModel
  import opened Solver

  // ---------------------------------------------------------------------
  // MachineModuleSelect
  // ---------------------------------------------------------------------

  /** The module a slot keeps when its machine changes: the old one when it
      is set and fits the new machine, otherwise none. */
  function KeptModule(c: Catalog, machine: string, slotModule: Option<string>): (r: Option<string>)
    ensures r.Some? <==> slotModule.Some? && CanInsertModule(c, machine, slotModule)
    ensures r.Some? ==> r == slotModule
  {
    if slotModule.Some? && CanInsertModule(c, machine, slotModule) then slotModule else None
  }

  function SlotAt(s: seq<Option<string>>, index: int): Option<string>
  {
    if 0 <= index < |s| then s[index] else None
  }

  /** Every module and beacon module fits the machine chosen for its group. */
  predicate Fits(c: Catalog, m: MachineConfig)
    requires Aligned(m)
  {
    forall k :: 0 <= k < |m.recipeGroup| ==>
      CanInsertModule(c, m.machineSelect[k], m.moduleSelect[k]) &&
      CanInsertModule(c, m.machineSelect[k], m.beaconModuleSelect[k])
  }

  /** `handleToggleMachine(index, new_machine)`. */
  function ToggleMachine(c: Catalog, m: MachineConfig, index: int, newMachine: string): (r: MachineConfig)
    ensures r.recipeGroup == m.recipeGroup && r.nonProducible == m.nonProducible
    ensures r.beaconModuleCount == m.beaconModuleCount
    ensures Aligned(m) ==> Aligned(r)
    ensures |r.machineSelect| == |m.machineSelect| && |r.moduleSelect| == |m.moduleSelect|
    ensures |r.beaconModuleSelect| == |m.beaconModuleSelect|
    ensures forall k :: 0 <= k < |m.machineSelect| ==>
      r.machineSelect[k] == if k == index then newMachine else m.machineSelect[k]
    ensures forall k :: 0 <= k < |m.moduleSelect| ==>
      r.moduleSelect[k] == if k == index then KeptModule(c, newMachine, m.moduleSelect[k]) else m.moduleSelect[k]
    ensures forall k :: 0 <= k < |m.beaconModuleSelect| ==>
      r.beaconModuleSelect[k] == if k == index then KeptModule(c, newMachine, m.beaconModuleSelect[k]) else m.beaconModuleSelect[k]
  {
    m.(machineSelect := Replace(m.machineSelect, index, newMachine),
       moduleSelect := Replace(m.moduleSelect, index, KeptModule(c, newMachine, SlotAt(m.moduleSelect, index))),
       beaconModuleSelect := Replace(m.beaconModuleSelect, index, KeptModule(c, newMachine, SlotAt(m.beaconModuleSelect, index))))
  }

  /** Changing a machine never leaves a module that does not fit it. */
  lemma ToggleMachineFits(c: Catalog, m: MachineConfig, index: int, newMachine: string)
    requires Aligned(m) && Fits(c, m)
    ensures Aligned(ToggleMachine(c, m, index, newMachine))
    ensures Fits(c, ToggleMachine(c, m, index, newMachine))
  {
    var r := ToggleMachine(c, m, index, newMachine);
    forall k | 0 <= k < |r.recipeGroup|
      ensures CanInsertModule(c, r.machineSelect[k], r.moduleSelect[k])
      ensures CanInsertModule(c, r.machineSelect[k], r.beaconModuleSelect[k])
    {
      if k != index {
        assert r.machineSelect[k] == m.machineSelect[k];
      }
    }
  }

  /** `handleToggleModule(index, new_module)`. */
  function ToggleModule(m: MachineConfig, index: int, newModule: Option<string>): (r: MachineConfig)
    ensures r == m.(moduleSelect := r.moduleSelect)
    ensures |r.moduleSelect| == |m.moduleSelect|
    ensures forall k :: 0 <= k < |m.moduleSelect| ==>
      r.moduleSelect[k] == if k == index then newModule else m.moduleSelect[k]
  {
    m.(moduleSelect := Replace(m.moduleSelect, index, newModule))
  }

  /** `handleToggleBeaconModule(index, new_module)`. */
  function ToggleBeaconModule(m: MachineConfig, index: int, newModule: Option<string>): (r: MachineConfig)
    ensures r == m.(beaconModuleSelect := r.beaconModuleSelect)
    ensures |r.beaconModuleSelect| == |m.beaconModuleSelect|
    ensures forall k :: 0 <= k < |m.beaconModuleSelect| ==>
      r.beaconModuleSelect[k] == if k == index then newModule else m.beaconModuleSelect[k]
  {
    m.(beaconModuleSelect := Replace(m.beaconModuleSelect, index, newModule))
  }

  /** `handleChangeBeaconModuleCount(index, count)`. */
  function ChangeBeaconModuleCount(m: MachineConfig, index: int, count: real): (r: MachineConfig)
    ensures r == m.(beaconModuleCount := r.beaconModuleCount)
    ensures |r.beaconModuleCount| == |m.beaconModuleCount|
    ensures forall k :: 0 <= k < |m.beaconModuleCount| ==>
      r.beaconModuleCount[k] == if k == index then count else m.beaconModuleCount[k]
  {
    m.(beaconModuleCount := Replace(m.beaconModuleCount, index, count))
  }

  /** Picking a module for one slot keeps every slot fitting exactly when
      the new module fits that slot's machine. */
  lemma ToggleModuleFits(c: Catalog, m: MachineConfig, index: nat, newModule: Option<string>)
    requires Aligned(m) && Fits(c, m) && index < |m.recipeGroup|
    ensures Aligned(ToggleModule(m, index, newModule))
    ensures Fits(c, ToggleModule(m, index, newModule)) <==> CanInsertModule(c, m.machineSelect[index], newModule)
  {
    var r := ToggleModule(m, index, newModule);
    assert r.moduleSelect[index] == newModule;
    if CanInsertModule(c, m.machineSelect[index], newModule) {
      forall k | 0 <= k < |r.recipeGroup|
        ensures CanInsertModule(c, r.machineSelect[k], r.moduleSelect[k])
      {
        if k != index {
          assert r.moduleSelect[k] == m.moduleSelect[k];
        }
      }
    }
  }

  /** The slot rule of the "all" buttons: no module clears the slot; a module
      is put in a slot when its group may use it and its machine accepts it. */
  function AllSlot(c: Catalog, group: RecipeGroup, machine: string, newModule: Option<string>, current: Option<string>): (r: Option<string>)
    ensures newModule.None? ==> r.None?
    ensures newModule.Some? ==>
      r == if newModule.value in group.modules && CanInsertModule(c, machine, newModule) then newModule else current
  {
    if newModule.None? || (newModule.value in group.modules && CanInsertModule(c, machine, newModule)) then newModule else current
  }

  /** `handleToggleAllModule(new_module)`. */
  function ToggleAllModule(c: Catalog, m: MachineConfig, newModule: Option<string>): (r: MachineConfig)
    requires Aligned(m)
    ensures r == m.(moduleSelect := r.moduleSelect)
    ensures |r.moduleSelect| == |m.recipeGroup|
    ensures forall k :: 0 <= k < |m.recipeGroup| ==>
      r.moduleSelect[k] == AllSlot(c, m.recipeGroup[k], m.machineSelect[k], newModule, m.moduleSelect[k])
  {
    m.(moduleSelect := seq(|m.machineSelect|, k requires 0 <= k < |m.machineSelect| =>
         AllSlot(c, m.recipeGroup[k], m.machineSelect[k], newModule, m.moduleSelect[k])))
  }

  /** `handleToggleAllBeaconModule(new_module)`. */
  function ToggleAllBeaconModule(c: Catalog, m: MachineConfig, newModule: Option<string>): (r: MachineConfig)
    requires Aligned(m)
    ensures r == m.(beaconModuleSelect := r.beaconModuleSelect)
    ensures |r.beaconModuleSelect| == |m.recipeGroup|
    ensures forall k :: 0 <= k < |m.recipeGroup| ==>
      r.beaconModuleSelect[k] == AllSlot(c, m.recipeGroup[k], m.machineSelect[k], newModule, m.beaconModuleSelect[k])
  {
    m.(beaconModuleSelect := seq(|m.machineSelect|, k requires 0 <= k < |m.machineSelect| =>
         AllSlot(c, m.recipeGroup[k], m.machineSelect[k], newModule, m.beaconModuleSelect[k])))
  }

  /** The "all" buttons keep every slot fitting its machine, and after them a
      slot holds the chosen module exactly where the group and machine allow
      it (or everywhere, when the choice is none) unless it already did. */
  lemma ToggleAllModuleFits(c: Catalog, m: MachineConfig, newModule: Option<string>)
    requires Aligned(m) && Fits(c, m)
    ensures Aligned(ToggleAllModule(c, m, newModule)) && Fits(c, ToggleAllModule(c, m, newModule))
    ensures Aligned(ToggleAllBeaconModule(c, m, newModule)) && Fits(c, ToggleAllBeaconModule(c, m, newModule))
    ensures forall k :: 0 <= k < |m.recipeGroup| ==>
      (ToggleAllModule(c, m, newModule).moduleSelect[k] == newModule <==>
         newModule.None? || (newModule.value in m.recipeGroup[k].modules && CanInsertModule(c, m.machineSelect[k], newModule))
         || m.moduleSelect[k] == newModule)
  {
    var r, b := ToggleAllModule(c, m, newModule), ToggleAllBeaconModule(c, m, newModule);
    forall k | 0 <= k < |m.recipeGroup|
      ensures CanInsertModule(c, r.machineSelect[k], r.moduleSelect[k])
      ensures CanInsertModule(c, b.machineSelect[k], b.beaconModuleSelect[k])
    {
      assert r.moduleSelect[k] == AllSlot(c, m.recipeGroup[k], m.machineSelect[k], newModule, m.moduleSelect[k]);
      assert b.beaconModuleSelect[k] == AllSlot(c, m.recipeGroup[k], m.machineSelect[k], newModule, m.beaconModuleSelect[k]);
    }
  }

  /** `handleChangeAllBeaconModuleCount(count)`: one count per recipe group,
      all equal to `count`. */
  function ChangeAllBeaconModuleCount(m: MachineConfig, count: real): (r: MachineConfig)
    ensures r == m.(beaconModuleCount := r.beaconModuleCount)
    ensures |r.beaconModuleCount| == |m.recipeGroup|
    ensures forall k :: 0 <= k < |r.beaconModuleCount| ==> r.beaconModuleCount[k] == count
  {
    m.(beaconModuleCount := seq(|m.recipeGroup|, k => count))
  }

  /** Setting every count lines the counts up with the groups again. */
  lemma ChangeAllBeaconModuleCountAligns(m: MachineConfig, count: real)
    requires |m.machineSelect| == |m.moduleSelect| == |m.beaconModuleSelect| == |m.recipeGroup|
    ensures Aligned(ChangeAllBeaconModuleCount(m, count))
  {
  }

  // ---------------------------------------------------------------------
  // SelectPanel
  // ---------------------------------------------------------------------

  /** Membership of `x` flipped. */
  function Toggled(s: set<string>, x: string): (r: set<string>)
    ensures forall y :: y in r <==> (y in s) != (y == x)
  {
    if x in s then s - {x} else s + {x}
  }

  /** Toggling the same item twice gives the selection back. */
  lemma ToggledTwice(s: set<string>, x: string)
    ensures Toggled(Toggled(s, x), x) == s
  {
    var t := Toggled(Toggled(s, x), x);
    forall y ensures y in t <==> y in s {
      assert (y in Toggled(s, x)) == ((y in s) != (y == x));
    }
  }

  /** Toggles of different items commute. */
  lemma ToggledCommute(s: set<string>, x: string, y: string)
    ensures Toggled(Toggled(s, x), y) == Toggled(Toggled(s, y), x)
  {
    var a, b := Toggled(Toggled(s, x), y), Toggled(Toggled(s, y), x);
    forall z ensures z in a <==> z in b {
      assert (z in Toggled(s, x)) == ((z in s) != (z == x));
      assert (z in Toggled(s, y)) == ((z in s) != (z == y));
    }
  }

  /** The kinds of panel that have a select-all button. */
  datatype PanelKind = MaterialPanel | RecipePanel | ResourcePanel

  /** The `name@index` keys of a list of variants, as a set. */
  function KeySet(ts: seq<TempRef>): set<string>
  {
    set k | k in KeysOf(ts)
  }

  lemma KeySetMember(ts: seq<TempRef>, name: string, index: nat)
    ensures Key(name, index) in KeySet(ts) <==> TempRef(name, index) in ts
  {
    KeysOfMember(ts, name, index);
  }

  predicate PanelKnown(c: Catalog, kind: PanelKind)
  {
    match kind
    case MaterialPanel => MaterialGroupsKnown(c)
    case RecipePanel => RecipeGroupsKnown(c)
    case ResourcePanel => ResourcesKnown(c)
  }

  /** The variants a select-all button selects: every material of every
      material group, every recipe of every recipe group, or every raw
      resource. */
  function PanelEntries(c: Catalog, kind: PanelKind): seq<TempRef>
    requires PanelKnown(c, kind)
  {
    match kind
    case MaterialPanel => MaterialEntries(c)
    case RecipePanel => RecipeEntries(c)
    case ResourcePanel => AllTempResource(c)
  }

  /** What select-all selects, stated for each kind of panel by the
      variants' own catalog entries. */
  lemma SelectAllMember(c: Catalog, kind: PanelKind, name: string, index: nat)
    requires PanelKnown(c, kind)
    ensures Key(name, index) in KeySet(PanelEntries(c, kind)) <==>
      match kind
      case MaterialPanel =>
        (exists g :: g in c.materialGroups && name in Flatten(c.materialOrder[g])) && index < Temperatures(c, name)
      case RecipePanel =>
        (exists g :: g in c.recipeGroups && ListedOnce(c, g) && name in Flatten(c.recipeOrder[g])) && Enumerable(c, TempRef(name, index))
      case ResourcePanel =>
        name in c.resourceOrder && index < |c.recipeAttr[name].ingredients|
  {
    KeySetMember(PanelEntries(c, kind), name, index);
    match kind
    case MaterialPanel => MaterialEntriesMember(c, TempRef(name, index));
    case RecipePanel => RecipeEntriesMember(c, TempRef(name, index));
    case ResourcePanel =>
  }

  /** The selection a `SelectPanel` edits: one optional item in single mode,
      a set of items otherwise. */
  class SelectPanel {
    const single: bool
    var choice: Option<string>
    var selection: set<string>

    constructor (single: bool, choice: Option<string>, selection: set<string>)
      ensures this.single == single && this.choice == choice && this.selection == selection
    {
      this.single := single;
      this.choice := choice;
      this.selection := selection;
    }

    /** The items shown as selected. */
    function Selected(): set<string>
      reads this
    {
      if single then (if choice.Some? then {choice.value} else {}) else selection
    }

    /** `handleToggleItem(item)`: single mode selects the item; otherwise the
        item's membership flips in place and nothing else changes. */
    method ToggleItem(item: string)
      modifies this
      ensures single ==> choice == Some(item) && selection == old(selection) && Selected() == {item}
      ensures !single ==> choice == old(choice) && selection == Toggled(old(selection), item)
      ensures !single ==> forall y :: y in Selected() <==> (y in old(Selected())) != (y == item)
    {
      if single {
        choice := Some(item);
      } else if item in selection {
        selection := selection - {item};
      } else {
        selection := selection + {item};
      }
    }

    /** `handleUnselectAll`, present in multi mode only. */
    method UnselectAll()
      requires !single
      modifies this
      ensures selection == {} && choice == old(choice) && Selected() == {}
    {
      selection := {};
    }

    /** `handleSelectAll`, present in multi mode only, on a panel of `kind`. */
    method SelectAll(c: Catalog, kind: PanelKind)
      requires !single && PanelKnown(c, kind)
      modifies this
      ensures selection == KeySet(PanelEntries(c, kind)) && choice == old(choice)
    {
      selection := KeySet(PanelEntries(c, kind));
    }
  }

  // ---------------------------------------------------------------------
  // TargetConfig
  // ---------------------------------------------------------------------

  /** The blank row: no item, amount 0. */
  const BlankTarget: Target := Target(None, 0.0)

  /** An empty target list is replaced by one blank row. */
  function ShownTargets(ts: seq<Target>): (r: seq<Target>)
    ensures |r| > 0
    ensures ts != [] ==> r == ts
    ensures ts == [] ==> r == [BlankTarget]
  {
    if |ts| == 0 then [BlankTarget] else ts
  }

  function DeleteTarget(ts: seq<Target>, index: int): seq<Target>
  {
    RemoveAt(ts, index)
  }

  function EditTargetItem(ts: seq<Target>, index: int, item: Option<string>): seq<Target>
  {
    if 0 <= index < |ts| then Replace(ts, index, Target(item, ts[index].amount)) else ts
  }

  function EditTargetAmount(ts: seq<Target>, index: int, amount: real): seq<Target>
  {
    if 0 <= index < |ts| then Replace(ts, index, Target(ts[index].item, amount)) else ts
  }

  function AddTarget(ts: seq<Target>): seq<Target>
  {
    ts + [BlankTarget]
  }

  /** The demand of a material summed over two lists end to end. */
  lemma {:induction false} TargetSumAppend(a: seq<Target>, b: seq<Target>, m: string)
    ensures TargetSum(a + b, m) == TargetSum(a, m) + TargetSum(b, m)
    decreases |b|
  {
    if b == [] {
      assert a + b == a;
    } else {
      var b' := b[..|b| - 1];
      assert (a + b)[..|a + b| - 1] == a + b';
      TargetSumAppend(a, b', m);
    }
  }

  /** The demand one row adds for material `m`. */
  function RowDemand(t: Target, m: string): real
  {
    if t.item == Some(m) then t.amount else 0.0
  }

  lemma TargetSumAround(pre: seq<Target>, t: Target, post: seq<Target>, m: string)
    ensures TargetSum(pre + [t] + post, m) == TargetSum(pre, m) + RowDemand(t, m) + TargetSum(post, m)
  {
    TargetSumAppend(pre + [t], post, m);
    TargetSumAppend(pre, [t], m);
    assert [t][..0] == [];
  }

  /** Replacing row `index` by `t` changes each material's demand by the
      difference of the two rows' contributions. */
  lemma TargetSumReplace(ts: seq<Target>, index: nat, t: Target, m: string)
    requires index < |ts|
    ensures TargetSum(Replace(ts, index, t), m) == TargetSum(ts, m) - RowDemand(ts[index], m) + RowDemand(t, m)
  {
    var pre, post := ts[..index], ts[index + 1..];
    ReplaceSplit(ts, index, t);
    TargetSumAround(pre, t, post, m);
    assert ts == pre + [ts[index]] + post;
    TargetSumAround(pre, ts[index], post, m);
  }

  /** The delete button removes exactly its row, and with it the row's demand. */
  lemma DeleteTargetDemand(ts: seq<Target>, index: nat, m: string)
    requires index < |ts|
    ensures multiset(DeleteTarget(ts, index)) + multiset{ts[index]} == multiset(ts)
    ensures TargetSum(DeleteTarget(ts, index), m) == TargetSum(ts, m) - RowDemand(ts[index], m)
  {
    var pre, post := ts[..index], ts[index + 1..];
    RemoveAtMultiset(ts, index);
    TargetSumAppend(pre, post, m);
    assert ts == pre + [ts[index]] + post;
    TargetSumAround(pre, ts[index], post, m);
  }

  /** Editing a row's item moves its amount from the old material to the new
      one; editing its amount changes only its material's demand. Both keep
      every other row. */
  lemma EditTargetDemand(ts: seq<Target>, index: nat, item: Option<string>, amount: real, m: string)
    requires index < |ts|
    ensures |EditTargetItem(ts, index, item)| == |ts| && |EditTargetAmount(ts, index, amount)| == |ts|
    ensures forall k :: 0 <= k < |ts| && k != index ==>
      EditTargetItem(ts, index, item)[k] == ts[k] && EditTargetAmount(ts, index, amount)[k] == ts[k]
    ensures TargetSum(EditTargetItem(ts, index, item), m) ==
      TargetSum(ts, m) - RowDemand(ts[index], m) + RowDemand(Target(item, ts[index].amount), m)
    ensures TargetSum(EditTargetAmount(ts, index, amount), m) ==
      TargetSum(ts, m) - RowDemand(ts[index], m) + RowDemand(Target(ts[index].item, amount), m)
  {
    TargetSumReplace(ts, index, Target(item, ts[index].amount), m);
    TargetSumReplace(ts, index, Target(ts[index].item, amount), m);
  }

  /** The add button appends one blank row, which demands nothing. */
  lemma AddTargetDemand(ts: seq<Target>, m: string)
    ensures AddTarget(ts)[..|ts|] == ts && AddTarget(ts)[|ts|] == BlankTarget
    ensures TargetSum(AddTarget(ts), m) == TargetSum(ts, m)
  {
    TargetSumAppend(ts, [BlankTarget], m);
    assert [BlankTarget][..0] == [];
  }

  // ---------------------------------------------------------------------
  // ResultList
  // ---------------------------------------------------------------------

  /** Every activity carries its recipe's entry (`balance` is read from it). */
  predicate Balanced(acts: seq<Activity>)
  {
    forall a :: a in acts ==> a.entry.Some?
  }

  /** `value * amount`: what one activity contributes of an item. */
  function Contribution(balance: map<string, real>, amount: real, item: string): real
  {
    if item in balance then balance[item] * amount else 0.0
  }

  /** The net amount of `item` over all activities. */
  function ItemTotal(acts: seq<Activity>, item: string): real
    requires Balanced(acts)
  {
    if acts == [] then 0.0
    else
      var a := acts[|acts| - 1];
      ItemTotal(acts[..|acts| - 1], item) + Contribution(a.entry.value.balance, a.amount, item)
  }

  /** The items some activity's balance names. */
  function ItemsOf(acts: seq<Activity>): set<string>
    requires Balanced(acts)
  {
    set j, item | 0 <= j < |acts| && item in acts[j].entry.value.balance :: item
  }

  lemma ItemsStep(acts: seq<Activity>, j: nat, item: string)
    requires Balanced(acts) && j < |acts|
    ensures Balanced(acts[..j]) && Balanced(acts[..j + 1])
    ensures ItemTotal(acts[..j + 1], item) == ItemTotal(acts[..j], item) + Contribution(acts[j].entry.value.balance, acts[j].amount, item)
    ensures ItemsOf(acts[..j + 1]) == ItemsOf(acts[..j]) + acts[j].entry.value.balance.Keys
  {
    assert forall a :: a in acts[..j + 1] ==> a in acts;
    assert acts[..j + 1][..j] == acts[..j];
    var p, q := acts[..j], acts[..j + 1];
    forall x | x in ItemsOf(q) ensures x in ItemsOf(p) + acts[j].entry.value.balance.Keys {
      var k :| 0 <= k < |q| && x in q[k].entry.value.balance;
      if k < j {
        assert q[k] == p[k];
      }
    }
    forall x | x in ItemsOf(p) ensures x in ItemsOf(q) {
      var k :| 0 <= k < |p| && x in p[k].entry.value.balance;
      assert q[k] == p[k];
    }
    forall x | x in acts[j].entry.value.balance ensures x in ItemsOf(q) {
      assert q[j] == acts[j];
    }
  }

  /** An item no activity names totals 0. */
  lemma {:induction false} ItemTotalUnnamed(acts: seq<Activity>, item: string)
    requires Balanced(acts) && item !in ItemsOf(acts)
    ensures ItemTotal(acts, item) == 0.0
  {
    if acts != [] {
      var n := |acts| - 1;
      ItemsStep(acts, n, item);
      assert acts[..n + 1] == acts;
      ItemTotalUnnamed(acts[..n], item);
    }
  }

  /** The inner loop: one activity's balance added into the running totals. */
  method AddBalance(totals: map<string, real>, balance: map<string, real>, amount: real) returns (r: map<string, real>)
    ensures r.Keys == totals.Keys + balance.Keys
    ensures forall item :: item in r ==>
      r[item] == (if item in totals then totals[item] else 0.0) + Contribution(balance, amount, item)
  {
    r := totals;
    var todo := balance.Keys;
    while todo != {}
      invariant todo <= balance.Keys
      invariant r.Keys == totals.Keys + (balance.Keys - todo)
      invariant forall item :: item in r ==>
        r[item] == (if item in totals then totals[item] else 0.0) + (if item in todo then 0.0 else Contribution(balance, amount, item))
      decreases todo
    {
      var item :| item in todo;
      r := r[item := (if item in r then r[item] else 0.0) + balance[item] * amount];
      todo := todo - {item};
    }
  }

  /** The `itemBalance` loop of `ResultList`: the net amount of every item
      the plan's recipes name. */
  method ItemBalance(result: seq<Activity>) returns (itemBalance: map<string, real>)
    requires Balanced(result)
    ensures itemBalance.Keys == ItemsOf(result)
    ensures forall item :: item in itemBalance ==> itemBalance[item] == ItemTotal(result, item)
  {
    itemBalance := map[];
    assert result[..0] == [];
    for j := 0 to |result|
      invariant Balanced(result[..j])
      invariant itemBalance.Keys == ItemsOf(result[..j])
      invariant forall item :: item in itemBalance ==> itemBalance[item] == ItemTotal(result[..j], item)
    {
      var a := result[j];
      assert a in result;
      var next := AddBalance(itemBalance, a.entry.value.balance, a.amount);
      forall item | item in next
        ensures next[item] == ItemTotal(result[..j + 1], item)
      {
        ItemsStep(result, j, item);
        if item !in itemBalance {
          ItemTotalUnnamed(result[..j], item);
        }
      }
      ItemsStep(result, j, "");
      itemBalance := next;
    }
    assert result[..|result|] == result;
  }

  /** Whether an item row is shown, against the largest magnitude `max`:
      not negligible (`|v| / max < 1e-12` hides it; a zero maximum makes the
      quotient NaN, which hides nothing) and not a raw resource. */
  predicate Shown(item: string, v: real, max: real)
  {
    !(max != 0.0 && Abs(v) / max < 1.0 / 1000000000000.0) && !StartsWith(item, "resource")
  }

  /** The item of largest magnitude is shown unless it is a raw resource;
      every resource is hidden. */
  lemma ShownLargest(item: string, v: real, max: real)
    ensures StartsWith(item, "resource") ==> !Shown(item, v, max)
    ensures Abs(v) == max && !StartsWith(item, "resource") ==> Shown(item, v, max)
  {
    if Abs(v) == max && max != 0.0 {
      var a, e := Abs(v), 1.0 / 1000000000000.0;
      var q := a / max;
      assert a == q * max;
      assert max > 0.0;
      assert e * max < max;
      assert !(q < e);
    }
  }

  /** The largest magnitude of the item balance and the items listed. */
  method ShownItems(itemBalance: map<string, real>) returns (maxAmount: real, items: set<string>)
    ensures forall item :: item in itemBalance ==> Abs(itemBalance[item]) <= maxAmount
    ensures itemBalance != map[] ==> exists item :: item in itemBalance && Abs(itemBalance[item]) == maxAmount
    ensures items == set item | item in itemBalance && Shown(item, itemBalance[item], maxAmount)
  {
    maxAmount := 0.0;
    var todo := itemBalance.Keys;
    while todo != {}
      invariant todo <= itemBalance.Keys
      invariant forall item :: item in itemBalance && item !in todo ==> Abs(itemBalance[item]) <= maxAmount
      invariant todo != itemBalance.Keys ==> exists item :: item in itemBalance && Abs(itemBalance[item]) == maxAmount
      invariant todo == itemBalance.Keys ==> maxAmount == 0.0
      decreases todo
    {
      var item :| item in todo;
      if todo == itemBalance.Keys || Abs(itemBalance[item]) > maxAmount {
        maxAmount := Abs(itemBalance[item]);
      }
      todo := todo - {item};
    }
    items := {};
    todo := itemBalance.Keys;
    while todo != {}
      invariant todo <= itemBalance.Keys
      invariant items == set item | item in itemBalance && item !in todo && Shown(item, itemBalance[item], maxAmount)
      decreases todo
    {
      var item :| item in todo;
      if Shown(item, itemBalance[item], maxAmount) {
        items := items + {item};
      }
      todo := todo - {item};
    }
  }
}
