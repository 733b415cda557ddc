/** The linear-program builders of src/algorithm.js: one variable per
    recipe allowed on a production line, its coefficients taken from the
    recipe's balance, and bounds on the net amount of every material, per
    production line and over the whole plan. */
module LpModel {
  import opened Collections
  import opened Text
  import opened Data
  import opened Recipe
  import opened Balance

  /** A constraint's bounds; a side is absent where the source leaves the
      property out of the constraint object. */
  datatype Range = Range(min: Option<real>, max: Option<real>)

  /** The bounds of a material that may not be both consumed and produced
      freely: no less than `value` unless it may be an input, no more than
      `value` unless it may be an output. */
  function Bound(allowIn: bool, allowOut: bool, value: real): (r: Range)
    ensures r.min.Some? <==> !allowIn
    ensures r.max.Some? <==> !allowOut
    ensures r.min.Some? ==> r.min.value == value
    ensures r.max.Some? ==> r.max.value == value
  {
    Range(if allowIn then None else Some(value), if allowOut then None else Some(value))
  }

  // ---------------------------------------------------------------------
  // Names scoped to a production line
  // ---------------------------------------------------------------------

  /** The names of `xs` scoped to line `line`. */
  function ScopedSet(line: nat, xs: set<string>): set<string>
  {
    set x | x in xs :: Scoped(line, x)
  }

  /** The entries `Scoped(line, x) := f(x)`, one for every `x` in `xs`. */
  function ScopeAll<V>(line: nat, xs: set<string>, f: string -> V): map<string, V>
  {
    map k | k in ScopedSet(line, xs) :: f(k[|LinePrefix(line)|..])
  }

  lemma ScopeAllAt<V>(line: nat, xs: set<string>, f: string -> V, j: nat, x: string)
    ensures Scoped(j, x) in ScopeAll(line, xs, f) <==> j == line && x in xs
    ensures Scoped(j, x) in ScopeAll(line, xs, f) ==> ScopeAll(line, xs, f)[Scoped(j, x)] == f(x)
  {
    if Scoped(j, x) in ScopedSet(line, xs) {
      var y :| y in xs && Scoped(line, y) == Scoped(j, x);
      ScopedInjective(line, y, j, x);
    }
    if j == line && x in xs {
      assert Scoped(line, x) in ScopedSet(line, xs);
    }
    assert Scoped(j, x)[|LinePrefix(j)|..] == x;
  }

  /** Scoping one more name adds exactly its entry. */
  lemma ScopeAllAdd<V>(line: nat, xs: set<string>, f: string -> V, x: string)
    ensures ScopeAll(line, xs + {x}, f) == ScopeAll(line, xs, f)[Scoped(line, x) := f(x)]
  {
    var a, b := ScopeAll(line, xs + {x}, f), ScopeAll(line, xs, f)[Scoped(line, x) := f(x)];
    assert ScopedSet(line, xs + {x}) == ScopedSet(line, xs) + {Scoped(line, x)};
    assert a.Keys == b.Keys;
    ScopeAllAt(line, xs + {x}, f, line, x);
  }

  /** Updating a merged map updates its right operand. */
  lemma MergeUpdate<V>(a: map<string, V>, b: map<string, V>, k: string, v: V)
    ensures (a + b)[k := v] == a + b[k := v]
  {
  }

  /** The entries of the first `n` production lines, line `i` contributing
      `Scoped(i, x) := f(i)(x)` for every `x` in `xs(i)`. */
  function Lines<V>(n: nat, xs: nat -> set<string>, f: nat -> string -> V): map<string, V>
  {
    if n == 0 then map[] else Lines(n - 1, xs, f) + ScopeAll(n - 1, xs(n - 1), f(n - 1))
  }

  lemma LinesNext<V>(n: nat, xs: nat -> set<string>, f: nat -> string -> V, names: set<string>)
    requires names == xs(n)
    ensures Lines(n + 1, xs, f) == Lines(n, xs, f) + ScopeAll(n, names, f(n))
  {
  }

  /** Line `j`'s entry for `x` exists exactly when `j` is one of the lines and
      `x` one of its names, and it holds `f(j)(x)`. */
  lemma {:induction false} LinesAt<V>(n: nat, xs: nat -> set<string>, f: nat -> string -> V, j: nat, x: string)
    ensures Scoped(j, x) in Lines(n, xs, f) <==> j < n && x in xs(j)
    ensures Scoped(j, x) in Lines(n, xs, f) ==> Lines(n, xs, f)[Scoped(j, x)] == f(j)(x)
  {
    if n > 0 {
      LinesAt(n - 1, xs, f, j, x);
      ScopeAllAt(n - 1, xs(n - 1), f(n - 1), j, x);
    }
  }

  /** Every entry belongs to some line. */
  lemma {:induction false} LinesKeys<V>(n: nat, xs: nat -> set<string>, f: nat -> string -> V, k: string)
    requires k in Lines(n, xs, f)
    ensures exists j: nat, x :: j < n && x in xs(j) && k == Scoped(j, x)
  {
    if k !in Lines(n - 1, xs, f) {
      var x :| x in xs(n - 1) && k == Scoped(n - 1, x);
    } else {
      LinesKeys(n - 1, xs, f, k);
    }
  }

  // ---------------------------------------------------------------------
  // productionLineRecipes
  // ---------------------------------------------------------------------

  /** The recipes line `i` may run: its allowed recipes and resources, where
      a name must start with `recipe` or be a resource allowed on the target
      page. */
  function AllowedRecipes(cfg: Config, i: nat): set<string>
    requires i < |cfg.productionLineConfig|
  {
    var line := cfg.productionLineConfig[i];
    set r | r in line.allowedRecipe + line.allowedResource
          && (StartsWith(r, "recipe") || r in cfg.targetConfig.io.allowedResource)
  }

  /** The recipes of line `i` that become variables: allowed, and with a balance. */
  function Runnable(cfg: Config, table: map<string, Entry>): nat -> set<string>
  {
    (i: nat) => if i < |cfg.productionLineConfig| then AllowedRecipes(cfg, i) * table.Keys else {}
  }

  /** The coefficients of a recipe on line `line`: its balance counts towards
      the plan-wide material constraints and, scoped, towards the line's own. */
  function Coefficients(line: nat, balance: map<string, real>): map<string, real>
  {
    balance + ScopeAll(line, balance.Keys, k => if k in balance then balance[k] else 0.0)
  }

  /** A recipe's scoped entry equals its balance entry; an unscoped entry is
      the balance entry unless a scoped name coincides with it. */
  lemma CoefficientsAt(line: nat, balance: map<string, real>, k: string)
    ensures k in Coefficients(line, balance) <==> k in balance || exists y :: y in balance && k == Scoped(line, y)
    ensures k in balance ==> Coefficients(line, balance)[Scoped(line, k)] == balance[k]
    ensures k in balance && (forall y :: y in balance ==> k != Scoped(line, y)) ==>
      Coefficients(line, balance)[k] == balance[k]
  {
    var g := k => if k in balance then balance[k] else 0.0;
    ScopeAllAt(line, balance.Keys, g, line, k);
    if exists y :: y in balance && k == Scoped(line, y) {
      var y :| y in balance && k == Scoped(line, y);
      ScopeAllAt(line, balance.Keys, g, line, y);
    }
    var s := ScopeAll(line, balance.Keys, g);
    if k in s {
      var y :| y in balance && k == Scoped(line, y);
    }
  }

  function LineCoefficients(table: map<string, Entry>): nat -> string -> map<string, real>
  {
    (i: nat) => (r: string) => if r in table then Coefficients(i, table[r].balance) else map[]
  }

  /** `productionLineRecipes(data, config, recipeBalance)` as a value. */
  function Variables(cfg: Config, table: map<string, Entry>): map<string, map<string, real>>
  {
    Lines(|cfg.productionLineConfig|, Runnable(cfg, table), LineCoefficients(table))
  }

  /** Variable `L<i>#r` exists iff `r` is allowed on line `i` and has a
      balance, and its coefficients are that balance, bare and scoped. */
  lemma VariableAt(cfg: Config, table: map<string, Entry>, i: nat, r: string)
    ensures Scoped(i, r) in Variables(cfg, table) <==>
      i < |cfg.productionLineConfig| && r in AllowedRecipes(cfg, i) && r in table
    ensures Scoped(i, r) in Variables(cfg, table) ==>
      Variables(cfg, table)[Scoped(i, r)] == Coefficients(i, table[r].balance)
  {
    LinesAt(|cfg.productionLineConfig|, Runnable(cfg, table), LineCoefficients(table), i, r);
  }

  /** Every variable is some line's recipe. */
  lemma VariableKeys(cfg: Config, table: map<string, Entry>, k: string)
    requires k in Variables(cfg, table)
    ensures exists i: nat, r :: i < |cfg.productionLineConfig| && r in AllowedRecipes(cfg, i) && r in table && k == Scoped(i, r)
  {
    LinesKeys(|cfg.productionLineConfig|, Runnable(cfg, table), LineCoefficients(table), k);
  }

  /** The inner loop of `productionLineRecipes`: every name of `allowed`
      that has a balance (is in `known`) gets its scoped entry on line
      `line`. */
  method AddLineRecipes<V>(line: nat, allowed: set<string>, known: set<string>, f: string -> V, acc: map<string, V>)
    returns (ret: map<string, V>)
    ensures ret == acc + ScopeAll(line, allowed * known, f)
  {
    var todo := allowed;
    ghost var done: set<string> := {};
    ret := acc;
    while todo != {}
      invariant todo <= allowed
      invariant done == (allowed - todo) * known
      invariant ret == acc + ScopeAll(line, done, f)
      decreases todo
    {
      var r :| r in todo;
      if r in known {
        ScopeAllAdd(line, done, f, r);
        MergeUpdate(acc, ScopeAll(line, done, f), Scoped(line, r), f(r));
        ret := ret[Scoped(line, r) := f(r)];
        done := done + {r};
      }
      todo := todo - {r};
    }
    assert done == allowed * known;
  }

  /** `productionLineRecipes`: the outer loop over production lines. */
  method ProductionLineRecipes(cfg: Config, table: map<string, Entry>) returns (ret: map<string, map<string, real>>)
    ensures ret == Variables(cfg, table)
  {
    ret := map[];
    for i := 0 to |cfg.productionLineConfig|
      invariant ret == Lines(i, Runnable(cfg, table), LineCoefficients(table))
    {
      var allowed := AllowedRecipes(cfg, i);
      ret := AddLineRecipes(i, allowed, table.Keys, LineCoefficients(table)(i), ret);
      LinesNext(i, Runnable(cfg, table), LineCoefficients(table), allowed * table.Keys);
    }
  }

  // ---------------------------------------------------------------------
  // productionLineConstraints
  // ---------------------------------------------------------------------

  /** The materials of `mats` that may not both come in and go out. */
  function Blocked(mats: seq<string>, ins: set<string>, outs: set<string>): set<string>
  {
    set m | m in mats && !(m in ins && m in outs)
  }

  lemma BlockedSnoc(mats: seq<string>, ins: set<string>, outs: set<string>, j: nat)
    requires j < |mats|
    ensures Blocked(mats[..j + 1], ins, outs) ==
      Blocked(mats[..j], ins, outs) + (if mats[j] in ins && mats[j] in outs then {} else {mats[j]})
  {
    assert mats[..j + 1] == mats[..j] + [mats[j]];
  }

  /** The materials line `i` bounds. */
  function LineBlocked(cfg: Config, mats: seq<string>): nat -> set<string>
  {
    (i: nat) =>
      if i < |cfg.productionLineConfig| then
        Blocked(mats, cfg.productionLineConfig[i].allowedInput, cfg.productionLineConfig[i].allowedOutput)
      else {}
  }

  /** The bounds line `i` puts on a material: nothing comes in unless it is an
      allowed input, nothing goes out unless it is an allowed output. */
  function LineBound(cfg: Config): nat -> string -> Range
  {
    (i: nat) => (m: string) =>
      if i < |cfg.productionLineConfig| then
        Bound(m in cfg.productionLineConfig[i].allowedInput, m in cfg.productionLineConfig[i].allowedOutput, 0.0)
      else Range(None, None)
  }

  /** `productionLineConstraints(data, config)` over the material keys `mats`. */
  function LineConstraints(cfg: Config, mats: seq<string>): map<string, Range>
  {
    Lines(|cfg.productionLineConfig|, LineBlocked(cfg, mats), LineBound(cfg))
  }

  /** Constraint `L<i>#m` exists iff line `i` does not allow `m` both ways; it
      has `min = 0` exactly when `m` is not an allowed input and `max = 0`
      exactly when it is not an allowed output. */
  lemma LineConstraintAt(cfg: Config, mats: seq<string>, i: nat, m: string)
    ensures Scoped(i, m) in LineConstraints(cfg, mats) <==>
      i < |cfg.productionLineConfig| && m in mats &&
      !(m in cfg.productionLineConfig[i].allowedInput && m in cfg.productionLineConfig[i].allowedOutput)
    ensures Scoped(i, m) in LineConstraints(cfg, mats) ==>
      var r := LineConstraints(cfg, mats)[Scoped(i, m)];
      && (r.min.Some? <==> m !in cfg.productionLineConfig[i].allowedInput)
      && (r.max.Some? <==> m !in cfg.productionLineConfig[i].allowedOutput)
      && (r.min.Some? ==> r.min.value == 0.0)
      && (r.max.Some? ==> r.max.value == 0.0)
  {
    LinesAt(|cfg.productionLineConfig|, LineBlocked(cfg, mats), LineBound(cfg), i, m);
  }

  /** The inner loop of `productionLineConstraints`: the bounds of line `i`. */
  method AddLineConstraints(cfg: Config, mats: seq<string>, i: nat, acc: map<string, Range>)
    returns (ret: map<string, Range>)
    requires i < |cfg.productionLineConfig|
    ensures ret == acc + ScopeAll(i, LineBlocked(cfg, mats)(i), LineBound(cfg)(i))
  {
    var line := cfg.productionLineConfig[i];
    var f := LineBound(cfg)(i);
    ghost var done: set<string> := {};
    ret := acc;
    for j := 0 to |mats|
      invariant done == Blocked(mats[..j], line.allowedInput, line.allowedOutput)
      invariant ret == acc + ScopeAll(i, done, f)
    {
      BlockedSnoc(mats, line.allowedInput, line.allowedOutput, j);
      var material := mats[j];
      var allowInput := material in line.allowedInput;
      var allowOutput := material in line.allowedOutput;
      if !allowInput || !allowOutput {
        var spec := Range(if !allowInput then Some(0.0) else None, if !allowOutput then Some(0.0) else None);
        assert spec == f(material);
        ScopeAllAdd(i, done, f, material);
        MergeUpdate(acc, ScopeAll(i, done, f), Scoped(i, material), spec);
        ret := ret[Scoped(i, material) := spec];
        done := done + {material};
      }
    }
    assert mats[..|mats|] == mats;
  }

  /** `productionLineConstraints`: every material key of the catalog on every line. */
  method ProductionLineConstraints(c: Catalog, cfg: Config) returns (ret: map<string, Range>)
    requires MaterialGroupsKnown(c)
    ensures ret == LineConstraints(cfg, MaterialKeys(c))
  {
    var mats := MaterialKeys(c);
    ret := map[];
    for i := 0 to |cfg.productionLineConfig|
      invariant ret == Lines(i, LineBlocked(cfg, mats), LineBound(cfg))
    {
      ret := AddLineConstraints(cfg, mats, i, ret);
    }
  }

  // ---------------------------------------------------------------------
  // targetConstraints
  // ---------------------------------------------------------------------

  /** The total amount the target rows ask for material `m`. */
  function TargetSum(ts: seq<Target>, m: string): real
  {
    if ts == [] then 0.0
    else TargetSum(ts[..|ts| - 1], m) + (if ts[|ts| - 1].item == Some(m) then ts[|ts| - 1].amount else 0.0)
  }

  /** The materials some target row names. */
  function Items(ts: seq<Target>): set<string>
  {
    set j | 0 <= j < |ts| && ts[j].item.Some? :: ts[j].item.value
  }

  lemma TargetSnoc(ts: seq<Target>, j: nat, m: string)
    requires j < |ts|
    ensures TargetSum(ts[..j + 1], m) == TargetSum(ts[..j], m) + (if ts[j].item == Some(m) then ts[j].amount else 0.0)
    ensures Items(ts[..j + 1]) == Items(ts[..j]) + (if ts[j].item.Some? then {ts[j].item.value} else {})
  {
    assert ts[..j + 1][..j] == ts[..j];
    var a, b := Items(ts[..j + 1]), Items(ts[..j]) + (if ts[j].item.Some? then {ts[j].item.value} else {});
    forall x | x in a ensures x in b {
      var k :| 0 <= k < j + 1 && ts[..j + 1][k].item.Some? && ts[..j + 1][k].item.value == x;
      if k < j {
        assert ts[..j][k] == ts[k];
      }
    }
    forall x | x in b ensures x in a {
      if x in Items(ts[..j]) {
        var k :| 0 <= k < j && ts[..j][k].item.Some? && ts[..j][k].item.value == x;
        assert ts[..j + 1][k] == ts[k];
      } else {
        assert ts[..j + 1][j] == ts[j];
      }
    }
  }

  /** A material no target row names has a total of 0. */
  lemma {:induction false} TargetSumUnnamed(ts: seq<Target>, m: string)
    requires m !in Items(ts)
    ensures TargetSum(ts, m) == 0.0
  {
    if ts != [] {
      var n := |ts| - 1;
      TargetSnoc(ts, n, m);
      assert ts[..n + 1] == ts;
      TargetSumUnnamed(ts[..n], m);
    }
  }

  /** The first loop of `targetConstraints`: rows without an item are
      skipped, rows naming the same item are summed. */
  method SumTargets(ts: seq<Target>) returns (target: map<string, real>)
    ensures target.Keys == Items(ts)
    ensures forall m :: m in target ==> target[m] == TargetSum(ts, m)
  {
    target := map[];
    assert ts[..0] == [];
    for j := 0 to |ts|
      invariant target.Keys == Items(ts[..j])
      invariant forall m :: m in target ==> target[m] == TargetSum(ts[..j], m)
    {
      forall m ensures TargetSum(ts[..j + 1], m) == TargetSum(ts[..j], m) + (if ts[j].item == Some(m) then ts[j].amount else 0.0) {
        TargetSnoc(ts, j, m);
      }
      TargetSnoc(ts, j, "");
      match ts[j].item
      case None =>
      case Some(item) =>
        if item !in target {
          TargetSumUnnamed(ts[..j], item);
        }
        target := target[item := (if item in target then target[item] else 0.0) + ts[j].amount];
    }
    assert ts[..|ts|] == ts;
  }

  /** `targetConstraints(data, config)` over the material keys `mats`. */
  function TargetConstraints(cfg: Config, mats: seq<string>): map<string, Range>
  {
    var io := cfg.targetConfig.io;
    map m | m in Blocked(mats, io.allowedInput, io.allowedOutput) ::
      Bound(m in io.allowedInput, m in io.allowedOutput, TargetSum(cfg.targetConfig.target, m))
  }

  /** A plan-wide constraint exists iff the material may not both come in and
      go out; its bounds are the summed target, or 0 for a material no row
      names. */
  lemma TargetConstraintAt(cfg: Config, mats: seq<string>, m: string)
    ensures m in TargetConstraints(cfg, mats) <==>
      m in mats && !(m in cfg.targetConfig.io.allowedInput && m in cfg.targetConfig.io.allowedOutput)
    ensures m in TargetConstraints(cfg, mats) ==>
      var r := TargetConstraints(cfg, mats)[m];
      && (r.min.Some? <==> m !in cfg.targetConfig.io.allowedInput)
      && (r.max.Some? <==> m !in cfg.targetConfig.io.allowedOutput)
      && (r.min.Some? ==> r.min.value == TargetSum(cfg.targetConfig.target, m))
      && (r.max.Some? ==> r.max.value == TargetSum(cfg.targetConfig.target, m))
      && (m !in Items(cfg.targetConfig.target) ==> r == Bound(m in cfg.targetConfig.io.allowedInput, m in cfg.targetConfig.io.allowedOutput, 0.0))
  {
    if m !in Items(cfg.targetConfig.target) {
      TargetSumUnnamed(cfg.targetConfig.target, m);
    }
  }

  lemma TargetConstraintsSnoc(cfg: Config, mats: seq<string>, j: nat)
    requires j < |mats|
    ensures var io := cfg.targetConfig.io;
      var m := mats[j];
      TargetConstraints(cfg, mats[..j + 1]) ==
        if m in io.allowedInput && m in io.allowedOutput then TargetConstraints(cfg, mats[..j])
        else TargetConstraints(cfg, mats[..j])[m := Bound(m in io.allowedInput, m in io.allowedOutput, TargetSum(cfg.targetConfig.target, m))]
  {
    var io := cfg.targetConfig.io;
    BlockedSnoc(mats, io.allowedInput, io.allowedOutput, j);
  }

  /** `targetConstraints`: the summing loop, then one bound per material key. */
  method TargetConstraintsOf(c: Catalog, cfg: Config) returns (ret: map<string, Range>)
    requires MaterialGroupsKnown(c)
    ensures ret == TargetConstraints(cfg, MaterialKeys(c))
  {
    var target := SumTargets(cfg.targetConfig.target);
    var mats := MaterialKeys(c);
    var io := cfg.targetConfig.io;
    ret := map[];
    assert mats[..0] == [];
    for j := 0 to |mats|
      invariant ret == TargetConstraints(cfg, mats[..j])
    {
      TargetConstraintsSnoc(cfg, mats, j);
      var material := mats[j];
      var allowInput := material in io.allowedInput;
      var allowOutput := material in io.allowedOutput;
      if !allowInput || !allowOutput {
        var amount := if material in target then target[material] else 0.0;
        if material !in target {
          TargetSumUnnamed(cfg.targetConfig.target, material);
        }
        ret := ret[material := Range(if !allowInput then Some(amount) else None, if !allowOutput then Some(amount) else None)];
      }
    }
    assert mats[..|mats|] == mats;
  }

  // ---------------------------------------------------------------------
  // The merged constraints
  // ---------------------------------------------------------------------

  /** `{...productionLineConstraints_, ...targetConstraints_}`. */
  function Constraints(c: Catalog, cfg: Config): map<string, Range>
    requires MaterialGroupsKnown(c)
  {
    LineConstraints(cfg, MaterialKeys(c)) + TargetConstraints(cfg, MaterialKeys(c))
  }

  /** Every constraint has a side, and where it has both they agree: the
      source's `= max` for a two-sided constraint loses nothing. */
  lemma ConstraintsTight(c: Catalog, cfg: Config, k: string)
    requires MaterialGroupsKnown(c)
    requires k in Constraints(c, cfg)
    ensures Constraints(c, cfg)[k].min.Some? || Constraints(c, cfg)[k].max.Some?
    ensures Constraints(c, cfg)[k].min.Some? && Constraints(c, cfg)[k].max.Some? ==>
      Constraints(c, cfg)[k].min.value == Constraints(c, cfg)[k].max.value
  {
    var mats := MaterialKeys(c);
    if k !in TargetConstraints(cfg, mats) {
      LinesKeys(|cfg.productionLineConfig|, LineBlocked(cfg, mats), LineBound(cfg), k);
      var i: nat, m :| i < |cfg.productionLineConfig| && m in LineBlocked(cfg, mats)(i) && k == Scoped(i, m);
      LineConstraintAt(cfg, mats, i, m);
    } else {
      TargetConstraintAt(cfg, mats, k);
    }
  }
}
