/** `solve` and `resolveLine` of src/algorithm.js: the variables are turned
    into one coefficient row per constraint, the rows become a linear
    program, and the values an external simplex solver gives the columns are
    filtered and regrouped per production line. The solver is a parameter:
    a function from the program to a status and a list of column values. */
module Solver {
  import opened Collections
  import opened Text
  import opened Data
  import opened Balance
  import opened LpModel

  // ---------------------------------------------------------------------
  // Transposing the variables
  // ---------------------------------------------------------------------

  /** The entries of `m` under the keys in `keys`. */
  function Restrict<V>(m: map<string, V>, keys: set<string>): (r: map<string, V>)
    ensures r.Keys == m.Keys * keys
  {
    map k | k in m && k in keys :: m[k]
  }

  /** Every constraint some variable has a coefficient in. */
  function Rows(vars: map<string, map<string, real>>): set<string>
  {
    set rec, cons | rec in vars && cons in vars[rec] :: cons
  }

  /** The coefficients of constraint `cons`, keyed by variable. */
  function RowOf(vars: map<string, map<string, real>>, cons: string): map<string, real>
  {
    map rec | rec in vars && cons in vars[rec] :: vars[rec][cons]
  }

  /** `variablesTrans`: per constraint, the coefficient of every variable in it. */
  function Transpose(vars: map<string, map<string, real>>): map<string, map<string, real>>
  {
    map cons | cons in Rows(vars) :: RowOf(vars, cons)
  }

  /** Variable `rec` has coefficient `v` in constraint `cons` iff constraint
      `cons` has coefficient `v` for variable `rec`. */
  lemma TransposeAt(vars: map<string, map<string, real>>, cons: string, rec: string)
    ensures (cons in Transpose(vars) && rec in Transpose(vars)[cons]) <==> (rec in vars && cons in vars[rec])
    ensures rec in vars && cons in vars[rec] ==> Transpose(vars)[cons][rec] == vars[rec][cons]
    ensures cons in Transpose(vars) ==> Transpose(vars)[cons] != map[]
  {
    if rec in vars && cons in vars[rec] {
      assert cons in Rows(vars);
    }
    if cons in Transpose(vars) {
      var rec', cons' :| rec' in vars && cons' in vars[rec'] && cons == cons';
      assert rec' in Transpose(vars)[cons];
    }
  }

  /** A non-empty map has a key. */
  lemma SomeKey<V>(m: map<string, V>) returns (k: string)
    requires m != map[]
    ensures k in m
  {
    k :| k in m;
  }

  /** Two tables of non-empty rows are equal when they hold the same
      coefficients at the same places. */
  lemma NestedExt(a: map<string, map<string, real>>, b: map<string, map<string, real>>)
    requires forall k :: k in a ==> a[k] != map[]
    requires forall k :: k in b ==> b[k] != map[]
    requires forall k, r :: (k in a && r in a[k]) <==> (k in b && r in b[k])
    requires forall k, r :: k in a && r in a[k] && k in b ==> a[k][r] == b[k][r]
    ensures a == b
  {
    forall k | k in a ensures k in b && a[k] == b[k] {
      var r := SomeKey(a[k]);
      assert k in b;
      assert a[k].Keys == b[k].Keys;
    }
    forall k | k in b ensures k in a {
      var r := SomeKey(b[k]);
    }
  }

  /** Transposing twice gives back the variables that take part in some constraint. */
  lemma TransposeTwice(vars: map<string, map<string, real>>)
    ensures Transpose(Transpose(vars)) == map rec | rec in vars && vars[rec] != map[] :: vars[rec]
  {
    var t := Transpose(vars);
    var tt := Transpose(t);
    var want := map rec | rec in vars && vars[rec] != map[] :: vars[rec];
    forall rec, cons ensures (rec in tt && cons in tt[rec]) <==> (rec in want && cons in want[rec]) {
      TransposeAt(t, rec, cons);
      TransposeAt(vars, cons, rec);
    }
    forall rec, cons | rec in tt && cons in tt[rec] && rec in want ensures tt[rec][cons] == want[rec][cons] {
      TransposeAt(t, rec, cons);
      TransposeAt(vars, cons, rec);
    }
    forall rec | rec in tt ensures tt[rec] != map[] {
      var cons := SomeKey(t);
      TransposeAt(t, rec, "");
    }
    NestedExt(tt, want);
  }

  /** `trans` holds, for every constraint, the coefficients of the variables
      in `done` and those of variable `rec` in the constraints `seen`. */
  ghost predicate TransposedSoFar(trans: map<string, map<string, real>>, vars: map<string, map<string, real>>,
                                  done: set<string>, rec: string, seen: set<string>)
  {
    && (forall k :: k in trans ==> trans[k] != map[])
    && (forall k, r :: (k in trans && r in trans[k]) <==>
          ((r in done && r in vars && k in vars[r]) || (r == rec && k in seen && rec in vars && k in vars[rec])))
    && (forall k, r :: k in trans && r in trans[k] ==> r in vars && k in vars[r] && trans[k][r] == vars[r][k])
  }

  /** `trans` holds, for every constraint, the coefficients of the variables in `done`. */
  ghost predicate Transposed(trans: map<string, map<string, real>>, vars: map<string, map<string, real>>, done: set<string>)
  {
    && (forall k :: k in trans ==> trans[k] != map[])
    && (forall k, r :: (k in trans && r in trans[k]) <==> (r in done && r in vars && k in vars[r]))
    && (forall k, r :: k in trans && r in trans[k] ==> r in vars && k in vars[r] && trans[k][r] == vars[r][k])
  }

  /** Recording the coefficient of variable `rec` in one more constraint. */
  lemma ColumnStep(trans: map<string, map<string, real>>, vars: map<string, map<string, real>>,
                   done: set<string>, rec: string, seen: set<string>, cons: string)
    requires TransposedSoFar(trans, vars, done, rec, seen)
    requires rec in vars && rec !in done && cons in vars[rec] && cons !in seen
    ensures TransposedSoFar(trans[cons := (if cons in trans then trans[cons] else map[])[rec := vars[rec][cons]]],
                            vars, done, rec, seen + {cons})
  {
    var row := (if cons in trans then trans[cons] else map[])[rec := vars[rec][cons]];
    var t := trans[cons := row];
    assert rec in row;
    forall k, r ensures (k in t && r in t[k]) <==>
          ((r in done && r in vars && k in vars[r]) || (r == rec && k in seen + {cons} && rec in vars && k in vars[rec]))
    {
      if k != cons {
        assert (k in t && r in t[k]) <==> (k in trans && r in trans[k]);
      }
    }
  }

  /** The inner loop of the transposition: the coefficients of variable `rec`. */
  method AddColumn(vars: map<string, map<string, real>>, done: set<string>, rec: string, trans: map<string, map<string, real>>)
    returns (ret: map<string, map<string, real>>)
    requires rec in vars && rec !in done
    requires Transposed(trans, vars, done)
    ensures Transposed(ret, vars, done + {rec})
  {
    var c := vars[rec];
    var todo := c.Keys;
    ret := trans;
    while todo != {}
      invariant todo <= c.Keys
      invariant TransposedSoFar(ret, vars, done, rec, c.Keys - todo)
      decreases todo
    {
      var cons :| cons in todo;
      ColumnStep(ret, vars, done, rec, c.Keys - todo, cons);
      assert (c.Keys - todo) + {cons} == c.Keys - (todo - {cons});
      var row := if cons in ret then ret[cons] else map[];
      ret := ret[cons := row[rec := c[cons]]];
      todo := todo - {cons};
    }
    assert c.Keys - todo == c.Keys;
  }

  /** The nested loops of src/algorithm.js:121-127. */
  method TransposeVariables(vars: map<string, map<string, real>>) returns (trans: map<string, map<string, real>>)
    ensures trans == Transpose(vars)
  {
    var todo := vars.Keys;
    trans := map[];
    while todo != {}
      invariant todo <= vars.Keys
      invariant Transposed(trans, vars, vars.Keys - todo)
      decreases todo
    {
      var rec :| rec in todo;
      trans := AddColumn(vars, vars.Keys - todo, rec, trans);
      assert (vars.Keys - todo) + {rec} == vars.Keys - (todo - {rec});
      todo := todo - {rec};
    }
    forall k, r ensures (k in trans && r in trans[k]) <==> (k in Transpose(vars) && r in Transpose(vars)[k]) {
      TransposeAt(vars, k, r);
    }
    forall k | k in Transpose(vars) ensures Transpose(vars)[k] != map[] {
      TransposeAt(vars, k, "");
    }
    NestedExt(trans, Transpose(vars));
  }

  // ---------------------------------------------------------------------
  // The linear program
  // ---------------------------------------------------------------------

  /** The relation a row is written with: `<= max`, `>= min` or `= max`. */
  datatype Relation = AtMost(bound: real) | AtLeast(bound: real) | Exactly(bound: real)

  /** One row of the program: the coefficient of every variable in it and its relation. */
  datatype Row = Row(terms: map<string, real>, relation: Relation)

  predicate HasSide(r: Range)
  {
    r.min.Some? || r.max.Some?
  }

  /** The relation of a constraint: `<= max` without a `min`, `>= min`
      without a `max`, and `= max` when it has both. */
  function RelationOf(r: Range): (rel: Relation)
    requires HasSide(r)
    ensures r.min.None? ==> rel == AtMost(r.max.value)
    ensures r.max.None? ==> rel == AtLeast(r.min.value)
    ensures r.min.Some? && r.max.Some? ==> rel == Exactly(r.max.value)
  {
    if r.min.None? then AtMost(r.max.value)
    else if r.max.None? then AtLeast(r.min.value)
    else Exactly(r.max.value)
  }

  predicate Holds(rel: Relation, e: real)
  {
    match rel
    case AtMost(b) => e <= b
    case AtLeast(b) => e >= b
    case Exactly(b) => e == b
  }

  /** `e` lies within the constraint's bounds. */
  predicate InRange(r: Range, e: real)
  {
    (r.min.Some? ==> r.min.value <= e) && (r.max.Some? ==> e <= r.max.value)
  }

  /** For a constraint whose two sides agree, the relation written into the
      program holds of a value exactly when the value lies within the bounds. */
  lemma RelationMeaning(r: Range, e: real)
    requires HasSide(r)
    requires r.min.Some? && r.max.Some? ==> r.min.value == r.max.value
    ensures Holds(RelationOf(r), e) <==> InRange(r, e)
  {
    if r.min.Some? && r.max.Some? {
      assert InRange(r, e) <==> e == r.max.value;
    }
  }

  /** `range.min || range.max`: the test src/algorithm.js:134 applies to a
      constraint no variable takes part in. */
  predicate Forced(r: Range)
  {
    (r.min.Some? && r.min.value != 0.0) || (r.max.Some? && r.max.value != 0.0)
  }

  /** A constraint no variable takes part in sums to 0, so it can be met
      exactly when 0 lies within its bounds. */
  predicate Unmeetable(r: Range)
  {
    !InRange(r, 0.0)
  }

  /** The test as written also rejects a constraint that 0 meets: a target
      of 5 on a material that may come in but not go out gives `max = 5`. */
  lemma ForcedRejectsMeetable()
    ensures var r := Bound(true, false, 5.0);
      Forced(r) && !Unmeetable(r) && HasSide(r) && Holds(RelationOf(r), 0.0)
  {
    var r := Bound(true, false, 5.0);
    assert r == Range(None, Some(5.0));
  }

  /** The two tests agree on every constraint with both sides, and on every
      constraint whose bounds are 0. */
  lemma ForcedAgrees(r: Range)
    requires (r.min.Some? && r.max.Some? && r.min.value == r.max.value)
          || ((r.min.Some? ==> r.min.value == 0.0) && (r.max.Some? ==> r.max.value == 0.0))
    ensures Forced(r) <==> Unmeetable(r)
  {
  }

  /** Unmeetable implies Forced: a constraint 0 does not meet has a non-zero
      bound, so the test as written gives up on everything the corrected
      test gives up on. */
  lemma UnmeetableIsForced(r: Range)
    requires Unmeetable(r)
    ensures Forced(r)
  {
  }

  /** Some constraint without variables fails `test`. */
  predicate GivesUpOn(cons: map<string, Range>, trans: map<string, map<string, real>>, test: Range -> bool)
  {
    exists k :: k in cons && k !in trans && test(cons[k])
  }

  /** The short-circuit of src/algorithm.js:133-135 as written: some
      constraint without variables has a non-zero bound. */
  predicate ShortCircuits(cons: map<string, Range>, trans: map<string, map<string, real>>)
  {
    GivesUpOn(cons, trans, Forced)
  }

  /** The short-circuit as intended: some constraint without variables,
      which every plan evaluates to 0, cannot be met by 0. */
  predicate ShortCircuitsIntended(cons: map<string, Range>, trans: map<string, map<string, real>>)
  {
    GivesUpOn(cons, trans, Unmeetable)
  }

  /** The two short-circuits differ exactly on a constraint without variables
      that has a non-zero bound and is met by 0; the test as written gives up
      whenever the corrected one does. */
  lemma ShortCircuitsDiffer(cons: map<string, Range>, trans: map<string, map<string, real>>)
    ensures ShortCircuitsIntended(cons, trans) ==> ShortCircuits(cons, trans)
    ensures ShortCircuits(cons, trans) <==>
      ShortCircuitsIntended(cons, trans) ||
      exists k :: k in cons && k !in trans && Forced(cons[k]) && InRange(cons[k], 0.0)
  {
    if ShortCircuitsIntended(cons, trans) {
      var k :| k in cons && k !in trans && Unmeetable(cons[k]);
      UnmeetableIsForced(cons[k]);
    }
  }

  /** The as-written short-circuit gives up on a single constraint `m <= 5`
      that no variable takes part in, which the corrected one keeps. */
  lemma ShortCircuitsRejectsMeetable()
    ensures var cons := map["m" := Bound(true, false, 5.0)];
      ShortCircuits(cons, map[]) && !ShortCircuitsIntended(cons, map[]) && InRange(cons["m"], 0.0)
  {
    var cons := map["m" := Bound(true, false, 5.0)];
    assert cons["m"] == Range(None, Some(5.0));
    assert Forced(cons["m"]);
    assert forall k :: k in cons ==> k == "m";
  }

  /** The rows of the constraints in `keys`: one per constraint some variable
      takes part in. */
  function RowsFor(cons: map<string, Range>, trans: map<string, map<string, real>>, keys: set<string>): map<string, Row>
    requires forall k :: k in cons ==> HasSide(cons[k])
  {
    map k | k in cons && k in trans && k in keys :: Row(trans[k], RelationOf(cons[k]))
  }

  /** The program: the rows of all constraints. */
  function Program(cons: map<string, Range>, trans: map<string, map<string, real>>): map<string, Row>
    requires forall k :: k in cons ==> HasSide(cons[k])
  {
    RowsFor(cons, trans, cons.Keys)
  }

  /** Considering one more constraint adds its row if it has one. */
  lemma RowsForAdd(cons: map<string, Range>, trans: map<string, map<string, real>>, keys: set<string>, k: string)
    requires forall k :: k in cons ==> HasSide(cons[k])
    requires k in cons
    ensures RowsFor(cons, trans, keys + {k}) ==
      if k in trans then RowsFor(cons, trans, keys)[k := Row(trans[k], RelationOf(cons[k]))] else RowsFor(cons, trans, keys)
  {
  }

  /** The row loop of `solve` (src/algorithm.js:131-144): a constraint
      without variables is checked with `test` and dropped, the others become
      rows. `solve` passes `Forced`, the test as written; `Unmeetable` is the
      test as intended. */
  method BuildRows(cons: map<string, Range>, trans: map<string, map<string, real>>, test: Range -> bool)
    returns (p: Option<map<string, Row>>)
    requires forall k :: k in cons ==> HasSide(cons[k])
    ensures p.None? <==> GivesUpOn(cons, trans, test)
    ensures p.Some? ==> p.value == Program(cons, trans)
  {
    var todo := cons.Keys;
    ghost var done: set<string> := {};
    var rows: map<string, Row> := map[];
    while todo != {}
      invariant todo <= cons.Keys && done == cons.Keys - todo
      invariant forall k :: k in done && k !in trans ==> !test(cons[k])
      invariant rows == RowsFor(cons, trans, done)
      decreases todo
    {
      var k :| k in todo;
      var range := cons[k];
      RowsForAdd(cons, trans, done, k);
      if k !in trans {
        if test(range) {
          return None;
        }
      } else {
        rows := rows[k := Row(trans[k], RelationOf(range))];
      }
      todo := todo - {k};
      done := done + {k};
    }
    return Some(rows);
  }

  /** The row loop as written: it gives up when a constraint without
      variables has a non-zero bound, and otherwise yields the program. */
  method BuildProgram(cons: map<string, Range>, trans: map<string, map<string, real>>) returns (p: Option<map<string, Row>>)
    requires forall k :: k in cons ==> HasSide(cons[k])
    ensures p.None? <==> ShortCircuits(cons, trans)
    ensures p.Some? ==> p.value == Program(cons, trans)
  {
    p := BuildRows(cons, trans, Forced);
  }

  /** The row loop with the intended test: it gives up only when a
      constraint without variables cannot be met by 0. */
  method BuildProgramIntended(cons: map<string, Range>, trans: map<string, map<string, real>>) returns (p: Option<map<string, Row>>)
    requires forall k :: k in cons ==> HasSide(cons[k])
    ensures p.None? <==> ShortCircuitsIntended(cons, trans)
    ensures p.Some? ==> p.value == Program(cons, trans)
  {
    p := BuildRows(cons, trans, Unmeetable);
  }

  /** The intended give-up is exact. Every plan gives a constraint no
      variable takes part in the value 0, so when the corrected test gives up
      no plan meets every constraint, and when it does not, a plan meets
      every constraint exactly when it meets every row of the program. */
  lemma IntendedGiveUpExact(cons: map<string, Range>, trans: map<string, map<string, real>>, value: string -> real)
    requires forall k :: k in cons ==> HasSide(cons[k])
    requires forall k :: k in cons && cons[k].min.Some? && cons[k].max.Some? ==> cons[k].min.value == cons[k].max.value
    requires forall k :: k !in trans ==> value(k) == 0.0
    ensures ShortCircuitsIntended(cons, trans) ==> exists k :: k in cons && !InRange(cons[k], value(k))
    ensures !ShortCircuitsIntended(cons, trans) ==>
      ((forall k :: k in cons ==> InRange(cons[k], value(k))) <==>
       (forall k :: k in Program(cons, trans) ==> Holds(Program(cons, trans)[k].relation, value(k))))
  {
    if ShortCircuitsIntended(cons, trans) {
      var k :| k in cons && k !in trans && Unmeetable(cons[k]);
      assert !InRange(cons[k], value(k));
    } else {
      var p := Program(cons, trans);
      forall k | k in p
        ensures Holds(p[k].relation, value(k)) <==> InRange(cons[k], value(k))
      {
        RelationMeaning(cons[k], value(k));
      }
      if forall k :: k in p ==> Holds(p[k].relation, value(k)) {
        forall k | k in cons ensures InRange(cons[k], value(k)) {
          if k in trans {
            assert k in p;
          } else {
            assert !Unmeetable(cons[k]);
          }
        }
      }
    }
  }

  // ---------------------------------------------------------------------
  // Decoding the answer
  // ---------------------------------------------------------------------

  /** A column of the solved program: its name in the program text and its value. */
  datatype ColumnValue = ColumnValue(name: string, value: real)

  /** What the solver reports: whether an optimum was found, and the column values. */
  datatype Answer = Answer(optimal: bool, columns: seq<ColumnValue>)

  /** The name variable `v` has in the program text: `-` is not allowed in names. */
  function LpName(v: string): string
  {
    Escape(v)
  }

  function NonZero(): ColumnValue -> bool
  {
    (col: ColumnValue) => col.value != 0.0
  }

  /** The column loop of src/algorithm.js:160-163: columns with value 0 are skipped. */
  method CollectColumns(cols: seq<ColumnValue>) returns (result: seq<ColumnValue>)
    ensures result == Filter(cols, NonZero())
  {
    result := [];
    assert cols[..0] == [];
    for i := 0 to |cols|
      invariant result == Filter(cols[..i], NonZero())
    {
      FilterSnoc(cols, NonZero(), i);
      if cols[i].value != 0.0 {
        result := result + [cols[i]];
      }
    }
    assert cols[..|cols|] == cols;
  }

  /** `Math.max(...values)`. */
  function MaxValue(s: seq<ColumnValue>): real
    requires s != []
  {
    if |s| == 1 then s[0].value
    else var m := MaxValue(s[..|s| - 1]); if s[|s| - 1].value > m then s[|s| - 1].value else m
  }

  lemma {:induction false} MaxValueIsMax(s: seq<ColumnValue>)
    requires s != []
    ensures forall col :: col in s ==> col.value <= MaxValue(s)
    ensures exists col :: col in s && col.value == MaxValue(s)
  {
    if |s| > 1 {
      var p := s[..|s| - 1];
      MaxValueIsMax(p);
      assert s == p + [s[|s| - 1]];
      var col :| col in p && col.value == MaxValue(p);
      assert col in s;
    } else {
      assert s[0] in s;
    }
  }

  function Abs(x: real): real
  {
    if x < 0.0 then -x else x
  }

  /** `Math.abs(v) / max > 1e-9`, with JavaScript's infinite quotient for a
      zero maximum. */
  function Significant(max: real): ColumnValue -> bool
  {
    (col: ColumnValue) => if max == 0.0 then col.value != 0.0 else Abs(col.value) / max > 1.0 / 1000000000.0
  }

  /** `k.replace(/\$/g, "-")` on every column name. */
  function Unescaped(s: seq<ColumnValue>): (r: seq<ColumnValue>)
    ensures |r| == |s|
    ensures forall i :: 0 <= i < |s| ==> r[i] == ColumnValue(Unescape(s[i].name), s[i].value)
  {
    seq(|s|, i requires 0 <= i < |s| => ColumnValue(Unescape(s[i].name), s[i].value))
  }

  /** The activity values read from the solver: non-zero, not negligible
      against the largest value, with their names un-escaped. */
  function Decode(cols: seq<ColumnValue>): seq<ColumnValue>
  {
    var kept := Filter(cols, NonZero());
    Unescaped(if kept == [] then [] else Filter(kept, Significant(MaxValue(kept))))
  }

  /** Reading the answer: keep the non-zero columns, drop those negligible
      against the largest, and restore the names. */
  method DecodeAnswer(cols: seq<ColumnValue>) returns (result: seq<ColumnValue>)
    ensures result == Decode(cols)
  {
    var kept := CollectColumns(cols);
    var significant := if kept == [] then [] else Filter(kept, Significant(MaxValue(kept)));
    result := Unescaped(significant);
  }

  /** Against a positive maximum, the test is a comparison with a
      billionth of it; against a negative one, nothing passes. */
  lemma SignificantAgainst(m: real, v: real)
    requires m != 0.0
    ensures m > 0.0 ==> (Abs(v) / m > 1.0 / 1000000000.0 <==> Abs(v) > m / 1000000000.0)
    ensures m < 0.0 ==> !(Abs(v) / m > 1.0 / 1000000000.0)
  {
    var a, c := Abs(v), 1.0 / 1000000000.0;
    var q := a / m;
    assert a == q * m;
    assert c * m == m / 1000000000.0;
    if m > 0.0 {
      assert q > c <==> q * m > c * m;
    } else {
      assert a >= 0.0;
      assert q <= 0.0;
    }
  }

  /** A decoded value comes from a non-zero column whose magnitude exceeds a
      billionth of the largest value; that largest value is positive. */
  lemma DecodeMember(cols: seq<ColumnValue>, d: ColumnValue)
    requires d in Decode(cols)
    ensures var kept := Filter(cols, NonZero());
      kept != [] && MaxValue(kept) > 0.0 &&
      exists col :: col in cols && col.value == d.value && d.name == Unescape(col.name) &&
        col.value != 0.0 && Abs(col.value) > MaxValue(kept) / 1000000000.0
  {
    var kept := Filter(cols, NonZero());
    var m := MaxValue(kept);
    var sig := Filter(kept, Significant(m));
    var i :| 0 <= i < |sig| && Decode(cols)[i] == d;
    var col := sig[i];
    assert col in sig;
    FilterMember(kept, Significant(m), col);
    FilterMember(cols, NonZero(), col);
    MaxValueIsMax(kept);
    assert col.value != 0.0 && col.value <= m;
    assert m != 0.0;
    SignificantAgainst(m, col.value);
  }

  /** Every non-zero column whose magnitude exceeds a billionth of a
      positive largest value is decoded, under its un-escaped name. */
  lemma DecodeKeeps(cols: seq<ColumnValue>, col: ColumnValue)
    requires col in cols && col.value != 0.0
    ensures Filter(cols, NonZero()) != []
    ensures var m := MaxValue(Filter(cols, NonZero()));
      m > 0.0 && Abs(col.value) > m / 1000000000.0 ==> ColumnValue(Unescape(col.name), col.value) in Decode(cols)
  {
    var kept := Filter(cols, NonZero());
    FilterMember(cols, NonZero(), col);
    var m := MaxValue(kept);
    if m > 0.0 && Abs(col.value) > m / 1000000000.0 {
      SignificantAgainst(m, col.value);
      FilterMember(kept, Significant(m), col);
      var sig := Filter(kept, Significant(m));
      var i :| 0 <= i < |sig| && sig[i] == col;
      assert Decode(cols)[i] == ColumnValue(Unescape(col.name), col.value);
    }
  }

  /** A variable's column, named in the program text, decodes to the variable. */
  lemma DecodeName(v: string)
    requires '$' !in v
    ensures Unescape(LpName(v)) == v
  {
    UnescapeEscape(v);
  }

  // ---------------------------------------------------------------------
  // resolveLine
  // ---------------------------------------------------------------------

  /** `{name: recipe, amount: v, ...recipeMachine[recipe]}`: a recipe's
      activity with its machine selections and balance when it has them. */
  datatype Activity = Activity(name: string, amount: real, entry: Option<Entry>)

  /** The activity a decoded value names, given its recipe key. */
  function ActivityOf(table: map<string, Entry>, recipe: string, amount: real): Activity
  {
    Activity(recipe, amount, if recipe in table then Some(table[recipe]) else None)
  }

  /** `resolveLine(data, config, result)` for `n` production lines: every
      value is appended to the list of the line its name is scoped to. None
      where the source throws: a name that does not read back as `L<i>#recipe`
      with `i` one of the lines. */
  function Resolve(n: nat, table: map<string, Entry>, result: seq<ColumnValue>): (r: Option<seq<seq<Activity>>>)
    ensures r.Some? ==> |r.value| == n
  {
    if result == [] then Some(seq(n, i => []))
    else
      var last := result[|result| - 1];
      match Resolve(n, table, result[..|result| - 1])
      case None => None
      case Some(lines) =>
        match ParseVar(last.name)
        case None => None
        case Some((line, recipe)) =>
          if line < n then Some(lines[line := lines[line] + [ActivityOf(table, recipe, last.value)]]) else None
  }

  /** Every value names one of the `n` lines. */
  predicate Readable(n: nat, result: seq<ColumnValue>)
  {
    forall col :: col in result ==> ParseVar(col.name).Some? && ParseVar(col.name).value.0 < n
  }

  function OnLine(i: nat): ColumnValue -> bool
  {
    (col: ColumnValue) => ParseVar(col.name).Some? && ParseVar(col.name).value.0 == i
  }

  /** The activities of values whose names all read back. */
  function Activities(table: map<string, Entry>, s: seq<ColumnValue>): seq<Activity>
    requires forall col :: col in s ==> ParseVar(col.name).Some?
  {
    if s == [] then []
    else Activities(table, s[..|s| - 1]) + [ActivityOf(table, ParseVar(s[|s| - 1].name).value.1, s[|s| - 1].value)]
  }

  /** `resolveLine` fails exactly when some name does not read back as one of the lines. */
  lemma {:induction false} ResolveDefined(n: nat, table: map<string, Entry>, result: seq<ColumnValue>)
    ensures Resolve(n, table, result).Some? <==> Readable(n, result)
  {
    if result != [] {
      var p, last := result[..|result| - 1], result[|result| - 1];
      assert result == p + [last];
      ResolveDefined(n, table, p);
      if !Readable(n, result) && Readable(n, p) {
        var col :| col in result && !(ParseVar(col.name).Some? && ParseVar(col.name).value.0 < n);
        assert col == last;
      }
    }
  }

  /** `resolveLine` groups the values by line and keeps their order: line
      `i` lists the activities of the values scoped to `i`. */
  lemma {:induction false} ResolveLines(n: nat, table: map<string, Entry>, result: seq<ColumnValue>, i: nat)
    requires Readable(n, result) && i < n
    ensures Resolve(n, table, result).Some?
    ensures Resolve(n, table, result).value[i] == Activities(table, Filter(result, OnLine(i)))
  {
    ResolveDefined(n, table, result);
    if result != [] {
      var p, last := result[..|result| - 1], result[|result| - 1];
      assert Readable(n, p) by {
        forall col | col in p ensures col in result { }
      }
      assert last in result;
      assert p + [last] == result;
      ResolveLines(n, table, p, i);
      ResolveLinesStep(n, table, p, last, i);
    }
  }

  /** One more value: line `i` gains its activity exactly when the value is
      scoped to line `i`. */
  lemma ResolveLinesStep(n: nat, table: map<string, Entry>, p: seq<ColumnValue>, last: ColumnValue, i: nat)
    requires Readable(n, p) && i < n
    requires ParseVar(last.name).Some? && ParseVar(last.name).value.0 < n
    requires Resolve(n, table, p).Some?
    requires Resolve(n, table, p).value[i] == Activities(table, Filter(p, OnLine(i)))
    ensures Resolve(n, table, p + [last]).Some?
    ensures Resolve(n, table, p + [last]).value[i] == Activities(table, Filter(p + [last], OnLine(i)))
  {
    ResolvePush(n, table, p, last);
    FilterPush(p, last, OnLine(i));
    var lines, parsed := Resolve(n, table, p).value, ParseVar(last.name).value;
    var act := ActivityOf(table, parsed.1, last.value);
    var next := lines[parsed.0 := lines[parsed.0] + [act]];
    assert Resolve(n, table, p + [last]) == Some(next);
    var f := Filter(p, OnLine(i));
    if parsed.0 == i {
      assert Filter(p + [last], OnLine(i)) == f + [last];
      ActivitiesPush(table, f, last);
      assert next[i] == Activities(table, f) + [act];
    } else {
      assert Filter(p + [last], OnLine(i)) == f;
      assert next[i] == lines[i];
    }
  }

  /** `resolveLine` on one more value appends its activity to its line. */
  lemma ResolvePush(n: nat, table: map<string, Entry>, p: seq<ColumnValue>, last: ColumnValue)
    requires Resolve(n, table, p).Some? && ParseVar(last.name).Some? && ParseVar(last.name).value.0 < n
    ensures var lines, parsed := Resolve(n, table, p).value, ParseVar(last.name).value;
      Resolve(n, table, p + [last]) == Some(lines[parsed.0 := lines[parsed.0] + [ActivityOf(table, parsed.1, last.value)]])
  {
    assert (p + [last])[..|p|] == p;
  }

  lemma ActivitiesPush(table: map<string, Entry>, f: seq<ColumnValue>, last: ColumnValue)
    requires forall col :: col in f ==> ParseVar(col.name).Some?
    requires ParseVar(last.name).Some?
    ensures Activities(table, f + [last]) == Activities(table, f) + [ActivityOf(table, ParseVar(last.name).value.1, last.value)]
  {
    assert (f + [last])[..|f|] == f;
  }

  /** The activities of one line, read back from the names that carry it. */
  lemma {:induction false} ActivitiesMember(table: map<string, Entry>, s: seq<ColumnValue>, a: Activity)
    requires forall col :: col in s ==> ParseVar(col.name).Some?
    ensures a in Activities(table, s) <==>
      exists col :: col in s && a == ActivityOf(table, ParseVar(col.name).value.1, col.value)
    decreases |s|
  {
    if s != [] {
      var p := s[..|s| - 1];
      assert s == p + [s[|s| - 1]];
      assert forall col :: col in p ==> col in s;
      ActivitiesMember(table, p, a);
    }
  }

  /** One step of the push loop. */
  lemma ResolveStep(n: nat, table: map<string, Entry>, result: seq<ColumnValue>, j: nat)
    requires j < |result|
    ensures Resolve(n, table, result[..j + 1]) ==
      match Resolve(n, table, result[..j])
      case None => None
      case Some(lines) =>
        match ParseVar(result[j].name)
        case None => None
        case Some((line, recipe)) =>
          if line < n then Some(lines[line := lines[line] + [ActivityOf(table, recipe, result[j].value)]]) else None
  {
    assert result[..j + 1][..j] == result[..j];
  }

  /** Once a name fails to read back, the whole result does. */
  lemma {:induction false} ResolveFails(n: nat, table: map<string, Entry>, result: seq<ColumnValue>, j: nat)
    requires j <= |result| && Resolve(n, table, result[..j]).None?
    ensures Resolve(n, table, result).None?
    decreases |result| - j
  {
    if j < |result| {
      ResolveStep(n, table, result, j);
      ResolveFails(n, table, result, j + 1);
    } else {
      assert result[..j] == result;
    }
  }

  /** `resolveLine`: the balance table is recomputed, then every value is
      pushed onto its line's list. */
  method ResolveLine(c: Catalog, cfg: Config, result: seq<ColumnValue>) returns (lines: Option<seq<seq<Activity>>>)
    requires Balanceable(c, cfg)
    ensures lines == Resolve(|cfg.productionLineConfig|, RecipeTable(c, cfg), result)
  {
    var recipeMachine := RecipeBalance(c, cfg);
    var n := |cfg.productionLineConfig|;
    var ret: seq<seq<Activity>> := seq(n, i => []);
    assert result[..0] == [];
    for j := 0 to |result|
      invariant Resolve(n, recipeMachine, result[..j]) == Some(ret)
    {
      ResolveStep(n, recipeMachine, result, j);
      var parsed := ParseVar(result[j].name);
      if parsed.None? || parsed.value.0 >= n {
        ResolveFails(n, recipeMachine, result, j + 1);
        return None;
      }
      var (line, recipe) := parsed.value;
      ret := ret[line := ret[line] + [ActivityOf(recipeMachine, recipe, result[j].value)]];
    }
    assert result[..|result|] == result;
    return Some(ret);
  }

  // ---------------------------------------------------------------------
  // solve
  // ---------------------------------------------------------------------

  lemma ConstraintsHaveSides(c: Catalog, cfg: Config)
    requires MaterialGroupsKnown(c)
    ensures forall k :: k in Constraints(c, cfg) ==> HasSide(Constraints(c, cfg)[k])
  {
    forall k | k in Constraints(c, cfg) ensures HasSide(Constraints(c, cfg)[k]) {
      ConstraintsTight(c, cfg, k);
    }
  }

  /** The program `solve` hands to the solver. */
  function ProgramOf(c: Catalog, cfg: Config): map<string, Row>
    requires Balanceable(c, cfg) && MaterialGroupsKnown(c)
  {
    ConstraintsHaveSides(c, cfg);
    Program(Constraints(c, cfg), Transpose(Variables(cfg, RecipeTable(c, cfg))))
  }

  /** Whether `solve` gives up before calling the solver. */
  predicate GivesUp(c: Catalog, cfg: Config)
    requires Balanceable(c, cfg) && MaterialGroupsKnown(c)
  {
    ShortCircuits(Constraints(c, cfg), Transpose(Variables(cfg, RecipeTable(c, cfg))))
  }

  /** `solve(data, config)` with `oracle` in place of the simplex solver. */
  function SolveResult(c: Catalog, cfg: Config, oracle: map<string, Row> -> Answer): Option<seq<seq<Activity>>>
    requires Balanceable(c, cfg) && MaterialGroupsKnown(c)
  {
    var n := |cfg.productionLineConfig|;
    var table := RecipeTable(c, cfg);
    if GivesUp(c, cfg) then Resolve(n, table, [])
    else
      var answer := oracle(ProgramOf(c, cfg));
      if !answer.optimal then Resolve(n, table, [])
      else Resolve(n, table, Decode(answer.columns))
  }

  /** `solve`: build the variables and constraints, transpose, write the
      rows, call the solver and decode its answer. */
  method Solve(c: Catalog, cfg: Config, oracle: map<string, Row> -> Answer) returns (lines: Option<seq<seq<Activity>>>)
    requires Balanceable(c, cfg) && MaterialGroupsKnown(c)
    ensures lines == SolveResult(c, cfg, oracle)
  {
    var recipeBalance := RecipeBalance(c, cfg);
    var variables := ProductionLineRecipes(cfg, recipeBalance);
    var lineConstraints := ProductionLineConstraints(c, cfg);
    var targetConstraints := TargetConstraintsOf(c, cfg);
    var constraints := lineConstraints + targetConstraints;
    var variablesTrans := TransposeVariables(variables);
    assert constraints == Constraints(c, cfg);
    ConstraintsHaveSides(c, cfg);
    var program := BuildProgram(constraints, variablesTrans);
    if program.None? {
      lines := ResolveLine(c, cfg, []);
      return;
    }
    var answer := oracle(program.value);
    if !answer.optimal {
      lines := ResolveLine(c, cfg, []);
      return;
    }
    var result := DecodeAnswer(answer.columns);
    lines := ResolveLine(c, cfg, result);
  }

  /** When some constraint no variable takes part in has a non-zero bound
      (the test as written, whether or not 0 meets the constraint), or the
      solver finds no optimum, the plan is one empty list per production
      line. */
  lemma SolveEmpty(c: Catalog, cfg: Config, oracle: map<string, Row> -> Answer)
    requires Balanceable(c, cfg) && MaterialGroupsKnown(c)
    requires var cons := Constraints(c, cfg); var vars := Variables(cfg, RecipeTable(c, cfg));
      (exists k :: k in cons && Untouched(vars, k) && Forced(cons[k])) || !oracle(ProgramOf(c, cfg)).optimal
    ensures SolveResult(c, cfg, oracle) == Some(seq(|cfg.productionLineConfig|, i => []))
  {
    GivesUpDiffers(c, cfg);
  }

  /** No variable takes part in constraint `k`. */
  predicate Untouched(vars: map<string, map<string, real>>, k: string)
  {
    forall v :: v in vars ==> k !in vars[v]
  }

  /** A constraint is missing from the transpose exactly when no variable
      takes part in it. */
  lemma TransposeMissing(vars: map<string, map<string, real>>, k: string)
    ensures k !in Transpose(vars) <==> Untouched(vars, k)
  {
    if k in Transpose(vars) {
      TransposeAt(vars, k, k);
      var v := SomeKey(Transpose(vars)[k]);
      TransposeAt(vars, k, v);
    } else {
      forall v | v in vars ensures k !in vars[v] {
        TransposeAt(vars, k, v);
      }
    }
  }

  /** Whether `solve` would give up with the intended test. */
  predicate GivesUpIntended(c: Catalog, cfg: Config)
    requires Balanceable(c, cfg) && MaterialGroupsKnown(c)
  {
    ShortCircuitsIntended(Constraints(c, cfg), Transpose(Variables(cfg, RecipeTable(c, cfg))))
  }

  /** `solve` gives up exactly when some constraint no variable takes part in
      has a non-zero bound; with the intended test, exactly when some such
      constraint cannot be met by 0. The first happens whenever the second
      does, and beyond it only on a constraint with a non-zero bound that 0
      meets. */
  lemma GivesUpDiffers(c: Catalog, cfg: Config)
    requires Balanceable(c, cfg) && MaterialGroupsKnown(c)
    ensures var cons := Constraints(c, cfg); var vars := Variables(cfg, RecipeTable(c, cfg));
      GivesUp(c, cfg) <==> exists k :: k in cons && Untouched(vars, k) && Forced(cons[k])
    ensures var cons := Constraints(c, cfg); var vars := Variables(cfg, RecipeTable(c, cfg));
      GivesUpIntended(c, cfg) <==> exists k :: k in cons && Untouched(vars, k) && Unmeetable(cons[k])
    ensures GivesUpIntended(c, cfg) ==> GivesUp(c, cfg)
    ensures var cons := Constraints(c, cfg); var vars := Variables(cfg, RecipeTable(c, cfg));
      GivesUp(c, cfg) <==>
        GivesUpIntended(c, cfg) ||
        exists k :: k in cons && Untouched(vars, k) && Forced(cons[k]) && InRange(cons[k], 0.0)
  {
    var cons := Constraints(c, cfg);
    var vars := Variables(cfg, RecipeTable(c, cfg));
    var trans := Transpose(vars);
    forall k ensures k !in trans <==> Untouched(vars, k) {
      TransposeMissing(vars, k);
    }
    ShortCircuitsDiffer(cons, trans);
  }

  /** The program has a row for a constraint exactly when some variable takes
      part in it; the row holds every such variable's coefficient, and its
      relation holds of a value exactly when the value meets the bounds. */
  lemma ProgramRow(c: Catalog, cfg: Config, k: string, v: string, e: real)
    requires Balanceable(c, cfg) && MaterialGroupsKnown(c)
    ensures var vars := Variables(cfg, RecipeTable(c, cfg));
      k in ProgramOf(c, cfg) <==> k in Constraints(c, cfg) && exists v' :: v' in vars && k in vars[v']
    ensures var vars := Variables(cfg, RecipeTable(c, cfg));
      k in ProgramOf(c, cfg) ==>
        && (v in ProgramOf(c, cfg)[k].terms <==> v in vars && k in vars[v])
        && (v in ProgramOf(c, cfg)[k].terms ==> ProgramOf(c, cfg)[k].terms[v] == vars[v][k])
        && (Holds(ProgramOf(c, cfg)[k].relation, e) <==> InRange(Constraints(c, cfg)[k], e))
  {
    var vars := Variables(cfg, RecipeTable(c, cfg));
    var t := Transpose(vars);
    TransposeAt(vars, k, v);
    if exists v' :: v' in vars && k in vars[v'] {
      var v' :| v' in vars && k in vars[v'];
      TransposeAt(vars, k, v');
    }
    if k in ProgramOf(c, cfg) {
      ConstraintsTight(c, cfg, k);
      RelationMeaning(Constraints(c, cfg)[k], e);
      var w := SomeKey(t[k]);
      TransposeAt(vars, k, w);
    }
  }

  /** Every activity on line `i` comes from a value whose name is the recipe
      scoped to line `i`, and carries that recipe's entry when it has one. */
  lemma ResolvedActivity(n: nat, table: map<string, Entry>, result: seq<ColumnValue>, i: nat, a: Activity)
    requires Resolve(n, table, result).Some? && i < n
    requires a in Resolve(n, table, result).value[i]
    ensures exists d :: d in result && d.value == a.amount && ParseVar(d.name) == Some((i, a.name))
    ensures a.entry == (if a.name in table then Some(table[a.name]) else None)
  {
    ResolveDefined(n, table, result);
    ResolveLines(n, table, result, i);
    var f := Filter(result, OnLine(i));
    assert forall col :: col in f ==> ParseVar(col.name).Some? by {
      forall col | col in f ensures ParseVar(col.name).Some? {
        FilterMember(result, OnLine(i), col);
      }
    }
    ActivitiesMember(table, f, a);
    var d :| d in f && a == ActivityOf(table, ParseVar(d.name).value.1, d.value);
    FilterMember(result, OnLine(i), d);
  }

  /** Every activity read back from a solver answer is a non-zero column
      value whose un-escaped name is scoped to its line and names its recipe. */
  lemma DecodedActivity(n: nat, table: map<string, Entry>, cols: seq<ColumnValue>, i: nat, a: Activity)
    requires Resolve(n, table, Decode(cols)).Some? && i < n
    requires a in Resolve(n, table, Decode(cols)).value[i]
    ensures exists col :: (col in cols && col.value == a.amount && col.value != 0.0 &&
      ParseVar(Unescape(col.name)) == Some((i, a.name)))
  {
    ResolvedActivity(n, table, Decode(cols), i, a);
    var d :| d in Decode(cols) && d.value == a.amount && ParseVar(d.name) == Some((i, a.name));
    DecodeMember(cols, d);
  }

  /** Every activity of the plan is a value the solver reported, under the
      column name of that recipe on that line. */
  lemma SolveActivity(c: Catalog, cfg: Config, oracle: map<string, Row> -> Answer, i: nat, a: Activity)
    requires Balanceable(c, cfg) && MaterialGroupsKnown(c)
    requires SolveResult(c, cfg, oracle).Some? && i < |cfg.productionLineConfig|
    requires a in SolveResult(c, cfg, oracle).value[i]
    ensures exists col :: (col in oracle(ProgramOf(c, cfg)).columns && col.value == a.amount && col.value != 0.0 &&
      ParseVar(Unescape(col.name)) == Some((i, a.name)))
  {
    if !GivesUp(c, cfg) && oracle(ProgramOf(c, cfg)).optimal {
      DecodedActivity(|cfg.productionLineConfig|, RecipeTable(c, cfg), oracle(ProgramOf(c, cfg)).columns, i, a);
    }
  }
}
