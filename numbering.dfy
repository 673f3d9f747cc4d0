/**
 * Placeholder numbering. A table is numbered from `base` when its entries are
 * `:p<base>`, `:p<base+1>`, ... in order, and its counter is one past the last.
 * Rendering keeps a numbered table numbered as long as no sub-select and no raw
 * fragment brings parameters of its own (a sub-select's map is empty before its
 * first merge): then every placeholder name of a statement, its sub-selects
 * included, is distinct, and the names appear in allocation order.
 */
module Numbering {
  import opened Php
  import opened RawSql
  import opened Values
  import opened Render

  // ---------------------------------------------------------------------------
  // States without pre-existing parameters
  // ---------------------------------------------------------------------------

  predicate CleanValue(v: Value) {
    match v
    case Scalar(_) => true
    case Raw(sql) => sql.parameters == []
    case Sub(s) => CleanSelect(s)
    case Nested(vs) => forall i :: 0 <= i < |vs| ==> CleanValue(vs[i].1)
  }

  predicate CleanInput(w: Input) {
    w.Terms? ==> forall i :: 0 <= i < |w.items| ==> CleanValue(w.items[i].1)
  }

  predicate CleanSelect(s: Select) {
    && s.parameters == []
    && (forall i :: 0 <= i < |s.fields| ==> CleanValue(s.fields[i].1))
    && (forall i :: 0 <= i < |s.where| ==> CleanValue(s.where[i].1))
    && (forall i :: 0 <= i < |s.having| ==> CleanValue(s.having[i].1))
    && (forall i :: 0 <= i < |s.union| ==> s.union[i].Some? ==> CleanSelect(s.union[i].value))
    && (forall i :: 0 <= i < |s.joins| ==> CleanInput(s.joins[i].on))
  }

  predicate CleanItems(items: seq<(Key, Value)>) {
    forall i :: 0 <= i < |items| ==> CleanValue(items[i].1)
  }

  predicate CleanMembers(us: seq<Option<Select>>) {
    forall i :: 0 <= i < |us| ==> us[i].Some? ==> CleanSelect(us[i].value)
  }

  predicate CleanJoins(js: seq<Join>) {
    forall i :: 0 <= i < |js| ==> CleanInput(js[i].on)
  }

  // ---------------------------------------------------------------------------
  // Numbered tables
  // ---------------------------------------------------------------------------

  predicate NumberedFrom(ps: seq<(string, Scalar)>, base: nat, next: nat) {
    base + |ps| == next && forall i :: 0 <= i < |ps| ==> ps[i].0 == Name(base + i)
  }

  predicate Numbered(t: Table, base: nat) {
    NumberedFrom(t.parameters, base, t.parameterIndex)
  }

  /** Different counters give different placeholder names. */
  lemma NameInjective(a: nat, b: nat)
    requires Name(a) == Name(b)
    ensures a == b
  {
    assert Name(a)[2..] == NatToString(a);
    assert Name(b)[2..] == NatToString(b);
    NatToStringInjective(a, b);
  }

  /** A numbered table holds pairwise distinct names. */
  lemma NumberedUnique(ps: seq<(string, Scalar)>, base: nat, next: nat)
    requires NumberedFrom(ps, base, next)
    ensures UniqueKeys(ps)
  {
    forall i, j | 0 <= i < j < |ps| ensures ps[i].0 != ps[j].0 {
      if ps[i].0 == ps[j].0 {
        NameInjective(base + i, base + j);
      }
    }
  }

  /**
   * Copying a table numbered from m into one numbered up to m appends it: no
   * name is overwritten, and the result is numbered from the first base.
   */
  lemma {:induction false} NumberedExtend(p: seq<(string, Scalar)>, base: nat, c: seq<(string, Scalar)>, m: nat, n: nat)
    requires NumberedFrom(p, base, m) && NumberedFrom(c, m, n)
    ensures PutAll(p, c) == p + c
    ensures NumberedFrom(p + c, base, n)
  {
    NumberedConcat(p, base, c, m, n);
    if c == [] {
      assert p + c == p;
    } else {
      var front := c[..|c| - 1];
      var last := c[|c| - 1];
      NumberedFront(c, m, n);
      NumberedExtend(p, base, front, m, n - 1);
      var q := p + front;
      forall i | 0 <= i < |q| ensures q[i].0 != last.0 {
        if q[i].0 == last.0 {
          NameInjective(base + i, n - 1);
        }
      }
      PutAbsent(q, last.0, last.1);
      assert q + [last] == p + c;
    }
  }

  lemma NumberedFront(c: seq<(string, Scalar)>, m: nat, n: nat)
    requires c != [] && NumberedFrom(c, m, n)
    ensures NumberedFrom(c[..|c| - 1], m, n - 1) && c[|c| - 1].0 == Name(n - 1)
  {
    var front := c[..|c| - 1];
    forall i | 0 <= i < |front| ensures front[i].0 == Name(m + i) {
      assert front[i] == c[i];
    }
  }

  lemma NumberedConcat(p: seq<(string, Scalar)>, base: nat, c: seq<(string, Scalar)>, m: nat, n: nat)
    requires NumberedFrom(p, base, m) && NumberedFrom(c, m, n)
    ensures NumberedFrom(p + c, base, n)
  {
    var q := p + c;
    forall i | 0 <= i < |q| ensures q[i].0 == Name(base + i) {
      if i >= |p| {
        assert q[i] == c[i - |p|];
      }
    }
  }

  lemma CreateParameterNumbered(t: Table, v: Scalar, base: nat)
    requires Numbered(t, base)
    ensures Numbered(CreateParameter(t, v).1, base)
    ensures CreateParameter(t, v).1.parameters == t.parameters + [(Name(t.parameterIndex), v)]
  {
    var e := [(Name(t.parameterIndex), v)];
    NumberedExtend(t.parameters, base, e, t.parameterIndex, t.parameterIndex + 1);
    assert PutAll(t.parameters, e) == Put(t.parameters, e[0].0, e[0].1);
  }

  lemma PrepareValueNumbered(v: Value, t: Table, base: nat)
    requires (v.Scalar? || v.Raw?) && CleanValue(v) && Numbered(t, base)
    ensures Numbered(PrepareValue(v, t).1, base)
  {
    if v.Scalar? {
      CreateParameterNumbered(t, v.scalar, base);
    }
  }

  // ---------------------------------------------------------------------------
  // Rendering keeps tables numbered
  // ---------------------------------------------------------------------------

  lemma MergeSubSelectNumbered(s: Select, t: Table, base: nat)
    requires SelectOk(s) && CleanSelect(s) && Numbered(t, base)
    ensures Numbered(MergeSubSelect(s, t).1, base)
    decreases SizeSelect(s), 1
  {
    var c0 := Table(s.parameters, t.parameterIndex);
    RenderSelectNumbered(s, c0, t.parameterIndex);
    var child := RenderSelect(s, c0).1;
    NumberedExtend(t.parameters, base, child.parameters, t.parameterIndex, child.parameterIndex);
  }

  lemma RenderSelectNumbered(s: Select, t: Table, base: nat)
    requires SelectOk(s) && CleanSelect(s) && Numbered(t, base)
    ensures Numbered(RenderSelect(s, t).1, base)
    decreases SizeSelect(s), 0
  {
    SizeOfSelect(s);
    SizeOfInput(Terms(s.where));
    SizeOfInput(Terms(s.having));
    FieldTermsNumbered(s.fields, t, base);
    var t1 := PrepareFields(s.fields, t).1;
    UnionTextsNumbered(s.union, t1, base);
    var t2 := PrepareTable(s.table, s.union, s.unionAll, t1).1;
    PrepareJoinsNumbered(s.joins, t2, base);
    var t3 := PrepareJoins(s.joins, t2).1;
    PrepareWhereNumbered(Terms(s.where), true, InstructionWhere, t3, base);
    var t4 := PrepareWhere(Terms(s.where), true, InstructionWhere, t3).1;
    if s.having != [] {
      PrepareWhereNumbered(Terms(s.having), true, "", t4, base);
    }
  }

  lemma FieldTermsNumbered(items: seq<(Key, Value)>, t: Table, base: nat)
    requires FieldsOk(items) && CleanItems(items) && Numbered(t, base)
    ensures Numbered(FieldTerms(items, t).1, base)
    decreases SizeItems(items), 3
  {
    if items != [] {
      var front := items[..|items| - 1];
      var last := items[|items| - 1];
      assert FieldsOk(front) && CleanItems(front) by {
        forall i | 0 <= i < |front| ensures front[i] == items[i] { }
      }
      FieldTermsNumbered(front, t, base);
      FieldItemNumbered(last.0, last.1, FieldTerms(front, t).1, base);
    }
  }

  lemma FieldItemNumbered(k: Key, v: Value, t: Table, base: nat)
    requires FieldOk(v, k) && CleanValue(v) && Numbered(t, base)
    ensures Numbered(FieldItem(k, v, t).1, base)
    decreases SizeValue(v), 2
  {
    if !IsNumericKey(k) && v.Sub? {
      MergeSubSelectNumbered(v.select, t, base);
    }
  }

  lemma UnionTextsNumbered(us: seq<Option<Select>>, t: Table, base: nat)
    requires UnionOk(us) && CleanMembers(us) && Numbered(t, base)
    ensures Numbered(UnionTexts(us, t).1, base)
    decreases SizeMembers(us), 2
  {
    if us != [] {
      var front := us[..|us| - 1];
      assert UnionOk(front) && CleanMembers(front) by {
        forall i | 0 <= i < |front| ensures front[i] == us[i] { }
      }
      UnionTextsNumbered(front, t, base);
      MergeSubSelectNumbered(us[|us| - 1].value, UnionTexts(front, t).1, base);
    }
  }

  lemma PrepareJoinsNumbered(js: seq<Join>, t: Table, base: nat)
    requires JoinsOk(js) && CleanJoins(js) && Numbered(t, base)
    ensures Numbered(PrepareJoins(js, t).1, base)
    decreases SizeJoins(js), 3
  {
    if js != [] {
      var front := js[..|js| - 1];
      var last := js[|js| - 1];
      assert JoinsOk(front) && CleanJoins(front) by {
        forall i | 0 <= i < |front| ensures front[i] == js[i] { }
      }
      PrepareJoinsNumbered(front, t, base);
      var t1 := PrepareJoins(front, t).1;
      assert PrepareJoins(js, t).1 == JoinText(last, t1).1;
      if InputTruthy(last.on) {
        PrepareWhereNumbered(last.on, false, "", t1, base);
        assert JoinText(last, t1).1 == JoinOn(last.on, t1).1 == PrepareWhere(last.on, false, "", t1).1;
      } else {
        assert JoinText(last, t1).1 == t1;
      }
    }
  }

  lemma PrepareWhereNumbered(w: Input, bind: bool, prefix: string, t: Table, base: nat)
    requires InputOk(w) && CleanInput(w) && Numbered(t, base)
    ensures Numbered(PrepareWhere(w, bind, prefix, t).1, base)
    decreases SizeInput(w), 1
  {
    if w.Terms? && w.items != [] {
      SizeOfInput(w);
      WhereTermsNumbered(w.items, bind, t, base);
    }
  }

  lemma WhereTermsNumbered(items: seq<(Key, Value)>, bind: bool, t: Table, base: nat)
    requires TermsOk(items) && CleanItems(items) && Numbered(t, base)
    ensures Numbered(WhereTerms(items, bind, t).1, base)
    decreases SizeItems(items), 3
  {
    if items != [] {
      var front := items[..|items| - 1];
      var last := items[|items| - 1];
      assert TermsOk(front) && CleanItems(front) by {
        forall i | 0 <= i < |front| ensures front[i] == items[i] { }
      }
      WhereTermsNumbered(front, bind, t, base);
      WhereItemNumbered(last.0.name, last.1, bind, WhereTerms(front, bind, t).1, base);
    }
  }

  lemma {:induction false} WhereItemNumbered(key: string, v: Value, bind: bool, t: Table, base: nat)
    requires WhereValueOk(v) && CleanValue(v) && Numbered(t, base)
    ensures Numbered(WhereItem(key, v, bind, t).1, base)
    decreases SizeValue(v), 2
  {
    if v.Nested? {
      SizeOfValue(v);
      InListNumbered(v.items, t, base);
      assert WhereItem(key, v, bind, t).1 == InList(v.items, t).2;
    } else if v.Sub? {
      MergeSubSelectNumbered(v.select, t, base);
      assert WhereItem(key, v, bind, t).1 == MergeSubSelect(v.select, t).1;
    } else if (IsNumeric(key) && v.Scalar? && v.scalar.Str?) || v == Scalar(Null) || !bind {
      assert WhereItem(key, v, bind, t).1 == t;
    } else {
      PrepareValueNumbered(v, t, base);
      assert WhereItem(key, v, bind, t).1 == PrepareValue(v, t).1;
    }
  }

  lemma InListNumbered(vs: seq<(Key, Value)>, t: Table, base: nat)
    requires InListOk(vs) && CleanItems(vs) && Numbered(t, base)
    ensures Numbered(InList(vs, t).2, base)
    decreases SizeItems(vs), 3
  {
    if vs != [] {
      var front := vs[..|vs| - 1];
      var last := vs[|vs| - 1].1;
      InListFront(vs);
      HasSubSplit(vs);
      assert CleanItems(front) by {
        forall i | 0 <= i < |front| ensures front[i] == vs[i] { }
      }
      InListNumbered(front, t, base);
      var r := InList(front, t);
      if r.1.None? {
        InListLast(vs);
        if last.Sub? {
          MergeSubSelectNumbered(last.select, r.2, base);
        } else {
          CreateParameterNumbered(r.2, last.scalar, base);
        }
      }
    }
  }

  // ---------------------------------------------------------------------------
  // Consequences
  // ---------------------------------------------------------------------------

  /**
   * A select rendered from an empty table binds exactly `:p0` ... `:p<n-1>`, in
   * allocation order, pairwise distinct, where n is the final counter; this covers
   * the placeholders of every sub-select merged into it.
   */
  lemma SelectPlaceholdersDistinct(s: Select)
    requires SelectOk(s) && CleanSelect(s)
    ensures var r := RenderSelect(s, Table([], 0)).1;
      |r.parameters| == r.parameterIndex
      && (forall i :: 0 <= i < |r.parameters| ==> r.parameters[i].0 == Name(i))
      && UniqueKeys(r.parameters)
  {
    RenderSelectNumbered(s, Table([], 0), 0);
    var r := RenderSelect(s, Table([], 0)).1;
    NumberedUnique(r.parameters, 0, r.parameterIndex);
  }

  /**
   * `mergeSubSelect` of a child without parameters of its own appends the child's
   * placeholders after the parent's: the earlier entries are kept unchanged, every
   * new name is numbered at or above the parent's counter before the merge, and so
   * it differs from every name the parent had already allocated.
   */
  lemma MergeAppendsFreshNames(s: Select, t: Table, base: nat)
    requires SelectOk(s) && CleanSelect(s) && Numbered(t, base)
    ensures AppendsFresh(t.parameters, MergeSubSelect(s, t).1.parameters, t.parameterIndex)
  {
    var c0 := Table(s.parameters, t.parameterIndex);
    RenderSelectNumbered(s, c0, t.parameterIndex);
    var child := RenderSelect(s, c0).1;
    assert MergeSubSelect(s, t).1.parameters == PutAll(t.parameters, child.parameters);
    AppendFresh(t.parameters, base, child.parameters, t.parameterIndex, child.parameterIndex);
  }

  /**
   * ps extends p: p's entries are kept, the new entries are numbered from m on,
   * and no new name equals an old one.
   */
  predicate AppendsFresh(p: seq<(string, Scalar)>, ps: seq<(string, Scalar)>, m: nat) {
    && |ps| >= |p| && ps[..|p|] == p
    && (forall i :: |p| <= i < |ps| ==> ps[i].0 == Name(m + i - |p|))
    && (forall i, j :: 0 <= i < |p| <= j < |ps| ==> ps[i].0 != ps[j].0)
  }

  lemma AppendFresh(p: seq<(string, Scalar)>, base: nat, c: seq<(string, Scalar)>, m: nat, n: nat)
    requires NumberedFrom(p, base, m) && NumberedFrom(c, m, n)
    ensures AppendsFresh(p, PutAll(p, c), m)
  {
    NumberedExtend(p, base, c, m, n);
    NumberedUnique(p + c, base, n);
    assert (p + c)[..|p|] == p;
  }
}
