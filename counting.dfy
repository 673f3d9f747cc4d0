/**
 * How many placeholders a select allocates, read off its clauses without rendering
 * it. The binding rules are those of the renderer:
 * - a scalar term of WHERE or HAVING binds one value, except a null and a string
 *   under a numeric key;
 * - an IN list binds its scalars up to its first sub-select, whatever the
 *   `prepareValue` flag says, and then that sub-select's own placeholders;
 * - a sub-select, in any clause, binds what it binds on its own;
 * - a projection binds only through its sub-selects;
 * - a join's ON predicate is rendered unbound, so its plain scalars bind nothing.
 * The renderer's counter advances by exactly this number, so a select without
 * parameters of its own, rendered from an empty table, binds `:p0` ... `:p<n-1>`
 * with n this number.
 */
module Counting {
  import opened Php
  import opened RawSql
  import opened Values
  import opened Render
  import opened Numbering

  function BoundCount(s: Select): nat
    decreases SizeSelect(s), 2
  {
    SizeOfSelect(s);
    FieldsCount(s.fields) + MembersCount(s.union) + JoinsCount(s.joins)
      + TermsCount(s.where, true) + TermsCount(s.having, true)
  }

  function FieldsCount(items: seq<(Key, Value)>): nat
    decreases SizeItems(items), 1
  {
    if items == [] then 0
    else FieldsCount(items[..|items| - 1]) + FieldCount(items[|items| - 1].0, items[|items| - 1].1)
  }

  /** A projected field binds only when it is a keyed sub-select. */
  function FieldCount(k: Key, v: Value): nat
    decreases SizeValue(v), 0
  {
    if !IsNumericKey(k) && v.Sub? then BoundCount(v.select) else 0
  }

  function MembersCount(us: seq<Option<Select>>): nat
    decreases SizeMembers(us), 1
  {
    if us == [] then 0
    else MembersCount(us[..|us| - 1]) + (if us[|us| - 1].Some? then BoundCount(us[|us| - 1].value) else 0)
  }

  function JoinsCount(js: seq<Join>): nat
    decreases SizeJoins(js), 1
  {
    if js == [] then 0
    else
      SizeOfInput(js[|js| - 1].on);
      JoinsCount(js[..|js| - 1]) + InputCount(js[|js| - 1].on, false)
  }

  /** A raw string predicate binds nothing; a collection binds through its terms. */
  function InputCount(w: Input, bind: bool): nat
    decreases SizeInput(w), 0
  {
    if w.Terms? then SizeOfInput(w); TermsCount(w.items, bind) else 0
  }

  function TermsCount(items: seq<(Key, Value)>, bind: bool): nat
    decreases SizeItems(items), 1
  {
    if items == [] then 0
    else TermsCount(items[..|items| - 1], bind) + TermCount(items[|items| - 1].0, items[|items| - 1].1, bind)
  }

  function TermCount(k: Key, v: Value, bind: bool): nat
    decreases SizeValue(v), 0
  {
    if v.Nested? then SizeOfValue(v); InCount(v.items)
    else if v.Sub? then BoundCount(v.select)
    else if bind && v.Scalar? && v.scalar != Null && !(k.Named? && IsNumeric(k.name) && v.scalar.Str?) then 1
    else 0
  }

  /** An IN list: one per element up to the first sub-select, then that sub-select's count. */
  function InCount(vs: seq<(Key, Value)>): nat
    decreases SizeItems(vs), 1
  {
    if vs == [] then 0
    else
      var front := vs[..|vs| - 1];
      var last := vs[|vs| - 1].1;
      if HasSub(front) then InCount(front)
      else InCount(front) + (if last.Sub? then BoundCount(last.select) else 1)
  }

  // ---------------------------------------------------------------------------
  // The renderer's counter advances by the count
  // ---------------------------------------------------------------------------

  lemma RenderSelectCount(s: Select, t: Table)
    requires SelectOk(s)
    ensures RenderSelect(s, t).1.parameterIndex == t.parameterIndex + BoundCount(s)
    decreases SizeSelect(s), 0
  {
    SizeOfSelect(s);
    SizeOfInput(Terms(s.where));
    SizeOfInput(Terms(s.having));
    FieldTermsCount(s.fields, t);
    var t1 := PrepareFields(s.fields, t).1;
    UnionTextsCount(s.union, t1);
    var t2 := PrepareTable(s.table, s.union, s.unionAll, t1).1;
    assert t2 == UnionTexts(s.union, t1).1;
    PrepareJoinsCount(s.joins, t2);
    var t3 := PrepareJoins(s.joins, t2).1;
    PrepareWhereCount(Terms(s.where), true, InstructionWhere, t3);
    var t4 := PrepareWhere(Terms(s.where), true, InstructionWhere, t3).1;
    PrepareWhereCount(Terms(s.having), true, "", t4);
  }

  lemma MergeSubSelectCount(s: Select, t: Table)
    requires SelectOk(s)
    ensures MergeSubSelect(s, t).1.parameterIndex == t.parameterIndex + BoundCount(s)
    decreases SizeSelect(s), 1
  {
    RenderSelectCount(s, Table(s.parameters, t.parameterIndex));
  }

  lemma FieldTermsCount(items: seq<(Key, Value)>, t: Table)
    requires FieldsOk(items)
    ensures FieldTerms(items, t).1.parameterIndex == t.parameterIndex + FieldsCount(items)
    decreases SizeItems(items), 3
  {
    if items != [] {
      var front := items[..|items| - 1];
      var last := items[|items| - 1];
      assert FieldsOk(front) by {
        forall i | 0 <= i < |front| ensures front[i] == items[i] { }
      }
      FieldTermsCount(front, t);
      FieldItemCount(last.0, last.1, FieldTerms(front, t).1);
    }
  }

  lemma FieldItemCount(k: Key, v: Value, t: Table)
    requires FieldOk(v, k)
    ensures FieldItem(k, v, t).1.parameterIndex == t.parameterIndex + FieldCount(k, v)
    decreases SizeValue(v), 2
  {
    if !IsNumericKey(k) && v.Sub? {
      MergeSubSelectCount(v.select, t);
    }
  }

  lemma UnionTextsCount(us: seq<Option<Select>>, t: Table)
    requires UnionOk(us)
    ensures UnionTexts(us, t).1.parameterIndex == t.parameterIndex + MembersCount(us)
    decreases SizeMembers(us), 2
  {
    if us != [] {
      var front := us[..|us| - 1];
      assert UnionOk(front) by {
        forall i | 0 <= i < |front| ensures front[i] == us[i] { }
      }
      UnionTextsCount(front, t);
      MergeSubSelectCount(us[|us| - 1].value, UnionTexts(front, t).1);
    }
  }

  lemma PrepareJoinsCount(js: seq<Join>, t: Table)
    requires JoinsOk(js)
    ensures PrepareJoins(js, t).1.parameterIndex == t.parameterIndex + JoinsCount(js)
    decreases SizeJoins(js), 3
  {
    if js != [] {
      var front := js[..|js| - 1];
      var last := js[|js| - 1];
      assert JoinsOk(front) by {
        forall i | 0 <= i < |front| ensures front[i] == js[i] { }
      }
      PrepareJoinsCount(front, t);
      var t1 := PrepareJoins(front, t).1;
      assert PrepareJoins(js, t).1 == JoinText(last, t1).1;
      PrepareWhereCount(last.on, false, "", t1);
      if InputTruthy(last.on) {
        assert JoinText(last, t1).1 == PrepareWhere(last.on, false, "", t1).1;
      } else {
        assert JoinText(last, t1).1 == t1;
      }
    }
  }

  lemma PrepareWhereCount(w: Input, bind: bool, prefix: string, t: Table)
    requires InputOk(w)
    ensures PrepareWhere(w, bind, prefix, t).1.parameterIndex == t.parameterIndex + InputCount(w, bind)
    decreases SizeInput(w), 1
  {
    if w.Terms? && w.items != [] {
      SizeOfInput(w);
      WhereTermsCount(w.items, bind, t);
    }
  }

  lemma WhereTermsCount(items: seq<(Key, Value)>, bind: bool, t: Table)
    requires TermsOk(items)
    ensures WhereTerms(items, bind, t).1.parameterIndex == t.parameterIndex + TermsCount(items, bind)
    decreases SizeItems(items), 3
  {
    if items != [] {
      var front := items[..|items| - 1];
      var last := items[|items| - 1];
      assert TermsOk(front) by {
        forall i | 0 <= i < |front| ensures front[i] == items[i] { }
      }
      WhereTermsCount(front, bind, t);
      WhereItemCount(last.0, last.1, bind, WhereTerms(front, bind, t).1);
    }
  }

  lemma {:induction false} WhereItemCount(k: Key, v: Value, bind: bool, t: Table)
    requires k.Named? && WhereValueOk(v)
    ensures WhereItem(k.name, v, bind, t).1.parameterIndex == t.parameterIndex + TermCount(k, v, bind)
    decreases SizeValue(v), 2
  {
    if v.Nested? {
      SizeOfValue(v);
      InListCount(v.items, t);
      assert WhereItem(k.name, v, bind, t).1 == InList(v.items, t).2;
    } else if v.Sub? {
      MergeSubSelectCount(v.select, t);
      assert WhereItem(k.name, v, bind, t).1 == MergeSubSelect(v.select, t).1;
    } else if (IsNumeric(k.name) && v.Scalar? && v.scalar.Str?) || v == Scalar(Null) || !bind {
      assert WhereItem(k.name, v, bind, t).1 == t;
    } else {
      assert WhereItem(k.name, v, bind, t).1 == PrepareValue(v, t).1;
    }
  }

  lemma InListCount(vs: seq<(Key, Value)>, t: Table)
    requires InListOk(vs)
    ensures InList(vs, t).2.parameterIndex == t.parameterIndex + InCount(vs)
    decreases SizeItems(vs), 3
  {
    if vs != [] {
      var front := vs[..|vs| - 1];
      var last := vs[|vs| - 1].1;
      InListFront(vs);
      HasSubSplit(vs);
      InListCount(front, t);
      var r := InList(front, t);
      if r.1.None? {
        InListLast(vs);
        if last.Sub? {
          MergeSubSelectCount(last.select, r.2);
        }
      }
    }
  }

  // ---------------------------------------------------------------------------
  // Consequences
  // ---------------------------------------------------------------------------

  /**
   * A select without parameters of its own, rendered from an empty table, binds
   * exactly BoundCount(s) values, named `:p0` ... in allocation order.
   */
  lemma SelectBindsBoundCount(s: Select)
    requires SelectOk(s) && CleanSelect(s)
    ensures var r := RenderSelect(s, Table([], 0)).1;
      && |r.parameters| == r.parameterIndex == BoundCount(s)
      && forall i :: 0 <= i < BoundCount(s) ==> r.parameters[i].0 == Name(i)
  {
    var r := RenderSelect(s, Table([], 0)).1;
    RenderSelectCount(s, Table([], 0));
    assert r.parameterIndex == BoundCount(s);
    SelectPlaceholdersDistinct(s);
    assert |r.parameters| == BoundCount(s);
  }

  /** The scalars of a join's ON predicate bind nothing: only its IN lists and sub-selects do. */
  lemma OnScalarsUnbound(k: Key, x: Scalar)
    ensures InputCount(Terms([(k, Scalar(x))]), false) == 0
    ensures x != Null && !(k.Named? && IsNumeric(k.name) && x.Str?) ==> InputCount(Terms([(k, Scalar(x))]), true) == 1
  {
    var items := [(k, Scalar(x))];
    assert items[..0] == [];
    assert TermsCount(items, false) == TermCount(k, Scalar(x), false) == 0;
    assert TermsCount(items, true) == TermCount(k, Scalar(x), true);
  }
}
