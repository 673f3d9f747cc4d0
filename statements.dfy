/**
 * The mutable builders: the clause mutator `mergeValues` and the frozen-once-rendered
 * guard `validateRuntime` of `WhereTrait` and `AbstractStatement`, the join lists of
 * `JoinsTrait`, and the `SelectStatement`, `UpdateStatement` and `DeleteStatement`
 * classes with their setters and their memoising `__toString`.
 */
module Statements {
  import opened Php
  import opened RawSql
  import opened Values
  import opened Render
  import opened Compiler

  /** What a guarded mutator does: its work, or the RuntimeException of a frozen statement. */
  datatype Outcome = Done | Frozen

  /** A statement is frozen once its memoised text is set (PHP-truthy). */
  predicate IsFrozen(query: Option<string>) {
    query.Some? && Truthy(query.value)
  }

  /** `validateRuntime`. */
  function ValidateRuntime(query: Option<string>): (r: Outcome)
    ensures query.None? || query == Some("") || query == Some("0") ==> r == Done
    ensures query.Some? && |query.value| > 1 ==> r == Frozen
  {
    if IsFrozen(query) then Frozen else Done
  }

  // ---------------------------------------------------------------------------
  // mergeValues
  // ---------------------------------------------------------------------------

  /**
   * `mergeValues` on a statement that is not frozen: an empty argument resets the
   * list; a string is appended under the next integer key; a collection is copied
   * in entry by entry, overwriting existing keys in place.
   */
  function MergeValues(list: seq<(Key, Value)>, values: Input): (r: seq<(Key, Value)>)
    ensures r == [] || (|list| <= |r| && forall i :: 0 <= i < |list| ==> r[i].0 == list[i].0)
  {
    match values
    case Nothing => []
    case Text(s) => if Truthy(s) then list + [(Pos(NextIndex(list)), Scalar(Str(s)))] else []
    case Terms(items) => if items == [] then [] else PutAllKeepsKeys(list, items); PutAll(list, items)
  }

  /** An empty argument (null, "", "0" or []) resets the list, whatever it held. */
  lemma MergeValuesResets(list: seq<(Key, Value)>, values: Input)
    ensures !InputTruthy(values) <==> MergeValues(list, values) == [] && !(values.Text? && Truthy(values.text))
  {
    if values.Terms? && values.items != [] {
      assert |PutAll(list, values.items)| >= 1 by {
        PutAllSize(list, values.items);
      }
    }
  }

  /** A non-empty string keeps every entry and adds one under an integer key none of them has. */
  lemma MergeValuesAppends(list: seq<(Key, Value)>, s: string)
    requires Truthy(s)
    ensures var r := MergeValues(list, Text(s));
      && |r| == |list| + 1 && r[..|list|] == list
      && r[|list|].0.Pos? && r[|list|].1 == Scalar(Str(s))
      && forall i :: 0 <= i < |list| ==> list[i].0 != r[|list|].0
  {
    var r := MergeValues(list, Text(s));
    assert r[..|list|] == list;
  }

  /**
   * A collection overwrites: each key it names ends up holding its (last) value
   * there, every other key keeps its value, existing keys keep their position and
   * keys stay distinct.
   */
  lemma MergeValuesOverwrites(list: seq<(Key, Value)>, items: seq<(Key, Value)>, k: Key)
    requires items != []
    ensures var r := MergeValues(list, Terms(items));
      && Lookup(r, k) == (if LastLookup(items, k).Some? then LastLookup(items, k) else Lookup(list, k))
      && |r| >= |list| && (forall i :: 0 <= i < |list| ==> r[i].0 == list[i].0)
      && (UniqueKeys(list) ==> UniqueKeys(r))
  {
    LookupPutAll(list, items, k);
    PutAllKeepsKeys(list, items);
    if UniqueKeys(list) {
      PutAllUnique(list, items);
    }
  }

  lemma {:induction false} PutAllSize(m: seq<(Key, Value)>, c: seq<(Key, Value)>)
    requires c != []
    ensures |PutAll(m, c)| >= 1
  {
  }

  /** `mergeValues`: the guard, then the reset, the append or the key-by-key copy loop. */
  method MergeInto(query: Option<string>, list: seq<(Key, Value)>, values: Input)
    returns (outcome: Outcome, r: seq<(Key, Value)>)
    ensures outcome == Frozen <==> IsFrozen(query)
    ensures outcome == Done ==> r == MergeValues(list, values)
  {
    outcome := ValidateRuntime(query);
    if outcome == Frozen {
      return outcome, list;
    }
    if !InputTruthy(values) {
      return Done, [];
    }
    if values.Text? {
      return Done, list + [(Pos(NextIndex(list)), Scalar(Str(values.text)))];
    }
    var items := values.items;
    r := list;
    var i := 0;
    while i < |items|
      invariant 0 <= i <= |items|
      invariant r == PutAll(list, items[..i])
    {
      assert items[..i + 1][..i] == items[..i];
      r := Put(r, items[i].0, items[i].1);
      i := i + 1;
    }
    assert items[..i] == items;
  }

  // ---------------------------------------------------------------------------
  // JoinsTrait
  // ---------------------------------------------------------------------------

  /** The self-join and join lists of a statement. Their mutators never check the guard. */
  class JoinList {
    var selfJoins: seq<Option<string>>
    var joins: seq<Join>

    constructor ()
      ensures selfJoins == [] && joins == []
    {
      selfJoins := [];
      joins := [];
    }

    /** `selfJoin`: null clears the list and is then appended all the same. */
    method SelfJoin(join: Option<string>)
      modifies this
      ensures selfJoins == (if join.None? then [] else old(selfJoins)) + [join]
      ensures joins == old(joins)
    {
      if join.None? {
        selfJoins := [];
      }
      selfJoins := selfJoins + [join];
    }

    method InnerJoin(target: string, on: Input)
      modifies this
      ensures joins == old(joins) + [Join(Inner, target, on)] && selfJoins == old(selfJoins)
    {
      joins := joins + [Join(Inner, target, on)];
    }

    method LeftJoin(target: string, on: Input)
      modifies this
      ensures joins == old(joins) + [Join(Left, target, on)] && selfJoins == old(selfJoins)
    {
      joins := joins + [Join(Left, target, on)];
    }

    method RightJoin(target: string, on: Input)
      modifies this
      ensures joins == old(joins) + [Join(Right, target, on)] && selfJoins == old(selfJoins)
    {
      joins := joins + [Join(Right, target, on)];
    }

    method FullJoin(target: string, on: Input)
      modifies this
      ensures joins == old(joins) + [Join(Full, target, on)] && selfJoins == old(selfJoins)
    {
      joins := joins + [Join(Full, target, on)];
    }

    method FullOuterJoin(target: string, on: Input)
      modifies this
      ensures joins == old(joins) + [Join(FullOuter, target, on)] && selfJoins == old(selfJoins)
    {
      joins := joins + [Join(FullOuter, target, on)];
    }
  }

  // ---------------------------------------------------------------------------
  // SelectStatement
  // ---------------------------------------------------------------------------

  class SelectStatement {
    const table: string
    var fields: seq<(Key, Value)>
    var into: Option<string>
    var where: seq<(Key, Value)>
    var groupBy: seq<(Key, Value)>
    var having: seq<(Key, Value)>
    var orderBy: seq<(Key, Value)>
    var limit: Option<Limit>
    var page: Option<int>
    var union: seq<Option<Select>>
    var unionAll: bool
    var query: Option<string>
    const joinList: JoinList
    const placeholders: Placeholders

    /** The statement's whole state, as the value a parent renders it from. */
    function Snapshot(): Select
      reads this, joinList, placeholders
    {
      Select(table, fields, into, where, groupBy, having, orderBy, limit, page, union, unionAll,
             joinList.selfJoins, joinList.joins, placeholders.parameters, placeholders.parameterIndex, query)
    }

    /** The constructor runs each argument through its setter on an empty statement. */
    constructor (table: string, fields: Input, into: Option<string>, where: Input, group: Input,
                 having: Input, order: Input, limit: Option<Limit>, page: Option<int>)
      ensures fresh(joinList) && fresh(placeholders)
      ensures Snapshot() == Select(table, MergeValues([], fields), into, MergeValues([], where),
                                   MergeValues([], group), MergeValues([], having), MergeValues([], order),
                                   limit, page, [], false, [], [], [], 0, None)
    {
      var _, f := MergeInto(None, [], fields);
      var _, w := MergeInto(None, [], where);
      var _, g := MergeInto(None, [], group);
      var _, h := MergeInto(None, [], having);
      var _, o := MergeInto(None, [], order);
      this.table := table;
      this.fields := f;
      this.into := into;
      this.where := w;
      this.groupBy := g;
      this.having := h;
      this.orderBy := o;
      this.limit := limit;
      this.page := page;
      this.union := [];
      this.unionAll := false;
      this.query := None;
      joinList := new JoinList();
      placeholders := new Placeholders([], 0);
    }

    /** `__toString`: the memo once set; otherwise a render that allocates and is memoised. */
    method ToString() returns (text: string)
      requires SelectOk(Snapshot())
      modifies this, placeholders
      ensures text == SelectText(old(Snapshot()))
      ensures IsFrozen(query) && query == Some(text)
      ensures IsFrozen(old(query)) ==> Snapshot() == old(Snapshot())
      ensures !IsFrozen(old(query)) ==>
        (text, placeholders.State()) == RenderSelect(old(Snapshot()), old(placeholders.State()))
        && Snapshot() == old(Snapshot()).(query := Some(text), parameters := placeholders.parameters,
                                          parameterIndex := placeholders.parameterIndex)
    {
      if IsFrozen(query) {
        return query.value;
      }
      var s := Snapshot();
      text := placeholders.RenderSelect(s);
      RenderSelectFreezes(s, old(placeholders.State()));
      query := Some(text);
    }

    /** `union`: guarded; null resets the list and is then appended all the same. */
    method Union(member: Option<Select>) returns (outcome: Outcome)
      modifies this
      ensures outcome == ValidateRuntime(old(query))
      ensures Snapshot() == if outcome == Frozen then old(Snapshot())
        else old(Snapshot()).(union := (if member.None? then [] else old(union)) + [member])
    {
      outcome := ValidateRuntime(query);
      if outcome == Frozen {
        return;
      }
      if member.None? {
        union := [];
      }
      union := union + [member];
    }

    method SetUnionAll(unionAll: bool) returns (outcome: Outcome)
      modifies this
      ensures outcome == ValidateRuntime(old(query))
      ensures Snapshot() == if outcome == Frozen then old(Snapshot()) else old(Snapshot()).(unionAll := unionAll)
    {
      outcome := ValidateRuntime(query);
      if outcome == Done {
        this.unionAll := unionAll;
      }
    }

    method SetInto(into: Option<string>) returns (outcome: Outcome)
      modifies this
      ensures outcome == ValidateRuntime(old(query))
      ensures Snapshot() == if outcome == Frozen then old(Snapshot()) else old(Snapshot()).(into := into)
    {
      outcome := ValidateRuntime(query);
      if outcome == Done {
        this.into := into;
      }
    }

    method SetLimit(limit: Option<Limit>) returns (outcome: Outcome)
      modifies this
      ensures outcome == ValidateRuntime(old(query))
      ensures Snapshot() == if outcome == Frozen then old(Snapshot()) else old(Snapshot()).(limit := limit)
    {
      outcome := ValidateRuntime(query);
      if outcome == Done {
        this.limit := limit;
      }
    }

    method SetPage(page: Option<int>) returns (outcome: Outcome)
      modifies this
      ensures outcome == ValidateRuntime(old(query))
      ensures Snapshot() == if outcome == Frozen then old(Snapshot()) else old(Snapshot()).(page := page)
    {
      outcome := ValidateRuntime(query);
      if outcome == Done {
        this.page := page;
      }
    }

    method Fields(values: Input) returns (outcome: Outcome)
      modifies this
      ensures outcome == ValidateRuntime(old(query))
      ensures Snapshot() == if outcome == Frozen then old(Snapshot())
        else old(Snapshot()).(fields := MergeValues(old(fields), values))
    {
      var r;
      outcome, r := MergeInto(query, fields, values);
      if outcome == Done {
        fields := r;
      }
    }

    method Where(values: Input) returns (outcome: Outcome)
      modifies this
      ensures outcome == ValidateRuntime(old(query))
      ensures Snapshot() == if outcome == Frozen then old(Snapshot())
        else old(Snapshot()).(where := MergeValues(old(where), values))
    {
      var r;
      outcome, r := MergeInto(query, where, values);
      if outcome == Done {
        where := r;
      }
    }

    method GroupBy(values: Input) returns (outcome: Outcome)
      modifies this
      ensures outcome == ValidateRuntime(old(query))
      ensures Snapshot() == if outcome == Frozen then old(Snapshot())
        else old(Snapshot()).(groupBy := MergeValues(old(groupBy), values))
    {
      var r;
      outcome, r := MergeInto(query, groupBy, values);
      if outcome == Done {
        groupBy := r;
      }
    }

    method Having(values: Input) returns (outcome: Outcome)
      modifies this
      ensures outcome == ValidateRuntime(old(query))
      ensures Snapshot() == if outcome == Frozen then old(Snapshot())
        else old(Snapshot()).(having := MergeValues(old(having), values))
    {
      var r;
      outcome, r := MergeInto(query, having, values);
      if outcome == Done {
        having := r;
      }
    }

    method OrderBy(values: Input) returns (outcome: Outcome)
      modifies this
      ensures outcome == ValidateRuntime(old(query))
      ensures Snapshot() == if outcome == Frozen then old(Snapshot())
        else old(Snapshot()).(orderBy := MergeValues(old(orderBy), values))
    {
      var r;
      outcome, r := MergeInto(query, orderBy, values);
      if outcome == Done {
        orderBy := r;
      }
    }
  }

  /** A rendered select is frozen: its text is never empty nor "0". */
  lemma RenderSelectFreezes(s: Select, t: Table)
    requires SelectOk(s)
    ensures IsFrozen(Some(RenderSelect(s, t).0))
  {
  }

  /** Rendering a memoised select again gives its memo: a second `__toString` changes nothing. */
  lemma SelectTextMemo(s: Select)
    requires SelectOk(s)
    ensures SelectText(s.(query := Some(SelectText(s)))) == SelectText(s)
  {
    if !IsFrozen(s.query) {
      RenderSelectFreezes(s, Table(s.parameters, s.parameterIndex));
    }
  }

  // ---------------------------------------------------------------------------
  // UpdateStatement
  // ---------------------------------------------------------------------------

  /** A SET entry renders without a TypeError: a string key, a sub-select or a bindable value. */
  predicate SetOk(item: (Key, Value)) {
    item.0.Named? && (if item.1.Sub? then SelectOk(item.1.select) else item.1.Scalar? || item.1.Raw?)
  }

  predicate SetsOk(items: seq<(Key, Value)>) {
    forall i :: 0 <= i < |items| ==> SetOk(items[i])
  }

  /** One SET entry: `key=(sub)` for a sub-select, else `key=` and the bound value. */
  function SetItem(item: (Key, Value), t: Table): (r: (string, Table))
    requires SetOk(item)
  {
    if item.1.Sub? then
      var (sub, t1) := Render.MergeSubSelect(item.1.select, t);
      (PrepareKey(item.0.name) + "=(" + sub + ")", t1)
    else
      var (value, t1) := Render.PrepareValue(item.1, t);
      (PrepareKey(item.0.name) + "=" + value, t1)
  }

  function SetTerms(items: seq<(Key, Value)>, t: Table): (r: (seq<string>, Table))
    requires SetsOk(items)
    ensures |r.0| == |items|
  {
    if items == [] then ([], t)
    else
      var (terms, t1) := SetTerms(items[..|items| - 1], t);
      var (term, t2) := SetItem(items[|items| - 1], t1);
      (terms + [term], t2)
  }

  /** The UPDATE template. */
  function RenderUpdate(table: string, selfJoins: seq<Option<string>>, joins: seq<Join>,
                        sets: seq<(Key, Value)>, where: seq<(Key, Value)>, t: Table): (r: (string, Table))
    requires JoinsOk(joins) && SetsOk(sets) && TermsOk(where)
    ensures var head := "UPDATE " + PrepareKey(table);
      |r.0| > |head| && r.0[..|head|] == head && r.0[|r.0| - 1] == ';'
  {
    var (joinText, t1) := Render.PrepareJoins(joins, t);
    var (terms, t2) := SetTerms(sets, t1);
    var (whereText, t3) := Render.PrepareWhere(Terms(where), true, "", t2);
    ("UPDATE " + PrepareKey(table) + PrepareSelfJoins(selfJoins) + joinText + " \r\nSET "
       + Implode(",", terms) + " \r\nWHERE " + whereText + ";", t3)
  }

  class UpdateStatement {
    const table: string
    const sets: seq<(Key, Value)>
    var where: seq<(Key, Value)>
    var query: Option<string>
    const joinList: JoinList
    const placeholders: Placeholders

    constructor (table: string, sets: seq<(Key, Value)>, where: Input)
      ensures fresh(joinList) && fresh(placeholders)
      ensures this.table == table && this.sets == sets && this.where == MergeValues([], where)
      ensures query == None && joinList.selfJoins == [] && joinList.joins == []
      ensures placeholders.State() == Table([], 0)
    {
      var _, w := MergeInto(None, [], where);
      this.table := table;
      this.sets := sets;
      this.where := w;
      query := None;
      joinList := new JoinList();
      placeholders := new Placeholders([], 0);
    }

    method Where(values: Input) returns (outcome: Outcome)
      modifies this
      ensures outcome == ValidateRuntime(old(query))
      ensures where == if outcome == Frozen then old(where) else MergeValues(old(where), values)
      ensures query == old(query)
    {
      var r;
      outcome, r := MergeInto(query, where, values);
      if outcome == Done {
        where := r;
      }
    }

    /** One iteration of `prepareSets`. */
    method SetEntry(item: (Key, Value)) returns (term: string)
      requires SetOk(item)
      modifies placeholders
      ensures (term, placeholders.State()) == SetItem(item, old(placeholders.State()))
    {
      var key := PrepareKey(item.0.name);
      if item.1.Sub? {
        var sub, _ := placeholders.MergeSubSelect(item.1.select);
        term := key + "=(" + sub + ")";
      } else {
        var value := placeholders.PrepareValue(item.1);
        term := key + "=" + value;
      }
    }

    /** `prepareSets`. */
    method PrepareSets() returns (text: string)
      requires SetsOk(sets)
      modifies placeholders
      ensures var (terms, t) := SetTerms(sets, old(placeholders.State()));
        text == Implode(",", terms) && placeholders.State() == t
    {
      var terms: seq<string> := [];
      var i := 0;
      while i < |sets|
        invariant 0 <= i <= |sets|
        invariant terms == SetTerms(sets[..i], old(placeholders.State())).0
        invariant placeholders.State() == SetTerms(sets[..i], old(placeholders.State())).1
      {
        assert sets[..i + 1][..i] == sets[..i] && sets[..i + 1][i] == sets[i];
        var term := SetEntry(sets[i]);
        ghost var next := SetTerms(sets[..i + 1], old(placeholders.State()));
        assert next.0 == terms + [term] && next.1 == placeholders.State();
        terms := terms + [term];
        i := i + 1;
      }
      assert sets[..i] == sets;
      text := Implode(",", terms);
    }

    /** `__toString`: memoised. */
    method ToString() returns (text: string)
      requires JoinsOk(joinList.joins) && SetsOk(sets) && TermsOk(where)
      modifies this, placeholders
      ensures IsFrozen(old(query)) ==> text == old(query).value && placeholders.State() == old(placeholders.State())
      ensures !IsFrozen(old(query)) ==>
        (text, placeholders.State()) == RenderUpdate(table, joinList.selfJoins, joinList.joins, sets, old(where),
                                                     old(placeholders.State()))
      ensures IsFrozen(query) && query == Some(text) && where == old(where)
    {
      if IsFrozen(query) {
        return query.value;
      }
      var joinText := placeholders.PrepareJoins(joinList.joins);
      var setText := PrepareSets();
      var whereText := placeholders.PrepareWhere(Terms(where), true, "");
      text := "UPDATE " + PrepareKey(table) + PrepareSelfJoins(joinList.selfJoins) + joinText + " \r\nSET "
        + setText + " \r\nWHERE " + whereText + ";";
      assert |text| > 1;
      query := Some(text);
    }
  }

  // ---------------------------------------------------------------------------
  // DeleteStatement
  // ---------------------------------------------------------------------------

  /** The DELETE template. */
  function RenderDelete(table: string, where: seq<(Key, Value)>, t: Table): (r: (string, Table))
    requires TermsOk(where)
    ensures var head := "DELETE FROM " + PrepareKey(table) + " \r\nWHERE ";
      |r.0| > |head| && r.0[..|head|] == head && r.0[|r.0| - 1] == ';'
    ensures r.1.parameterIndex >= t.parameterIndex
    ensures where == [] ==> r.1 == t
  {
    var (whereText, t1) := Render.PrepareWhere(Terms(where), true, "", t);
    ("DELETE FROM " + PrepareKey(table) + " \r\nWHERE " + whereText + ";", t1)
  }

  class DeleteStatement {
    const table: string
    var where: seq<(Key, Value)>
    var query: Option<string>
    const placeholders: Placeholders

    constructor (table: string, where: Input)
      ensures fresh(placeholders)
      ensures this.table == table && this.where == MergeValues([], where) && query == None
      ensures placeholders.State() == Table([], 0)
    {
      var _, w := MergeInto(None, [], where);
      this.table := table;
      this.where := w;
      query := None;
      placeholders := new Placeholders([], 0);
    }

    method Where(values: Input) returns (outcome: Outcome)
      modifies this
      ensures outcome == ValidateRuntime(old(query))
      ensures where == if outcome == Frozen then old(where) else MergeValues(old(where), values)
      ensures query == old(query)
    {
      var r;
      outcome, r := MergeInto(query, where, values);
      if outcome == Done {
        where := r;
      }
    }

    /** `__toString`: memoised. */
    method ToString() returns (text: string)
      requires TermsOk(where)
      modifies this, placeholders
      ensures IsFrozen(old(query)) ==> text == old(query).value && placeholders.State() == old(placeholders.State())
      ensures !IsFrozen(old(query)) ==>
        (text, placeholders.State()) == RenderDelete(table, old(where), old(placeholders.State()))
      ensures IsFrozen(query) && query == Some(text) && where == old(where)
    {
      if IsFrozen(query) {
        return query.value;
      }
      var whereText := placeholders.PrepareWhere(Terms(where), true, "");
      text := "DELETE FROM " + PrepareKey(table) + " \r\nWHERE " + whereText + ";";
      assert |text| > 1;
      assert text == "DELETE FROM " + text[12..];
      query := Some(text);
    }
  }

  /** An absent or empty predicate still renders the WHERE keyword: the text ends in "WHERE ;". */
  lemma DeleteWithoutPredicate(table: string, where: Input, t: Table)
    requires !InputTruthy(where)
    ensures RenderDelete(table, MergeValues([], where), t) == ("DELETE FROM " + PrepareKey(table) + " \r\nWHERE ;", t)
  {
    assert MergeValues([], where) == [];
    assert Render.PrepareWhere(Terms([]), true, "", t) == ("", t);
    assert " \r\nWHERE " + "" + ";" == " \r\nWHERE ;";
    var k := PrepareKey(table);
    assert "DELETE FROM " + k + " \r\nWHERE " + "" + ";" == "DELETE FROM " + k + " \r\nWHERE ;";
  }

  /** Likewise an UPDATE without a predicate ends in "WHERE ;". */
  lemma UpdateWithoutPredicate(table: string, sets: seq<(Key, Value)>, where: Input, t: Table)
    requires SetsOk(sets) && !InputTruthy(where)
    ensures var r := RenderUpdate(table, [], [], sets, MergeValues([], where), t).0;
      |r| >= 10 && r[|r| - 10..] == " \r\nWHERE ;"
  {
    var r := RenderUpdate(table, [], [], sets, MergeValues([], where), t).0;
    assert MergeValues([], where) == [];
    assert Render.PrepareJoins([], t) == ("", t);
    var (terms, t2) := SetTerms(sets, t);
    assert Render.PrepareWhere(Terms([]), true, "", t2) == ("", t2);
    var head := "UPDATE " + PrepareKey(table) + PrepareSelfJoins([]) + "" + " \r\nSET " + Implode(",", terms);
    assert r == head + " \r\nWHERE " + "" + ";";
    EndsWith(head, " \r\nWHERE ;");
  }

  lemma EndsWith(head: string, tail: string)
    ensures |head + tail| >= |tail| && (head + tail)[|head + tail| - |tail|..] == tail
  {
  }
}
