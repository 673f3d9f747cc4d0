/**
 * The values a statement is built from. A clause collection is an ordered PHP array
 * of (key, value) pairs; a value is a scalar, a raw-SQL object, a nested sub-select
 * or a nested collection. A sub-select is held as the full state of a
 * `SelectStatement`: its clauses, its own placeholder table and its memoised text.
 */
module Values {
  import opened Php
  import opened RawSql

  datatype Value =
    | Scalar(scalar: Scalar)
    | Raw(sql: Sql)
    | Sub(select: Select)
    | Nested(items: seq<(Key, Value)>)

  /** A predicate argument (`where`, `on`): absent, a raw string, or a collection. */
  datatype Input = Nothing | Text(text: string) | Terms(items: seq<(Key, Value)>)

  datatype JoinKind = Inner | Left | Right | Full | FullOuter

  /** A join descriptor `[template, table, on]`. */
  datatype Join = Join(kind: JoinKind, target: string, on: Input)

  /** The `null|int|string` limit of a select. */
  datatype Limit = LimitInt(n: int) | LimitText(text: string)

  /** The state of a `SelectStatement`. */
  datatype Select = Select(
    table: string,
    fields: seq<(Key, Value)>,
    into: Option<string>,
    where: seq<(Key, Value)>,
    groupBy: seq<(Key, Value)>,
    having: seq<(Key, Value)>,
    orderBy: seq<(Key, Value)>,
    limit: Option<Limit>,
    page: Option<int>,
    union: seq<Option<Select>>,
    unionAll: bool,
    selfJoins: seq<Option<string>>,
    joins: seq<Join>,
    parameters: seq<(string, Scalar)>,
    parameterIndex: nat,
    query: Option<string>)

  /** A freshly constructed select on a table: every clause empty, nothing rendered. */
  function EmptySelect(table: string, fields: seq<(Key, Value)>): (s: Select)
    ensures s.table == table && s.fields == fields && s.where == [] && s.union == []
    ensures s.parameters == [] && s.parameterIndex == 0 && s.query == None
  {
    Select(table, fields, None, [], [], [], [], None, None, [], false, [], [], [], 0, None)
  }

  // ---------------------------------------------------------------------------
  // Size measures: the renderer recurses through collections and sub-selects,
  // and every recursive call is on a strictly smaller measure or at the same
  // measure with a lower rank.
  // ---------------------------------------------------------------------------

  function Sum(s: seq<nat>): nat {
    if s == [] then 0 else Sum(s[..|s| - 1]) + s[|s| - 1]
  }

  function SizeValue(v: Value): (r: nat)
    ensures r >= 1
  {
    match v
    case Scalar(_) => 1
    case Raw(_) => 1
    case Sub(s) => 1 + SizeSelect(s)
    case Nested(items) => 1 + Sum(seq(|items|, i requires 0 <= i < |items| => SizeValue(items[i].1)))
  }

  function SizeInput(w: Input): (r: nat)
    ensures r >= 1
  {
    match w
    case Terms(items) => 1 + Sum(seq(|items|, i requires 0 <= i < |items| => SizeValue(items[i].1)))
    case _ => 1
  }

  function SizeJoin(j: Join): (r: nat)
    ensures r >= 1
  {
    1 + SizeInput(j.on)
  }

  function SizeMember(u: Option<Select>): (r: nat)
    ensures r >= 1
  {
    match u
    case None => 1
    case Some(s) => 1 + SizeSelect(s)
  }

  function SizeSelect(s: Select): (r: nat)
    ensures r >= 2
  {
    2 + Sum(seq(|s.fields|, i requires 0 <= i < |s.fields| => SizeValue(s.fields[i].1)))
      + Sum(seq(|s.where|, i requires 0 <= i < |s.where| => SizeValue(s.where[i].1)))
      + Sum(seq(|s.having|, i requires 0 <= i < |s.having| => SizeValue(s.having[i].1)))
      + Sum(seq(|s.union|, i requires 0 <= i < |s.union| => SizeMember(s.union[i])))
      + Sum(seq(|s.joins|, i requires 0 <= i < |s.joins| => SizeJoin(s.joins[i])))
  }

  function SizeItems(items: seq<(Key, Value)>): (r: nat) {
    if items == [] then 0 else SizeItems(items[..|items| - 1]) + SizeValue(items[|items| - 1].1)
  }

  function SizeMembers(us: seq<Option<Select>>): (r: nat) {
    if us == [] then 0 else SizeMembers(us[..|us| - 1]) + SizeMember(us[|us| - 1])
  }

  function SizeJoins(js: seq<Join>): (r: nat) {
    if js == [] then 0 else SizeJoins(js[..|js| - 1]) + SizeJoin(js[|js| - 1])
  }

  lemma {:induction false} SizeItemsIsSum(items: seq<(Key, Value)>)
    ensures SizeItems(items) == Sum(seq(|items|, i requires 0 <= i < |items| => SizeValue(items[i].1)))
  {
    if items != [] {
      var p := items[..|items| - 1];
      SizeItemsIsSum(p);
      assert seq(|items|, i requires 0 <= i < |items| => SizeValue(items[i].1))[..|items| - 1]
          == seq(|p|, i requires 0 <= i < |p| => SizeValue(p[i].1));
    }
  }

  lemma {:induction false} SizeMembersIsSum(us: seq<Option<Select>>)
    ensures SizeMembers(us) == Sum(seq(|us|, i requires 0 <= i < |us| => SizeMember(us[i])))
  {
    if us != [] {
      var p := us[..|us| - 1];
      SizeMembersIsSum(p);
      assert seq(|us|, i requires 0 <= i < |us| => SizeMember(us[i]))[..|us| - 1]
          == seq(|p|, i requires 0 <= i < |p| => SizeMember(p[i]));
    }
  }

  lemma {:induction false} SizeJoinsIsSum(js: seq<Join>)
    ensures SizeJoins(js) == Sum(seq(|js|, i requires 0 <= i < |js| => SizeJoin(js[i])))
  {
    if js != [] {
      var p := js[..|js| - 1];
      SizeJoinsIsSum(p);
      assert seq(|js|, i requires 0 <= i < |js| => SizeJoin(js[i]))[..|js| - 1]
          == seq(|p|, i requires 0 <= i < |p| => SizeJoin(p[i]));
    }
  }

  lemma SizeOfValue(v: Value)
    ensures v.Nested? ==> SizeValue(v) == 1 + SizeItems(v.items)
    ensures v.Sub? ==> SizeValue(v) == 1 + SizeSelect(v.select)
  {
    if v.Nested? {
      SizeItemsIsSum(v.items);
    }
  }

  lemma SizeOfInput(w: Input)
    ensures w.Terms? ==> SizeInput(w) == 1 + SizeItems(w.items)
  {
    if w.Terms? {
      SizeItemsIsSum(w.items);
    }
  }

  lemma SizeOfSelect(s: Select)
    ensures SizeSelect(s) == 2 + SizeItems(s.fields) + SizeItems(s.where) + SizeItems(s.having)
                               + SizeMembers(s.union) + SizeJoins(s.joins)
  {
    var fs, ws, hs, us, js := s.fields, s.where, s.having, s.union, s.joins;
    SizeItemsIsSum(fs);
    SizeItemsIsSum(ws);
    SizeItemsIsSum(hs);
    SizeMembersIsSum(us);
    SizeJoinsIsSum(js);
    var f1 := seq(|s.fields|, i requires 0 <= i < |s.fields| => SizeValue(s.fields[i].1));
    var f2 := seq(|fs|, i requires 0 <= i < |fs| => SizeValue(fs[i].1));
    assert forall i :: 0 <= i < |f1| ==> f1[i] == f2[i];
    assert f1 == f2;
    var w1 := seq(|s.where|, i requires 0 <= i < |s.where| => SizeValue(s.where[i].1));
    var w2 := seq(|ws|, i requires 0 <= i < |ws| => SizeValue(ws[i].1));
    assert forall i :: 0 <= i < |w1| ==> w1[i] == w2[i];
    assert w1 == w2;
    var h1 := seq(|s.having|, i requires 0 <= i < |s.having| => SizeValue(s.having[i].1));
    var h2 := seq(|hs|, i requires 0 <= i < |hs| => SizeValue(hs[i].1));
    assert forall i :: 0 <= i < |h1| ==> h1[i] == h2[i];
    assert h1 == h2;
    var u1 := seq(|s.union|, i requires 0 <= i < |s.union| => SizeMember(s.union[i]));
    var u2 := seq(|us|, i requires 0 <= i < |us| => SizeMember(us[i]));
    assert forall i :: 0 <= i < |u1| ==> u1[i] == u2[i];
    assert u1 == u2;
    var j1 := seq(|s.joins|, i requires 0 <= i < |s.joins| => SizeJoin(s.joins[i]));
    var j2 := seq(|js|, i requires 0 <= i < |js| => SizeJoin(js[i]));
    assert forall i :: 0 <= i < |j1| ==> j1[i] == j2[i];
    assert j1 == j2;
  }

  /** An entry of a collection is no larger than the whole collection. */
  lemma {:induction false} SizeItemsBound(items: seq<(Key, Value)>, i: nat)
    requires i < |items|
    ensures SizeValue(items[i].1) <= SizeItems(items)
  {
    if i < |items| - 1 {
      SizeItemsBound(items[..|items| - 1], i);
    }
  }

  lemma {:induction false} SizeMembersBound(us: seq<Option<Select>>, i: nat)
    requires i < |us|
    ensures SizeMember(us[i]) <= SizeMembers(us)
  {
    if i < |us| - 1 {
      SizeMembersBound(us[..|us| - 1], i);
    }
  }

  lemma {:induction false} SizeJoinsBound(js: seq<Join>, i: nat)
    requires i < |js|
    ensures SizeJoin(js[i]) <= SizeJoins(js)
  {
    if i < |js| - 1 {
      SizeJoinsBound(js[..|js| - 1], i);
    }
  }
}
