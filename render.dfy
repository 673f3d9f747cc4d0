/**
 * The statement compiler's rendering rules, as functions of the statement's state
 * and its placeholder table. Each function returns the text it renders together
 * with the placeholder table after rendering, so the order in which placeholders
 * are allocated is part of the result. Sub-selects make the rules mutually
 * recursive: a predicate value, a projected field, a union member or an
 * INSERT ... SELECT source is rendered by `MergeSubSelect`, which renders the
 * child from the parent's counter and folds the child's table back into the parent.
 *
 * PHP raises a TypeError (the sources are `strict_types`) when an integer key or a
 * non-string value reaches a `string` parameter; the `...Ok` predicates exclude
 * those states, and the rendering functions require them.
 */
module Render {
  import opened Php
  import opened RawSql
  import opened Values

  /** `parameters` and `parameterIndex` of an `AbstractStatement`. */
  datatype Table = Table(parameters: seq<(string, Scalar)>, parameterIndex: nat)

  /** sprintf(':p%d', n). */
  function Name(n: nat): (r: string)
    ensures |r| >= 3 && r[..2] == ":p"
  {
    ":p" + NatToString(n)
  }

  /** The names of n placeholders allocated one after another from counter value `from`. */
  function Names(from: nat, n: nat): seq<string> {
    seq(n, i requires 0 <= i < n => Name(from + i))
  }

  lemma NamesSnoc(from: nat, n: nat)
    ensures Names(from, n + 1) == Names(from, n) + [Name(from + n)]
  {
    var a, b := Names(from, n + 1), Names(from, n) + [Name(from + n)];
    forall i | 0 <= i < n + 1 ensures a[i] == b[i] {
    }
  }

  // ---------------------------------------------------------------------------
  // AbstractStatement
  // ---------------------------------------------------------------------------

  /** Keys containing a backtick, a dot, a space or a parenthesis are expressions. */
  predicate IsExpression(key: string) {
    '`' in key || '.' in key || ' ' in key || '(' in key
  }

  /** `prepareKey`: an expression is kept, a bare identifier is quoted with backticks. */
  function PrepareKey(key: string): (r: string)
    ensures r == key <==> IsExpression(key)
    ensures !IsExpression(key) ==> r == "`" + key + "`"
  {
    if IsExpression(key) then key else "`" + key + "`"
  }

  /** `createParameter`: binds v to the next name and advances the counter by one. */
  function CreateParameter(t: Table, v: Scalar): (r: (string, Table))
    ensures r.0 == Name(t.parameterIndex)
    ensures r.1.parameterIndex == t.parameterIndex + 1
    ensures Lookup(r.1.parameters, r.0) == Some(v)
  {
    var name := Name(t.parameterIndex);
    LookupPut(t.parameters, name, v, name);
    (name, Table(Put(t.parameters, name, v), t.parameterIndex + 1))
  }

  /**
   * `prepareValue`: a raw-SQL object contributes its text and copies its own
   * parameters by name; any scalar is bound to a fresh placeholder.
   */
  function PrepareValue(v: Value, t: Table): (r: (string, Table))
    requires v.Scalar? || v.Raw?
    ensures v.Raw? ==> r == (v.sql.text, Table(PutAll(t.parameters, v.sql.parameters), t.parameterIndex))
    ensures v.Scalar? ==> r == CreateParameter(t, v.scalar)
  {
    if v.Raw? then (v.sql.text, Table(PutAll(t.parameters, v.sql.parameters), t.parameterIndex))
    else CreateParameter(t, v.scalar)
  }

  // ---------------------------------------------------------------------------
  // Well-typed states (no TypeError while rendering)
  // ---------------------------------------------------------------------------

  /** No element before position i of an IN list is a sub-select. */
  predicate NoSubBefore(vs: seq<(Key, Value)>, i: int) {
    forall j :: 0 <= j < i && j < |vs| ==> !vs[j].1.Sub?
  }

  /** Some element of an IN list is a sub-select. */
  predicate HasSub(vs: seq<(Key, Value)>) {
    exists j :: 0 <= j < |vs| && vs[j].1.Sub?
  }

  /** An IN-list element that is visited: a scalar for `createParameter`, or a sub-select. */
  predicate InElementOk(e: Value) {
    e.Scalar? || (e.Sub? && SelectOk(e.select))
  }

  /** A value `prepareWhereItem` accepts. */
  predicate WhereValueOk(v: Value) {
    match v
    case Sub(s) => SelectOk(s)
    case Nested(vs) => forall i :: 0 <= i < |vs| && NoSubBefore(vs, i) ==> InElementOk(vs[i].1)
    case _ => true
  }

  /** A predicate entry: `prepareWhereItem` takes a `string $key`. */
  predicate TermOk(item: (Key, Value)) {
    item.0.Named? && WhereValueOk(item.1)
  }

  /** A predicate argument `prepareWhere` renders without a TypeError. */
  predicate InputOk(w: Input) {
    w.Terms? ==> forall i :: 0 <= i < |w.items| ==> TermOk(w.items[i])
  }

  /** A projected field: aliases and aliased fields go through `prepareKey(string)`. */
  predicate FieldOk(v: Value, k: Key) {
    (v.Sub? ==> SelectOk(v.select)) && (!IsNumericKey(k) && !v.Sub? ==> v.Scalar? && v.scalar.Str?)
  }

  /** GROUP BY / ORDER BY lists: every value goes through `prepareKey(string)`. */
  predicate KeyListOk(items: seq<(Key, Value)>) {
    forall i :: 0 <= i < |items| ==> items[i].1.Scalar? && items[i].1.scalar.Str?
  }

  /** A select that renders without a TypeError, and so does every select inside it. */
  predicate SelectOk(s: Select) {
    && (forall i :: 0 <= i < |s.fields| ==> FieldOk(s.fields[i].1, s.fields[i].0))
    && (forall i :: 0 <= i < |s.where| ==> TermOk(s.where[i]))
    && (forall i :: 0 <= i < |s.having| ==> TermOk(s.having[i]))
    && KeyListOk(s.groupBy) && KeyListOk(s.orderBy)
    && (forall i :: 0 <= i < |s.union| ==> s.union[i].Some? && SelectOk(s.union[i].value))
    && (forall i :: 0 <= i < |s.joins| ==> InputOk(s.joins[i].on))
  }

  predicate TermsOk(items: seq<(Key, Value)>) {
    forall i :: 0 <= i < |items| ==> TermOk(items[i])
  }

  predicate FieldsOk(items: seq<(Key, Value)>) {
    forall i :: 0 <= i < |items| ==> FieldOk(items[i].1, items[i].0)
  }

  predicate UnionOk(us: seq<Option<Select>>) {
    forall i :: 0 <= i < |us| ==> us[i].Some? && SelectOk(us[i].value)
  }

  predicate JoinsOk(js: seq<Join>) {
    forall i :: 0 <= i < |js| ==> InputOk(js[i].on)
  }

  predicate InListOk(vs: seq<(Key, Value)>) {
    WhereValueOk(Nested(vs))
  }

  // ---------------------------------------------------------------------------
  // Sub-selects
  // ---------------------------------------------------------------------------

  /**
   * `mergeSubSelect`: the child's memo is cleared and its counter set to the
   * parent's; the child is rendered from its own parameters; its text loses every
   * trailing ';'; the child's whole map is copied into the parent's by name and
   * the parent takes over the child's final counter.
   */
  function MergeSubSelect(s: Select, t: Table): (r: (string, Table))
    requires SelectOk(s)
    ensures r.1.parameterIndex >= t.parameterIndex
    decreases SizeSelect(s), 1
  {
    var (text, child) := RenderSelect(s, Table(s.parameters, t.parameterIndex));
    Merge(text, child, t)
  }

  /** The merge step proper: the child's text and final table folded into the parent's table. */
  function Merge(text: string, child: Table, t: Table): (string, Table) {
    (RTrim(text, ';'), Table(PutAll(t.parameters, child.parameters), child.parameterIndex))
  }

  /** The child's state after `mergeSubSelect`: memoised text, its map and counter. */
  function MergedChild(s: Select, t: Table): (c: Select)
    requires SelectOk(s)
    ensures c.query.Some? && c.parameterIndex >= t.parameterIndex
    ensures c.fields == s.fields && c.where == s.where && c.union == s.union && c.joins == s.joins
  {
    var (text, child) := RenderSelect(s, Table(s.parameters, t.parameterIndex));
    s.(query := Some(text), parameters := child.parameters, parameterIndex := child.parameterIndex)
  }

  /** `(string)$select` without a merge: the memo if set, else a render from its own table. */
  function SelectText(s: Select): (r: string)
    requires SelectOk(s)
    ensures Truthy(r)
    decreases SizeSelect(s), 1
  {
    if s.query.Some? && Truthy(s.query.value) then s.query.value
    else RenderSelect(s, Table(s.parameters, s.parameterIndex)).0
  }

  /** `strval($field)`: arrays print as "Array", objects through `__toString`. */
  function StrVal(v: Value): string
    requires v.Sub? ==> SelectOk(v.select)
    decreases SizeValue(v), 1
  {
    match v
    case Scalar(x) => ScalarText(x)
    case Raw(sql) => sql.text
    case Sub(s) => SelectText(s)
    case Nested(_) => "Array"
  }

  // ---------------------------------------------------------------------------
  // SelectStatement::__toString
  // ---------------------------------------------------------------------------

  const InstructionWhere := "\r\nWHERE "

  /**
   * The SELECT template: fields, INTO, table or unions, self-joins, joins, WHERE,
   * GROUP BY, HAVING, ORDER BY, LIMIT and ';', rendered (and placeholders
   * allocated) in that order.
   */
  function RenderSelect(s: Select, t: Table): (r: (string, Table))
    requires SelectOk(s)
    ensures r.1.parameterIndex >= t.parameterIndex
    ensures |r.0| > 1
    decreases SizeSelect(s), 0
  {
    SizeOfSelect(s);
    SizeOfInput(Terms(s.where));
    var (fields, t1) := PrepareFields(s.fields, t);
    var (table, t2) := PrepareTable(s.table, s.union, s.unionAll, t1);
    var (joins, t3) := PrepareJoins(s.joins, t2);
    var (where, t4) := PrepareWhere(Terms(s.where), true, InstructionWhere, t3);
    var (having, t5) := PrepareHaving(s.having, t4);
    ("SELECT " + fields + PrepareInto(s.into) + " FROM " + table + PrepareSelfJoins(s.selfJoins)
       + joins + where + PrepareGroupBy(s.groupBy) + having + PrepareOrderBy(s.orderBy)
       + PrepareLimit(s.limit, s.page) + ";",
     t5)
  }

  /** `prepareFields`: one item per field, joined by ','. */
  function PrepareFields(items: seq<(Key, Value)>, t: Table): (r: (string, Table))
    requires FieldsOk(items)
    ensures r.1.parameterIndex >= t.parameterIndex
    decreases SizeItems(items), 4
  {
    var (parts, t1) := FieldTerms(items, t);
    (Implode(",", parts), t1)
  }

  function FieldTerms(items: seq<(Key, Value)>, t: Table): (r: (seq<string>, Table))
    requires FieldsOk(items)
    ensures |r.0| == |items|
    ensures r.1.parameterIndex >= t.parameterIndex
    decreases SizeItems(items), 3
  {
    if items == [] then ([], t)
    else
      var last := items[|items| - 1];
      var (parts, t1) := FieldTerms(items[..|items| - 1], t);
      var (part, t2) := FieldItem(last.0, last.1, t1);
      (parts + [part], t2)
  }

  /**
   * One projected field: a numeric key emits strval(value); a sub-select is
   * merged and aliased to the key; otherwise `key AS value`, both through prepareKey.
   */
  function FieldItem(k: Key, v: Value, t: Table): (r: (string, Table))
    requires FieldOk(v, k)
    ensures r.1.parameterIndex >= t.parameterIndex
    decreases SizeValue(v), 2
  {
    if IsNumericKey(k) then (StrVal(v), t)
    else if v.Sub? then
      var (sub, t1) := MergeSubSelect(v.select, t);
      ("(" + sub + ") AS " + PrepareKey(k.name), t1)
    else (PrepareKey(k.name) + " AS " + PrepareKey(v.scalar.s), t)
  }

  /** `prepareInto`: empty (null, "" or "0") gives nothing. */
  function PrepareInto(into: Option<string>): (r: string)
    ensures r == "" <==> into.None? || !Truthy(into.value)
  {
    if into.None? || !Truthy(into.value) then "" else "\r\nINTO " + into.value + " "
  }

  function UnionSeparator(unionAll: bool): string {
    if unionAll then "\r\n) UNION ALL (\r\n" else "\r\n) UNION DISTINCT (\r\n"
  }

  /** `prepareTable`: the bare table, or `((u1<sep>u2...)) AS table` over the merged unions. */
  function PrepareTable(table: string, us: seq<Option<Select>>, unionAll: bool, t: Table): (r: (string, Table))
    requires UnionOk(us)
    ensures us == [] ==> r == (table, t)
    ensures r.1.parameterIndex >= t.parameterIndex
    decreases SizeMembers(us), 3
  {
    if us == [] then (table, t)
    else
      var (parts, t1) := UnionTexts(us, t);
      ("((" + Implode(UnionSeparator(unionAll), parts) + ")) AS " + table, t1)
  }

  function UnionTexts(us: seq<Option<Select>>, t: Table): (r: (seq<string>, Table))
    requires UnionOk(us)
    ensures |r.0| == |us|
    ensures r.1.parameterIndex >= t.parameterIndex
    decreases SizeMembers(us), 2
  {
    if us == [] then ([], t)
    else
      var (parts, t1) := UnionTexts(us[..|us| - 1], t);
      var (part, t2) := MergeSubSelect(us[|us| - 1].value, t1);
      (parts + [part], t2)
  }

  /** The text of one optional self-join: implode prints null as "". */
  function OptText(o: Option<string>): string {
    if o.Some? then o.value else ""
  }

  function OptTexts(list: seq<Option<string>>): (r: seq<string>)
    ensures |r| == |list|
    ensures forall i :: 0 <= i < |list| ==> r[i] == OptText(list[i])
  {
    if list == [] then [] else OptTexts(list[..|list| - 1]) + [OptText(list[|list| - 1])]
  }

  /** `prepareSelfJoins`: nothing for an empty list, else `,a,b ` . */
  function PrepareSelfJoins(list: seq<Option<string>>): (r: string)
    ensures list == [] <==> r == ""
  {
    if list == [] then "" else "," + Implode(",", OptTexts(list)) + " "
  }

  /** The `%s%s ` templates of the join kinds, up to the first `%s`. */
  function JoinKeyword(kind: JoinKind): string {
    match kind
    case Inner => "\r\nINNER JOIN "
    case Left => "\r\nLEFT JOIN "
    case Right => "\r\nRIGHT JOIN "
    case Full => "\r\nFULL JOIN "
    case FullOuter => "\r\nFULL OUTER JOIN "
  }

  /** PHP truthiness of a join's `on`: null, "", "0" and [] are false. */
  predicate InputTruthy(w: Input) {
    match w
    case Nothing => false
    case Text(s) => Truthy(s)
    case Terms(items) => items != []
  }

  /** `prepareJoins`: the descriptors, in order, with no separator. */
  function PrepareJoins(js: seq<Join>, t: Table): (r: (string, Table))
    requires JoinsOk(js)
    ensures js == [] ==> r == ("", t)
    ensures r.1.parameterIndex >= t.parameterIndex
    decreases SizeJoins(js), 3
  {
    if js == [] then ("", t)
    else
      var (front, t1) := PrepareJoins(js[..|js| - 1], t);
      var (part, t2) := JoinText(js[|js| - 1], t1);
      (front + part, t2)
  }

  /** One descriptor: its kind's keyword, the table, the ON part when `on` is truthy, ' '. */
  function JoinText(j: Join, t: Table): (r: (string, Table))
    requires InputOk(j.on)
    ensures r.1.parameterIndex >= t.parameterIndex
    decreases SizeJoin(j), 2
  {
    var (on, t1) := if InputTruthy(j.on) then JoinOn(j.on, t) else ("", t);
    (JoinKeyword(j.kind) + j.target + on + " ", t1)
  }

  /** `joinOn`: nothing for null, else ` ON <predicate> `, plain scalars written inline. */
  function JoinOn(on: Input, t: Table): (r: (string, Table))
    requires InputOk(on)
    ensures on.Nothing? ==> r == ("", t)
    ensures r.1.parameterIndex >= t.parameterIndex
    decreases SizeInput(on), 2
  {
    if on.Nothing? then ("", t)
    else
      var (w, t1) := PrepareWhere(on, false, "", t);
      (" ON " + w + " ", t1)
  }

  /** `prepareGroupBy` / `prepareOrderBy` items: the values through prepareKey. */
  function KeyTexts(items: seq<(Key, Value)>): (r: seq<string>)
    requires KeyListOk(items)
    ensures |r| == |items|
    ensures forall i :: 0 <= i < |items| ==> r[i] == PrepareKey(items[i].1.scalar.s)
  {
    if items == [] then [] else KeyTexts(items[..|items| - 1]) + [PrepareKey(items[|items| - 1].1.scalar.s)]
  }

  function PrepareGroupBy(items: seq<(Key, Value)>): (r: string)
    requires KeyListOk(items)
    ensures items == [] <==> r == ""
  {
    if items == [] then "" else "\r\nGROUP BY " + Implode(",", KeyTexts(items)) + " "
  }

  function PrepareOrderBy(items: seq<(Key, Value)>): (r: string)
    requires KeyListOk(items)
    ensures items == [] <==> r == ""
  {
    if items == [] then "" else "\r\nORDER BY " + Implode(",", KeyTexts(items)) + " "
  }

  /** `prepareHaving`: nothing when empty, else the bound predicate without a prefix. */
  function PrepareHaving(items: seq<(Key, Value)>, t: Table): (r: (string, Table))
    requires TermsOk(items)
    ensures items == [] ==> r == ("", t)
    ensures r.1.parameterIndex >= t.parameterIndex
    decreases 1 + SizeItems(items), 2
  {
    if items == [] then ("", t)
    else
      SizeOfInput(Terms(items));
      var (w, t1) := PrepareWhere(Terms(items), true, "", t);
      ("\r\nHAVING " + w + " ", t1)
  }

  /** is_numeric of the `null|int|string` limit. */
  predicate NumericLimit(limit: Option<Limit>) {
    limit.Some? && (limit.value.LimitInt? || IsNumeric(limit.value.text))
  }

  /** intval of a numeric limit. */
  function LimitValue(l: Limit): int {
    match l
    case LimitInt(n) => n
    case LimitText(s) => IntVal(s)
  }

  /** strval of a limit. */
  function LimitString(l: Limit): string {
    match l
    case LimitInt(n) => IntToString(n)
    case LimitText(s) => s
  }

  const DefaultLimit := 1000

  /**
   * `prepareLimit`: nothing without limit and page; `offset, count` with
   * offset = limit * page for a numeric limit and a nonzero page; the default
   * page size 1000 for a null limit; otherwise the limit alone.
   */
  function PrepareLimit(limit: Option<Limit>, page: Option<int>): (r: string)
    ensures r == "" || (|r| > 8 && r[..8] == "\r\nLIMIT " && r[|r| - 1] == ' ')
  {
    if limit.None? && page.None? then ""
    else if NumericLimit(limit) && page.Some? && page.value != 0 then
      var n := LimitValue(limit.value);
      "\r\nLIMIT " + IntToString(n * page.value) + ", " + IntToString(n) + " "
    else if limit.None? then
      "\r\nLIMIT " + IntToString(page.value * DefaultLimit) + ", " + IntToString(DefaultLimit) + " "
    else "\r\nLIMIT " + LimitString(limit.value) + " "
  }

  // ---------------------------------------------------------------------------
  // WhereTrait
  // ---------------------------------------------------------------------------

  /**
   * `prepareWhere`: an absent, empty or falsy-string predicate gives nothing; a
   * string is kept verbatim after the prefix; a collection gives one term per
   * entry joined by ' AND ' after the prefix. `bind` is `$prepareValue`.
   */
  function PrepareWhere(w: Input, bind: bool, prefix: string, t: Table): (r: (string, Table))
    requires InputOk(w)
    ensures !InputTruthy(w) ==> r == ("", t)
    ensures w.Text? && Truthy(w.text) ==> r == (prefix + w.text, t)
    ensures w.Terms? && |w.items| > 0 ==> |r.0| >= |prefix| && r.0[..|prefix|] == prefix
    ensures r.1.parameterIndex >= t.parameterIndex
    decreases SizeInput(w), 1
  {
    match w
    case Nothing => ("", t)
    case Text(s) => (if Truthy(s) then prefix + s else "", t)
    case Terms(items) =>
      if items == [] then ("", t)
      else
        SizeOfInput(w);
        var (terms, t1) := WhereTerms(items, bind, t);
        (prefix + Implode(" AND ", terms), t1)
  }

  function WhereTerms(items: seq<(Key, Value)>, bind: bool, t: Table): (r: (seq<string>, Table))
    requires TermsOk(items)
    ensures |r.0| == |items|
    ensures r.1.parameterIndex >= t.parameterIndex
    decreases SizeItems(items), 3
  {
    if items == [] then ([], t)
    else
      var last := items[|items| - 1];
      var (terms, t1) := WhereTerms(items[..|items| - 1], bind, t);
      var (term, t2) := WhereItem(last.0.name, last.1, bind, t1);
      (terms + [term], t2)
  }

  /** The value part of `key=value` / `key value`: a placeholder when binding, else as-is. */
  function ItemValue(v: Value, bind: bool, t: Table): (r: (string, Table))
    requires !v.Sub? && !v.Nested?
  {
    if bind then PrepareValue(v, t)
    else if v.Raw? then (v.sql.text, t)
    else (ScalarText(v.scalar), t)
  }

  /** `prepareWhereItem`: one term, by the shape of the value. */
  function WhereItem(key: string, v: Value, bind: bool, t: Table): (r: (string, Table))
    requires WhereValueOk(v)
    ensures r.1.parameterIndex >= t.parameterIndex
    decreases SizeValue(v), 2
  {
    if v.Nested? then
      SizeOfValue(v);
      var (list, t1) := WhereItemValues(v.items, t);
      (PrepareKey(key) + " IN (" + list + ")", t1)
    else if v.Sub? then
      var (sub, t1) := MergeSubSelect(v.select, t);
      if ' ' in key then (key + " (" + sub + ")", t1) else (PrepareKey(key) + " = (" + sub + ")", t1)
    else if IsNumeric(key) && v.Scalar? && v.scalar.Str? then (v.scalar.s, t)
    else if v == Scalar(Null) && ' ' in key then (key, t)
    else if v == Scalar(Null) then (PrepareKey(key) + " IS NULL", t)
    else
      var (value, t1) := ItemValue(v, bind, t);
      if ' ' in key then (key + " " + value, t1) else (PrepareKey(key) + "=" + value, t1)
  }

  /** `prepareWhereItemValues`: the merged text of the first sub-select, else the names joined by ','. */
  function WhereItemValues(vs: seq<(Key, Value)>, t: Table): (r: (string, Table))
    requires InListOk(vs)
    ensures r.1.parameterIndex >= t.parameterIndex
    decreases SizeItems(vs), 4
  {
    var (names, sub, t1) := InList(vs, t);
    (if sub.Some? then sub.value else Implode(",", names), t1)
  }

  /**
   * The IN-list loop: the names allocated for the scalars visited, and the merged
   * text of the first sub-select once one is met (later elements are not visited).
   */
  function InList(vs: seq<(Key, Value)>, t: Table): (r: (seq<string>, Option<string>, Table))
    requires InListOk(vs)
    ensures r.1.Some? <==> HasSub(vs)
    ensures r.2.parameterIndex >= t.parameterIndex
    decreases SizeItems(vs), 3
  {
    if vs == [] then ([], None, t)
    else
      var front := vs[..|vs| - 1];
      var last := vs[|vs| - 1].1;
      InListFront(vs);
      HasSubSplit(vs);
      var (names, sub, t1) := InList(front, t);
      if sub.Some? then (names, sub, t1)
      else
        InListLast(vs);
        if last.Sub? then
          var (text, t2) := MergeSubSelect(last.select, t1);
          (names, Some(text), t2)
        else
          var (name, t2) := CreateParameter(t1, last.scalar);
          (names + [name], None, t2)
  }

  /** Every prefix of a well-typed IN list is well-typed. */
  lemma InListFront(vs: seq<(Key, Value)>)
    requires vs != [] && InListOk(vs)
    ensures InListOk(vs[..|vs| - 1])
  {
    var front := vs[..|vs| - 1];
    forall i | 0 <= i < |front| && NoSubBefore(front, i) ensures InElementOk(front[i].1) {
      assert vs[i] == front[i];
      assert NoSubBefore(vs, i);
    }
  }

  /** With no sub-select before it, the last element of an IN list is visited. */
  lemma InListLast(vs: seq<(Key, Value)>)
    requires vs != [] && InListOk(vs) && !HasSub(vs[..|vs| - 1])
    ensures InElementOk(vs[|vs| - 1].1)
  {
    var front := vs[..|vs| - 1];
    forall j | 0 <= j < |vs| - 1 ensures !vs[j].1.Sub? {
      assert vs[j] == front[j];
    }
    assert NoSubBefore(vs, |vs| - 1);
  }

  /** An IN list holds a sub-select exactly when its front or its last element does. */
  lemma HasSubSplit(vs: seq<(Key, Value)>)
    requires vs != []
    ensures HasSub(vs) <==> HasSub(vs[..|vs| - 1]) || vs[|vs| - 1].1.Sub?
  {
    var front := vs[..|vs| - 1];
    if HasSub(front) {
      var j :| 0 <= j < |front| && front[j].1.Sub?;
      assert vs[j] == front[j];
    }
    if HasSub(vs) && !vs[|vs| - 1].1.Sub? {
      var j :| 0 <= j < |vs| && vs[j].1.Sub?;
      assert front[j] == vs[j];
    }
  }
}
