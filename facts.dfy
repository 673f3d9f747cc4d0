/**
 * Properties of the rendering rules that relate several calls or several rules:
 * pagination, the binding discipline of predicate terms and IN lists, projections,
 * the effects of a sub-select merge, and INSERT column and row lists.
 */
module RenderFacts {
  import opened Php
  import opened RawSql
  import opened Values
  import opened Render
  import opened Compiler
  import opened Insert

  // ---------------------------------------------------------------------------
  // Pagination
  // ---------------------------------------------------------------------------

  /** The LIMIT clause is omitted exactly when neither a limit nor a page is set. */
  lemma LimitOmitted(limit: Option<Limit>, page: Option<int>)
    ensures PrepareLimit(limit, page) == "" <==> limit.None? && page.None?
  {
    if !(limit.None? && page.None?) {
      assert PrepareLimit(limit, page)[..8] == "\r\nLIMIT ";
    }
  }

  /** A page without a limit pages by the default size of 1000 rows. */
  lemma PageWithoutLimit(page: int)
    requires page != 0
    ensures PrepareLimit(None, Some(page)) == PrepareLimit(Some(LimitInt(DefaultLimit)), Some(page))
  {
    var offset := IntToString(page * DefaultLimit);
    var count := IntToString(DefaultLimit);
    assert PrepareLimit(None, Some(page)) == "\r\nLIMIT " + offset + ", " + count + " ";
    assert DefaultLimit * page == page * DefaultLimit;
  }

  /** A limit that is not numeric, or a page that is null or 0, leaves the limit alone. */
  lemma PageIgnored(limit: Limit, page: Option<int>)
    requires !NumericLimit(Some(limit)) || page.None? || page.value == 0
    ensures PrepareLimit(Some(limit), page) == "\r\nLIMIT " + LimitString(limit) + " "
  {
  }

  lemma {:induction false} TwoDigits(n: nat)
    requires 10 <= n < 100
    ensures NatToString(n) == [DigitChar(n / 10), DigitChar(n % 10)]
  {
    assert NatToString(n / 10) == [DigitChar(n / 10)];
  }

  lemma TimesTen(n: nat)
    requires n >= 1
    ensures NatToString(n * 10) == NatToString(n) + "0"
  {
    assert (n * 10) / 10 == n && (n * 10) % 10 == 0;
  }

  /** Limit 10 on page 2 skips 20 rows. */
  lemma LimitAndPageExample()
    ensures PrepareLimit(Some(LimitInt(10)), Some(2)) == "\r\nLIMIT 20, 10 "
  {
    TwoDigits(20);
    TwoDigits(10);
  }

  /** Page 3 alone skips 3000 rows of the default 1000. */
  lemma PageAloneExample()
    ensures PrepareLimit(None, Some(3)) == "\r\nLIMIT 3000, 1000 "
  {
    TimesTen(3);
    TimesTen(30);
    TimesTen(300);
    TimesTen(1);
    TimesTen(10);
    TimesTen(100);
    assert NatToString(3) == "3" && NatToString(1) == "1";
  }

  /**
   * A numeric limit string on a nonzero page is read with intval, in the offset
   * and in the count alike; the string itself is not written out.
   */
  lemma NumericTextLimit(s: string, page: int)
    requires IsNumeric(s) && page != 0
    ensures PrepareLimit(Some(LimitText(s)), Some(page))
      == "\r\nLIMIT " + IntToString(IntVal(s) * page) + ", " + IntToString(IntVal(s)) + " "
  {
  }

  /** A limit given as "1e3" is 1000 rows, both in the offset and in the count. */
  lemma ExponentLimitExample()
    ensures PrepareLimit(Some(LimitText("1e3")), Some(2)) == "\r\nLIMIT " + "2000" + ", " + "1000" + " "
  {
    ExponentIsNumeric();
    IntValExponent();
    ThousandRows("1e3");
  }

  lemma ThousandRows(s: string)
    requires IsNumeric(s) && IntVal(s) == 1000
    ensures PrepareLimit(Some(LimitText(s)), Some(2)) == "\r\nLIMIT " + "2000" + ", " + "1000" + " "
  {
    NumericTextLimit(s, 2);
    assert IntVal(s) * 2 == 2000;
    Thousands();
  }

  lemma Thousands()
    ensures IntToString(2000) == "2000" && IntToString(1000) == "1000"
  {
    TimesTen(2);
    TimesTen(20);
    TimesTen(200);
    TimesTen(1);
    TimesTen(10);
    TimesTen(100);
    assert NatToString(2) == "2" && NatToString(1) == "1";
  }

  /** Limit 5 alone is emitted as it is. */
  lemma LimitAloneExample()
    ensures PrepareLimit(Some(LimitInt(5)), None) == "\r\nLIMIT 5 "
  {
    assert NatToString(5) == "5";
  }

  // ---------------------------------------------------------------------------
  // Predicate terms
  // ---------------------------------------------------------------------------

  /**
   * A scalar term binds exactly one placeholder when `prepareValue` is true and
   * none otherwise, in which case the value is written into the text itself.
   */
  lemma ScalarTermBinding(key: string, x: Scalar, t: Table)
    requires x != Null && !(IsNumeric(key) && x.Str?)
    ensures var (bound, tb) := WhereItem(key, Scalar(x), true, t);
      var (inline, ti) := WhereItem(key, Scalar(x), false, t);
      && ti == t && tb == CreateParameter(t, x).1
      && (' ' in key ==> bound == key + " " + Name(t.parameterIndex) && inline == key + " " + ScalarText(x))
      && (' ' !in key ==> bound == PrepareKey(key) + "=" + Name(t.parameterIndex)
                          && inline == PrepareKey(key) + "=" + ScalarText(x))
  {
  }

  /** A null value tests for NULL, unless the key already is a whole condition. */
  lemma NullTerm(key: string, bind: bool, t: Table)
    ensures WhereItem(key, Scalar(Null), bind, t) == (if ' ' in key then key else PrepareKey(key) + " IS NULL", t)
  {
  }

  /** An IN list of scalars binds one fresh consecutive placeholder per element. */
  lemma {:induction false} InListOfScalars(vs: seq<(Key, Value)>, t: Table)
    requires forall i :: 0 <= i < |vs| ==> vs[i].1.Scalar?
    ensures InListOk(vs)
    ensures InList(vs, t).0 == Names(t.parameterIndex, |vs|)
    ensures InList(vs, t).1 == None
    ensures InList(vs, t).2.parameterIndex == t.parameterIndex + |vs|
  {
    assert InListOk(vs) by {
      forall i | 0 <= i < |vs| && NoSubBefore(vs, i) ensures InElementOk(vs[i].1) {
        assert vs[i].1.Scalar?;
      }
    }
    if vs != [] {
      var front := vs[..|vs| - 1];
      assert forall i :: 0 <= i < |front| ==> front[i] == vs[i];
      InListOfScalars(front, t);
      var before := InList(front, t);
      var name := Name(before.2.parameterIndex);
      var r := InList(vs, t);
      assert r.0 == before.0 + [name] && r.1 == None;
      assert r.2.parameterIndex == before.2.parameterIndex + 1;
      NamesSnoc(t.parameterIndex, |front|);
    }
  }

  /** IN lists bind their scalars whatever the `prepareValue` flag says. */
  lemma InTermIgnoresFlag(key: string, vs: seq<(Key, Value)>, t: Table)
    requires InListOk(vs)
    ensures WhereItem(key, Nested(vs), true, t) == WhereItem(key, Nested(vs), false, t)
  {
  }

  /**
   * The first sub-select of an IN list is the whole list: the text is that merged
   * sub-select, the placeholders already bound for the scalars before it stay, and
   * no later element is visited.
   */
  lemma InListFirstSub(vs: seq<(Key, Value)>, j: nat, t: Table)
    requires InListOk(vs) && j < |vs| && vs[j].1.Sub? && NoSubBefore(vs, j)
    ensures InListOk(vs[..j]) && SelectOk(vs[j].1.select)
    ensures WhereItemValues(vs, t) == MergeSubSelect(vs[j].1.select, InList(vs[..j], t).2)
  {
    InListStep(vs, j, t);
    var (names, _, t1) := InList(vs[..j], t);
    assert InList(vs[..j + 1], t).1.Some?;
    InListStops(vs, j + 1, t);
  }

  // ---------------------------------------------------------------------------
  // Projections
  // ---------------------------------------------------------------------------

  /** A projection without sub-selects binds no placeholder. */
  lemma {:induction false} FieldsWithoutSubSelects(items: seq<(Key, Value)>, t: Table)
    requires FieldsOk(items) && forall i :: 0 <= i < |items| ==> !items[i].1.Sub?
    ensures FieldTerms(items, t).1 == t
    ensures PrepareFields(items, t).1 == t
  {
    if items != [] {
      var front := items[..|items| - 1];
      assert forall i :: 0 <= i < |front| ==> front[i] == items[i];
      FieldsWithoutSubSelects(front, t);
    }
  }

  lemma NotNumeric(s: string)
    requires s != [] && forall i :: 0 <= i < |s| ==> 'a' <= s[i] <= 'z' && s[i] != 'e'
    ensures !IsNumeric(s)
  {
    assert TrimLeadingWs(s) == s;
    assert TrimTrailingWs(s) == s;
    assert DropSign(s) == s;
    var e := FirstIndex(s, c => c == 'e' || c == 'E');
    assert e == |s|;
    assert !AllDigits(s) by {
      assert !IsDigit(s[0]);
    }
  }

  /** A keyed, non-numeric field is aliased: `{key: alias}` projects `key` AS `alias`. */
  lemma AliasedField(key: string, alias: string, t: Table)
    requires !IsNumeric(key)
    ensures FieldsOk([(Named(key), Scalar(Str(alias)))])
    ensures PrepareFields([(Named(key), Scalar(Str(alias)))], t) == (PrepareKey(key) + " AS " + PrepareKey(alias), t)
  {
    var items := [(Named(key), Scalar(Str(alias)))];
    var part := PrepareKey(key) + " AS " + PrepareKey(alias);
    assert FieldItem(items[0].0, items[0].1, t) == (part, t);
    assert items[..0] == [];
    assert FieldTerms(items[..0], t) == ([], t);
    var r := FieldTerms(items, t);
    assert r.0 == [part];
    assert r.1 == t;
    assert Implode(",", [part]) == part;
  }

  /** Listed (positional) fields are emitted as given, joined by ',', and bind nothing. */
  lemma {:induction false} ListedFields(items: seq<(Key, Value)>, t: Table)
    requires forall i :: 0 <= i < |items| ==> items[i].0.Pos? && items[i].1.Scalar?
    ensures FieldsOk(items)
    ensures FieldTerms(items, t) == (seq(|items|, i requires 0 <= i < |items| => ScalarText(items[i].1.scalar)), t)
    ensures PrepareFields(items, t)
      == (Implode(",", seq(|items|, i requires 0 <= i < |items| => ScalarText(items[i].1.scalar))), t)
    decreases |items|
  {
    var texts := seq(|items|, i requires 0 <= i < |items| => ScalarText(items[i].1.scalar));
    if items != [] {
      var front := items[..|items| - 1];
      ListedFields(front, t);
      var last := items[|items| - 1];
      assert FieldItem(last.0, last.1, t) == (ScalarText(last.1.scalar), t);
      var r := FieldTerms(items, t);
      assert r.0 == FieldTerms(front, t).0 + [ScalarText(last.1.scalar)];
      assert r.1 == t;
      ScalarTextsSnoc(items);
    } else {
      assert texts == [];
    }
  }

  lemma ScalarTextsSnoc(items: seq<(Key, Value)>)
    requires items != [] && forall i :: 0 <= i < |items| ==> items[i].1.Scalar?
    ensures var front := items[..|items| - 1];
      seq(|items|, i requires 0 <= i < |items| => ScalarText(items[i].1.scalar))
        == seq(|front|, i requires 0 <= i < |front| => ScalarText(front[i].1.scalar))
           + [ScalarText(items[|items| - 1].1.scalar)]
  {
    var front := items[..|items| - 1];
    var a := seq(|items|, i requires 0 <= i < |items| => ScalarText(items[i].1.scalar));
    var b := seq(|front|, i requires 0 <= i < |front| => ScalarText(front[i].1.scalar));
    forall i | 0 <= i < |items| ensures a[i] == (b + [ScalarText(items[|items| - 1].1.scalar)])[i] {
      if i < |front| {
        assert front[i] == items[i];
      }
    }
  }

  // ---------------------------------------------------------------------------
  // Sub-select merge
  // ---------------------------------------------------------------------------

  /**
   * After a merge the parent's counter is the child's final counter, the text is
   * the child's without its trailing ';', and each name holds the child's value
   * when the child has one and the parent's otherwise.
   */
  lemma MergeEffects(text: string, child: Table, t: Table, k: string)
    ensures var merged := Merge(text, child, t);
      && merged.1.parameterIndex == child.parameterIndex
      && |merged.0| <= |text| && text[..|merged.0|] == merged.0
      && (merged.0 == [] || merged.0[|merged.0| - 1] != ';')
      && (forall i :: |merged.0| <= i < |text| ==> text[i] == ';')
      && Lookup(merged.1.parameters, k)
         == if LastLookup(child.parameters, k).Some? then LastLookup(child.parameters, k) else Lookup(t.parameters, k)
  {
    LookupPutAll(t.parameters, child.parameters, k);
  }



  /**
   * A child that already holds `:p0` from an earlier render overwrites the parent's
   * own `:p0` when it is merged, even though the parent's counter had moved past it.
   */
  lemma StaleChildEntryOverwrites()
    ensures var child := EmptySelect("t", [(Pos(0), Scalar(Str("a")))]).(parameters := [(":p0", Int(7))]);
      && SelectOk(child)
      && Lookup(MergeSubSelect(child, Table([(":p0", Int(1))], 1)).1.parameters, ":p0") == Some(Int(7))
  {
    var child := EmptySelect("t", [(Pos(0), Scalar(Str("a")))]).(parameters := [(":p0", Int(7))]);
    var c0 := Table(child.parameters, 1);
    assert child.fields[..0] == [];
    assert FieldTerms(child.fields, c0).1 == c0;
    var rendered := RenderSelect(child, c0).1;
    assert rendered == c0;
    LookupPutAll([(":p0", Int(1))], [(":p0", Int(7))], ":p0");
  }

  // ---------------------------------------------------------------------------
  // Joins and unions
  // ---------------------------------------------------------------------------

  lemma JoinsOkConcat(a: seq<Join>, b: seq<Join>)
    requires JoinsOk(a) && JoinsOk(b)
    ensures JoinsOk(a + b)
  {
    forall i | 0 <= i < |a + b| ensures InputOk((a + b)[i].on) {
      if i < |a| {
        assert (a + b)[i] == a[i];
      } else {
        assert (a + b)[i] == b[i - |a|];
      }
    }
  }

  /** The counter a + b leaves is the one b leaves when rendered from a's counter. */
  lemma {:induction false} JoinsConcatTable(a: seq<Join>, b: seq<Join>, t: Table)
    requires JoinsOk(a) && JoinsOk(b) && JoinsOk(a + b)
    ensures PrepareJoins(a + b, t).1 == PrepareJoins(b, PrepareJoins(a, t).1).1
    decreases |b|
  {
    if b == [] {
      assert a + b == a;
    } else {
      var front := b[..|b| - 1];
      var last := b[|b| - 1];
      JoinsSnoc(front, b, last, PrepareJoins(a, t).1);
      JoinsSnoc(a + front, a + b, last, t);
      JoinsConcatTable(a, front, t);
    }
  }

  /**
   * Join descriptors render one after another with nothing between them: the text
   * of a + b is the text of a followed by the text of b, rendered from the
   * counter a left.
   */
  lemma JoinsConcat(a: seq<Join>, b: seq<Join>, t: Table)
    requires JoinsOk(a) && JoinsOk(b)
    ensures JoinsOk(a + b)
    ensures PrepareJoins(a + b, t).0 == PrepareJoins(a, t).0 + PrepareJoins(b, PrepareJoins(a, t).1).0
    ensures PrepareJoins(a + b, t).1 == PrepareJoins(b, PrepareJoins(a, t).1).1
  {
    JoinsOkConcat(a, b);
    JoinsConcatTable(a, b, t);
    JoinsConcatText(a, b, t);
  }

  lemma {:induction false} JoinsConcatText(a: seq<Join>, b: seq<Join>, t: Table)
    requires JoinsOk(a) && JoinsOk(b) && JoinsOk(a + b)
    ensures PrepareJoins(a + b, t).0 == PrepareJoins(a, t).0 + PrepareJoins(b, PrepareJoins(a, t).1).0
    decreases |b|
  {
    var ra := PrepareJoins(a, t);
    if b == [] {
      assert a + b == a;
      assert ra.0 + "" == ra.0;
    } else {
      var front := b[..|b| - 1];
      var last := b[|b| - 1];
      JoinsSnoc(front, b, last, ra.1);
      JoinsSnoc(a + front, a + b, last, t);
      JoinsConcatText(a, front, t);
      JoinsConcatTable(a, front, t);
      var rf := PrepareJoins(front, ra.1);
      ConcatStep(PrepareJoins(a + b, t).0, PrepareJoins(a + front, t).0, JoinText(last, rf.1).0,
        ra.0, rf.0, PrepareJoins(b, ra.1).0);
    }
  }

  lemma ConcatStep(whole: string, init: string, part: string, x: string, y: string, rest: string)
    requires whole == init + part && init == x + y && rest == y + part
    ensures whole == x + rest
  {
  }

  /** Appending one descriptor appends its text, rendered from the counter the others left. */
  lemma JoinsSnoc(front: seq<Join>, js: seq<Join>, last: Join, t: Table)
    requires js == front + [last] && JoinsOk(js)
    ensures JoinsOk(front) && InputOk(last.on)
    ensures PrepareJoins(js, t).0 == PrepareJoins(front, t).0 + JoinText(last, PrepareJoins(front, t).1).0
    ensures PrepareJoins(js, t).1 == JoinText(last, PrepareJoins(front, t).1).1
  {
    assert js[..|js| - 1] == front && js[|js| - 1] == last;
    assert JoinsOk(front) by {
      forall i | 0 <= i < |front| ensures front[i] == js[i] { }
    }
  }

  /**
   * One descriptor: its keyword and table, then ` ON <predicate> ` only when `on`
   * is truthy (a raw ON string verbatim), then ' '; a falsy `on` binds nothing.
   */
  lemma JoinOnlyWhenTruthy(j: Join, t: Table)
    requires InputOk(j.on)
    ensures JoinsOk([j]) && PrepareJoins([j], t) == JoinText(j, t)
    ensures !InputTruthy(j.on) ==> JoinText(j, t) == (JoinKeyword(j.kind) + j.target + " ", t)
    ensures InputTruthy(j.on) ==> var (w, t1) := PrepareWhere(j.on, false, "", t);
      JoinText(j, t) == (JoinKeyword(j.kind) + j.target + " ON " + w + " " + " ", t1)
    ensures j.on.Text? && Truthy(j.on.text) ==>
      JoinText(j, t) == (JoinKeyword(j.kind) + j.target + " ON " + j.on.text + " " + " ", t)
  {
    assert JoinsOk([j]) by {
      forall i | 0 <= i < 1 ensures InputOk([j][i].on) {
        assert [j][i] == j;
      }
    }
    assert [j][..0] == [];
    assert PrepareJoins([j][..0], t) == ("", t);
    var (part, t2) := JoinText(j, t);
    assert PrepareJoins([j], t) == ("" + part, t2);
    assert "" + part == part;
    var head := JoinKeyword(j.kind) + j.target;
    if InputTruthy(j.on) {
      var (w, t1) := PrepareWhere(j.on, false, "", t);
      assert JoinOn(j.on, t) == (" ON " + w + " ", t1);
      assert JoinText(j, t) == (head + (" ON " + w + " ") + " ", t1);
      assert head + (" ON " + w + " ") + " " == head + " ON " + w + " " + " ";
      if j.on.Text? {
        assert w == "" + j.on.text == j.on.text;
      }
    } else {
      assert JoinText(j, t) == (head + "" + " ", t);
      assert head + "" + " " == head + " ";
    }
  }

  predicate ScalarTerms(items: seq<(Key, Value)>) {
    forall i :: 0 <= i < |items| ==> items[i].1.Scalar?
  }

  /**
   * Terms of plain scalars rendered without binding leave the table as it is, and
   * each term is rendered on its own from that table.
   */
  lemma {:induction false} UnboundScalarTerms(items: seq<(Key, Value)>, t: Table)
    requires TermsOk(items) && ScalarTerms(items)
    ensures WhereTerms(items, false, t).1 == t
    ensures forall i :: 0 <= i < |items| ==> WhereTerms(items, false, t).0[i] == WhereItem(items[i].0.name, items[i].1, false, t).0
  {
    if items != [] {
      var front := items[..|items| - 1];
      var last := items[|items| - 1];
      assert TermsOk(front) && ScalarTerms(front) by {
        forall i | 0 <= i < |front| ensures front[i] == items[i] { }
      }
      UnboundScalarTerms(front, t);
      var terms := WhereTerms(front, false, t).0;
      var term := WhereItem(last.0.name, last.1, false, t);
      UnboundScalarTerm(last.0.name, last.1.scalar, t);
      assert WhereTerms(items, false, t) == (terms + [term.0], t);
      TermsSnoc(items, terms, term.0, t);
    }
  }

  lemma UnboundScalarTerm(key: string, x: Scalar, t: Table)
    ensures WhereItem(key, Scalar(x), false, t).1 == t
  {
  }

  lemma TermsSnoc(items: seq<(Key, Value)>, terms: seq<string>, term: string, t: Table)
    requires items != [] && TermsOk(items) && |terms| == |items| - 1
    requires forall i :: 0 <= i < |items| - 1 ==> terms[i] == WhereItem(items[i].0.name, items[i].1, false, t).0
    requires term == WhereItem(items[|items| - 1].0.name, items[|items| - 1].1, false, t).0
    ensures forall i :: 0 <= i < |items| ==> (terms + [term])[i] == WhereItem(items[i].0.name, items[i].1, false, t).0
  {
  }

  /**
   * `joinOn` over plain scalar values binds nothing: the values are written into
   * the text (as `ScalarTermBinding` shows term by term); only IN lists and
   * sub-selects in an ON predicate allocate placeholders.
   */
  lemma JoinOnScalars(items: seq<(Key, Value)>, t: Table)
    requires TermsOk(items) && ScalarTerms(items) && items != []
    ensures var (text, t1) := JoinOn(Terms(items), t);
      var terms := WhereTerms(items, false, t).0;
      && t1 == t
      && text == " ON " + Implode(" AND ", terms) + " "
      && |terms| == |items|
      && forall i :: 0 <= i < |items| ==> terms[i] == WhereItem(items[i].0.name, items[i].1, false, t).0
  {
    UnboundScalarTerms(items, t);
  }

  /** `innerJoin('t', ['k' => x])`: ` ON `k`=x `, with x written out and nothing bound. */
  lemma JoinOnOneScalar(key: string, x: Scalar, t: Table)
    requires x != Null && ' ' !in key && !(IsNumeric(key) && x.Str?)
    ensures JoinOn(Terms([(Named(key), Scalar(x))]), t) == (" ON " + PrepareKey(key) + "=" + ScalarText(x) + " ", t)
  {
    var items := [(Named(key), Scalar(x))];
    assert TermsOk(items);
    JoinOnScalars(items, t);
    ScalarTermBinding(key, x, t);
    var terms := WhereTerms(items, false, t).0;
    assert terms[0] == PrepareKey(key) + "=" + ScalarText(x);
    OnText(JoinOn(Terms(items), t).0, terms, PrepareKey(key), ScalarText(x));
  }

  lemma OnText(text: string, terms: seq<string>, k: string, v: string)
    requires |terms| == 1 && terms[0] == k + "=" + v && text == " ON " + Implode(" AND ", terms) + " "
    ensures text == " ON " + k + "=" + v + " "
  {
    assert Implode(" AND ", terms) == terms[0];
  }

  /** Every prefix of a well-typed union list is well-typed. */
  lemma UnionPrefixOk(us: seq<Option<Select>>, i: nat)
    requires UnionOk(us) && i <= |us|
    ensures UnionOk(us[..i])
  {
    forall j | 0 <= j < i ensures us[..i][j] == us[j] { }
  }

  /** Union members are merged in order, each from the counter the members before it left. */
  lemma UnionTextsInOrder(us: seq<Option<Select>>, t: Table, i: nat)
    requires UnionOk(us) && i < |us|
    ensures UnionOk(us[..i])
    ensures UnionTexts(us, t).0[i] == MergeSubSelect(us[i].value, UnionTexts(us[..i], t).1).0
  {
    var head := us[..i + 1];
    UnionPrefixOk(us, i + 1);
    UnionPrefixTexts(us, t, i + 1);
    UnionSnoc(head, t);
    assert head[..i] == us[..i] && head[i] == us[i];
  }

  /** The texts of a prefix of the members are a prefix of the texts. */
  lemma {:induction false} UnionPrefixTexts(us: seq<Option<Select>>, t: Table, n: nat)
    requires UnionOk(us) && n <= |us|
    ensures UnionOk(us[..n])
    ensures UnionTexts(us[..n], t).0 == UnionTexts(us, t).0[..n]
    decreases |us|
  {
    UnionPrefixOk(us, n);
    if n == |us| {
      assert us[..n] == us;
    } else {
      var front := us[..|us| - 1];
      UnionSnoc(us, t);
      UnionPrefixTexts(front, t, n);
      assert front[..n] == us[..n];
    }
  }

  /** The last member's text comes after the others', merged from the counter they left. */
  lemma UnionSnoc(us: seq<Option<Select>>, t: Table)
    requires UnionOk(us) && us != []
    ensures UnionOk(us[..|us| - 1])
    ensures var (parts, t1) := UnionTexts(us[..|us| - 1], t);
      && UnionTexts(us, t).0 == parts + [MergeSubSelect(us[|us| - 1].value, t1).0]
      && (forall j :: 0 <= j < |parts| ==> UnionTexts(us, t).0[j] == parts[j])
      && UnionTexts(us, t).0[|parts|] == MergeSubSelect(us[|us| - 1].value, t1).0
  {
    UnionPrefixOk(us, |us| - 1);
  }

  /**
   * `prepareTable` with unions: `((m1<sep>m2...)) AS table` over the members merged
   * in order; the separator is `) UNION ALL (` exactly when `unionAll` is set,
   * else `) UNION DISTINCT (`, and it does not change what is bound.
   */
  lemma UnionTable(table: string, us: seq<Option<Select>>, unionAll: bool, t: Table)
    requires UnionOk(us) && us != []
    ensures var (parts, t1) := UnionTexts(us, t);
      && PrepareTable(table, us, unionAll, t) == ("((" + Implode(UnionSeparator(unionAll), parts) + ")) AS " + table, t1)
      && |parts| == |us|
      && forall i :: 0 <= i < |us| ==> UnionOk(us[..i]) && parts[i] == MergeSubSelect(us[i].value, UnionTexts(us[..i], t).1).0
    ensures UnionSeparator(unionAll) == if unionAll then "\r\n) UNION ALL (\r\n" else "\r\n) UNION DISTINCT (\r\n"
    ensures PrepareTable(table, us, true, t).1 == PrepareTable(table, us, false, t).1
  {
    var parts := UnionTexts(us, t).0;
    assert PrepareTable(table, us, true, t).1 == UnionTexts(us, t).1;
    assert PrepareTable(table, us, false, t).1 == UnionTexts(us, t).1;
    forall i | 0 <= i < |us|
      ensures UnionOk(us[..i]) && parts[i] == MergeSubSelect(us[i].value, UnionTexts(us[..i], t).1).0
    {
      UnionTextsInOrder(us, t, i);
    }
  }

  // ---------------------------------------------------------------------------
  // INSERT columns and rows
  // ---------------------------------------------------------------------------

  /** A named, non-numeric entry holding no sub-select is a column under its own key. */
  lemma NamedColumn(item: (Key, Value))
    requires !item.1.Sub? && !IsNumericKey(item.0)
    ensures ColumnOk(item) && ColumnName(item) == PrepareKey(item.0.name)
  {
  }

  /** A row with named keys and no nested value lists its keys, quoted, in order. */
  lemma ColumnsOfNamedRow(row: seq<(Key, Value)>)
    requires forall i :: 0 <= i < |row| ==> !row[i].1.Nested? && !row[i].1.Sub? && !IsNumericKey(row[i].0)
    ensures ColumnsOk(Nested(row))
    ensures row != [] ==>
      InsertColumns(row) == Parenthesize(seq(|row|, i requires 0 <= i < |row| => PrepareKey(row[i].0.name)))
  {
    FlatLevel(row);
    NamedColumns(row);
    FlatColumns(row);
  }

  /** The names of named, non-numeric columns are their quoted keys. */
  lemma NamedColumns(row: seq<(Key, Value)>)
    requires forall i :: 0 <= i < |row| ==> !row[i].1.Sub? && !IsNumericKey(row[i].0)
    ensures forall i :: 0 <= i < |row| ==> ColumnOk(row[i])
    ensures ColumnNames(row) == seq(|row|, i requires 0 <= i < |row| => PrepareKey(row[i].0.name))
  {
    forall i | 0 <= i < |row| ensures ColumnOk(row[i]) {
      NamedColumn(row[i]);
    }
    var quoted := seq(|row|, i requires 0 <= i < |row| => PrepareKey(row[i].0.name));
    var names := ColumnNames(row);
    forall i | 0 <= i < |row| ensures names[i] == quoted[i] {
      NamedColumn(row[i]);
    }
  }

  /** Without a nested entry the columns are this level's names, parenthesised. */
  lemma FlatColumns(row: seq<(Key, Value)>)
    requires ColumnsOk(Nested(row)) && FirstNested(row) == |row|
    ensures forall i :: 0 <= i < |row| ==> ColumnOk(row[i])
    ensures InsertColumns(row) == if row == [] then "" else Parenthesize(ColumnNames(row))
  {
  }

  /** A level without nested entries is listed entry by entry. */
  lemma FlatLevel(row: seq<(Key, Value)>)
    requires forall i :: 0 <= i < |row| ==> !row[i].1.Nested? && !row[i].1.Sub? && !IsNumericKey(row[i].0)
    ensures FirstNested(row) == |row| && ColumnsOk(Nested(row))
    ensures forall i :: 0 <= i < |row| ==> ColumnOk(row[i])
  {
    var j := FirstNested(row);
    if j < |row| {
      assert false;
    }
  }

  /** A list of rows takes its columns from the first row alone. */
  lemma ColumnsOfRows(first: seq<(Key, Value)>, rest: seq<(Key, Value)>)
    requires ColumnsOk(Nested(first))
    ensures ColumnsOk(Nested([(Pos(0), Nested(first))] + rest))
    ensures InsertColumns([(Pos(0), Nested(first))] + rest) == InsertColumns(first)
  {
    var data := [(Pos(0), Nested(first))] + rest;
    assert FirstNested(data) == 0;
  }

  /**
   * Two rows become two tuples joined by ','; the second row is rendered from the
   * counter the first row left (for flat rows, `FlatRow` gives each tuple's names).
   */
  lemma TwoRows(r1: seq<(Key, Value)>, r2: seq<(Key, Value)>, t: Table)
    requires RowsOk(Nested(r1)) && RowsOk(Nested(r2))
    ensures RowsOk(Nested([(Pos(0), Nested(r1)), (Pos(1), Nested(r2))]))
    ensures var (first, t1) := InsertValues(r1, t);
      var (second, t2) := InsertValues(r2, t1);
      InsertValues([(Pos(0), Nested(r1)), (Pos(1), Nested(r2))], t) == (first + "," + second, t2)
  {
    var (first, t1) := InsertValues(r1, t);
    var (second, t2) := InsertValues(r2, t1);
    var one := [(Pos(0), Nested(r1))];
    var rows := [(Pos(0), Nested(r1)), (Pos(1), Nested(r2))];
    OneRow(r1, t);
    RowAfterRow(one, r2, t);
    assert one + [(Pos(|one|), Nested(r2))] == rows;
    var v := ValueParts(rows, t);
    assert v.0 == [first, second] && !v.1 && v.2 == t2;
    assert Implode(",", [first, second]) == Implode(",", [first]) + "," + second;
  }

  /** A single nested row renders as its own tuple. */
  lemma OneRow(r: seq<(Key, Value)>, t: Table)
    requires RowsOk(Nested(r))
    ensures RowsOk(Nested([(Pos(0), Nested(r))]))
    ensures ValueParts([(Pos(0), Nested(r))], t) == ([InsertValues(r, t).0], false, InsertValues(r, t).1)
  {
    var rows := [(Pos(0), Nested(r))];
    assert rows[..0] == [];
    assert ValueParts(rows[..0], t) == ([], false, t);
    assert rows[0].1 == Nested(r);
    var v := ValueParts(rows, t);
    assert v.0 == [InsertValues(r, t).0];
    assert !v.1;
    assert v.2 == InsertValues(r, t).1;
  }

  /** One more nested row adds its tuple after the earlier ones, from their final counter. */
  lemma RowAfterRow(rows: seq<(Key, Value)>, r: seq<(Key, Value)>, t: Table)
    requires RowsOk(Nested(rows)) && RowsOk(Nested(r))
    requires forall i :: 0 <= i < |rows| ==> rows[i].1.Nested?
    ensures RowsOk(Nested(rows + [(Pos(|rows|), Nested(r))]))
    ensures var (parts, flag, t1) := ValueParts(rows, t);
      ValueParts(rows + [(Pos(|rows|), Nested(r))], t) == (parts + [InsertValues(r, t1).0], false, InsertValues(r, t1).1)
  {
    var all := rows + [(Pos(|rows|), Nested(r))];
    assert all[..|all| - 1] == rows;
  }
}
