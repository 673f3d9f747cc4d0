/**
 * The small part of PHP's runtime behaviour that the statement compiler relies on:
 * scalar values and their string conversion, truthiness of strings, decimal
 * formatting, `is_numeric`, `str_contains`, `rtrim`, `implode`, and PHP's ordered
 * arrays (an ordered map whose assignment overwrites an existing key in place and
 * appends a new key at the end).
 */
module Php {

  datatype Option<+T> = None | Some(value: T)

  /** The scalar values a statement binds to a placeholder (floats are not modelled). */
  datatype Scalar = Null | Bool(b: bool) | Int(i: int) | Str(s: string)

  /** A PHP array key: a string key, or an integer key (PHP turns "5" into 5). */
  datatype Key = Named(name: string) | Pos(index: nat)

  /** PHP's truthiness of a string: everything except "" and "0". */
  predicate Truthy(s: string) {
    s != "" && s != "0"
  }

  // ---------------------------------------------------------------------------
  // Decimal formatting (sprintf('%d'), strval of an int)
  // ---------------------------------------------------------------------------

  function DigitChar(d: nat): char
    requires d < 10
  {
    "0123456789"[d]
  }

  predicate IsDigit(c: char) {
    '0' <= c <= '9'
  }

  function NatToString(n: nat): (r: string)
    ensures |r| >= 1
    ensures forall i :: 0 <= i < |r| ==> IsDigit(r[i])
    ensures n < 10 <==> |r| == 1
  {
    if n < 10 then [DigitChar(n)] else NatToString(n / 10) + [DigitChar(n % 10)]
  }

  function IntToString(i: int): string {
    if i < 0 then "-" + NatToString(-i) else NatToString(i)
  }

  /** Different numbers have different decimal spellings. */
  lemma {:induction false} NatToStringInjective(a: nat, b: nat)
    requires NatToString(a) == NatToString(b)
    ensures a == b
  {
    var sa, sb := NatToString(a), NatToString(b);
    if a >= 10 && b >= 10 {
      assert sa[|sa| - 1] == DigitChar(a % 10) && sb[|sb| - 1] == DigitChar(b % 10);
      assert "0123456789"[a % 10] == "0123456789"[b % 10];
      assert a % 10 == b % 10;
      assert sa[..|sa| - 1] == NatToString(a / 10);
      assert sb[..|sb| - 1] == NatToString(b / 10);
      NatToStringInjective(a / 10, b / 10);
    } else if a < 10 && b < 10 {
      assert "0123456789"[a] == "0123456789"[b];
    }
  }

  /** sprintf('%s', v) and strval(v) of a scalar: null and false print as "", true as "1". */
  function ScalarText(v: Scalar): (r: string)
    ensures v.Str? ==> r == v.s
    ensures v.Null? ==> r == ""
  {
    match v
    case Null => ""
    case Bool(b) => if b then "1" else ""
    case Int(i) => IntToString(i)
    case Str(s) => s
  }

  // ---------------------------------------------------------------------------
  // String helpers
  // ---------------------------------------------------------------------------

  /** str_contains(haystack, needle). */
  predicate Contains(haystack: string, needle: string)
    decreases |haystack|
  {
    |needle| <= |haystack| && (haystack[..|needle|] == needle || Contains(haystack[1..], needle))
  }

  /** rtrim(s, c) for a single character: strips every trailing c. */
  function RTrim(s: string, c: char): (r: string)
    ensures |r| <= |s| && r == s[..|r|]
    ensures r == [] || r[|r| - 1] != c
    ensures forall i :: |r| <= i < |s| ==> s[i] == c
  {
    if s == [] || s[|s| - 1] != c then s else RTrim(s[..|s| - 1], c)
  }

  /** implode(sep, parts). */
  function Implode(sep: string, parts: seq<string>): (r: string)
    ensures parts == [] ==> r == ""
    ensures |parts| == 1 ==> r == parts[0]
  {
    if parts == [] then ""
    else if |parts| == 1 then parts[0]
    else Implode(sep, parts[..|parts| - 1]) + sep + parts[|parts| - 1]
  }

  // ---------------------------------------------------------------------------
  // is_numeric and intval on strings (PHP 8 numeric-string grammar)
  // ---------------------------------------------------------------------------

  predicate IsWhitespace(c: char) {
    c == ' ' || c == '\t' || c == '\n' || c == '\r' || c == '\U{B}' || c == '\U{C}'
  }

  function TrimLeadingWs(s: string): (r: string)
    ensures |r| <= |s|
  {
    if s != [] && IsWhitespace(s[0]) then TrimLeadingWs(s[1..]) else s
  }

  function TrimTrailingWs(s: string): (r: string)
    ensures |r| <= |s|
  {
    if s != [] && IsWhitespace(s[|s| - 1]) then TrimTrailingWs(s[..|s| - 1]) else s
  }

  predicate AllDigits(s: string) {
    forall i :: 0 <= i < |s| ==> IsDigit(s[i])
  }

  /** Index of the first character of s for which p holds, or |s|. */
  function FirstIndex(s: string, p: char -> bool): (r: nat)
    ensures r <= |s|
    ensures r < |s| ==> p(s[r])
    ensures forall j :: 0 <= j < r ==> !p(s[j])
  {
    if s == [] then 0 else if p(s[0]) then 0 else 1 + FirstIndex(s[1..], p)
  }

  function DropSign(s: string): string {
    if s != [] && (s[0] == '+' || s[0] == '-') then s[1..] else s
  }

  /** LNUM or DNUM: digits with at most one '.', and at least one digit. */
  predicate IsMantissa(m: string) {
    var d := FirstIndex(m, c => c == '.');
    if d == |m| then |m| > 0 && AllDigits(m)
    else |m| > 1 && AllDigits(m[..d]) && AllDigits(m[d + 1..])
  }

  /** The part after the optional sign: a mantissa and an optional exponent. */
  predicate IsUnsignedNumber(s: string) {
    var e := FirstIndex(s, c => c == 'e' || c == 'E');
    if e == |s| then IsMantissa(s)
    else IsMantissa(s[..e]) && var x := DropSign(s[e + 1..]); |x| > 0 && AllDigits(x)
  }

  /** is_numeric(s): optional surrounding whitespace, optional sign, a decimal number. */
  predicate IsNumeric(s: string) {
    IsUnsignedNumber(DropSign(TrimTrailingWs(TrimLeadingWs(s))))
  }

  /** A statement text made of a head, four parts and a closing semicolon starts with the head and ends with the semicolon. */
  lemma Framed(head: string, a: string, b: string, c: string, d: string)
    ensures var text := head + a + b + c + d + ";";
      |text| > |head| && text[..|head|] == head && text[|text| - 1] == ';'
  {
    var text := head + a + b + c + d + ";";
    assert text == head + (a + b + c + d + ";");
  }

  /** The empty string is not numeric. */
  lemma NumericIsNonEmpty(s: string)
    ensures IsNumeric(s) ==> s != []
  {
  }

  /** is_numeric of an array key: integer keys are numeric. */
  predicate IsNumericKey(k: Key) {
    k.Pos? || IsNumeric(k.name)
  }

  function DigitsValue(s: string): (r: nat)
    requires AllDigits(s)
  {
    if s == [] then 0 else 10 * DigitsValue(s[..|s| - 1]) + (s[|s| - 1] as int - '0' as int)
  }

  function LeadingDigits(s: string): (r: string)
    ensures |r| <= |s| && AllDigits(r) && r == s[..|r|]
  {
    if s != [] && IsDigit(s[0]) then [s[0]] + LeadingDigits(s[1..]) else []
  }

  /** The exponent an `e` or `E` part spells out: a sign and at least one digit, else 0. */
  function ExponentOf(s: string): int {
    if s != [] && (s[0] == 'e' || s[0] == 'E') then
      var d := LeadingDigits(DropSign(s[1..]));
      var e: int := if d == [] then 0 else DigitsValue(d);
      if |s| > 1 && s[1] == '-' then -e else e
    else 0
  }

  /**
   * The unsigned decimal number at the start of u, as digits and a power of ten:
   * "12.5e2x" is 125 * 10^1. With no digit before or after the point it is 0.
   */
  function LeadingDecimal(u: string): (r: (nat, int)) {
    var whole := LeadingDigits(u);
    var rest := u[|whole|..];
    var point := rest != [] && rest[0] == '.';
    var fraction := if point then LeadingDigits(rest[1..]) else [];
    var after := if point then rest[1 + |fraction|..] else rest;
    if whole == [] && fraction == [] then (0, 0)
    else
      assert AllDigits(whole + fraction) by {
        forall i | 0 <= i < |whole + fraction| ensures IsDigit((whole + fraction)[i]) {
          if i < |whole| { assert (whole + fraction)[i] == whole[i]; }
          else { assert (whole + fraction)[i] == fraction[i - |whole|]; }
        }
      }
      (DigitsValue(whole + fraction), ExponentOf(after) - |fraction|)
  }

  /** m * 10^k, truncated toward zero when k is negative. */
  function Scale(m: nat, k: int): nat
    decreases if k < 0 then -k else k
  {
    if k == 0 then m else if k > 0 then Scale(10 * m, k - 1) else Scale(m / 10, k + 1)
  }

  /**
   * intval(s) (and sprintf('%d') of a string): leading whitespace, an optional
   * sign, then the longest decimal number PHP reads there, with a fraction and an
   * exponent, truncated toward zero; 0 when no number starts the string.
   */
  function IntVal(s: string): int {
    var t := TrimLeadingWs(s);
    var negative := t != [] && t[0] == '-';
    var (m, k) := LeadingDecimal(DropSign(t));
    var n: int := Scale(m, k);
    if negative then -n else n
  }

  /** intval is negative only for a string that starts, after whitespace, with a minus sign. */
  lemma IntValSign(s: string)
    ensures IntVal(s) < 0 ==> TrimLeadingWs(s) != [] && TrimLeadingWs(s)[0] == '-'
  {
  }

  /** A non-empty string of digits is numeric. */
  lemma DigitsAreNumeric(s: string)
    requires s != [] && AllDigits(s)
    ensures IsNumeric(s) && IsUnsignedNumber(s)
  {
    assert IsDigit(s[0]) && IsDigit(s[|s| - 1]);
    assert TrimLeadingWs(s) == s && TrimTrailingWs(s) == s && DropSign(s) == s;
    FirstIndexNone(s, c => c == 'e' || c == 'E');
    FirstIndexNone(s, c => c == '.');
  }

  /** intval of a string of digits is its decimal value. */
  lemma IntValDigits(s: string)
    requires AllDigits(s)
    ensures IntVal(s) == DigitsValue(s)
  {
    if s != [] {
      assert IsDigit(s[0]);
      assert TrimLeadingWs(s) == s && DropSign(s) == s;
      WholeDecimal(s);
    }
  }

  /** A non-empty string of digits is a whole number of its value. */
  lemma WholeDecimal(s: string)
    requires s != [] && AllDigits(s)
    ensures LeadingDecimal(s) == (DigitsValue(s), 0)
  {
    LeadingDigitsAll(s);
    assert s[|s|..] == [] && s + [] == s;
    assert ExponentOf([]) == 0;
  }

  /** A string of digits is read back whole. */
  lemma {:induction false} LeadingDigitsAll(s: string)
    requires AllDigits(s)
    ensures LeadingDigits(s) == s
    decreases |s|
  {
    if s != [] {
      LeadingDigitsAll(s[1..]);
      assert [s[0]] + s[1..] == s;
    }
  }

  /** The decimal spelling of n has the value n. */
  lemma {:induction false} NatToStringValue(n: nat)
    ensures DigitsValue(NatToString(n)) == n
    decreases n
  {
    var r := NatToString(n);
    if n < 10 {
      assert r[..0] == [];
      assert r[0] == "0123456789"[n];
    } else {
      NatToStringValue(n / 10);
      assert r[..|r| - 1] == NatToString(n / 10);
      assert r[|r| - 1] == "0123456789"[n % 10];
    }
  }

  /** FirstIndex finds nothing when no character qualifies. */
  lemma FirstIndexNone(s: string, p: char -> bool)
    requires forall i :: 0 <= i < |s| ==> !p(s[i])
    ensures FirstIndex(s, p) == |s|
  {
  }

  /** The digits of n form an unsigned number that reads back as n. */
  lemma DigitsSpelling(n: nat)
    ensures IsUnsignedNumber(NatToString(n)) && LeadingDecimal(NatToString(n)) == (n, 0)
  {
    var d := NatToString(n);
    DigitsAreNumeric(d);
    WholeDecimal(d);
    NatToStringValue(n);
  }

  /**
   * The decimal spelling of i is numeric, has no leading whitespace, starts with
   * '-' exactly when i is negative, and reads back as |i| without fraction.
   */
  lemma DecimalSpelling(i: int)
    ensures var s := IntToString(i);
      var t := TrimLeadingWs(s);
      && IsNumeric(s) && t == s
      && (t != [] && t[0] == '-' <==> i < 0)
      && LeadingDecimal(DropSign(t)) == (if i < 0 then -i else i, 0)
  {
    SpellingShape(i);
    DigitsSpelling(if i < 0 then -i else i);
  }

  /** The decimal spelling of i has no surrounding whitespace and is |i|'s digits after an optional minus sign. */
  lemma SpellingShape(i: int)
    ensures var s := IntToString(i);
      && TrimLeadingWs(s) == s && TrimTrailingWs(s) == s
      && (s[0] == '-' <==> i < 0)
      && DropSign(s) == NatToString(if i < 0 then -i else i)
  {
    var n: nat := if i < 0 then -i else i;
    var d := NatToString(n);
    var s := IntToString(i);
    assert !IsWhitespace(s[0]) && !IsWhitespace(s[|s| - 1]);
    if i < 0 {
      assert s[1..] == d;
    }
  }

  /** intval reads back what sprintf('%d') writes. */
  lemma IntValOfIntToString(i: int)
    ensures IntVal(IntToString(i)) == i
  {
    DecimalSpelling(i);
  }

  /** intval("1e3") is 1000: the exponent counts. */
  lemma IntValExponent()
    ensures IntVal("1e3") == 1000
  {
    var s := "1e3";
    assert !IsWhitespace(s[0]) && TrimLeadingWs(s) == s && DropSign(s) == s;
    assert s[1..] == "e3" && "e3"[1..] == "3" && "3"[1..] == [] && "1"[..0] == [] && "3"[..0] == [];
    assert LeadingDigits("e3") == [] && LeadingDigits("3") == "3" && LeadingDigits(s) == "1";
    assert s[|"1"|..] == "e3";
    assert DigitsValue("3") == 3 && ExponentOf("e3") == 3;
    assert "1" + [] == "1" && DigitsValue("1") == 1;
    assert LeadingDecimal(s) == (1, 3);
    assert Scale(1, 3) == 1000;
  }

  /** "1e3" is a numeric string. */
  lemma ExponentIsNumeric()
    ensures IsNumeric("1e3")
  {
    var s := "1e3";
    assert !IsWhitespace(s[0]) && !IsWhitespace(s[|s| - 1]);
    assert TrimLeadingWs(s) == s && TrimTrailingWs(s) == s && DropSign(s) == s;
    assert s[1..] == "e3" && s[..1] == "1" && s[2..] == "3";
    var e := FirstIndex(s, c => c == 'e' || c == 'E');
    assert e == 1;
    assert FirstIndex("1", c => c == '.') == 1;
    assert IsMantissa("1");
  }

  /** intval("-2.9") is -2: a fraction truncates toward zero. */
  lemma IntValFraction()
    ensures IntVal("-2.9") == -2
  {
    var s := "-2.9";
    var u := "2.9";
    assert !IsWhitespace(s[0]) && TrimLeadingWs(s) == s && s[1..] == u && DropSign(s) == u;
    assert u[1..] == ".9" && ".9"[1..] == "9" && "9"[1..] == [] && "2"[..0] == [] && "9"[..0] == [];
    assert LeadingDigits(".9") == [] && LeadingDigits("9") == "9" && LeadingDigits(u) == "2";
    assert u[|"2"|..] == ".9" && ".9"[1 + 1..] == [] && ExponentOf([]) == 0;
    assert "2" + "9" == "29" && "29"[..1] == "2" && "29"[1] == '9';
    assert DigitsValue("2") == 2 && DigitsValue("29") == 29;
    assert LeadingDecimal(u) == (29, -1);
    assert Scale(29, -1) == 2;
  }

  /** Text after the number is ignored, and a string without one reads as 0. */
  lemma IntValText()
    ensures IntVal("7px") == 7
    ensures IntVal("px") == 0
  {
    var s := "7px";
    assert !IsWhitespace(s[0]) && TrimLeadingWs(s) == s && DropSign(s) == s;
    assert s[1..] == "px" && "7"[..0] == [];
    assert LeadingDigits("px") == [] && LeadingDigits(s) == "7";
    assert s[|"7"|..] == "px" && ExponentOf("px") == 0;
    assert "7" + [] == "7" && DigitsValue("7") == 7;
    assert LeadingDecimal(s) == (7, 0);
    assert !IsWhitespace("px"[0]) && TrimLeadingWs("px") == "px" && DropSign("px") == "px";
    assert LeadingDecimal("px") == (0, 0);
  }

  // ---------------------------------------------------------------------------
  // Ordered maps (PHP arrays)
  // ---------------------------------------------------------------------------

  function Keys<K, V>(m: seq<(K, V)>): (ks: seq<K>)
    ensures |ks| == |m|
    ensures forall i :: 0 <= i < |m| ==> ks[i] == m[i].0
  {
    if m == [] then [] else Keys(m[..|m| - 1]) + [m[|m| - 1].0]
  }

  predicate UniqueKeys<K(==), V>(m: seq<(K, V)>) {
    forall i, j :: 0 <= i < j < |m| ==> m[i].0 != m[j].0
  }

  /** Position of key k in m, or |m| when k is absent. */
  function Find<K(==), V>(m: seq<(K, V)>, k: K): (r: nat)
    ensures r <= |m|
    ensures r < |m| ==> m[r].0 == k
    ensures forall j :: 0 <= j < r ==> m[j].0 != k
  {
    if m == [] then 0 else if m[0].0 == k then 0 else 1 + Find(m[1..], k)
  }

  /** `$m[$k] = $v`: overwrite in place when k is present, append otherwise. */
  function Put<K(==), V>(m: seq<(K, V)>, k: K, v: V): (r: seq<(K, V)>)
    ensures Find(m, k) < |m| ==> r == m[Find(m, k) := (k, v)]
    ensures Find(m, k) == |m| ==> r == m + [(k, v)]
  {
    var i := Find(m, k);
    if i < |m| then m[i := (k, v)] else m + [(k, v)]
  }

  /** `foreach ($entries as $k => $v) $m[$k] = $v;` */
  function PutAll<K(==), V>(m: seq<(K, V)>, entries: seq<(K, V)>): (r: seq<(K, V)>)
    ensures |r| >= |m|
  {
    if entries == [] then m
    else Put(PutAll(m, entries[..|entries| - 1]), entries[|entries| - 1].0, entries[|entries| - 1].1)
  }

  /** Value stored under k, if any. */
  function Lookup<K(==), V>(m: seq<(K, V)>, k: K): Option<V> {
    var i := Find(m, k);
    if i < |m| then Some(m[i].1) else None
  }

  /** Find is determined by its contract: the first position holding k, or |m|. */
  lemma FindIs<K, V>(m: seq<(K, V)>, k: K, i: nat)
    requires i <= |m| && (i < |m| ==> m[i].0 == k)
    requires forall j :: 0 <= j < i ==> m[j].0 != k
    ensures Find(m, k) == i
  {
  }

  /** After `$m[$k] = $v`, k maps to v and every other key maps to what it did before. */
  lemma LookupPut<K, V>(m: seq<(K, V)>, k: K, v: V, j: K)
    ensures Lookup(Put(m, k, v), j) == if j == k then Some(v) else Lookup(m, j)
  {
    var r := Put(m, k, v);
    var i := Find(m, k);
    var f := Find(m, j);
    if j == k {
      FindIs(r, k, i);
    } else if i < |m| {
      assert forall x :: 0 <= x < |m| ==> r[x].0 == m[x].0;
      FindIs(r, j, f);
    } else {
      assert forall x :: 0 <= x < |m| ==> r[x] == m[x];
      if f < |m| {
        FindIs(r, j, f);
      } else {
        FindIs(r, j, |r|);
      }
    }
  }

  /** Putting a key that is absent appends exactly that entry. */
  lemma PutAbsent<K, V>(m: seq<(K, V)>, k: K, v: V)
    requires forall i :: 0 <= i < |m| ==> m[i].0 != k
    ensures Put(m, k, v) == m + [(k, v)]
  {
    FindIs(m, k, |m|);
  }

  /** The value the last entry with key k in c carries, if any. */
  function LastLookup<K(==), V>(c: seq<(K, V)>, k: K): Option<V> {
    if c == [] then None
    else if c[|c| - 1].0 == k then Some(c[|c| - 1].1)
    else LastLookup(c[..|c| - 1], k)
  }

  /** After copying c into m, a key holds its last value in c, or its old value when c lacks it. */
  lemma {:induction false} LookupPutAll<K, V>(m: seq<(K, V)>, c: seq<(K, V)>, k: K)
    ensures Lookup(PutAll(m, c), k) == if LastLookup(c, k).Some? then LastLookup(c, k) else Lookup(m, k)
  {
    if c != [] {
      var front := c[..|c| - 1];
      LookupPutAll(m, front, k);
      LookupPut(PutAll(m, front), c[|c| - 1].0, c[|c| - 1].1, k);
    }
  }

  /** Copying entries into m leaves every key of m at its position; new keys go to the end. */
  lemma {:induction false} PutAllKeepsKeys<K, V>(m: seq<(K, V)>, c: seq<(K, V)>)
    ensures forall i :: 0 <= i < |m| ==> PutAll(m, c)[i].0 == m[i].0
  {
    if c != [] {
      PutAllKeepsKeys(m, c[..|c| - 1]);
    }
  }

  /** Copying entries into a map keeps its keys pairwise distinct. */
  lemma {:induction false} PutAllUnique<K, V>(m: seq<(K, V)>, c: seq<(K, V)>)
    requires UniqueKeys(m)
    ensures UniqueKeys(PutAll(m, c))
  {
    if c != [] {
      var p := PutAll(m, c[..|c| - 1]);
      PutAllUnique(m, c[..|c| - 1]);
      var k := c[|c| - 1].0;
      if Find(p, k) == |p| {
        var r := Put(p, k, c[|c| - 1].1);
        assert forall i :: 0 <= i < |p| ==> r[i] == p[i];
      }
    }
  }

  /** 1 + the largest integer key, or 0: the key `$list[] = ...` appends under. */
  function NextIndex<V>(list: seq<(Key, V)>): (r: nat)
    ensures forall i :: 0 <= i < |list| && list[i].0.Pos? ==> list[i].0.index < r
  {
    if list == [] then 0
    else
      var p := NextIndex(list[..|list| - 1]);
      match list[|list| - 1].0
      case Pos(n) => if n + 1 > p then n + 1 else p
      case Named(_) => p
  }
}
