/** Edge and feedback conditions evaluated against a model's JSON payload
    (`backend/app/workflows/conditions.py`). */
module Conditions {
  import opened Collections

  datatype Json =
    | JNull
    | JBool(flag: bool)
    | JNum(number: real)
    | JStr(text: string)
    | JArr(items: seq<Json>)
    | JObj(fields: map<string, Json>)

  datatype Operator =
    | Exists | NotExists | IsTrue | IsFalse | Eq | Ne | Gt | Gte | Lt | Lte | NonEmpty | Empty | Contains

  datatype Condition = Condition(path: string, operator: Operator, value: Json, description: string)

  /** What following a path gives: a value, the `_MISSING` sentinel, or an exception from `int`. */
  datatype Lookup = Found(value: Json) | Missing | LookupRaises

  datatype Verdict = Answer(holds: bool) | Raises

  // ---- characters and paths ------------------------------------------------

  /** The character data behind `str.isdigit` and `int`: what a decimal digit is worth, and which other
      characters, such as superscripts, count as digits. */
  datatype DigitTable = DigitTable(decimal: char -> Option<nat>, other: char -> bool)

  /** The last zero of a decimal script at or before a code point, in Unicode 15.0. Its nine other digits
      follow it. */
  function LastZero(n: int): int {
    if n < 0x660 then 0x30 else if n < 0x6F0 then 0x660 else if n < 0x7C0 then 0x6F0 else
    if n < 0x966 then 0x7C0 else if n < 0x9E6 then 0x966 else if n < 0xA66 then 0x9E6 else
    if n < 0xAE6 then 0xA66 else if n < 0xB66 then 0xAE6 else if n < 0xBE6 then 0xB66 else
    if n < 0xC66 then 0xBE6 else if n < 0xCE6 then 0xC66 else if n < 0xD66 then 0xCE6 else
    if n < 0xDE6 then 0xD66 else if n < 0xE50 then 0xDE6 else if n < 0xED0 then 0xE50 else
    if n < 0xF20 then 0xED0 else if n < 0x1040 then 0xF20 else if n < 0x1090 then 0x1040 else
    if n < 0x17E0 then 0x1090 else if n < 0x1810 then 0x17E0 else if n < 0x1946 then 0x1810 else
    if n < 0x19D0 then 0x1946 else if n < 0x1A80 then 0x19D0 else if n < 0x1A90 then 0x1A80 else
    if n < 0x1B50 then 0x1A90 else if n < 0x1BB0 then 0x1B50 else if n < 0x1C40 then 0x1BB0 else
    if n < 0x1C50 then 0x1C40 else if n < 0xA620 then 0x1C50 else if n < 0xA8D0 then 0xA620 else
    if n < 0xA900 then 0xA8D0 else if n < 0xA9D0 then 0xA900 else if n < 0xA9F0 then 0xA9D0 else
    if n < 0xAA50 then 0xA9F0 else if n < 0xABF0 then 0xAA50 else if n < 0xFF10 then 0xABF0 else
    if n < 0x104A0 then 0xFF10 else if n < 0x10D30 then 0x104A0 else if n < 0x11066 then 0x10D30 else
    if n < 0x110F0 then 0x11066 else if n < 0x11136 then 0x110F0 else if n < 0x111D0 then 0x11136 else
    if n < 0x112F0 then 0x111D0 else if n < 0x11450 then 0x112F0 else if n < 0x114D0 then 0x11450 else
    if n < 0x11650 then 0x114D0 else if n < 0x116C0 then 0x11650 else if n < 0x11730 then 0x116C0 else
    if n < 0x118E0 then 0x11730 else if n < 0x11950 then 0x118E0 else if n < 0x11C50 then 0x11950 else
    if n < 0x11D50 then 0x11C50 else if n < 0x11DA0 then 0x11D50 else if n < 0x11F50 then 0x11DA0 else
    if n < 0x16A60 then 0x11F50 else if n < 0x16AC0 then 0x16A60 else if n < 0x16B50 then 0x16AC0 else
    if n < 0x1D7CE then 0x16B50 else if n < 0x1D7D8 then 0x1D7CE else if n < 0x1D7E2 then 0x1D7D8 else
    if n < 0x1D7EC then 0x1D7E2 else if n < 0x1D7F6 then 0x1D7EC else if n < 0x1E140 then 0x1D7F6 else
    if n < 0x1E2F0 then 0x1E140 else if n < 0x1E4F0 then 0x1E2F0 else if n < 0x1E950 then 0x1E4F0 else
    if n < 0x1FBF0 then 0x1E950 else
    0x1FBF0
  }

  /** The ten digits from a zero on all belong to it. */
  lemma ScriptsAreWhole(n: int, i: nat)
    requires n >= 0x30 && i < 10
    ensures LastZero(n) <= n && LastZero(LastZero(n) + i) == LastZero(n)
  {
  }

  /** The digits of Unicode 15.0 that are not decimal. */
  predicate OtherDigit(n: int) {
    || 0xB2 <= n < 0xB4 || 0xB9 <= n < 0xBA || 0x1369 <= n < 0x1372 || 0x19DA <= n < 0x19DB
    || 0x2070 <= n < 0x2071 || 0x2074 <= n < 0x207A || 0x2080 <= n < 0x208A || 0x2460 <= n < 0x2469
    || 0x2474 <= n < 0x247D || 0x2488 <= n < 0x2491 || 0x24EA <= n < 0x24EB || 0x24F5 <= n < 0x24FE
    || 0x24FF <= n < 0x2500 || 0x2776 <= n < 0x277F || 0x2780 <= n < 0x2789 || 0x278A <= n < 0x2793
    || 0x10A40 <= n < 0x10A44 || 0x10E60 <= n < 0x10E69 || 0x11052 <= n < 0x1105B || 0x1F100 <= n < 0x1F10B
  }

  function UnicodeDecimal(c: char): Option<nat> {
    var n := c as int;
    if LastZero(n) <= n < LastZero(n) + 10 then Some(n - LastZero(n)) else None
  }

  const UNICODE := DigitTable(UnicodeDecimal, c => OtherDigit(c as int))

  predicate IsDecimal(table: DigitTable, c: char) {
    table.decimal(c).Some?
  }

  predicate IsDigit(table: DigitTable, c: char) {
    IsDecimal(table, c) || table.other(c)
  }

  predicate AllDigits(table: DigitTable, part: string) {
    part != "" && forall i :: 0 <= i < |part| ==> IsDigit(table, part[i])
  }

  predicate AllDecimal(table: DigitTable, part: string) {
    forall i :: 0 <= i < |part| ==> IsDecimal(table, part[i])
  }

  /** The interpreter's default limit on the digits `int` reads. */
  const INT_DIGITS := 4300

  /** A path part that `isdigit` lets through to an `int` call that fails. */
  predicate BadIndex(table: DigitTable, part: string) {
    AllDigits(table, part) && (!AllDecimal(table, part) || |part| > INT_DIGITS)
  }

  function ToIndex(table: DigitTable, part: string): nat
    requires AllDecimal(table, part)
  {
    if part == "" then 0
    else
      var n := |part| - 1;
      10 * ToIndex(table, part[..n]) + table.decimal(part[n]).value
  }

  function Split(path: string): (parts: seq<string>)
    ensures |parts| >= 1
  {
    if path == "" then [""]
    else
      var rest := Split(path[1..]);
      if path[0] == '.' then [""] + rest else [[path[0]] + rest[0]] + rest[1..]
  }

  function Descend(table: DigitTable, current: Json, part: string): Lookup {
    match current
    case JObj(fields) => if part in fields then Found(fields[part]) else Missing
    case JArr(items) =>
      if !AllDigits(table, part) then Missing
      else if BadIndex(table, part) then LookupRaises
      else if ToIndex(table, part) >= |items| then Missing
      else Found(items[ToIndex(table, part)])
    case _ => Missing
  }

  function Follow(table: DigitTable, current: Json, parts: seq<string>): Lookup {
    if parts == [] then Found(current)
    else
      var next := Descend(table, current, parts[0]);
      if next.Found? then Follow(table, next.value, parts[1..]) else next
  }

  /** The source's walk: one pass over the parts, updating the current value. */
  method ResolvePath(table: DigitTable, payload: Json, path: string) returns (found: Lookup)
    ensures found == Follow(table, payload, Split(path))
  {
    var parts := Split(path);
    var current := payload;
    for i := 0 to |parts|
      invariant Follow(table, payload, parts) == Follow(table, current, parts[i..])
    {
      assert parts[i..][1..] == parts[i + 1..];
      var next := Descend(table, current, parts[i]);
      if !next.Found? {
        return next;
      }
      current := next.value;
    }
    return Found(current);
  }

  lemma SplitHead(c: char, path: string)
    ensures Split([c] + path)
         == (if c == '.' then [""] + Split(path) else [[c] + Split(path)[0]] + Split(path)[1..])
  {
    assert ([c] + path)[1..] == path;
  }

  lemma SplitStep(c: char, p: string, q: string)
    requires Split(p + "." + q) == Split(p) + Split(q)
    ensures Split([c] + p + "." + q) == Split([c] + p) + Split(q)
  {
    hide Split;
    SplitHead(c, p + "." + q);
    SplitHead(c, p);
    assert [c] + p + "." + q == [c] + (p + "." + q);
    assert (Split(p) + Split(q))[1..] == Split(p)[1..] + Split(q);
    assert Split([c] + p + "." + q) == Split([c] + p) + Split(q);
  }

  lemma {:induction false} SplitJoins(p: string, q: string)
    ensures Split(p + "." + q) == Split(p) + Split(q)
  {
    if p == "" {
      assert p + "." + q == ['.'] + q;
      SplitHead('.', q);
    } else {
      hide Split;
      SplitJoins(p[1..], q);
      assert p == [p[0]] + p[1..];
      SplitStep(p[0], p[1..], q);
      assert Split(p + "." + q) == Split(p) + Split(q);
    }
  }

  lemma {:induction false} FollowJoins(table: DigitTable, current: Json, p: seq<string>, q: seq<string>)
    ensures Follow(table, current, p + q)
         == (if Follow(table, current, p).Found? then Follow(table, Follow(table, current, p).value, q)
             else Follow(table, current, p))
  {
    if p == [] {
      assert p + q == q;
    } else {
      assert (p + q)[1..] == p[1..] + q;
      var next := Descend(table, current, p[0]);
      if next.Found? {
        FollowJoins(table, next.value, p[1..], q);
      }
    }
  }

  /** A dotted path is followed one path after the other: `p.q` looks `q` up in what `p` leads to, and
      ends where `p` ends if that is nowhere. */
  lemma PathsCompose(table: DigitTable, payload: Json, p: string, q: string)
    ensures Follow(table, payload, Split(p + "." + q))
         == (var first := Follow(table, payload, Split(p));
             if first.Found? then Follow(table, first.value, Split(q)) else first)
  {
    SplitJoins(p, q);
    FollowJoins(table, payload, Split(p), Split(q));
  }

  // ---- operators -------------------------------------------------------------

  function Canonical(j: Json): Json {
    if j.JBool? then JNum(if j.flag then 1.0 else 0.0) else j
  }

  /** The source language's `==` on JSON values: booleans are the numbers one and zero. */
  predicate Same(a: Json, b: Json)
    decreases a
  {
    match (a, b)
    case (JArr(x), JArr(y)) => |x| == |y| && forall i :: 0 <= i < |x| ==> Same(x[i], y[i])
    case (JObj(x), JObj(y)) => x.Keys == y.Keys && forall k :: k in x ==> Same(x[k], y[k])
    case _ => Canonical(a) == Canonical(b)
  }

  function Size(j: Json): nat {
    match j
    case JNull => 0
    case JBool(flag) => if flag then 1 else 0
    case JNum(_) => 1
    case JStr(text) => |text|
    case JArr(items) => |items|
    case JObj(fields) => |fields|
  }

  predicate OccursAt(needle: string, haystack: string, i: nat) {
    i + |needle| <= |haystack| && haystack[i..i + |needle|] == needle
  }

  predicate Substring(needle: string, haystack: string) {
    exists i: nat :: i <= |haystack| && OccursAt(needle, haystack, i)
  }

  predicate Unhashable(j: Json) {
    j.JArr? || j.JObj?
  }

  function ContainsValue(haystack: Json, needle: Json): Verdict {
    match haystack
    case JStr(text) => Answer(needle.JStr? && Substring(needle.text, text))
    case JArr(items) => Answer(exists i :: 0 <= i < |items| && Same(items[i], needle))
    case JObj(fields) => if Unhashable(needle) then Raises else Answer(needle.JStr? && needle.text in fields)
    case _ => Answer(false)
  }

  predicate Compare(operator: Operator, left: Json, right: Json) {
    left.JNum? && right.JNum? &&
    match operator
    case Gt => left.number > right.number
    case Gte => left.number >= right.number
    case Lt => left.number < right.number
    case _ => left.number <= right.number
  }

  function Judge(condition: Condition, found: Lookup): Verdict
    requires !found.LookupRaises?
  {
    match condition.operator
    case Exists => Answer(found.Found?)
    case NotExists => Answer(!found.Found?)
    case IsTrue => Answer(found == Found(JBool(true)))
    case IsFalse => Answer(found == Found(JBool(false)))
    case Eq => Answer(found.Found? && Same(found.value, condition.value))
    case Ne => Answer(found.Found? && !Same(found.value, condition.value))
    case NonEmpty => Answer(found.Found? && Size(found.value) > 0)
    case Empty => Answer(!found.Found? || Size(found.value) == 0)
    case Contains => if found.Found? then ContainsValue(found.value, condition.value) else Answer(false)
    case _ => Answer(found.Found? && Compare(condition.operator, found.value, condition.value))
  }

  function Evaluate(table: DigitTable, condition: Condition, payload: Json): Verdict {
    var found := Follow(table, payload, Split(condition.path));
    if found.LookupRaises? then Raises else Judge(condition, found)
  }

  /** The engine's reading. A condition that raises does not hold; the engine is asked about that
      separately. */
  predicate Holds(condition: Condition, payload: Json) {
    Evaluate(UNICODE, condition, payload) == Answer(true)
  }

  predicate Throws(condition: Condition, payload: Json) {
    Evaluate(UNICODE, condition, payload).Raises?
  }

  // ---- what the operators mean --------------------------------------------------

  /** A value with every boolean in it, however deep, written as the number it equals. */
  function Plain(j: Json): Json {
    match j
    case JBool(flag) => JNum(if flag then 1.0 else 0.0)
    case JArr(items) => JArr(seq(|items|, i requires 0 <= i < |items| => Plain(items[i])))
    case JObj(fields) => JObj(map k | k in fields :: Plain(fields[k]))
    case _ => j
  }

  /** Two values are equal exactly when they are the same once booleans are read as numbers. */
  lemma {:induction false} SameIsIdentity(a: Json, b: Json)
    ensures Same(a, b) <==> Plain(a) == Plain(b)
    decreases a
  {
    if a.JArr? && b.JArr? {
      forall i | 0 <= i < |a.items| && 0 <= i < |b.items|
        ensures Same(a.items[i], b.items[i]) <==> Plain(a).items[i] == Plain(b).items[i]
      {
        SameIsIdentity(a.items[i], b.items[i]);
      }
    } else if a.JObj? && b.JObj? {
      forall k | k in a.fields && k in b.fields
        ensures Same(a.fields[k], b.fields[k]) <==> Plain(a).fields[k] == Plain(b).fields[k]
      {
        SameIsIdentity(a.fields[k], b.fields[k]);
      }
      assert Plain(a) == Plain(b) ==> a.fields.Keys == Plain(a).fields.Keys == Plain(b).fields.Keys == b.fields.Keys;
    }
  }

  predicate HoldsOn(operator: Operator, expected: Json, payload: Json, path: string) {
    Holds(Condition(path, operator, expected, ""), payload)
  }

  /** The values that count as empty. A number never does, not even zero. */
  predicate CountsAsEmpty(value: Json) {
    value == JNull || value == JBool(false) || value == JStr("") || value == JArr([]) || value == JObj(map[])
  }

  /** The value is a text with `needle` somewhere in it, a list with an equal item, or an object with that
      field. */
  ghost predicate Includes(value: Json, needle: Json) {
    match value
    case JStr(text) => needle.JStr? && exists before, after :: text == before + needle.text + after
    case JArr(items) => exists item :: item in items && Plain(item) == Plain(needle)
    case JObj(fields) => needle.JStr? && needle.text in fields
    case _ => false
  }

  /** What each operator but the orderings and `contains` says of a value that is there. */
  lemma OperatorsOnValue(payload: Json, path: string, value: Json, expected: Json)
    requires Follow(UNICODE, payload, Split(path)) == Found(value)
    ensures HoldsOn(Exists, expected, payload, path) && !HoldsOn(NotExists, expected, payload, path)
    ensures HoldsOn(IsTrue, expected, payload, path) <==> value == JBool(true)
    ensures HoldsOn(IsFalse, expected, payload, path) <==> value == JBool(false)
    ensures HoldsOn(Eq, expected, payload, path) <==> Plain(value) == Plain(expected)
    ensures HoldsOn(Ne, expected, payload, path) <==> Plain(value) != Plain(expected)
    ensures HoldsOn(Empty, expected, payload, path) <==> CountsAsEmpty(value)
    ensures HoldsOn(NonEmpty, expected, payload, path) <==> !CountsAsEmpty(value)
  {
    hide Follow, Split, Same, Plain, ContainsValue, Compare, Size, CountsAsEmpty;
    SameIsIdentity(value, expected);
    EmptyHasNoSize(value);
  }

  lemma EmptyHasNoSize(value: Json)
    ensures Size(value) == 0 <==> CountsAsEmpty(value)
  {
  }

  /** The orderings follow the order of the numbers and hold of nothing else. */
  lemma OrderingsOnValue(payload: Json, path: string, value: Json, expected: Json)
    requires Follow(UNICODE, payload, Split(path)) == Found(value)
    ensures var numbers := value.JNum? && expected.JNum?;
      && (HoldsOn(Gt, expected, payload, path) <==> numbers && value.number > expected.number)
      && (HoldsOn(Gte, expected, payload, path) <==> numbers && value.number >= expected.number)
      && (HoldsOn(Lt, expected, payload, path) <==> numbers && value.number < expected.number)
      && (HoldsOn(Lte, expected, payload, path) <==> numbers && value.number <= expected.number)
  {
    hide Follow, Split, Same, Size, ContainsValue;
  }

  /** What `contains` says of a value that is there. */
  lemma ContainsOnValue(payload: Json, path: string, value: Json, expected: Json)
    requires Follow(UNICODE, payload, Split(path)) == Found(value)
    ensures HoldsOn(Contains, expected, payload, path) <==> Includes(value, expected)
    ensures Throws(Condition(path, Contains, expected, ""), payload) <==>
      value.JObj? && (expected.JArr? || expected.JObj?)
  {
    hide Follow, Split, Same, Plain, Substring;
    if value.JStr? && expected.JStr? {
      SubstringIsInside(expected.text, value.text);
    } else if value.JArr? {
      forall i | 0 <= i < |value.items|
        ensures Same(value.items[i], expected) <==> Plain(value.items[i]) == Plain(expected)
      {
        SameIsIdentity(value.items[i], expected);
      }
    }
  }

  lemma SubstringIsInside(needle: string, text: string)
    ensures Substring(needle, text) <==> exists before, after :: text == before + needle + after
  {
    if Substring(needle, text) {
      var i: nat :| i <= |text| && OccursAt(needle, text, i);
      assert text == text[..i] + needle + text[i + |needle|..];
    }
    if before, after :| text == before + needle + after {
      assert OccursAt(needle, text, |before|);
    }
  }

  /** A missing value satisfies absence and emptiness and nothing else, and never raises. */
  lemma OperatorsOnMissing(payload: Json, path: string, operator: Operator, expected: Json)
    requires Follow(UNICODE, payload, Split(path)) == Missing
    ensures HoldsOn(operator, expected, payload, path) <==> operator in {NotExists, Empty}
    ensures !Throws(Condition(path, operator, expected, ""), payload)
  {
    hide Follow, Split;
  }

  /** What a single field name leads to in an object. */
  lemma FieldIsFollowed(fields: map<string, Json>, name: string)
    requires '.' !in name
    ensures Follow(UNICODE, JObj(fields), Split(name)) == if name in fields then Found(fields[name]) else Missing
  {
    WholeName(name);
    assert [name][0] == name && [name][1..] == [];
  }

  lemma {:induction false} WholeName(name: string)
    requires '.' !in name
    ensures Split(name) == [name]
  {
    if name != "" {
      WholeName(name[1..]);
      assert name == [name[0]] + name[1..];
    }
  }

  /** A number in decimal notation. */
  function Numeral(n: nat): (text: string)
    ensures text != "" && forall i :: 0 <= i < |text| ==> '0' <= text[i] <= '9'
  {
    var digit := ('0' as int + n % 10) as char;
    if n < 10 then [digit] else Numeral(n / 10) + [digit]
  }

  lemma {:induction false} NumeralIsRead(n: nat)
    ensures AllDecimal(UNICODE, Numeral(n)) && AllDigits(UNICODE, Numeral(n))
    ensures ToIndex(UNICODE, Numeral(n)) == n
  {
    var text := Numeral(n);
    forall i | 0 <= i < |text|
      ensures IsDecimal(UNICODE, text[i])
    {
      AsciiDigit(text[i]);
    }
    AsciiDigit(text[|text| - 1]);
    if n < 10 {
      assert text[..0] == "" && ToIndex(UNICODE, "") == 0;
    } else {
      NumeralIsRead(n / 10);
      assert text[..|text| - 1] == Numeral(n / 10);
    }
  }

  lemma AsciiDigit(c: char)
    requires '0' <= c <= '9'
    ensures IsDecimal(UNICODE, c) && UNICODE.decimal(c).value == c as int - '0' as int
  {
  }

  /** A list index leads to that item, unless the list is too short. */
  lemma ItemIsFollowed(items: seq<Json>, n: nat)
    requires |Numeral(n)| <= 4300
    ensures Follow(UNICODE, JArr(items), [Numeral(n)]) == if n < |items| then Found(items[n]) else Missing
  {
    hide Numeral, AllDecimal, AllDigits, ToIndex;
    NumeralIsRead(n);
    var parts := [Numeral(n)];
    assert parts[1..] == [];
  }

  /** Of ordinary digits it takes more than 4300 to raise. */
  lemma LongIndexRaisesExactly(items: seq<Json>, part: string)
    requires part != "" && forall i :: 0 <= i < |part| ==> '0' <= part[i] <= '9'
    ensures Follow(UNICODE, JArr(items), [part]).LookupRaises? <==> |part| > 4300
  {
    forall i | 0 <= i < |part|
      ensures IsDecimal(UNICODE, part[i])
    {
      AsciiDigit(part[i]);
    }
    hide ToIndex;
    assert [part][1..] == [];
  }

  /** A part that is no number leads nowhere in a list, and no part leads anywhere in a plain value. */
  lemma NamesMissLists(items: seq<Json>, part: string)
    requires part == "" || exists i :: 0 <= i < |part| && (part[i] < '0' || '9' < part[i] <= '~')
    ensures Follow(UNICODE, JArr(items), [part]) == Missing
  {
    hide ToIndex;
  }

  lemma PlainValuesHaveNoParts(value: Json, part: string, rest: seq<string>)
    requires !value.JArr? && !value.JObj?
    ensures Follow(UNICODE, value, [part] + rest) == Missing
  {
  }

  // ---- when a condition is total ----------------------------------------------

  /** The guard of the two branches that raise: a part after the first that `isdigit` accepts and
      `int` does not, or a list or mapping looked up as a key. */
  predicate TotalCondition(table: DigitTable, condition: Condition) {
    var parts := Split(condition.path);
    && (forall i :: 1 <= i < |parts| ==> !BadIndex(table, parts[i]))
    && !(condition.operator == Contains && Unhashable(condition.value))
  }

  /** A payload in which following `parts` ends at `leaf`. */
  function Nest(parts: seq<string>, leaf: Json): Json {
    if parts == [] then leaf else JObj(map[parts[0] := Nest(parts[1..], leaf)])
  }

  lemma {:induction false} NestLeads(table: DigitTable, parts: seq<string>, leaf: Json, rest: seq<string>)
    ensures Follow(table, Nest(parts, leaf), parts + rest) == Follow(table, leaf, rest)
  {
    if parts == [] {
      assert parts + rest == rest;
    } else {
      assert (parts + rest)[0] == parts[0] && (parts + rest)[1..] == parts[1..] + rest;
      NestLeads(table, parts[1..], leaf, rest);
    }
  }

  lemma {:induction false} FollowNeverRaises(table: DigitTable, current: Json, parts: seq<string>)
    requires forall i :: 0 <= i < |parts| ==> !BadIndex(table, parts[i])
    ensures !Follow(table, current, parts).LookupRaises?
  {
    if parts != [] && Descend(table, current, parts[0]).Found? {
      FollowNeverRaises(table, Descend(table, current, parts[0]).value, parts[1..]);
    }
  }

  /** Some object payload makes a condition outside the guard raise. */
  lemma RaisingPayload(table: DigitTable, condition: Condition) returns (payload: Json)
    requires !TotalCondition(table, condition)
    ensures payload.JObj? && Evaluate(table, condition, payload).Raises?
  {
    hide BadIndex, AllDigits, AllDecimal;
    var parts := Split(condition.path);
    if i :| 1 <= i < |parts| && BadIndex(table, parts[i]) {
      payload := Nest(parts[..i], JArr([]));
      NestLeads(table, parts[..i], JArr([]), parts[i..]);
      assert parts[..i] + parts[i..] == parts;
      BadIndexRaises(table, parts[i]);
      assert Descend(table, JArr([]), parts[i..][0]).LookupRaises?;
    } else {
      payload := Nest(parts, JObj(map[]));
      NestLeads(table, parts, JObj(map[]), []);
      assert parts + [] == parts;
    }
  }

  lemma BadIndexRaises(table: DigitTable, part: string)
    requires BadIndex(table, part)
    ensures Descend(table, JArr([]), part).LookupRaises?
  {
  }

  /** Whatever the character tables, the module's claim that every operator is total holds of a
      condition, over all payloads a node can produce, exactly when the condition passes the guard. */
  lemma TotalExactly(table: DigitTable, condition: Condition)
    ensures (forall payload: Json :: payload.JObj? ==> !Evaluate(table, condition, payload).Raises?)
            <==> TotalCondition(table, condition)
  {
    if TotalCondition(table, condition) {
      forall payload: Json | payload.JObj?
        ensures !Evaluate(table, condition, payload).Raises?
      {
        var parts := Split(condition.path);
        var first := Descend(table, payload, parts[0]);
        if first.Found? {
          FollowNeverRaises(table, first.value, parts[1..]);
        }
      }
    } else {
      var payload := RaisingPayload(table, condition);
    }
  }

  /** A superscript two in a list index is enough to raise. */
  lemma SuperscriptRaises()
    ensures Evaluate(UNICODE, Condition("a.\U{B2}", Exists, JNull, ""), JObj(map["a" := JArr([])])).Raises?
  {
    var part := "\U{B2}";
    var payload := JObj(map["a" := JArr([])]);
    assert BadIndex(UNICODE, part) by {
      assert part[0] as int == 0xB2;
      assert UnicodeDecimal(part[0]) == None && OtherDigit(part[0] as int);
    }
    hide BadIndex, Split;
    SplitsTo(part);
    BadIndexRaises(UNICODE, part);
    assert Descend(UNICODE, payload, "a") == Found(JArr([]));
    assert ["a", part][1..] == [part];
    assert Follow(UNICODE, payload, ["a", part]).LookupRaises?;
  }

  lemma SplitsTo(part: string)
    requires |part| == 1 && part[0] != '.'
    ensures Split("a." + part) == ["a", part]
  {
    hide Split;
    var none: string := "";
    SplitEmpty();
    SplitHead(part[0], none);
    assert part == [part[0]] + none;
    SplitHead('.', part);
    SplitHead('a', ['.'] + part);
    assert "a." + part == ['a'] + (['.'] + part);
    assert [part[0]] + "" == part;
    assert Split(part) == [part];
    assert Split(['.'] + part) == ["", part];
    assert ['a'] + "" == "a";
  }

  lemma SplitEmpty()
    ensures Split("") == [""]
  {
  }
}
