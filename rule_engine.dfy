/**
 * The rule interpreter of the current `RuleEvaluationService`: a rule is a
 * map from operator to operand, evaluated against a message tree.
 *
 * Every evaluator returns `Res<bool>`: a cast or a null dereference on a
 * malformed rule throws, the exception travels up through `$and`, `$or`
 * and `$ne` unchanged, and only `EvaluateRules` turns it into "no match".
 */
module RuleEngine {
  import opened Text
  import opened Json

  // ---------------------------------------------------------------- Java casts on rule values

  /** `Map.get(key)`: the member's value; absent and JSON null are both Java null (None). */
  function Member(fs: Fields, key: string): (r: Option<Json>)
    ensures r.Some? ==> !r.value.Null?
  {
    match Lookup(fs, key)
    case None => None
    case Some(v) => if v.Null? then None else Some(v)
  }

  /** A list element or a map value as a Java reference: JSON null is Java null. */
  function Reference(v: Json): Option<Json>
  {
    if v.Null? then None else Some(v)
  }

  /** `(String) map.get(key)`: null stays null, any other non-string throws ClassCastException. */
  function StringMember(fs: Fields, key: string): Res<Option<string>>
  {
    match Member(fs, key)
    case None => Ok(None)
    case Some(v) => if v.Str? then Ok(Some(v.s)) else Thrown(ClassCast)
  }

  /** `(List<Object>) map.get(key)`. */
  function ListMember(fs: Fields, key: string): Res<Option<seq<Json>>>
  {
    match Member(fs, key)
    case None => Ok(None)
    case Some(v) => if v.Arr? then Ok(Some(v.items)) else Thrown(ClassCast)
  }

  /**
   * `(Map<String, Object>) value` followed by its first use: a non-map throws
   * ClassCastException, a null passes the cast and throws NullPointerException
   * on the first `get`.
   */
  function AsMap(v: Json): Res<Fields>
  {
    match v
    case Obj(fs) => Ok(fs)
    case Null => Thrown(NullPointer)
    case _ => Thrown(ClassCast)
  }

  /** `(List<...>) value` followed by iteration over it. */
  function AsList(v: Json): Res<seq<Json>>
  {
    match v
    case Arr(items) => Ok(items)
    case Null => Thrown(NullPointer)
    case _ => Thrown(ClassCast)
  }

  // ---------------------------------------------------------------- the message

  /**
   * `parseAsSimpleValue`: a text with a dot that `Double.parseDouble` accepts
   * becomes a double node, a text without a dot that `Long.parseLong` accepts
   * an integral node; failing that, "true"/"false" in any case a boolean node,
   * and anything else a text node.
   */
  function ParseSimpleValue(value: string): (r: Json)
    ensures r.Num? || r.Bool? || r.Str?
    ensures r.Num? <==> (if '.' in value then ParseDecimal(value).Some? else ParseLong(value).Some?)
    ensures r.Bool? <==> !r.Num? && (EqualsIgnoreCase(value, "true") || EqualsIgnoreCase(value, "false"))
    ensures r.Bool? ==> r.b == ParseBoolean(value)
    ensures r.Str? <==> !(if '.' in value then ParseDecimal(value).Some? else ParseLong(value).Some?)
                        && !EqualsIgnoreCase(value, "true") && !EqualsIgnoreCase(value, "false")
    ensures r.Str? ==> r.s == value
  {
    var number :=
      if '.' in value then
        match ParseDecimal(value)
        case Some(d) => Some(Dbl(d.0, d.1))
        case None => None
      else
        match ParseLong(value)
        case Some(i) => Some(Int(i))
        case None => None;
    if number.Some? then Num(number.value)
    else if EqualsIgnoreCase(value, "true") || EqualsIgnoreCase(value, "false") then Bool(ParseBoolean(value))
    else Str(value)
  }

  /**
   * `parseMessage`: a blank message is the null node; otherwise the trimmed
   * text is parsed as JSON and, when that throws, read as a simple value.
   */
  function ParseMessage(message: string, readTree: JsonReader): Json
  {
    var trimmed := Trim(message);
    if trimmed == [] then Null
    else
      match readTree(trimmed)
      case Some(node) => node
      case None => ParseSimpleValue(trimmed)
  }

  // ---------------------------------------------------------------- field access

  /** Follows member names one by one; a missing member anywhere gives None. */
  function ResolvePath(node: Json, parts: seq<string>): Option<Json>
  {
    if parts == [] then Some(node)
    else
      match Get(node, parts[0])
      case None => None
      case Some(child) => ResolvePath(child, parts[1..])
  }

  /** `getFieldValue`: a dotted name is split and followed; a plain name is one member lookup. */
  function FieldValue(node: Json, field: string): Option<Json>
  {
    if '.' in field then ResolvePath(node, SplitOnDot(field)) else Get(node, field)
  }

  // ---------------------------------------------------------------- values

  /** `Double.parseDouble(text)`: its value, or NumberFormatException. */
  function ParseDoubleText(text: string): Res<real>
  {
    match ParseDecimal(text)
    case Some(d) => Ok(d.0 as real / Pow10(d.1) as real)
    case None => Thrown(NumberFormat)
  }

  /**
   * `compareValues(node, expected) == 0`: numbers by value when both sides
   * are numbers, a text node against the expected value's string form, a
   * boolean node against `Boolean.parseBoolean` of it, and any other node by
   * its JSON text; a null expected value throws NullPointerException.
   */
  function ValuesEqual(node: Json, expected: Option<Json>): Res<bool>
  {
    match expected
    case None => Thrown(NullPointer)
    case Some(e) =>
      if node.Num? && e.Num? then Ok(Value(node.n) == Value(e.n))
      else if node.Str? then Ok(node.s == JavaText(e))
      else if node.Bool? then Ok(node.b == ParseBoolean(JavaText(e)))
      else Ok(Serialize(node) == JavaText(e))
  }

  datatype Comparison = Gt | Gte | Lt | Lte

  predicate Holds(op: Comparison, a: real, b: real)
  {
    match op
    case Gt => a > b
    case Gte => a >= b
    case Lt => a < b
    case Lte => a <= b
  }

  // ---------------------------------------------------------------- operators

  /**
   * `evaluateComparison`: with both `$field` and `$value` the field must
   * exist and be a number (no fallback to the message); with only `$value`
   * the message itself must be a number.
   */
  function EvalComparison(value: Json, node: Json, op: Comparison): (r: Res<bool>)
    ensures r == Ok(true) ==> value.Obj? && Member(value.fields, "$value").Some?
  {
    var condition :- AsMap(value);
    var field :- StringMember(condition, "$field");
    var bound := Member(condition, "$value");
    CompareSubject(Subject(field, bound, node), bound, op)
  }

  /** The node a comparison tests: the named field when `$field` and `$value` are both given, else the message. */
  function Subject(field: Option<string>, bound: Option<Json>, node: Json): Option<Json>
  {
    if field.Some? && bound.Some? then FieldValue(node, field.value) else Some(node)
  }

  /** A missing bound, a missing subject or a subject that is not a number fails; otherwise the values are compared. */
  function CompareSubject(subject: Option<Json>, bound: Option<Json>, op: Comparison): Res<bool>
  {
    if bound.None? || subject.None? || !subject.value.Num? then Ok(false)
    else
      var b :- ParseDoubleText(JavaText(bound.value));
      Ok(Holds(op, Value(subject.value.n), b))
  }

  /** `evaluateEquals`: a named field that is missing never equals anything. */
  function EvalEquals(value: Json, node: Json): Res<bool>
  {
    var condition :- AsMap(value);
    var field :- StringMember(condition, "$field");
    var expected := Member(condition, "$value");
    if field.Some? then
      match FieldValue(node, field.value)
      case None => Ok(false)
      case Some(fieldNode) => ValuesEqual(fieldNode, expected)
    else if expected.Some? then ValuesEqual(node, expected)
    else Ok(false)
  }

  /** `evaluateNotEquals`: the negation of `$eq`; an exception passes through. */
  function EvalNotEquals(value: Json, node: Json): Res<bool>
  {
    var equal :- EvalEquals(value, node);
    Ok(!equal)
  }

  /** Whether `node` equals some element of `values`, scanning them in order. */
  function AnyEqual(node: Json, values: seq<Json>): Res<bool>
  {
    if values == [] then Ok(false)
    else
      var equal :- ValuesEqual(node, Reference(values[0]));
      if equal then Ok(true) else AnyEqual(node, values[1..])
  }

  /** `evaluateIn`: the field's value (or, without `$field`, the message) against `$values`. */
  function EvalIn(value: Json, node: Json): Res<bool>
  {
    var condition :- AsMap(value);
    var field :- StringMember(condition, "$field");
    var values :- ListMember(condition, "$values");
    if field.Some? && values.Some? then
      match FieldValue(node, field.value)
      case None => Ok(false)
      case Some(fieldNode) => AnyEqual(fieldNode, values.value)
    else if values.Some? then AnyEqual(node, values.value)
    else Ok(false)
  }

  /** Case-insensitive substring test on a text node; any other node does not contain anything. */
  predicate TextContains(node: Json, search: string)
  {
    node.Str? && Contains(Lower(node.s), Lower(search))
  }

  /** `evaluateContains`: the field's text (or, without `$field`, the message's). */
  function EvalContains(value: Json, node: Json): Res<bool>
  {
    var condition :- AsMap(value);
    var field :- StringMember(condition, "$field");
    var search :- StringMember(condition, "$value");
    if field.Some? && search.Some? then
      match FieldValue(node, field.value)
      case None => Ok(false)
      case Some(fieldNode) => Ok(TextContains(fieldNode, search.value))
    else if search.Some? then Ok(TextContains(node, search.value))
    else Ok(false)
  }

  const Operators: set<string> :=
    {"$and", "$or", "$gt", "$gte", "$lt", "$lte", "$eq", "$ne", "$in", "$contains"}

  /** `evaluateNode`: every entry must hold, in order; the first that does not decides. */
  function EvalNode(rules: Fields, node: Json): Res<bool>
    decreases rules, 0
  {
    if rules == [] then Ok(true)
    else
      var holds :- EvalEntry(rules[0], node);
      if !holds then Ok(false) else EvalNode(rules[1..], node)
  }

  /** One `switch` arm of `evaluateNode`; an unsupported operator is false. */
  function EvalEntry(entry: (string, Json), node: Json): Res<bool>
    decreases entry, 0
  {
    var (op, value) := entry;
    if op == "$and" then EvalAnd(value, node)
    else if op == "$or" then EvalOr(value, node)
    else if op == "$gt" then EvalComparison(value, node, Gt)
    else if op == "$gte" then EvalComparison(value, node, Gte)
    else if op == "$lt" then EvalComparison(value, node, Lt)
    else if op == "$lte" then EvalComparison(value, node, Lte)
    else if op == "$eq" then EvalEquals(value, node)
    else if op == "$ne" then EvalNotEquals(value, node)
    else if op == "$in" then EvalIn(value, node)
    else if op == "$contains" then EvalContains(value, node)
    else Ok(false)
  }

  /** A nested condition of `$and` / `$or`, cast to a map when it is reached. */
  function EvalCondition(condition: Json, node: Json): Res<bool>
    decreases condition, 0
  {
    match condition
    case Obj(fs) => EvalNode(fs, node)
    case Null => Thrown(NullPointer)
    case _ => Thrown(ClassCast)
  }

  function EvalAnd(value: Json, node: Json): Res<bool>
    decreases value, 0
  {
    match value
    case Arr(conditions) => AllHold(conditions, node)
    case Null => Thrown(NullPointer)
    case _ => Thrown(ClassCast)
  }

  /** `evaluateAndOperator`: stops at the first condition that does not hold. */
  function AllHold(conditions: seq<Json>, node: Json): Res<bool>
    decreases conditions, 0
  {
    if conditions == [] then Ok(true)
    else
      var holds :- EvalCondition(conditions[0], node);
      if !holds then Ok(false) else AllHold(conditions[1..], node)
  }

  function EvalOr(value: Json, node: Json): Res<bool>
    decreases value, 0
  {
    match value
    case Arr(conditions) => AnyHolds(conditions, node)
    case Null => Thrown(NullPointer)
    case _ => Thrown(ClassCast)
  }

  /** `evaluateOrOperator`: stops at the first condition that holds. */
  function AnyHolds(conditions: seq<Json>, node: Json): Res<bool>
    decreases conditions, 0
  {
    if conditions == [] then Ok(false)
    else
      var holds :- EvalCondition(conditions[0], node);
      if holds then Ok(true) else AnyHolds(conditions[1..], node)
  }

  /** `evaluateRules`: true exactly when evaluation completes with true; an exception is false. */
  predicate EvaluateRules(rules: Fields, message: string, readTree: JsonReader)
  {
    EvalNode(rules, ParseMessage(message, readTree)) == Ok(true)
  }

  // ---------------------------------------------------------------- properties

  /** A rule map holds exactly when every one of its entries holds. */
  lemma {:induction false} EvalNodeAll(rules: Fields, node: Json)
    ensures EvalNode(rules, node) == Ok(true)
        <==> forall i :: 0 <= i < |rules| ==> EvalEntry(rules[i], node) == Ok(true)
    decreases rules
  {
    if rules != [] {
      EvalNodeAll(rules[1..], node);
      assert forall i :: 1 <= i < |rules| ==> rules[i] == rules[1..][i - 1];
    }
  }

  /** `evaluateRules` is the conjunction of the entries over the parsed message. */
  lemma EvaluateRulesAll(rules: Fields, message: string, readTree: JsonReader)
    ensures EvaluateRules(rules, message, readTree)
        <==> forall i :: 0 <= i < |rules| ==> EvalEntry(rules[i], ParseMessage(message, readTree)) == Ok(true)
  {
    EvalNodeAll(rules, ParseMessage(message, readTree));
  }

  /** One entry with an operator outside the supported set, at the top of the rule map, makes the whole rule fail. */
  lemma UnsupportedOperatorFails(rules: Fields, message: string, readTree: JsonReader, i: nat)
    requires i < |rules| && rules[i].0 !in Operators
    ensures !EvaluateRules(rules, message, readTree)
  {
    var node := ParseMessage(message, readTree);
    EvalNodeAll(rules, node);
    UnsupportedEntryFails(rules[i], node);
  }

  lemma UnsupportedEntryFails(entry: (string, Json), node: Json)
    requires entry.0 !in Operators
    ensures EvalEntry(entry, node) == Ok(false)
  {
  }

  /**
   * An unknown operator that evaluation cannot get around: in an entry of
   * the map itself, in some condition of an `$and` entry, or in every
   * condition of an `$or` entry, at any depth. An unknown operator in one
   * `$or` condition only is not enough: a condition before it may hold.
   */
  predicate UnsupportedReached(rules: Fields)
    decreases rules, 1
  {
    exists i :: 0 <= i < |rules| && UnsupportedInEntry(rules[i])
  }

  predicate UnsupportedInEntry(entry: (string, Json))
    decreases entry, 0
  {
    entry.0 !in Operators
    || (entry.0 == "$and" && entry.1.Arr?
        && exists j :: 0 <= j < |entry.1.items| && UnsupportedInCondition(entry.1.items[j]))
    || (entry.0 == "$or" && entry.1.Arr?
        && forall j :: 0 <= j < |entry.1.items| ==> UnsupportedInCondition(entry.1.items[j]))
  }

  predicate UnsupportedInCondition(condition: Json)
    decreases condition, 2
  {
    condition.Obj? && UnsupportedReached(condition.fields)
  }

  /** A rule map in which an unknown operator is reached on every path never holds. */
  lemma {:induction false} UnsupportedReachedFails(rules: Fields, node: Json)
    requires UnsupportedReached(rules)
    ensures EvalNode(rules, node) != Ok(true)
    decreases rules, 1
  {
    var i :| 0 <= i < |rules| && UnsupportedInEntry(rules[i]);
    UnsupportedInEntryFails(rules[i], node);
    EvalNodeAll(rules, node);
  }

  lemma {:induction false} UnsupportedInEntryFails(entry: (string, Json), node: Json)
    requires UnsupportedInEntry(entry)
    ensures EvalEntry(entry, node) != Ok(true)
    decreases entry, 0
  {
    var (op, value) := entry;
    if op !in Operators {
      UnsupportedEntryFails(entry, node);
    } else if op == "$and" && value.Arr? && exists j :: 0 <= j < |value.items| && UnsupportedInCondition(value.items[j]) {
      var j :| 0 <= j < |value.items| && UnsupportedInCondition(value.items[j]);
      UnsupportedReachedFails(value.items[j].fields, node);
      AllHoldIff(value.items, node);
    } else {
      assert op == "$or" && value.Arr?;
      forall j | 0 <= j < |value.items|
        ensures EvalCondition(value.items[j], node) != Ok(true)
      {
        UnsupportedReachedFails(value.items[j].fields, node);
      }
      AnyHoldsIff(value.items, node);
    }
  }

  /** A rule in which an unknown operator is reached on every path never matches a message. */
  lemma UnsupportedOperatorReachedFails(rules: Fields, message: string, readTree: JsonReader)
    requires UnsupportedReached(rules)
    ensures !EvaluateRules(rules, message, readTree)
  {
    UnsupportedReachedFails(rules, ParseMessage(message, readTree));
  }

  /**
   * An unknown operator inside an `$or` condition after one that holds is
   * never evaluated: `{$or: [{}, {$bad: 1}]}` matches every message.
   */
  lemma UnsupportedAfterHoldingBranch(message: string, readTree: JsonReader)
    ensures EvaluateRules([("$or", Arr([Obj([]), Obj([("$bad", Num(Int(1)))])]))], message, readTree)
  {
    HoldingBranchFirst(ParseMessage(message, readTree));
  }

  lemma HoldingBranchFirst(node: Json)
    ensures EvalNode([("$or", Arr([Obj([]), Obj([("$bad", Num(Int(1)))])]))], node) == Ok(true)
  {
    var conditions := [Obj([]), Obj([("$bad", Num(Int(1)))])];
    assert EvalCondition(conditions[0], node) == Ok(true);
    assert AnyHolds(conditions, node) == Ok(true);
    SingleRule(("$or", Arr(conditions)), node);
  }

  /** `$and` holds exactly when every condition holds (so the empty list holds). */
  lemma {:induction false} AllHoldIff(conditions: seq<Json>, node: Json)
    ensures AllHold(conditions, node) == Ok(true)
        <==> forall i :: 0 <= i < |conditions| ==> EvalCondition(conditions[i], node) == Ok(true)
    decreases conditions
  {
    if conditions != [] {
      AllHoldIff(conditions[1..], node);
      assert forall i :: 1 <= i < |conditions| ==> conditions[i] == conditions[1..][i - 1];
    }
  }

  /**
   * `$or` holds only when some condition holds (so the empty list fails), and
   * when no condition throws it holds exactly when some condition holds.
   */
  lemma {:induction false} AnyHoldsIff(conditions: seq<Json>, node: Json)
    ensures AnyHolds(conditions, node) == Ok(true)
        ==> exists i :: 0 <= i < |conditions| && EvalCondition(conditions[i], node) == Ok(true)
    ensures (forall i :: 0 <= i < |conditions| ==> EvalCondition(conditions[i], node).Ok?)
        ==> AnyHolds(conditions, node)
            == Ok(exists i :: 0 <= i < |conditions| && EvalCondition(conditions[i], node) == Ok(true))
    decreases conditions
  {
    if conditions != [] {
      AnyHoldsIff(conditions[1..], node);
      assert forall i :: 1 <= i < |conditions| ==> conditions[i] == conditions[1..][i - 1];
    }
  }

  /** Membership: some element equals the node; with no null element, exactly when one does. */
  lemma {:induction false} AnyEqualIff(node: Json, values: seq<Json>)
    ensures AnyEqual(node, values) == Ok(true)
        ==> exists i :: 0 <= i < |values| && ValuesEqual(node, Reference(values[i])) == Ok(true)
    ensures (forall i :: 0 <= i < |values| ==> !values[i].Null?)
        ==> AnyEqual(node, values)
            == Ok(exists i :: 0 <= i < |values| && ValuesEqual(node, Reference(values[i])) == Ok(true))
    decreases values
  {
    if values != [] {
      AnyEqualIff(node, values[1..]);
      assert forall i :: 1 <= i < |values| ==> values[i] == values[1..][i - 1];
    }
  }

  /** `{$in: {$field: f, $values: vs}}` with no null in vs: the field exists and equals some element. */
  lemma InFieldMembership(f: string, values: seq<Json>, node: Json)
    requires forall i :: 0 <= i < |values| ==> !values[i].Null?
    ensures EvalIn(Obj([("$field", Str(f)), ("$values", Arr(values))]), node)
        == Ok(match FieldValue(node, f)
              case None => false
              case Some(x) => exists i :: 0 <= i < |values| && ValuesEqual(x, Reference(values[i])) == Ok(true))
  {
    var condition := [("$field", Str(f)), ("$values", Arr(values))];
    assert Lookup(condition, "$field") == Some(Str(f));
    assert Lookup(condition[1..], "$values") == Some(Arr(values));
    assert ListMember(condition, "$values") == Ok(Some(values));
    match FieldValue(node, f)
    case None =>
    case Some(x) => AnyEqualIff(x, values);
  }

  /** Following a path in two steps is following it in one; a missing member stops it for good. */
  lemma {:induction false} ResolvePathAppend(node: Json, p: seq<string>, q: seq<string>)
    ensures ResolvePath(node, p + q)
        == match ResolvePath(node, p)
           case None => None
           case Some(v) => ResolvePath(v, q)
    decreases p
  {
    if p == [] {
      assert p + q == q;
    } else {
      assert (p + q)[0] == p[0] && (p + q)[1..] == p[1..] + q;
      match Get(node, p[0])
      case None =>
      case Some(child) => ResolvePathAppend(child, p[1..], q);
    }
  }

  /** A field written as dot-joined member names is looked up member by member. */
  lemma DottedFieldFollowsPath(node: Json, parts: seq<string>)
    requires |parts| >= 2 && parts[|parts| - 1] != []
    requires forall i :: 0 <= i < |parts| ==> '.' !in parts[i]
    ensures FieldValue(node, JoinOnDot(parts)) == ResolvePath(node, parts)
  {
    SplitOnDotJoin(parts);
  }

  /** `Double.parseDouble` of an integer's text is that integer. */
  lemma ParseDoubleOfIntText(k: int)
    ensures ParseDoubleText(IntText(k)) == Ok(k as real)
  {
    ParseDecimalOfIntText(k);
    assert Pow10(0) == 1;
  }

  /** `Double.parseDouble` of the text Java gives any number node is that number's value. */
  lemma ParseDoubleOfNumberText(n: Number)
    ensures ParseDoubleText(NumberText(n)) == Ok(Value(n))
  {
    match n
    case Int(k) => ParseDoubleOfIntText(k);
    case Dbl(m, k) => DoubleTextValue(m, k);
  }

  /** Against a numeric bound b, a comparison holds exactly when its subject is a number in relation op to b. */
  lemma NumberBound(subject: Option<Json>, b: Number, op: Comparison)
    ensures CompareSubject(subject, Some(Num(b)), op)
        == Ok(subject.Some? && subject.value.Num? && Holds(op, Value(subject.value.n), Value(b)))
  {
    ParseDoubleOfNumberText(b);
    assert ParseDoubleText(JavaText(Num(b))) == Ok(Value(b));
  }

  /** `{op: {$field: f, $value: b}}` with a number b: the field is a number standing in relation op to b. */
  lemma FieldThreshold(f: string, b: Number, node: Json, op: Comparison)
    ensures var subject := FieldValue(node, f);
      EvalComparison(Obj([("$field", Str(f)), ("$value", Num(b))]), node, op)
        == Ok(subject.Some? && subject.value.Num? && Holds(op, Value(subject.value.n), Value(b)))
  {
    var fs := [("$field", Str(f)), ("$value", Num(b))];
    assert StringMember(fs, "$field") == Ok(Some(f));
    assert "$field"[1] != "$value"[1];
    assert fs[1..] == [("$value", Num(b))];
    assert Lookup(fs[1..], "$value") == Some(Num(b));
    assert Lookup(fs, "$value") == Lookup(fs[1..], "$value");
    assert Member(fs, "$value") == Some(Num(b));
    assert EvalComparison(Obj(fs), node, op) == CompareSubject(FieldValue(node, f), Some(Num(b)), op);
    NumberBound(FieldValue(node, f), b, op);
  }

  /** `{op: {$value: b}}` with a number b: the message itself is a number standing in relation op to b. */
  lemma DirectThreshold(b: Number, node: Json, op: Comparison)
    ensures EvalComparison(Obj([("$value", Num(b))]), node, op)
        == Ok(node.Num? && Holds(op, Value(node.n), Value(b)))
  {
    var fs := [("$value", Num(b))];
    assert StringMember(fs, "$field") == Ok(None);
    assert Member(fs, "$value") == Some(Num(b));
    NumberBound(Some(node), b, op);
  }

  /** `(a * c + b) / c` is `a + b / c`. */
  lemma SplitQuotient(a: int, b: int, c: int)
    requires c > 0
    ensures (a * c + b) as real / c as real == a as real + b as real / c as real
  {
    var cr := c as real;
    var y := b as real / cr;
    var z := (a * c + b) as real / cr;
    assert y * cr == b as real;
    assert z * cr == (a * c + b) as real;
    assert (a * c + b) as real == a as real * cr + b as real;
    assert (z - a as real - y) * cr == 0.0;
  }

  /**
   * A message holding a dot is read by `Double.parseDouble`: an optional '-',
   * digits, a dot and digits become the double node of that decimal ("8.5"
   * is 8.5, "-.5" is -0.5, "3." is 3.0).
   */
  lemma ParseSimpleDecimal(negative: bool, whole: string, fraction: string)
    requires AllDigits(whole) && AllDigits(fraction) && |whole| + |fraction| > 0
    ensures AllDigits(whole + fraction)
    ensures var text := (if negative then "-" else "") + whole + "." + fraction;
      ParseSimpleValue(text) == Num(Dbl(Signed(negative, DigitsValue(whole + fraction)), |fraction|))
    ensures var v := Value(Dbl(Signed(negative, DigitsValue(whole + fraction)), |fraction|));
      (if negative then -v else v)
        == DigitsValue(whole) as real + DigitsValue(fraction) as real / Pow10(|fraction|) as real
  {
    var text := (if negative then "-" else "") + whole + "." + fraction;
    ParseDecimalOfParts(negative, whole, fraction);
    assert text[|text| - |fraction| - 1] == '.';
    DecimalValue(negative, whole, fraction);
  }

  /** The value of the double node of digits, a dot and digits is the decimal they write. */
  lemma DecimalValue(negative: bool, whole: string, fraction: string)
    requires AllDigits(whole) && AllDigits(fraction)
    ensures AllDigits(whole + fraction)
    ensures var v := Value(Dbl(Signed(negative, DigitsValue(whole + fraction)), |fraction|));
      (if negative then -v else v)
        == DigitsValue(whole) as real + DigitsValue(fraction) as real / Pow10(|fraction|) as real
  {
    DigitsValueAppend(whole, fraction);
    SignedQuotient(negative, DigitsValue(whole + fraction), DigitsValue(whole), DigitsValue(fraction), Pow10(|fraction|));
  }

  /** A signed `a * c + b` over `c`, with its sign taken off, is `a + b / c`. */
  lemma SignedQuotient(negative: bool, x: nat, a: nat, b: nat, c: nat)
    requires c > 0 && x == a * c + b
    ensures var v := Signed(negative, x) as real / c as real;
      (if negative then -v else v) == a as real + b as real / c as real
  {
    SplitQuotient(a, b, c);
    if negative {
      assert Signed(negative, x) as real == -(x as real);
    }
  }

  /** A message that is the text of a 64-bit integer is read as that integer. */
  lemma ParseSimpleLong(n: int)
    requires LongMin <= n <= LongMax
    ensures ParseSimpleValue(IntText(n)) == Num(Int(n))
  {
    ParseLongOfIntText(n);
  }

  /** "true" and "false" in any letter case are read as booleans. */
  lemma ParseSimpleBoolean(value: string)
    requires EqualsIgnoreCase(value, "true") || EqualsIgnoreCase(value, "false")
    ensures ParseSimpleValue(value) == Bool(EqualsIgnoreCase(value, "true"))
  {
    var low := Lower(value);
    assert low[0] == LowerChar(value[0]);
    assert value[0] in "tTfF";
    assert '.' !in value by {
      forall i | 0 <= i < |value|
        ensures value[i] != '.'
      {
        assert low[i] == LowerChar(value[i]);
      }
    }
  }

  /** A blank message is the null node. */
  lemma ParseMessageBlank(message: string, readTree: JsonReader)
    requires IsBlank(message)
    ensures ParseMessage(message, readTree) == Null
  {
    TrimEmptyIffBlank(message);
  }

  function OperatorName(op: Comparison): string
  {
    match op
    case Gt => "$gt"
    case Gte => "$gte"
    case Lt => "$lt"
    case Lte => "$lte"
  }

  /** An entry named after a comparison operator evaluates that comparison. */
  lemma ComparisonEntry(op: Comparison, condition: Json, node: Json)
    ensures EvalEntry((OperatorName(op), condition), node) == EvalComparison(condition, node, op)
  {
    var name := OperatorName(op);
    assert name[1] != 'a' && name[1] != 'o' && name[1] != 'e' && name[1] != 'n' && name[1] != 'i' && name[1] != 'c';
    match op
    case Gt =>
    case Gte => assert name != "$gt";
    case Lt =>
    case Lte => assert name != "$lt";
  }

  /**
   * A message that is the text of an integer n, which the JSON reader reads
   * as n or rejects, meets `{op: {$value: k}}` exactly when n op k
   * ("8" meets `{$gt: {$value: 5}}`).
   */
  lemma IntegerMessageThreshold(n: int, k: int, op: Comparison, readTree: JsonReader)
    requires LongMin <= n <= LongMax
    requires readTree(IntText(n)) == None || readTree(IntText(n)) == Some(Num(Int(n)))
    ensures EvaluateRules([(OperatorName(op), Obj([("$value", Num(Int(k)))]))], IntText(n), readTree)
        <==> Holds(op, n as real, k as real)
  {
    var node := Num(Int(n));
    var condition := Obj([("$value", Num(Int(k)))]);
    var entry := (OperatorName(op), condition);
    calc {
      EvaluateRules([entry], IntText(n), readTree);
      == { TrimIntText(n);
           ParseSimpleLong(n);
           assert ParseMessage(IntText(n), readTree) == node; }
      EvalNode([entry], node) == Ok(true);
      == { SingleRule(entry, node); }
      EvalEntry(entry, node) == Ok(true);
      == { ComparisonEntry(op, condition, node);
           DirectThreshold(Int(k), node, op); }
      Holds(op, n as real, k as real);
    }
  }

  /** A message read as a number node of value x meets `{op: {$value: b}}` exactly when x stands in relation op to b. */
  lemma ThresholdOnValue(message: string, readTree: JsonReader, b: Number, op: Comparison, x: real)
    requires ParseMessage(message, readTree).Num? && Value(ParseMessage(message, readTree).n) == x
    ensures EvaluateRules([(OperatorName(op), Obj([("$value", Num(b))]))], message, readTree)
        <==> Holds(op, x, Value(b))
  {
    ThresholdOnNode(message, readTree, ParseMessage(message, readTree), b, op);
  }

  /** A message read as a number node meets `{op: {$value: b}}` exactly when that number stands in relation op to b. */
  lemma ThresholdOnNode(message: string, readTree: JsonReader, node: Json, b: Number, op: Comparison)
    requires ParseMessage(message, readTree) == node && node.Num?
    ensures EvaluateRules([(OperatorName(op), Obj([("$value", Num(b))]))], message, readTree)
        <==> Holds(op, Value(node.n), Value(b))
  {
    var condition := Obj([("$value", Num(b))]);
    var entry := (OperatorName(op), condition);
    SingleRule(entry, node);
    ComparisonEntry(op, condition, node);
    DirectThreshold(b, node, op);
  }

  /**
   * A message written as digits, a dot and digits, which the JSON reader
   * rejects or reads as the same number node, is read as a number node whose
   * value is the decimal it writes; by ThresholdOnValue, "8.5" then meets
   * `{$gt: {$value: 8.25}}`.
   */
  lemma DecimalMessageValue(whole: string, fraction: string, readTree: JsonReader)
    requires AllDigits(whole) && AllDigits(fraction) && |whole| + |fraction| > 0
    requires readTree(whole + "." + fraction) == None
          || readTree(whole + "." + fraction) == Some(ParseSimpleValue(whole + "." + fraction))
    ensures ParseMessage(whole + "." + fraction, readTree).Num?
    ensures Value(ParseMessage(whole + "." + fraction, readTree).n)
        == DigitsValue(whole) as real + DigitsValue(fraction) as real / Pow10(|fraction|) as real
  {
    DecimalMessageNode(whole, fraction, readTree);
    UnsignedDecimalNode(whole, fraction);
  }

  /** A decimal message is read as its simple value: there is nothing to trim and the reader adds nothing. */
  lemma DecimalMessageNode(whole: string, fraction: string, readTree: JsonReader)
    requires AllDigits(whole) && AllDigits(fraction)
    requires readTree(whole + "." + fraction) == None
          || readTree(whole + "." + fraction) == Some(ParseSimpleValue(whole + "." + fraction))
    ensures ParseMessage(whole + "." + fraction, readTree) == ParseSimpleValue(whole + "." + fraction)
  {
    var text := whole + "." + fraction;
    UnsignedDecimalUntrimmed(whole, fraction);
    assert text[|whole|] == '.';
    assert text != [];
  }

  /** Digits, a dot and digits have nothing to trim. */
  lemma UnsignedDecimalUntrimmed(whole: string, fraction: string)
    requires AllDigits(whole) && AllDigits(fraction)
    ensures Trim(whole + "." + fraction) == whole + "." + fraction
  {
    assert (if false then "-" else "") + whole + "." + fraction == whole + "." + fraction;
    DecimalPartsUntrimmed(false, whole, fraction);
  }

  /** Digits, a dot and digits read as a number node whose value is the decimal they write. */
  lemma UnsignedDecimalNode(whole: string, fraction: string)
    requires AllDigits(whole) && AllDigits(fraction) && |whole| + |fraction| > 0
    ensures ParseSimpleValue(whole + "." + fraction).Num?
    ensures Value(ParseSimpleValue(whole + "." + fraction).n)
        == DigitsValue(whole) as real + DigitsValue(fraction) as real / Pow10(|fraction|) as real
  {
    assert (if false then "-" else "") + whole + "." + fraction == whole + "." + fraction;
    ParseSimpleDecimal(false, whole, fraction);
  }

  /** A rule map of one entry holds exactly when that entry does. */
  lemma SingleRule(entry: (string, Json), node: Json)
    ensures EvalNode([entry], node) == Ok(true) <==> EvalEntry(entry, node) == Ok(true)
  {
    assert [entry][1..] == [];
  }

  /** A text, number or boolean rule value equals the same value in the message. */
  lemma ScalarSelfEquality(v: Json)
    requires v.Bool? || v.Num? || v.Str?
    ensures ValuesEqual(v, Reference(v)) == Ok(true)
  {
  }

  /** A numeric field equals the decimal text of its value ("80" equals 80). */
  lemma NumberEqualsItsText(k: int)
    ensures ValuesEqual(Num(Int(k)), Some(Str(IntText(k)))) == Ok(true)
  {
  }

  /** `$eq` against a missing `$value` (Java null) throws, so the rule fails. */
  lemma NullExpectedThrows(node: Json)
    ensures ValuesEqual(node, None) == Thrown(NullPointer)
  {
  }

  /** A message without the named field meets `$ne` and fails `$eq`. */
  lemma NotEqualsMissingField(f: string, expected: Json, node: Json)
    requires FieldValue(node, f).None?
    ensures EvalEntry(("$eq", Obj([("$field", Str(f)), ("$value", expected)])), node) == Ok(false)
    ensures EvalEntry(("$ne", Obj([("$field", Str(f)), ("$value", expected)])), node) == Ok(true)
  {
  }

  /** `$contains` on a field: the field is text containing the search text, ignoring case. */
  lemma ContainsOnField(f: string, search: string, node: Json)
    ensures EvalContains(Obj([("$field", Str(f)), ("$value", Str(search))]), node)
        == Ok(match FieldValue(node, f)
              case Some(Str(s)) => exists i :: OccursAt(Lower(s), Lower(search), i)
              case _ => false)
  {
    var condition := [("$field", Str(f)), ("$value", Str(search))];
    assert Lookup(condition, "$field") == Some(Str(f));
    assert Lookup(condition[1..], "$value") == Some(Str(search));
    assert StringMember(condition, "$value") == Ok(Some(search));
    match FieldValue(node, f)
    case Some(Str(s)) => ContainsIff(Lower(s), Lower(search));
    case _ =>
  }
}
