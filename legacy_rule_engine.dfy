/**
 * The rule interpreter of the legacy `RuleEvaluationService` (package
 * `hoatv.kafka.notifier.service`). It parses the raw message as JSON with no
 * trimming and no simple-value fallback, and `$in` / `$contains` only look at
 * a named field. Comparison, equality and field lookup are the same code as
 * in the current interpreter and are shared with it.
 */
module LegacyRuleEngine {
  import opened Text
  import opened Json
  import RuleEngine

  /** `evaluateRules`: a message that is not JSON makes the rule fail; so does any exception. */
  function EvaluateRules(rules: Fields, message: string, readTree: JsonReader): (r: bool)
    ensures readTree(message).None? ==> !r
  {
    match readTree(message)
    case None => false
    case Some(node) => EvalNode(rules, node) == Ok(true)
  }

  /** `evaluateNode`: every entry must hold, in order. */
  function EvalNode(rules: Fields, node: Json): Res<bool>
    decreases rules, 0
  {
    if rules == [] then Ok(true)
    else
      var holds :- EvalEntry(rules[0], node);
      if !holds then Ok(false) else EvalNode(rules[1..], node)
  }

  /** One `switch` arm of `evaluateNode`; an unsupported operator is false. */
  function EvalEntry(entry: (string, Json), node: Json): Res<bool>
    decreases entry, 0
  {
    var (op, value) := entry;
    if op == "$and" then EvalAnd(value, node)
    else if op == "$or" then EvalOr(value, node)
    else if op == "$gt" then RuleEngine.EvalComparison(value, node, RuleEngine.Gt)
    else if op == "$gte" then RuleEngine.EvalComparison(value, node, RuleEngine.Gte)
    else if op == "$lt" then RuleEngine.EvalComparison(value, node, RuleEngine.Lt)
    else if op == "$lte" then RuleEngine.EvalComparison(value, node, RuleEngine.Lte)
    else if op == "$eq" then RuleEngine.EvalEquals(value, node)
    else if op == "$ne" then RuleEngine.EvalNotEquals(value, node)
    else if op == "$in" then EvalIn(value, node)
    else if op == "$contains" then EvalContains(value, node)
    else Ok(false)
  }

  function EvalCondition(condition: Json, node: Json): Res<bool>
    decreases condition, 0
  {
    match condition
    case Obj(fs) => EvalNode(fs, node)
    case Null => Thrown(NullPointer)
    case _ => Thrown(ClassCast)
  }

  function EvalAnd(value: Json, node: Json): Res<bool>
    decreases value, 0
  {
    match value
    case Arr(conditions) => AllHold(conditions, node)
    case Null => Thrown(NullPointer)
    case _ => Thrown(ClassCast)
  }

  /** `evaluateAndOperator`. */
  function AllHold(conditions: seq<Json>, node: Json): Res<bool>
    decreases conditions, 0
  {
    if conditions == [] then Ok(true)
    else
      var holds :- EvalCondition(conditions[0], node);
      if !holds then Ok(false) else AllHold(conditions[1..], node)
  }

  function EvalOr(value: Json, node: Json): Res<bool>
    decreases value, 0
  {
    match value
    case Arr(conditions) => AnyHolds(conditions, node)
    case Null => Thrown(NullPointer)
    case _ => Thrown(ClassCast)
  }

  /** `evaluateOrOperator`. */
  function AnyHolds(conditions: seq<Json>, node: Json): Res<bool>
    decreases conditions, 0
  {
    if conditions == [] then Ok(false)
    else
      var holds :- EvalCondition(conditions[0], node);
      if holds then Ok(true) else AnyHolds(conditions[1..], node)
  }

  /** `evaluateIn`: only a named field is tested; without `$field` it is false. */
  function EvalIn(value: Json, node: Json): (r: Res<bool>)
    ensures r == Ok(true) ==> value.Obj? && RuleEngine.StringMember(value.fields, "$field").Ok?
                              && RuleEngine.StringMember(value.fields, "$field").value.Some?
  {
    var condition :- RuleEngine.AsMap(value);
    var field :- RuleEngine.StringMember(condition, "$field");
    var values :- RuleEngine.ListMember(condition, "$values");
    if field.Some? && values.Some? then
      match RuleEngine.FieldValue(node, field.value)
      case None => Ok(false)
      case Some(fieldNode) => RuleEngine.AnyEqual(fieldNode, values.value)
    else Ok(false)
  }

  /** `evaluateContains`: only a named field is tested; without `$field` it is false. */
  function EvalContains(value: Json, node: Json): (r: Res<bool>)
    ensures r == Ok(true) ==> value.Obj? && RuleEngine.StringMember(value.fields, "$field").Ok?
                              && RuleEngine.StringMember(value.fields, "$field").value.Some?
  {
    var condition :- RuleEngine.AsMap(value);
    var field :- RuleEngine.StringMember(condition, "$field");
    var search :- RuleEngine.StringMember(condition, "$value");
    if field.Some? && search.Some? then
      match RuleEngine.FieldValue(node, field.value)
      case None => Ok(false)
      case Some(fieldNode) => Ok(RuleEngine.TextContains(fieldNode, search.value))
    else Ok(false)
  }

  // ---------------------------------------------------------------- agreement with the current interpreter

  /** A `$in` / `$contains` operand that is a map without `$field`: the one place the two interpreters differ. */
  predicate Bare(value: Json)
  {
    value.Obj? && RuleEngine.StringMember(value.fields, "$field") == Ok(None)
  }

  /** No `$in` or `$contains` anywhere in the rule (nested ones included) lacks its `$field`. */
  predicate Fielded(rules: Fields)
    decreases rules, 1
  {
    forall i :: 0 <= i < |rules| ==> EntryFielded(rules[i])
  }

  predicate EntryFielded(entry: (string, Json))
    decreases entry, 0
  {
    if entry.0 == "$in" || entry.0 == "$contains" then !Bare(entry.1)
    else if (entry.0 == "$and" || entry.0 == "$or") && entry.1.Arr? then
      forall j :: 0 <= j < |entry.1.items| ==> ConditionFielded(entry.1.items[j])
    else true
  }

  predicate ConditionFielded(condition: Json)
    decreases condition, 0
  {
    condition.Obj? ==> Fielded(condition.fields)
  }

  lemma {:induction false} NodeAgrees(rules: Fields, node: Json)
    requires Fielded(rules)
    ensures EvalNode(rules, node) == RuleEngine.EvalNode(rules, node)
    decreases rules, 1
  {
    if rules != [] {
      EntryAgrees(rules[0], node);
      assert Fielded(rules[1..]) by {
        assert forall i :: 1 <= i < |rules| ==> rules[i] == rules[1..][i - 1];
      }
      NodeAgrees(rules[1..], node);
    }
  }

  lemma {:induction false} EntryAgrees(entry: (string, Json), node: Json)
    requires EntryFielded(entry)
    ensures EvalEntry(entry, node) == RuleEngine.EvalEntry(entry, node)
    decreases entry, 0
  {
    var (op, value) := entry;
    if op == "$and" || op == "$or" {
      if value.Arr? {
        ConditionsAgree(value.items, node);
      }
    }
  }

  lemma {:induction false} ConditionsAgree(conditions: seq<Json>, node: Json)
    requires forall j :: 0 <= j < |conditions| ==> ConditionFielded(conditions[j])
    ensures AllHold(conditions, node) == RuleEngine.AllHold(conditions, node)
    ensures AnyHolds(conditions, node) == RuleEngine.AnyHolds(conditions, node)
    decreases conditions, 0
  {
    if conditions != [] {
      var c := conditions[0];
      if c.Obj? {
        NodeAgrees(c.fields, node);
      }
      assert forall j :: 1 <= j < |conditions| ==> conditions[j] == conditions[1..][j - 1];
      ConditionsAgree(conditions[1..], node);
    }
  }

  /**
   * On a message that is JSON with nothing to trim, the legacy interpreter
   * decides every rule without a field-less `$in` / `$contains` exactly as
   * the current one does.
   */
  lemma AgreesWithCurrent(rules: Fields, message: string, readTree: JsonReader)
    requires Fielded(rules)
    requires message != [] && Trim(message) == message && readTree(message).Some?
    ensures EvaluateRules(rules, message, readTree) == RuleEngine.EvaluateRules(rules, message, readTree)
  {
    NodeAgrees(rules, readTree(message).value);
  }

  /** A field-less `$in` that the current interpreter accepts on a text message, the legacy one rejects. */
  lemma FieldlessInDiffers(s: string)
    ensures var rule := [("$in", Obj([("$values", Arr([Str(s)]))]))];
      EvalNode(rule, Str(s)) == Ok(false) && RuleEngine.EvalNode(rule, Str(s)) == Ok(true)
  {
    var condition := Obj([("$values", Arr([Str(s)]))]);
    assert RuleEngine.StringMember(condition.fields, "$field") == Ok(None);
    assert RuleEngine.ListMember(condition.fields, "$values") == Ok(Some([Str(s)]));
    assert RuleEngine.AnyEqual(Str(s), [Str(s)]) == Ok(true);
    assert EvalEntry(("$in", condition), Str(s)) == Ok(false);
    assert RuleEngine.EvalEntry(("$in", condition), Str(s)) == Ok(true);
  }
}
