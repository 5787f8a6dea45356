/** The part of DynamoDB's UpdateItem that the product backend relies on: an UpdateExpression
    of the form `SET path = :operand, ...`, with ExpressionAttributeValues supplying the
    operands and ExpressionAttributeNames standing in for `#`-prefixed paths. This is the
    meaning the store gives to the strings and dictionaries the backend builds. */
module DynamoUpdate {
  import opened Json
  import opened Text

  /** A stored record: attribute name to value. */
  type Item = map<string, Value>

  /** The table's partition key, which an update may not set. */
  const KeyAttribute: string := "productId"

  /** One `path = operand` clause of a SET expression. */
  datatype SetAction = SetAction(path: string, operand: string)

  /** A token that cannot be confused with the separators `, ` and ` = `. */
  predicate IsToken(s: string) {
    forall i :: 0 <= i < |s| ==> s[i] != ',' && s[i] != ' '
  }

  function ClauseText(a: SetAction): string {
    a.path + " = " + a.operand
  }

  function ClauseTexts(acts: seq<SetAction>): (cs: seq<string>)
    ensures |cs| == |acts|
    ensures forall i :: 0 <= i < |acts| ==> cs[i] == ClauseText(acts[i])
  {
    if acts == [] then [] else [ClauseText(acts[0])] + ClauseTexts(acts[1..])
  }

  /** The text of a SET expression with the given clauses, in order. */
  function Render(acts: seq<SetAction>): string
    requires |acts| >= 1
  {
    "SET " + Join(ClauseTexts(acts), ", ")
  }

  function ParseClauses(cs: seq<string>): Option<seq<SetAction>>
  {
    if cs == [] then Some([])
    else
      var parts := Split(cs[0], " = ");
      if |parts| != 2 then None
      else match ParseClauses(cs[1..])
        case None => None
        case Some(rest) => Some([SetAction(parts[0], parts[1])] + rest)
  }

  /** How the store reads a SET expression back into its clauses. */
  function Parse(expr: string): Option<seq<SetAction>>
  {
    if |expr| >= 4 && expr[..4] == "SET " then ParseClauses(Split(expr[4..], ", ")) else None
  }

  predicate TokenActions(acts: seq<SetAction>) {
    forall i :: 0 <= i < |acts| ==> IsToken(acts[i].path) && IsToken(acts[i].operand)
  }

  lemma {:induction false} ParseClauseTexts(acts: seq<SetAction>)
    requires TokenActions(acts)
    ensures ParseClauses(ClauseTexts(acts)) == Some(acts)
    decreases |acts|
  {
    if acts != [] {
      var a := acts[0];
      SplitJoin([a.path, a.operand], " = ");
      assert Join([a.path, a.operand], " = ") == ClauseText(a);
      assert ClauseTexts(acts)[1..] == ClauseTexts(acts[1..]);
      ParseClauseTexts(acts[1..]);
      assert [a] + acts[1..] == acts;
    }
  }

  /** Reading back a rendered SET expression gives its clauses, in order. */
  lemma ParseRender(acts: seq<SetAction>)
    requires |acts| >= 1 && TokenActions(acts)
    ensures Parse(Render(acts)) == Some(acts)
  {
    var cs := ClauseTexts(acts);
    forall i | 0 <= i < |cs| ensures ',' !in cs[i] {
      assert cs[i] == acts[i].path + " = " + acts[i].operand;
    }
    SplitJoin(cs, ", ");
    var expr := Render(acts);
    assert expr[..4] == "SET ";
    assert expr[4..] == Join(cs, ", ");
    ParseClauseTexts(acts);
  }

  /** A `#`-prefixed path is looked up in ExpressionAttributeNames; others name themselves. */
  function Resolve(path: string, names: Option<map<string, string>>): Option<string>
  {
    if |path| > 0 && path[0] == '#' then
      if names.Some? && path in names.value then Some(names.value[path]) else None
    else Some(path)
  }

  /** The operands the clauses refer to. */
  function Operands(acts: seq<SetAction>): set<string>
  {
    if acts == [] then {} else {acts[0].operand} + Operands(acts[1..])
  }

  /** The `#`-prefixed paths the clauses refer to. */
  function NameRefs(acts: seq<SetAction>): set<string>
  {
    if acts == [] then {}
    else (if |acts[0].path| > 0 && acts[0].path[0] == '#' then {acts[0].path} else {})
         + NameRefs(acts[1..])
  }

  /** The attributes the clauses set, or None if a path does not resolve. */
  function Targets(acts: seq<SetAction>, names: Option<map<string, string>>): (ts: Option<seq<string>>)
    ensures ts.Some? ==> |ts.value| == |acts|
  {
    if acts == [] then Some([])
    else match (Resolve(acts[0].path, names), Targets(acts[1..], names))
      case (Some(t), Some(rest)) => Some([t] + rest)
      case _ => None
  }

  /** No element occurs twice. */
  predicate Distinct<T(==)>(xs: seq<T>)
  {
    |xs| == 0 || (xs[0] !in xs[1..] && Distinct(xs[1..]))
  }

  /** The clauses applied left to right. */
  function Apply(item: Item, acts: seq<SetAction>, names: Option<map<string, string>>,
                 values: map<string, Value>): Option<Item>
    decreases |acts|
  {
    if acts == [] then Some(item)
    else match Resolve(acts[0].path, names)
      case None => None
      case Some(attr) =>
        if acts[0].operand !in values then None
        else Apply(item[attr := values[acts[0].operand]], acts[1..], names, values)
  }

  /** UpdateItem on an existing record: the expression must parse; the names dictionary, when
      passed, must not be empty; every value and every name passed must be used and every one
      used must be passed; no two clauses may set the same attribute and none may set the key.
      Any violation is a validation error (None); otherwise the clauses are applied. */
  function UpdateItem(item: Item, expr: string, values: map<string, Value>,
                      names: Option<map<string, string>>): Option<Item>
  {
    match Parse(expr)
    case None => None
    case Some(acts) =>
      var declared := if names.Some? then names.value.Keys else {};
      if names.Some? && |names.value| == 0 then None
      else if values.Keys != Operands(acts) || declared != NameRefs(acts) then None
      else match Targets(acts, names)
        case None => None
        case Some(ts) =>
          if !Distinct(ts) || KeyAttribute in ts then None else Apply(item, acts, names, values)
  }
}
