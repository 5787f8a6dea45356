/** The update path of `update_product` (aws/code/index.py): the record an update should
    produce, and the builder of the UpdateExpression, ExpressionAttributeValues and
    ExpressionAttributeNames sent to the store, proved to produce exactly that record. */
module UpdateBuilder {
  import opened Json
  import opened Text
  import opened DynamoUpdate

  /** The body keys `update_product` copies into the record. */
  const FieldNames: set<string> := {"name", "description", "price", "category", "stock"}

  /** The product fields of a body that an update supplies. */
  function Supplied(body: map<string, Value>): map<string, Value> {
    map k | k in body && k in FieldNames :: body[k]
  }

  /** The record after a successful update: the supplied fields overwrite, `updatedAt` is the
      clock reading, and every other attribute keeps its value. */
  function UpdatedItem(item: Item, body: map<string, Value>, now: int): (r: Item)
    ensures r.Keys == item.Keys + {"updatedAt"} + (body.Keys * FieldNames)
    ensures r["updatedAt"] == Int(now)
    ensures forall k :: k in body && k in FieldNames ==> r[k] == body[k]
    ensures forall k :: k in item && k != "updatedAt" && !(k in body && k in FieldNames) ==> r[k] == item[k]
  {
    (item + Supplied(body))["updatedAt" := Int(now)]
  }

  /** The body fields `update_product` looks at, in the order it looks at them. */
  datatype Field = Name | Description | Price | Category | Stock

  const UpdatableFields: seq<Field> := [Name, Description, Price, Category, Stock]

  function AttributeName(f: Field): string {
    match f
    case Name => "name"
    case Description => "description"
    case Price => "price"
    case Category => "category"
    case Stock => "stock"
  }

  /** `name` is a DynamoDB reserved word, so the expression refers to it through `#n`. */
  function PathFor(f: Field): string {
    match f
    case Name => "#n"
    case _ => AttributeName(f)
  }

  function OperandFor(f: Field): string {
    match f
    case Name => ":name"
    case Description => ":description"
    case Price => ":price"
    case Category => ":category"
    case Stock => ":stock"
  }

  function FieldAction(f: Field): SetAction {
    SetAction(PathFor(f), OperandFor(f))
  }

  const TimestampAction: SetAction := SetAction("updatedAt", ":timestamp")

  /** One clause per field of `fs` present in the body, in the order of `fs`. */
  function FieldActions(fs: seq<Field>, body: map<string, Value>): seq<SetAction> {
    if fs == [] then []
    else (if AttributeName(fs[0]) in body then [FieldAction(fs[0])] else []) + FieldActions(fs[1..], body)
  }

  /** The clauses of the expression `update_product` sends: the timestamp, then the supplied
      fields in their fixed order. */
  function PlannedActions(body: map<string, Value>): (acts: seq<SetAction>)
    ensures |acts| >= 1 && acts[0] == TimestampAction
  {
    [TimestampAction] + FieldActions(UpdatableFields, body)
  }

  /** The operand values entered field by field on top of `acc`. */
  function FieldValuesFrom(acc: map<string, Value>, fs: seq<Field>, body: map<string, Value>): map<string, Value>
    decreases |fs|
  {
    if fs == [] then acc
    else
      var name := AttributeName(fs[0]);
      FieldValuesFrom(if name in body then acc[OperandFor(fs[0]) := body[name]] else acc, fs[1..], body)
  }

  function PlannedValues(body: map<string, Value>, now: int): map<string, Value> {
    FieldValuesFrom(map[":timestamp" := Int(now)], UpdatableFields, body)
  }

  function PlannedNames(body: map<string, Value>): map<string, string> {
    if "name" in body then map["#n" := "name"] else map[]
  }

  /** `if expr_names:` — the names dictionary is passed only when it is not empty. */
  function NamesArgument(names: map<string, string>): Option<map<string, string>> {
    if |names| == 0 then None else Some(names)
  }

  // ---- facts about the five fields

  lemma TokenLiterals()
    ensures IsToken("#n") && IsToken(":name")
    ensures IsToken("description") && IsToken(":description")
    ensures IsToken("price") && IsToken(":price")
    ensures IsToken("category") && IsToken(":category")
    ensures IsToken("stock") && IsToken(":stock")
    ensures IsToken("updatedAt") && IsToken(":timestamp")
  {
  }

  lemma FieldTokens(f: Field)
    ensures IsToken(PathFor(f)) && IsToken(OperandFor(f))
  {
    TokenLiterals();
  }

  lemma FieldFacts(f: Field)
    ensures AttributeName(f) in FieldNames
    ensures AttributeName(f) != "updatedAt" && AttributeName(f) != KeyAttribute
    ensures OperandFor(f) != ":timestamp"
    ensures |PathFor(f)| > 0 && (PathFor(f)[0] == '#' <==> f == Name)
  {
  }

  /** A field's path resolves to its attribute name, through `#n` for `name`. */
  lemma ResolveField(f: Field, names: Option<map<string, string>>)
    requires f == Name ==> names.Some? && "#n" in names.value && names.value["#n"] == "name"
    ensures Resolve(PathFor(f), names) == Some(AttributeName(f))
  {
    FieldFacts(f);
  }

  lemma FieldInjective(f: Field, g: Field)
    ensures AttributeName(f) == AttributeName(g) ==> f == g
    ensures OperandFor(f) == OperandFor(g) ==> f == g
  {
  }

  /** The attribute names of the fields of `fs` present in the body, in order. */
  function PresentNames(fs: seq<Field>, body: map<string, Value>): seq<string> {
    if fs == [] then []
    else (if AttributeName(fs[0]) in body then [AttributeName(fs[0])] else []) + PresentNames(fs[1..], body)
  }

  lemma {:induction false} FieldActionsTokens(fs: seq<Field>, body: map<string, Value>)
    ensures TokenActions(FieldActions(fs, body))
    decreases |fs|
  {
    if fs != [] {
      FieldTokens(fs[0]);
      FieldActionsTokens(fs[1..], body);
    }
  }

  lemma {:induction false} FieldActionsOperands(acc: map<string, Value>, fs: seq<Field>, body: map<string, Value>)
    ensures FieldValuesFrom(acc, fs, body).Keys == acc.Keys + Operands(FieldActions(fs, body))
    decreases |fs|
  {
    if fs != [] {
      var name := AttributeName(fs[0]);
      var acc' := if name in body then acc[OperandFor(fs[0]) := body[name]] else acc;
      FieldActionsOperands(acc', fs[1..], body);
      var head := if name in body then [FieldAction(fs[0])] else [];
      OperandsAppend(head, FieldActions(fs[1..], body));
    }
  }

  lemma {:induction false} OperandsAppend(xs: seq<SetAction>, ys: seq<SetAction>)
    ensures Operands(xs + ys) == Operands(xs) + Operands(ys)
    decreases |xs|
  {
    if xs != [] {
      assert (xs + ys)[1..] == xs[1..] + ys;
      OperandsAppend(xs[1..], ys);
    } else {
      assert xs + ys == ys;
    }
  }

  lemma {:induction false} NameRefsAppend(xs: seq<SetAction>, ys: seq<SetAction>)
    ensures NameRefs(xs + ys) == NameRefs(xs) + NameRefs(ys)
    decreases |xs|
  {
    if xs != [] {
      assert (xs + ys)[1..] == xs[1..] + ys;
      NameRefsAppend(xs[1..], ys);
    } else {
      assert xs + ys == ys;
    }
  }

  lemma {:induction false} FieldActionsNameRefs(fs: seq<Field>, body: map<string, Value>)
    ensures NameRefs(FieldActions(fs, body)) == if Name in fs && "name" in body then {"#n"} else {}
    decreases |fs|
  {
    if fs != [] {
      FieldFacts(fs[0]);
      var head := if AttributeName(fs[0]) in body then [FieldAction(fs[0])] else [];
      NameRefsAppend(head, FieldActions(fs[1..], body));
      FieldActionsNameRefs(fs[1..], body);
      assert Name in fs <==> fs[0] == Name || Name in fs[1..];
    }
  }

  lemma {:induction false} TargetsAppend(xs: seq<SetAction>, ys: seq<SetAction>, names: Option<map<string, string>>)
    requires Targets(xs, names).Some? && Targets(ys, names).Some?
    ensures Targets(xs + ys, names) == Some(Targets(xs, names).value + Targets(ys, names).value)
    decreases |xs|
  {
    if xs != [] {
      var t := Resolve(xs[0].path, names).value;
      var a, b := Targets(xs[1..], names).value, Targets(ys, names).value;
      assert (xs + ys)[0] == xs[0];
      assert (xs + ys)[1..] == xs[1..] + ys;
      TargetsAppend(xs[1..], ys, names);
      assert Targets(xs + ys, names) == Some([t] + (a + b));
      assert [t] + (a + b) == ([t] + a) + b;
    } else {
      assert xs + ys == ys;
      assert [] + Targets(ys, names).value == Targets(ys, names).value;
    }
  }

  lemma {:induction false} FieldActionsTargets(fs: seq<Field>, body: map<string, Value>, names: Option<map<string, string>>)
    requires Name in fs && "name" in body ==> names.Some? && "#n" in names.value && names.value["#n"] == "name"
    ensures Targets(FieldActions(fs, body), names) == Some(PresentNames(fs, body))
    decreases |fs|
  {
    if fs != [] {
      FieldFacts(fs[0]);
      var head := if AttributeName(fs[0]) in body then [FieldAction(fs[0])] else [];
      FieldActionsTargets(fs[1..], body, names);
      if AttributeName(fs[0]) in body {
        ResolveField(fs[0], names);
        assert head[1..] == [];
        assert Targets(head[1..], names) == Some([]);
        assert Targets(head, names) == Some([AttributeName(fs[0])] + []);
        assert [AttributeName(fs[0])] + [] == [AttributeName(fs[0])];
      } else {
        assert head == [];
      }
      assert Targets(head, names) == Some(if AttributeName(fs[0]) in body then [AttributeName(fs[0])] else []);
      TargetsAppend(head, FieldActions(fs[1..], body), names);
    }
  }

  lemma {:induction false} PresentNamesFrom(fs: seq<Field>, body: map<string, Value>, f: Field)
    requires AttributeName(f) in PresentNames(fs, body)
    ensures f in fs
    decreases |fs|
  {
    if fs != [] {
      FieldInjective(f, fs[0]);
      if AttributeName(f) != AttributeName(fs[0]) || AttributeName(fs[0]) !in body {
        PresentNamesFrom(fs[1..], body, f);
      }
    }
  }

  lemma {:induction false} PresentNamesFacts(fs: seq<Field>, body: map<string, Value>)
    requires Distinct(fs)
    ensures Distinct(PresentNames(fs, body))
    ensures "updatedAt" !in PresentNames(fs, body) && KeyAttribute !in PresentNames(fs, body)
    decreases |fs|
  {
    if fs != [] {
      var f := fs[0];
      FieldFacts(f);
      PresentNamesFacts(fs[1..], body);
      if AttributeName(f) in body {
        if AttributeName(f) in PresentNames(fs[1..], body) {
          PresentNamesFrom(fs[1..], body, f);
          assert false;
        }
        assert PresentNames(fs, body) == [AttributeName(f)] + PresentNames(fs[1..], body);
        assert ([AttributeName(f)] + PresentNames(fs[1..], body))[1..] == PresentNames(fs[1..], body);
      } else {
        assert PresentNames(fs, body) == PresentNames(fs[1..], body);
      }
    }
  }

  /** An entry of `acc` that no field of `fs` writes survives. */
  lemma {:induction false} FieldValuesKeep(acc: map<string, Value>, fs: seq<Field>, body: map<string, Value>, k: string)
    requires k in acc
    requires forall g :: g in fs ==> OperandFor(g) != k
    ensures k in FieldValuesFrom(acc, fs, body) && FieldValuesFrom(acc, fs, body)[k] == acc[k]
    decreases |fs|
  {
    if fs != [] {
      var name := AttributeName(fs[0]);
      var acc' := if name in body then acc[OperandFor(fs[0]) := body[name]] else acc;
      FieldValuesKeep(acc', fs[1..], body, k);
    }
  }

  /** The operand of a supplied field holds the body's value for it. */
  lemma {:induction false} FieldValuesLookup(acc: map<string, Value>, fs: seq<Field>, body: map<string, Value>, f: Field)
    requires Distinct(fs) && f in fs && AttributeName(f) in body
    ensures OperandFor(f) in FieldValuesFrom(acc, fs, body)
    ensures FieldValuesFrom(acc, fs, body)[OperandFor(f)] == body[AttributeName(f)]
    decreases |fs|
  {
    var name := AttributeName(fs[0]);
    var acc' := if name in body then acc[OperandFor(fs[0]) := body[name]] else acc;
    if fs[0] == f {
      forall g | g in fs[1..] ensures OperandFor(g) != OperandFor(f) {
        FieldInjective(f, g);
      }
      FieldValuesKeep(acc', fs[1..], body, OperandFor(f));
    } else {
      FieldValuesLookup(acc', fs[1..], body, f);
    }
  }

  /** The fields of `fs` present in the body, copied over `item`. */
  function Overlay(item: Item, body: map<string, Value>, fs: seq<Field>): Item
    decreases |fs|
  {
    if fs == [] then item
    else
      var name := AttributeName(fs[0]);
      Overlay(if name in body then item[name := body[name]] else item, body, fs[1..])
  }

  lemma {:induction false} ApplyFieldActions(item: Item, fs: seq<Field>, body: map<string, Value>,
                                             names: Option<map<string, string>>, values: map<string, Value>)
    requires Name in fs && "name" in body ==> names.Some? && "#n" in names.value && names.value["#n"] == "name"
    requires forall f :: f in fs && AttributeName(f) in body ==>
               OperandFor(f) in values && values[OperandFor(f)] == body[AttributeName(f)]
    ensures Apply(item, FieldActions(fs, body), names, values) == Some(Overlay(item, body, fs))
    decreases |fs|
  {
    if fs != [] {
      var f := fs[0];
      var name := AttributeName(f);
      FieldFacts(f);
      var item' := if name in body then item[name := body[name]] else item;
      ApplyFieldActions(item', fs[1..], body, names, values);
      if name in body {
        ResolveField(f, names);
        assert FieldActions(fs, body) == [FieldAction(f)] + FieldActions(fs[1..], body);
        assert ([FieldAction(f)] + FieldActions(fs[1..], body))[1..] == FieldActions(fs[1..], body);
      } else {
        assert FieldActions(fs, body) == FieldActions(fs[1..], body);
      }
    }
  }

  /** Setting a key before a union that agrees with it is setting it in the union. */
  lemma UpdateThenUnion<K, V>(m: map<K, V>, r: map<K, V>, k: K, v: V)
    requires k in r ==> r[k] == v
    ensures m[k := v] + r == m + r[k := v]
  {
    assert (m[k := v] + r).Keys == (m + r[k := v]).Keys;
  }

  /** Overlaying field by field is a map union with the supplied fields of `fs`. */
  lemma {:induction false} OverlayUnion(item: Item, body: map<string, Value>, fs: seq<Field>)
    ensures Overlay(item, body, fs) ==
            item + (map k | k in body && k in FieldSet(fs) :: body[k])
    decreases |fs|
  {
    if fs != [] {
      var name := AttributeName(fs[0]);
      var item' := if name in body then item[name := body[name]] else item;
      OverlayUnion(item', body, fs[1..]);
      var rest := map k | k in body && k in FieldSet(fs[1..]) :: body[k];
      var all := map k | k in body && k in FieldSet(fs) :: body[k];
      assert FieldSet(fs) == {name} + FieldSet(fs[1..]);
      if name in body {
        assert all == rest[name := body[name]];
        UpdateThenUnion(item, rest, name, body[name]);
      } else {
        assert all == rest;
      }
    }
  }

  function FieldSet(fs: seq<Field>): set<string> {
    if fs == [] then {} else {AttributeName(fs[0])} + FieldSet(fs[1..])
  }

  lemma PlannedParses(body: map<string, Value>)
    ensures Parse(Render(PlannedActions(body))) == Some(PlannedActions(body))
  {
    var acts := PlannedActions(body);
    var fas := FieldActions(UpdatableFields, body);
    FieldActionsTokens(UpdatableFields, body);
    TokenLiterals();
    forall i | 0 <= i < |acts| ensures IsToken(acts[i].path) && IsToken(acts[i].operand) {
      if i > 0 {
        assert acts[i] == fas[i - 1];
      }
    }
    ParseRender(acts);
  }

  /** Every operand and every `#` name of the planned clauses is supplied, and nothing
      supplied goes unused. */
  lemma PlannedReferences(body: map<string, Value>, now: int)
    ensures PlannedValues(body, now).Keys == Operands(PlannedActions(body))
    ensures PlannedNames(body).Keys == NameRefs(PlannedActions(body))
  {
    var fas := FieldActions(UpdatableFields, body);
    FieldActionsOperands(map[":timestamp" := Int(now)], UpdatableFields, body);
    OperandsAppend([TimestampAction], fas);
    FieldActionsNameRefs(UpdatableFields, body);
    NameRefsAppend([TimestampAction], fas);
    assert NameRefs([TimestampAction]) == {};
    assert Operands([TimestampAction]) == {":timestamp"};
  }

  /** The planned clauses set distinct attributes, none of them the key. */
  lemma PlannedTargets(body: map<string, Value>)
    ensures Targets(PlannedActions(body), NamesArgument(PlannedNames(body)))
            == Some(["updatedAt"] + PresentNames(UpdatableFields, body))
    ensures Distinct(["updatedAt"] + PresentNames(UpdatableFields, body))
    ensures KeyAttribute !in ["updatedAt"] + PresentNames(UpdatableFields, body)
  {
    var names := NamesArgument(PlannedNames(body));
    var fas := FieldActions(UpdatableFields, body);
    var present := PresentNames(UpdatableFields, body);
    assert Distinct(UpdatableFields);
    FieldActionsTargets(UpdatableFields, body, names);
    assert Resolve("updatedAt", names) == Some("updatedAt") by { assert "updatedAt"[0] == 'u'; }
    assert [TimestampAction][1..] == [];
    assert Targets([TimestampAction], names) == Some(["updatedAt"] + []);
    assert ["updatedAt"] + [] == ["updatedAt"];
    TargetsAppend([TimestampAction], fas, names);
    PresentNamesFacts(UpdatableFields, body);
    assert (["updatedAt"] + present)[1..] == present;
  }

  /** The timestamp clause comes first and sets `updatedAt`. */
  lemma PlannedStampsFirst(item: Item, body: map<string, Value>, now: int)
    ensures Apply(item, PlannedActions(body), NamesArgument(PlannedNames(body)), PlannedValues(body, now))
            == Apply(item["updatedAt" := Int(now)], FieldActions(UpdatableFields, body),
                     NamesArgument(PlannedNames(body)), PlannedValues(body, now))
  {
    var names := NamesArgument(PlannedNames(body));
    var values := PlannedValues(body, now);
    var acts := PlannedActions(body);
    forall g | g in UpdatableFields ensures OperandFor(g) != ":timestamp" {
      FieldFacts(g);
    }
    FieldValuesKeep(map[":timestamp" := Int(now)], UpdatableFields, body, ":timestamp");
    assert Resolve("updatedAt", names) == Some("updatedAt") by { assert "updatedAt"[0] == 'u'; }
    assert acts[0] == TimestampAction;
    assert acts[1..] == FieldActions(UpdatableFields, body);
  }

  /** Applying the planned clauses gives the intended updated record. */
  lemma PlannedApplies(item: Item, body: map<string, Value>, now: int)
    ensures Apply(item, PlannedActions(body), NamesArgument(PlannedNames(body)), PlannedValues(body, now))
            == Some(UpdatedItem(item, body, now))
  {
    var names := NamesArgument(PlannedNames(body));
    var values := PlannedValues(body, now);
    var stamped := item["updatedAt" := Int(now)];
    assert Distinct(UpdatableFields);
    forall f | f in UpdatableFields && AttributeName(f) in body
      ensures OperandFor(f) in values && values[OperandFor(f)] == body[AttributeName(f)]
    {
      FieldValuesLookup(map[":timestamp" := Int(now)], UpdatableFields, body, f);
    }
    ApplyFieldActions(stamped, UpdatableFields, body, names, values);
    PlannedStampsFirst(item, body, now);
    OverlayUnion(stamped, body, UpdatableFields);
    StampCommutes(item, body, now);
  }

  /** The five fields are the body keys `update_product` copies. */
  lemma FieldSetIsFieldNames()
    ensures FieldSet(UpdatableFields) == FieldNames
  {
  }

  /** A key the union does not set can be set before or after it. */
  lemma UpdateBeforeUnion<K, V>(m: map<K, V>, r: map<K, V>, k: K, v: V)
    requires k !in r
    ensures m[k := v] + r == (m + r)[k := v]
  {
    assert (m[k := v] + r).Keys == ((m + r)[k := v]).Keys;
  }

  lemma StampCommutes(item: Item, body: map<string, Value>, now: int)
    ensures item["updatedAt" := Int(now)] + (map k | k in body && k in FieldSet(UpdatableFields) :: body[k])
            == UpdatedItem(item, body, now)
  {
    FieldSetIsFieldNames();
    assert (map k | k in body && k in FieldSet(UpdatableFields) :: body[k]) == Supplied(body);
    assert "updatedAt" !in Supplied(body);
    UpdateBeforeUnion(item, Supplied(body), "updatedAt", Int(now));
  }

  /** DynamoDB accepts the expression, values and names that `update_product` builds, and
      applying them to an existing record gives exactly the intended updated record. */
  lemma UpdateRequestMeaning(item: Item, body: map<string, Value>, now: int)
    ensures UpdateItem(item, Render(PlannedActions(body)), PlannedValues(body, now),
                       NamesArgument(PlannedNames(body)))
            == Some(UpdatedItem(item, body, now))
  {
    PlannedParses(body);
    PlannedReferences(body, now);
    PlannedTargets(body);
    PlannedApplies(item, body, now);
  }

  /** Appending a clause appends `, path = operand` to the text. */
  lemma RenderAppend(acts: seq<SetAction>, a: SetAction)
    requires |acts| >= 1
    ensures Render(acts + [a]) == Render(acts) + (", " + ClauseText(a))
  {
    var cs := ClauseTexts(acts + [a]);
    assert cs == ClauseTexts(acts) + [ClauseText(a)];
    JoinLast(cs, ", ");
    assert cs[..|cs| - 1] == ClauseTexts(acts);
  }

  /** Adding clauses only extends the text. */
  lemma {:induction false} RenderPrefix(acts: seq<SetAction>, more: seq<SetAction>)
    requires |acts| >= 1
    ensures Render(acts) <= Render(acts + more)
    decreases |more|
  {
    if more != [] {
      var init := more[..|more| - 1];
      RenderPrefix(acts, init);
      assert acts + more == (acts + init) + [more[|more| - 1]];
      RenderAppend(acts + init, more[|more| - 1]);
    } else {
      assert acts + more == acts;
    }
  }

  /** A single clause renders as `SET path = operand`. */
  lemma RenderSingle(a: SetAction)
    ensures Render([a]) == "SET " + ClauseText(a)
  {
    assert [a][1..] == [];
    assert ClauseTexts([a]) == [ClauseText(a)];
  }

  lemma TimestampClause()
    ensures "SET " + ClauseText(TimestampAction) == "SET updatedAt = :timestamp" {}

  /** The text of the timestamp clause alone. */
  lemma OpeningClause()
    ensures Render([TimestampAction]) == "SET updatedAt = :timestamp"
  {
    RenderSingle(TimestampAction);
    TimestampClause();
  }

  /** Every expression `update_product` sends starts with the timestamp clause. */
  lemma PlannedStartsWithTimestamp(body: map<string, Value>)
    ensures "SET updatedAt = :timestamp" <= Render(PlannedActions(body))
  {
    OpeningClause();
    RenderPrefix([TimestampAction], FieldActions(UpdatableFields, body));
  }

  /** What the builder holds between two of its `if`s: the expression text, the operand
      values and the attribute-name aliases. */
  datatype Draft = Draft(expr: string, values: map<string, Value>, names: map<string, string>)

  /** The builder's opening: the timestamp clause and its value, and no aliases. */
  function StartDraft(now: int): Draft {
    Draft("SET updatedAt = :timestamp", map[":timestamp" := Int(now)], map[])
  }

  /** The text each field's clause adds to the expression, as `update_product` spells it. */
  function ClauseSuffix(f: Field): string {
    match f
    case Name => ", #n = :name"
    case Description => ", description = :description"
    case Price => ", price = :price"
    case Category => ", category = :category"
    case Stock => ", stock = :stock"
  }

  /** One `if` of the builder: a present field adds its clause and its value, and `name`
      also its `#n` alias; an absent field changes nothing. */
  function AddField(d: Draft, f: Field, body: map<string, Value>): Draft {
    if AttributeName(f) !in body then d
    else Draft(d.expr + ClauseSuffix(f), d.values[OperandFor(f) := body[AttributeName(f)]],
               if f == Name then d.names["#n" := "name"] else d.names)
  }

  /** The `if`s for the fields of `fs`, one after the other. */
  function AddFields(d: Draft, fs: seq<Field>, body: map<string, Value>): Draft
    decreases |fs|
  {
    if fs == [] then d else AddFields(AddField(d, fs[0], body), fs[1..], body)
  }

  /** The five `if`s written out. */
  lemma AddFieldsUnrolled(d: Draft, body: map<string, Value>)
    ensures AddFields(d, UpdatableFields, body) ==
      AddField(AddField(AddField(AddField(AddField(d, Name, body), Description, body),
                                 Price, body), Category, body), Stock, body)
  {
    var fs := UpdatableFields;
    assert fs[1..] == [Description, Price, Category, Stock];
    assert fs[1..][1..] == [Price, Category, Stock];
    assert fs[1..][1..][1..] == [Category, Stock];
    assert fs[1..][1..][1..][1..] == [Stock];
    assert fs[1..][1..][1..][1..][1..] == [];
  }

  /* The clause text each `if` of the builder appends, one literal per lemma. */
  lemma NameClause() ensures ", " + ClauseText(FieldAction(Name)) == ", #n = :name" {}
  lemma DescriptionClause()
    ensures ", " + ClauseText(FieldAction(Description)) == ", description = :description" {}
  lemma PriceClause() ensures ", " + ClauseText(FieldAction(Price)) == ", price = :price" {}
  lemma CategoryClause() ensures ", " + ClauseText(FieldAction(Category)) == ", category = :category" {}
  lemma StockClause() ensures ", " + ClauseText(FieldAction(Stock)) == ", stock = :stock" {}

  /** The spelled-out clause of a field is the rendered clause of its action. */
  lemma ClauseLiteral(f: Field)
    ensures ClauseSuffix(f) == ", " + ClauseText(FieldAction(f))
  {
    match f
    case Name => NameClause();
    case Description => DescriptionClause();
    case Price => PriceClause();
    case Category => CategoryClause();
    case Stock => StockClause();
  }

  /** What the builder has produced after looking at every field but those in `rest`: the
      expression renders the clauses `acts`, which the remaining fields complete to the
      planned ones, and the values and aliases complete likewise. */
  ghost predicate BuilderState(body: map<string, Value>, now: int, d: Draft,
                               acts: seq<SetAction>, rest: seq<Field>)
  {
    && |acts| >= 1
    && d.expr == Render(acts)
    && acts + FieldActions(rest, body) == PlannedActions(body)
    && FieldValuesFrom(d.values, rest, body) == PlannedValues(body, now)
    && (Name in rest ==> rest[0] == Name && Name !in rest[1..])
    && d.names == (if Name in rest then map[] else PlannedNames(body))
  }

  lemma BuilderStart(body: map<string, Value>, now: int)
    ensures BuilderState(body, now, StartDraft(now), [TimestampAction], UpdatableFields)
  {
    OpeningClause();
    assert UpdatableFields[0] == Name;
    assert UpdatableFields[1..] == [Description, Price, Category, Stock];
  }

  /** The clauses after one more `if`. */
  function NextActions(acts: seq<SetAction>, f: Field, body: map<string, Value>): seq<SetAction> {
    if AttributeName(f) in body then acts + [FieldAction(f)] else acts
  }

  /** One `if` renders the clauses it has so far. */
  lemma StepRender(body: map<string, Value>, d: Draft, acts: seq<SetAction>, f: Field)
    requires |acts| >= 1 && d.expr == Render(acts)
    ensures AddField(d, f, body).expr == Render(NextActions(acts, f, body))
  {
    if AttributeName(f) in body {
      ClauseLiteral(f);
      RenderAppend(acts, FieldAction(f));
    }
  }

  /** One `if` leaves the rest of the plan in place. */
  lemma StepPlan(body: map<string, Value>, acts: seq<SetAction>, rest: seq<Field>)
    requires |rest| >= 1
    ensures NextActions(acts, rest[0], body) + FieldActions(rest[1..], body) == acts + FieldActions(rest, body)
  {
    if AttributeName(rest[0]) in body {
      AppendAssoc(acts, [FieldAction(rest[0])], FieldActions(rest[1..], body));
    }
  }

  /** Only the `if` for `name`, which comes first, declares the alias. */
  lemma StepNames(body: map<string, Value>, d: Draft, rest: seq<Field>)
    requires |rest| >= 1
    requires Name in rest ==> rest[0] == Name && Name !in rest[1..]
    requires d.names == (if Name in rest then map[] else PlannedNames(body))
    ensures Name !in rest[1..]
    ensures AddField(d, rest[0], body).names == PlannedNames(body)
  {
    assert Name in rest[1..] ==> Name in rest;
  }

  /** One `if` of the builder keeps the builder's state. */
  lemma BuilderStep(body: map<string, Value>, now: int, d: Draft, acts: seq<SetAction>, rest: seq<Field>)
    requires BuilderState(body, now, d, acts, rest) && |rest| >= 1
    ensures BuilderState(body, now, AddField(d, rest[0], body), NextActions(acts, rest[0], body), rest[1..])
  {
    StepRender(body, d, acts, rest[0]);
    StepPlan(body, acts, rest);
    StepNames(body, d, rest);
  }

  /** From any builder state, the remaining `if`s end at the planned request. */
  lemma {:induction false} BuilderFinishes(body: map<string, Value>, now: int, d: Draft,
                                           acts: seq<SetAction>, rest: seq<Field>)
    requires BuilderState(body, now, d, acts, rest)
    ensures AddFields(d, rest, body)
            == Draft(Render(PlannedActions(body)), PlannedValues(body, now), PlannedNames(body))
    decreases |rest|
  {
    if rest == [] {
      assert acts + [] == acts;
    } else {
      BuilderStep(body, now, d, acts, rest);
      BuilderFinishes(body, now, AddField(d, rest[0], body), NextActions(acts, rest[0], body), rest[1..]);
    }
  }

  /** The builder's `if`s, from its opening, produce the planned expression, values and names. */
  lemma BuilderPlan(body: map<string, Value>, now: int)
    ensures AddFields(StartDraft(now), UpdatableFields, body)
            == Draft(Render(PlannedActions(body)), PlannedValues(body, now), PlannedNames(body))
  {
    BuilderStart(body, now);
    BuilderFinishes(body, now, StartDraft(now), [TimestampAction], UpdatableFields);
  }

  /** What the builder's result means: the planned expression, values and names, which
      start with the timestamp clause, carry the `#n` alias exactly when the body has a
      name, and which DynamoDB accepts and applies to give the updated record. */
  lemma BuildMeaning(body: map<string, Value>, now: int, expr: string,
                     values: map<string, Value>, names: map<string, string>)
    requires Draft(expr, values, names) == AddFields(StartDraft(now), UpdatableFields, body)
    ensures expr == Render(PlannedActions(body))
    ensures values == PlannedValues(body, now) && names == PlannedNames(body)
    ensures "SET updatedAt = :timestamp" <= expr
    ensures |names| > 0 <==> "name" in body
    ensures forall item :: UpdateItem(item, expr, values, NamesArgument(names)) == Some(UpdatedItem(item, body, now))
  {
    BuilderPlan(body, now);
    PlannedStartsWithTimestamp(body);
    forall item ensures UpdateItem(item, expr, values, NamesArgument(names)) == Some(UpdatedItem(item, body, now)) {
      UpdateRequestMeaning(item, body, now);
    }
  }

  /** The expression builder of `update_product`: starts from the timestamp clause and, for
      each of name, description, price, category and stock present in the body, appends its
      clause, enters its value, and for `name` declares the `#n` alias. */
  method BuildUpdate(body: map<string, Value>, now: int)
    returns (expr: string, values: map<string, Value>, names: map<string, string>)
    ensures Draft(expr, values, names) == AddFields(StartDraft(now), UpdatableFields, body)
    ensures expr == Render(PlannedActions(body))
    ensures values == PlannedValues(body, now) && names == PlannedNames(body)
    ensures "SET updatedAt = :timestamp" <= expr
    ensures |names| > 0 <==> "name" in body
    ensures forall item :: UpdateItem(item, expr, values, NamesArgument(names)) == Some(UpdatedItem(item, body, now))
  {
    expr := "SET updatedAt = :timestamp";
    values := map[":timestamp" := Int(now)];
    names := map[];
    ghost var d0 := StartDraft(now);
    ghost var d := d0;

    if "name" in body {
      expr := expr + ", #n = :name";
      values := values[":name" := body["name"]];
      names := names["#n" := "name"];
    }
    d := AddField(d, Name, body);
    assert Draft(expr, values, names) == d;

    if "description" in body {
      expr := expr + ", description = :description";
      values := values[":description" := body["description"]];
    }
    d := AddField(d, Description, body);
    assert Draft(expr, values, names) == d;

    if "price" in body {
      expr := expr + ", price = :price";
      values := values[":price" := body["price"]];
    }
    d := AddField(d, Price, body);
    assert Draft(expr, values, names) == d;

    if "category" in body {
      expr := expr + ", category = :category";
      values := values[":category" := body["category"]];
    }
    d := AddField(d, Category, body);
    assert Draft(expr, values, names) == d;

    if "stock" in body {
      expr := expr + ", stock = :stock";
      values := values[":stock" := body["stock"]];
    }
    d := AddField(d, Stock, body);
    assert Draft(expr, values, names) == d;

    AddFieldsUnrolled(d0, body);
    BuildMeaning(body, now, expr, values, names);
  }
}
