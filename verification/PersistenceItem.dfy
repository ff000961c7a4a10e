/** saveWithRelations of lib/server-code/api/persistence-item.js on finite trees of items: which items
    are saved, which relations are cleared, and in what order, however the promises interleave. */
module PersistenceItem {

  datatype Value =
    | Undefined
    | Null
    | Scalar(truthy: bool)
    | Persistable(item: Item)
    | Array(elements: seq<Value>)

  /** The own enumerable properties of an item, in key order. */
  datatype Item = Item(fields: seq<Field>)

  datatype Field = Field(key: string, value: Value)

  /** One step from an item to a child: the field, and the place in its array. */
  datatype Step = Step(key: string, index: nat)

  type Position = seq<Step>

  /** What reaches the data store; `SetRelation` and `DeleteRelation` name the owner and the field. */
  datatype Action =
    | Save(at: Position)
    | SetRelation(at: Position, key: string)
    | DeleteRelation(at: Position, key: string)

  /** `then` chains one plan behind another, `Promise.all` lets plans interleave. */
  datatype Plan = Nothing | Do(a: Action) | Then(first: Plan, second: Plan) | Both(left: Plan, right: Plan)

  // ----- paths in dotted form

  /** childPath: the entries below `key`, without that prefix. */
  function ChildPath(key: string, path: seq<string>): seq<string> {
    if path == [] then []
    else if key + "." <= path[0] then [path[0][|key| + 1..]] + ChildPath(key, path[1..])
    else ChildPath(key, path[1..])
  }

  lemma {:induction false} ChildPathHas(key: string, path: seq<string>, s: string)
    ensures s in ChildPath(key, path) <==> key + "." + s in path
  {
    if path != [] {
      ChildPathHas(key, path[1..], s);
      assert path == [path[0]] + path[1..];
      var prefix := key + ".";
      assert |prefix| == |key| + 1;
      if prefix <= path[0] {
        assert path[0] == prefix + path[0][|key| + 1..];
        assert (key + "." + s)[|key| + 1..] == s;
      } else {
        assert prefix <= (key + "." + s);
      }
    }
  }

  /** The path of field names to a position, joined by dots. */
  function Path(at: Position): string
    requires at != []
  {
    if |at| == 1 then at[0].key else at[0].key + "." + Path(at[1..])
  }

  // ----- the kinds of values

  predicate IsEmptyArray(v: Value) {
    v.Array? && v.elements == []
  }

  predicate AllPersistable(vs: seq<Value>) {
    forall v | v in vs :: v.Persistable?
  }

  method IsArrayOfPersistable(value: Value) returns (r: bool)
    ensures r == (value.Array? && value.elements != [] && AllPersistable(value.elements))
  {
    if !value.Array? || |value.elements| == 0 {
      return false;
    }
    for i := 0 to |value.elements|
      invariant forall j | 0 <= j < i :: value.elements[j].Persistable?
    {
      if !value.elements[i].Persistable? {
        assert value.elements[i] in value.elements;
        return false;
      }
    }
    return true;
  }

  const SYSTEM_PROPS := ["objectId", "ownerId", "created", "updated", "___class", "___jsonclass"]

  /** trimRelations: the payload has neither items nor arrays. */
  predicate InPayload(f: Field) {
    !f.value.Persistable? && !f.value.Array?
  }

  predicate HasCustomProps(fields: seq<Field>) {
    exists f :: f in fields && InPayload(f) && f.value != Undefined && f.key !in SYSTEM_PROPS
  }

  predicate Truthy(v: Value) {
    match v
    case Undefined => false
    case Null => false
    case Scalar(t) => t
    case _ => true
  }

  /** `save()` goes to the data store unless the item is a bare reference to a stored one. */
  predicate NeedsStore(item: Item) {
    || !(exists f :: f in item.fields && InPayload(f) && f.key == "objectId" && Truthy(f.value))
    || HasCustomProps(item.fields)
    || exists f :: f in item.fields && InPayload(f) && f.key == "ownerId" && f.value != Undefined
  }

  /** The item names a stored one and has nothing of its own to store: apart from relations and undefined
      fields there is only what the store sets itself, and no owner. */
  ghost predicate BareReference(fields: seq<Field>) {
    && (exists f :: f in fields && f.key == "objectId" && f.value == Scalar(true))
    && forall f | f in fields ::
         || f.value.Persistable? || f.value.Array? || f.value == Undefined
         || f.key in ["objectId", "created", "updated", "___class", "___jsonclass"]
  }

  lemma StoreLaw(item: Item)
    ensures NeedsStore(item) <==> !BareReference(item.fields)
  {
    var fields := item.fields;
    if BareReference(fields) {
      var f :| f in fields && f.key == "objectId" && f.value == Scalar(true);
      assert InPayload(f) && Truthy(f.value);
    }
    if !NeedsStore(item) {
      var f :| f in fields && InPayload(f) && f.key == "objectId" && Truthy(f.value);
      assert f.value == Scalar(true);
    }
  }

  // ----- the plan of saveWithRelations

  function PlanOf(item: Item, stale: seq<string>, deletable: seq<string>, at: Position): Plan
    decreases item, 1
  {
    Then(if NeedsStore(item) then Do(Save(at)) else Nothing, PlanFields(item.fields, stale, deletable, at))
  }

  /** `Promise.all(Object.keys(this).map(key => processField(key, this[key])))` */
  function PlanFields(fields: seq<Field>, stale: seq<string>, deletable: seq<string>, at: Position): Plan
    decreases fields, 0
  {
    if fields == [] then Nothing
    else
      Both(PlanField(fields[0], stale, deletable, at), PlanFields(fields[1..], stale, deletable, at))
  }

  function PlanField(f: Field, stale: seq<string>, deletable: seq<string>, at: Position): Plan
    decreases f, 0
  {
    match f.value
    case Persistable(child) =>
      Then(if f.key in stale then Nothing
           else PlanOf(child, ChildPath(f.key, stale), ChildPath(f.key, deletable), at + [Step(f.key, 0)]),
           Do(SetRelation(at, f.key)))
    case Array(vs) =>
      if vs != [] && AllPersistable(vs) then
        Then(if f.key in stale then Nothing
             else PlanElements(vs, f.key, ChildPath(f.key, stale), ChildPath(f.key, deletable), at, 0),
             Do(SetRelation(at, f.key)))
      else if f.key in deletable && vs == [] then Do(DeleteRelation(at, f.key))
      else Nothing
    case Null => if f.key in deletable then Do(DeleteRelation(at, f.key)) else Nothing
    case _ => Nothing
  }

  /** saveItem inside the processing of an array. */
  function PlanElements(
    vs: seq<Value>, key: string, stale: seq<string>, deletable: seq<string>, at: Position, i: nat): Plan
    decreases vs, 0
  {
    if vs == [] then Nothing
    else
      Both(SaveItem(vs[0], stale, deletable, at + [Step(key, i)]),
           PlanElements(vs[1..], key, stale, deletable, at, i + 1))
  }

  function SaveItem(v: Value, stale: seq<string>, deletable: seq<string>, at: Position): Plan
    decreases v, 2
  {
    if v.Persistable? then PlanOf(v.item, stale, deletable, at) else Nothing
  }

  // ----- the runs of a plan

  /** `tr` interleaves `l` and `r`. */
  predicate Merges(l: seq<Action>, r: seq<Action>, tr: seq<Action>)
    decreases |tr|
  {
    if tr == [] then l == [] && r == []
    else (
      || (l != [] && l[0] == tr[0] && Merges(l[1..], r, tr[1..]))
      || (r != [] && r[0] == tr[0] && Merges(l, r[1..], tr[1..])))
  }

  /** The orders in which the actions of a plan may reach the store. */
  ghost predicate Runs(p: Plan, tr: seq<Action>)
    decreases p
  {
    match p
    case Nothing => tr == []
    case Do(a) => tr == [a]
    case Then(first, second) => exists l, r :: Runs(first, l) && Runs(second, r) && tr == l + r
    case Both(left, right) => exists l, r :: Runs(left, l) && Runs(right, r) && Merges(l, r, tr)
  }

  predicate Has(p: Plan, a: Action) {
    match p
    case Nothing => false
    case Do(b) => a == b
    case Then(first, second) => Has(first, a) || Has(second, a)
    case Both(left, right) => Has(left, a) || Has(right, a)
  }

  lemma {:induction false} MergesHas(l: seq<Action>, r: seq<Action>, tr: seq<Action>, a: Action)
    requires Merges(l, r, tr)
    ensures a in tr <==> a in l || a in r
    decreases |tr|
  {
    if tr != [] {
      assert tr == [tr[0]] + tr[1..];
      if l != [] && l[0] == tr[0] && Merges(l[1..], r, tr[1..]) {
        assert l == [l[0]] + l[1..];
        MergesHas(l[1..], r, tr[1..], a);
      } else {
        assert r == [r[0]] + r[1..];
        MergesHas(l, r[1..], tr[1..], a);
      }
    }
  }

  lemma {:induction false} RunsHas(p: Plan, tr: seq<Action>, a: Action)
    requires Runs(p, tr)
    ensures a in tr <==> Has(p, a)
    decreases p
  {
    match p
    case Then(first, second) =>
      var l, r :| Runs(first, l) && Runs(second, r) && tr == l + r;
      RunsHas(first, l, a);
      RunsHas(second, r, a);
    case Both(left, right) =>
      var l, r :| Runs(left, l) && Runs(right, r) && Merges(l, r, tr);
      RunsHas(left, l, a);
      RunsHas(right, r, a);
      MergesHas(l, r, tr, a);
    case _ =>
  }

  lemma {:induction false} MergesInTurn(l: seq<Action>, r: seq<Action>)
    ensures Merges(l, r, l + r)
  {
    if l != [] {
      assert (l + r)[1..] == l[1..] + r;
      MergesInTurn(l[1..], r);
    } else if r != [] {
      assert l + r == r;
      MergesInTurn(l, r[1..]);
      assert [] + r[1..] == r[1..];
    }
  }

  /** Every plan has a run: one part after the other. */
  lemma {:induction false} SomeRun(p: Plan)
    ensures exists tr :: Runs(p, tr)
  {
    match p
    case Nothing => assert Runs(p, []);
    case Do(a) => assert Runs(p, [a]);
    case Then(first, second) =>
      SomeRun(first);
      SomeRun(second);
      var l, r :| Runs(first, l) && Runs(second, r);
      assert Runs(p, l + r);
    case Both(left, right) =>
      SomeRun(left);
      SomeRun(right);
      var l, r :| Runs(left, l) && Runs(right, r);
      MergesInTurn(l, r);
      assert Runs(p, l + r);
  }

  // ----- which actions there are

  /** Keys of one object are distinct, all the way down. */
  predicate Unique(item: Item)
    decreases item, 1
  {
    UniqueFields(item.fields)
  }

  predicate UniqueFields(fields: seq<Field>)
    decreases fields, 0
  {
    fields != [] ==>
      && (forall f | f in fields[1..] :: f.key != fields[0].key)
      && UniqueValue(fields[0].value) && UniqueFields(fields[1..])
  }

  predicate UniqueValue(v: Value)
    decreases v, 0
  {
    match v
    case Persistable(child) => Unique(child)
    case Array(vs) => forall e | e in vs :: UniqueValue(e)
    case _ => true
  }

  function ValueOf(fields: seq<Field>, key: string): Value {
    if fields == [] then Undefined
    else if fields[0].key == key then fields[0].value
    else ValueOf(fields[1..], key)
  }

  predicate IsRelation(v: Value) {
    v.Persistable? || (v.Array? && v.elements != [] && AllPersistable(v.elements))
  }

  predicate IsChild(v: Value, i: nat) {
    IsRelation(v) && (v.Persistable? ==> i == 0) && (v.Array? ==> i < |v.elements|)
  }

  function Child(v: Value, i: nat): (child: Item)
    requires IsChild(v, i)
  {
    if v.Persistable? then v.item else (assert v.elements[i] in v.elements; v.elements[i].item)
  }

  /** There is an item at the position below `item`. */
  predicate IsAt(item: Item, q: Position)
    decreases |q|
  {
    q == [] ||
    var v := ValueOf(item.fields, q[0].key);
    IsChild(v, q[0].index) && IsAt(Child(v, q[0].index), q[1..])
  }

  function ItemAt(item: Item, q: Position): Item
    requires IsAt(item, q)
    decreases |q|
  {
    if q == [] then item else ItemAt(Child(ValueOf(item.fields, q[0].key), q[0].index), q[1..])
  }

  /** No field on the way to the position is stale. */
  predicate Fresh(q: Position, stale: seq<string>)
    decreases |q|
  {
    q == [] || (q[0].key !in stale && Fresh(q[1..], ChildPath(q[0].key, stale)))
  }

  /** ... which says of the whole list that no non-empty prefix of the dotted path is in it. */
  lemma {:induction false} FreshIsPrefixes(q: Position, stale: seq<string>)
    ensures Fresh(q, stale) <==> forall j | 1 <= j <= |q| :: Path(q[..j]) !in stale
    decreases |q|
  {
    if q != [] {
      var key := q[0].key;
      FreshIsPrefixes(q[1..], ChildPath(key, stale));
      assert q[..1] == [q[0]];
      forall j | 2 <= j <= |q| ensures Path(q[..j]) in stale <==> Path(q[1..][..j - 1]) in ChildPath(key, stale) {
        assert q[..j][1..] == q[1..][..j - 1];
        ChildPathHas(key, stale, Path(q[1..][..j - 1]));
      }
      if forall j | 1 <= j <= |q| :: Path(q[..j]) !in stale {
        assert Path(q[..1]) !in stale;
        forall j | 1 <= j <= |q[1..]| ensures Path(q[1..][..j]) !in ChildPath(key, stale) {
          assert Path(q[..j + 1]) !in stale;
        }
      }
    }
  }

  /** What the options promise of one action at position `q` below `item`. */
  predicate Promised(item: Item, stale: seq<string>, deletable: seq<string>, q: Position, a: Action) {
    IsAt(item, q) && Fresh(q, stale) &&
    match a
    case Save(_) => NeedsStore(ItemAt(item, q))
    case SetRelation(_, key) => IsRelation(ValueOf(ItemAt(item, q).fields, key))
    case DeleteRelation(_, key) =>
      var v := ValueOf(ItemAt(item, q).fields, key);
      (v == Null || IsEmptyArray(v)) && Path(q + [Step(key, 0)]) in deletable
  }

  lemma {:induction false} ValueOfIs(fields: seq<Field>, key: string)
    requires UniqueFields(fields)
    ensures forall f | f in fields && f.key == key :: f.value == ValueOf(fields, key) && UniqueValue(f.value)
    ensures (forall f | f in fields :: f.key != key) ==> ValueOf(fields, key) == Undefined
  {
    if fields != [] {
      ValueOfIs(fields[1..], key);
      assert fields == [fields[0]] + fields[1..];
      assert fields[0].key == key ==> forall f | f in fields[1..] :: f.key != key;
    }
  }

  /** One step down: the promise about a child is the one about its owner. */
  lemma PromisedStep(item: Item, stale: seq<string>, deletable: seq<string>, q: Position, a: Action)
    requires q != []
    ensures var v := ValueOf(item.fields, q[0].key); var key := q[0].key;
      Promised(item, stale, deletable, q, a) <==>
      && key !in stale && IsChild(v, q[0].index)
      && Promised(Child(v, q[0].index), ChildPath(key, stale), ChildPath(key, deletable), q[1..], a)
  {
    if a.DeleteRelation? {
      var s := Step(a.key, 0);
      assert (q + [s])[1..] == q[1..] + [s];
      ChildPathHas(q[0].key, deletable, Path(q[1..] + [s]));
    }
  }

  lemma {:induction false} UnderItem(item: Item, stale: seq<string>, deletable: seq<string>, at: Position, a: Action)
    requires Has(PlanOf(item, stale, deletable, at), a)
    ensures at <= a.at
    decreases item, 1
  {
    if a != Save(at) {
      UnderFields(item.fields, stale, deletable, at, a);
    }
  }

  lemma {:induction false} UnderFields(
    fields: seq<Field>, stale: seq<string>, deletable: seq<string>, at: Position, a: Action)
    requires Has(PlanFields(fields, stale, deletable, at), a)
    ensures at <= a.at
    decreases fields, 0
  {
    if Has(PlanField(fields[0], stale, deletable, at), a) {
      UnderField(fields[0], stale, deletable, at, a);
    } else {
      UnderFields(fields[1..], stale, deletable, at, a);
    }
  }

  lemma {:induction false} UnderField(f: Field, stale: seq<string>, deletable: seq<string>, at: Position, a: Action)
    requires Has(PlanField(f, stale, deletable, at), a)
    ensures at <= a.at
    decreases f, 0
  {
    if a != SetRelation(at, f.key) && a != DeleteRelation(at, f.key) {
      if f.value.Persistable? {
        UnderItem(f.value.item, ChildPath(f.key, stale), ChildPath(f.key, deletable), at + [Step(f.key, 0)], a);
      } else {
        var below, gone := ChildPath(f.key, stale), ChildPath(f.key, deletable);
        assert Has(if f.key in stale then Nothing else PlanElements(f.value.elements, f.key, below, gone, at, 0), a);
        UnderElements(f.value.elements, f.key, below, gone, at, 0, a);
      }
    }
  }

  lemma {:induction false} UnderElements(
    vs: seq<Value>, key: string, stale: seq<string>, deletable: seq<string>, at: Position, i: nat, a: Action)
    requires Has(PlanElements(vs, key, stale, deletable, at, i), a)
    ensures at < a.at && a.at[|at|].key == key && i <= a.at[|at|].index < i + |vs|
    decreases vs, 0
  {
    if Has(SaveItem(vs[0], stale, deletable, at + [Step(key, i)]), a) {
      UnderValue(vs[0], stale, deletable, at + [Step(key, i)], a);
    } else {
      UnderElements(vs[1..], key, stale, deletable, at, i + 1, a);
    }
  }

  lemma {:induction false} UnderValue(v: Value, stale: seq<string>, deletable: seq<string>, at: Position, a: Action)
    requires Has(SaveItem(v, stale, deletable, at), a)
    ensures at <= a.at
    decreases v, 2
  {
    UnderItem(v.item, stale, deletable, at, a);
  }

  /** The plan for an item holds exactly the actions promised below it. */
  lemma {:induction false} ItemHas(
    item: Item, stale: seq<string>, deletable: seq<string>, at: Position, q: Position, a: Action)
    requires Unique(item) && a.at == at + q
    ensures Has(PlanOf(item, stale, deletable, at), a) <==> Promised(item, stale, deletable, q, a)
    decreases item, 1
  {
    FieldsHas(item.fields, stale, deletable, at, q, a);
    if q == [] {
      assert at + q == at;
      if !a.Save? {
        ValueOfIs(item.fields, a.key);
        assert [] + [Step(a.key, 0)] == [Step(a.key, 0)];
      }
    } else {
      ValueOfIs(item.fields, q[0].key);
      PromisedStep(item, stale, deletable, q, a);
    }
  }

  /** What one field contributes. */
  predicate FieldPromised(f: Field, stale: seq<string>, deletable: seq<string>, q: Position, a: Action) {
    if q == [] then
      && (a.SetRelation? ==> a.key == f.key && IsRelation(f.value)) && !a.Save?
      && (a.DeleteRelation? ==> a.key == f.key && (f.value == Null || IsEmptyArray(f.value)) && f.key in deletable)
    else
      && f.key == q[0].key && f.key !in stale && IsChild(f.value, q[0].index)
      && Promised(Child(f.value, q[0].index), ChildPath(f.key, stale), ChildPath(f.key, deletable), q[1..], a)
  }

  lemma {:induction false} FieldsHas(
    fields: seq<Field>, stale: seq<string>, deletable: seq<string>, at: Position, q: Position, a: Action)
    requires UniqueFields(fields) && a.at == at + q
    ensures Has(PlanFields(fields, stale, deletable, at), a) <==>
            exists f :: f in fields && FieldPromised(f, stale, deletable, q, a)
    decreases fields, 0
  {
    hide FieldPromised;
    if fields != [] {
      FieldHas(fields[0], stale, deletable, at, q, a);
      FieldsHas(fields[1..], stale, deletable, at, q, a);
      assert fields == [fields[0]] + fields[1..];
    }
  }

  lemma {:induction false} FieldHas(
    f: Field, stale: seq<string>, deletable: seq<string>, at: Position, q: Position, a: Action)
    requires UniqueValue(f.value) && a.at == at + q
    ensures Has(PlanField(f, stale, deletable, at), a) <==> FieldPromised(f, stale, deletable, q, a)
    decreases f, 0
  {
    var below, gone := ChildPath(f.key, stale), ChildPath(f.key, deletable);
    assert q == [] <==> a.at == at;
    match f.value
    case Persistable(child) =>
      ChildHas(child, below, gone, at, Step(f.key, 0), q, a);
    case Array(vs) =>
      if AllPersistable(vs) { ElementsHas(vs, f.key, below, gone, at, 0, q, a); }
    case _ =>
  }

  lemma {:induction false} ChildHas(
    child: Item, stale: seq<string>, deletable: seq<string>, at: Position, s: Step, q: Position, a: Action)
    requires Unique(child) && a.at == at + q
    ensures Has(PlanOf(child, stale, deletable, at + [s]), a) <==>
            q != [] && q[0] == s && Promised(child, stale, deletable, q[1..], a)
    decreases child, 2
  {
    if q != [] && q[0] == s {
      assert a.at == (at + [s]) + q[1..];
      ItemHas(child, stale, deletable, at + [s], q[1..], a);
    } else if Has(PlanOf(child, stale, deletable, at + [s]), a) {
      UnderItem(child, stale, deletable, at + [s], a);
      NextStep(at, s, q, a.at);
    }
  }

  lemma NextStep(at: Position, s: Step, q: Position, p: Position)
    requires at + [s] <= p && p == at + q
    ensures q != [] && q[0] == s
  {
    assert p[|at|] == s;
  }

  lemma {:induction false} ElementsHas(
    vs: seq<Value>, key: string, stale: seq<string>, deletable: seq<string>, at: Position, i: nat, q: Position,
    a: Action)
    requires AllPersistable(vs) && (forall v | v in vs :: UniqueValue(v)) && a.at == at + q
    ensures Has(PlanElements(vs, key, stale, deletable, at, i), a) <==>
            && q != [] && q[0].key == key && i <= q[0].index < i + |vs|
            && vs[q[0].index - i].Persistable?
            && Promised(vs[q[0].index - i].item, stale, deletable, q[1..], a)
    decreases vs, 0
  {
    if vs != [] {
      assert vs[0] in vs;
      ValueHas(vs[0], stale, deletable, at, Step(key, i), q, a);
      assert forall v | v in vs[1..] :: v in vs;
      ElementsHas(vs[1..], key, stale, deletable, at, i + 1, q, a);
    }
  }

  lemma {:induction false} ValueHas(
    v: Value, stale: seq<string>, deletable: seq<string>, at: Position, s: Step, q: Position, a: Action)
    requires v.Persistable? && UniqueValue(v) && a.at == at + q
    ensures Has(SaveItem(v, stale, deletable, at + [s]), a) <==>
            q != [] && q[0] == s && Promised(v.item, stale, deletable, q[1..], a)
    decreases v, 0
  {
    ChildHas(v.item, stale, deletable, at, s, q, a);
  }

  /** In every run: an item is saved exactly when it is not a bare reference and no non-empty prefix of
      its dotted path is stale; a relation is cleared exactly when its path is deletable, it is empty or
      null, and its owner was visited; and each relation of a visited owner is set. */
  lemma SavedExactly(item: Item, stale: seq<string>, deletable: seq<string>, tr: seq<Action>, q: Position, key: string)
    requires Unique(item) && Runs(PlanOf(item, stale, deletable, []), tr)
    ensures
      var visited := IsAt(item, q) && forall j | 1 <= j <= |q| :: Path(q[..j]) !in stale;
      && (Save(q) in tr <==> visited && !BareReference(ItemAt(item, q).fields))
      && (SetRelation(q, key) in tr <==> visited && IsRelation(ValueOf(ItemAt(item, q).fields, key)))
      && (DeleteRelation(q, key) in tr <==>
          && visited && Path(q + [Step(key, 0)]) in deletable
          && (ValueOf(ItemAt(item, q).fields, key) == Null || IsEmptyArray(ValueOf(ItemAt(item, q).fields, key))))
  {
    hide Unique, Runs, Has, PlanOf, IsAt, IsRelation, NeedsStore, BareReference;
    FreshIsPrefixes(q, stale);
    if IsAt(item, q) { StoreLaw(ItemAt(item, q)); }
    assert [] + q == q;
    var plan := PlanOf(item, stale, deletable, []);
    RunsHas(plan, tr, Save(q));
    RunsHas(plan, tr, SetRelation(q, key));
    RunsHas(plan, tr, DeleteRelation(q, key));
    ItemHas(item, stale, deletable, [], q, Save(q));
    ItemHas(item, stale, deletable, [], q, SetRelation(q, key));
    ItemHas(item, stale, deletable, [], q, DeleteRelation(q, key));
  }

  // ----- the order

  /** Saving an item comes before everything else at or below it; setting a relation comes after
      everything below that relation. */
  predicate MustPrecede(a: Action, b: Action) {
    || (a.Save? && a.at <= b.at && a != b)
    || (b.SetRelation? && b.at < a.at && a.at[|b.at|].key == b.key)
  }

  ghost predicate Ordered(tr: seq<Action>) {
    forall i, j | 0 <= i < j < |tr| :: !MustPrecede(tr[j], tr[i])
  }

  lemma {:induction false} MergesSym(l: seq<Action>, r: seq<Action>, tr: seq<Action>)
    requires Merges(l, r, tr)
    ensures Merges(r, l, tr)
    decreases |tr|
  {
    if tr != [] {
      if l != [] && l[0] == tr[0] && Merges(l[1..], r, tr[1..]) {
        MergesSym(l[1..], r, tr[1..]);
      } else {
        MergesSym(l, r[1..], tr[1..]);
      }
    }
  }

  predicate Free(l: seq<Action>, r: seq<Action>) {
    forall a, b | a in l && b in r :: !MustPrecede(a, b) && !MustPrecede(b, a)
  }

  lemma {:induction false} MergesOrdered(l: seq<Action>, r: seq<Action>, tr: seq<Action>)
    requires Merges(l, r, tr) && Ordered(l) && Ordered(r) && Free(l, r)
    ensures Ordered(tr)
    decreases |tr|
  {
    if tr != [] {
      if l != [] && l[0] == tr[0] && Merges(l[1..], r, tr[1..]) {
        OrderedTail(l, r);
        MergesOrdered(l[1..], r, tr[1..]);
        MergedHead(l, r, tr);
      } else {
        MergesSym(l, r[1..], tr[1..]);
        OrderedTail(r, l);
        MergesOrdered(r[1..], l, tr[1..]);
        MergedHead(r, l, tr);
      }
    }
  }

  lemma OrderedTail(l: seq<Action>, r: seq<Action>)
    requires l != [] && Ordered(l) && Free(l, r)
    ensures Ordered(l[1..]) && Free(l[1..], r) && Free(r, l)
  {
    hide MustPrecede;
    assert forall i | 0 <= i < |l[1..]| :: l[1..][i] == l[i + 1];
    assert forall a | a in l[1..] :: a in l;
  }

  lemma MergedHead(l: seq<Action>, r: seq<Action>, tr: seq<Action>)
    requires l != [] && tr != [] && l[0] == tr[0] && Merges(l[1..], r, tr[1..])
    requires Ordered(l) && Ordered(tr[1..]) && (Free(l, r) || Free(r, l))
    ensures Ordered(tr)
  {
    hide MustPrecede;
    forall i, j | 0 <= i < j < |tr| ensures !MustPrecede(tr[j], tr[i]) {
      assert tr[1..][j - 1] == tr[j];
      if i == 0 {
        MergesHas(l[1..], r, tr[1..], tr[j]);
        assert l[0] in l;
        if tr[j] in l[1..] {
          var k :| 0 <= k < |l[1..]| && l[1..][k] == tr[j];
          assert l[k + 1] == tr[j];
        }
      } else {
        assert tr[1..][i - 1] == tr[i];
      }
    }
  }

  lemma OrderedThen(l: seq<Action>, r: seq<Action>)
    requires Ordered(l) && Ordered(r)
    requires forall a, b | a in l && b in r :: !MustPrecede(b, a)
    ensures Ordered(l + r)
  {
    hide MustPrecede;
    var tr := l + r;
    forall i, j | 0 <= i < j < |tr| ensures !MustPrecede(tr[j], tr[i]) {
      if i < |l| <= j {
        assert l[i] in l && r[j - |l|] in r;
      }
    }
  }

  // ----- every run of the plan is in order

  /** `Has` on both sides bounds what a run can hold. */
  ghost predicate AllRunsOrdered(p: Plan) {
    forall tr | Runs(p, tr) :: Ordered(tr)
  }

  lemma BothOrdered(left: Plan, right: Plan)
    requires AllRunsOrdered(left) && AllRunsOrdered(right)
    requires forall a, b | Has(left, a) && Has(right, b) :: !MustPrecede(a, b) && !MustPrecede(b, a)
    ensures AllRunsOrdered(Both(left, right))
  {
    hide MustPrecede, Has, Ordered;
    forall tr | Runs(Both(left, right), tr) ensures Ordered(tr) {
      var l, r :| Runs(left, l) && Runs(right, r) && Merges(l, r, tr);
      forall a, b | a in l && b in r ensures !MustPrecede(a, b) && !MustPrecede(b, a) {
        RunsHas(left, l, a);
        RunsHas(right, r, b);
      }
      MergesOrdered(l, r, tr);
    }
  }

  lemma ThenOrdered(first: Plan, second: Plan)
    requires AllRunsOrdered(first) && AllRunsOrdered(second)
    requires forall a, b | Has(first, a) && Has(second, b) :: !MustPrecede(b, a)
    ensures AllRunsOrdered(Then(first, second))
  {
    hide MustPrecede, Has, Ordered;
    forall tr | Runs(Then(first, second), tr) ensures Ordered(tr) {
      var l, r :| Runs(first, l) && Runs(second, r) && tr == l + r;
      forall a, b | a in l && b in r ensures !MustPrecede(b, a) {
        RunsHas(first, l, a);
        RunsHas(second, r, b);
      }
      OrderedThen(l, r);
    }
  }

  lemma SimpleOrdered(a: Action)
    ensures AllRunsOrdered(Do(a)) && AllRunsOrdered(Nothing)
  {
  }

  lemma {:induction false} ItemOrdered(item: Item, stale: seq<string>, deletable: seq<string>, at: Position)
    requires Unique(item)
    ensures AllRunsOrdered(PlanOf(item, stale, deletable, at))
    decreases item, 1
  {
    FieldsOrdered(item.fields, stale, deletable, at);
    SimpleOrdered(Save(at));
    var first := if NeedsStore(item) then Do(Save(at)) else Nothing;
    var second := PlanFields(item.fields, stale, deletable, at);
    forall a, b | Has(first, a) && Has(second, b) ensures !MustPrecede(b, a) {
      UnderFields(item.fields, stale, deletable, at, b);
      NoSaveHere(item.fields, stale, deletable, at);
    }
    ThenOrdered(first, second);
  }

  /** No field's plan saves the owner. */
  lemma NoSaveHere(fields: seq<Field>, stale: seq<string>, deletable: seq<string>, at: Position)
    requires UniqueFields(fields)
    ensures !Has(PlanFields(fields, stale, deletable, at), Save(at))
  {
    FieldsHas(fields, stale, deletable, at, [], Save(at));
  }

  /** The actions of a field lie below it, or set or clear the relation itself. */
  predicate Within(a: Action, at: Position, key: string) {
    || (at < a.at && a.at[|at|].key == key)
    || (a.at == at && !a.Save? && a.key == key)
  }

  lemma FieldWithin(f: Field, stale: seq<string>, deletable: seq<string>, at: Position, a: Action)
    requires UniqueValue(f.value) && Has(PlanField(f, stale, deletable, at), a)
    ensures Within(a, at, f.key)
  {
    UnderField(f, stale, deletable, at, a);
    var q := a.at[|at|..];
    assert a.at == at + q;
    FieldHas(f, stale, deletable, at, q, a);
  }

  lemma {:induction false} FieldsWithin(
    fields: seq<Field>, stale: seq<string>, deletable: seq<string>, at: Position, a: Action)
    requires UniqueFields(fields) && Has(PlanFields(fields, stale, deletable, at), a)
    ensures exists f :: f in fields && Within(a, at, f.key)
  {
    if Has(PlanField(fields[0], stale, deletable, at), a) {
      FieldWithin(fields[0], stale, deletable, at, a);
    } else {
      FieldsWithin(fields[1..], stale, deletable, at, a);
    }
  }

  lemma ApartIsFree(a: Action, b: Action, at: Position, key: string, other: string)
    requires Within(a, at, key) && Within(b, at, other) && key != other
    ensures !MustPrecede(a, b) && !MustPrecede(b, a)
  {
  }

  lemma {:induction false} FieldsOrdered(fields: seq<Field>, stale: seq<string>, deletable: seq<string>, at: Position)
    requires UniqueFields(fields)
    ensures AllRunsOrdered(PlanFields(fields, stale, deletable, at))
    decreases fields, 0
  {
    SimpleOrdered(Save(at));
    if fields != [] {
      var left, right := PlanField(fields[0], stale, deletable, at), PlanFields(fields[1..], stale, deletable, at);
      FieldOrdered(fields[0], stale, deletable, at);
      FieldsOrdered(fields[1..], stale, deletable, at);
      forall a, b | Has(left, a) && Has(right, b) ensures !MustPrecede(a, b) && !MustPrecede(b, a) {
        FieldWithin(fields[0], stale, deletable, at, a);
        FieldsWithin(fields[1..], stale, deletable, at, b);
        var f :| f in fields[1..] && Within(b, at, f.key);
        ApartIsFree(a, b, at, fields[0].key, f.key);
      }
      BothOrdered(left, right);
    }
  }

  lemma {:induction false} FieldOrdered(f: Field, stale: seq<string>, deletable: seq<string>, at: Position)
    requires UniqueValue(f.value)
    ensures AllRunsOrdered(PlanField(f, stale, deletable, at))
    decreases f, 0
  {
    SimpleOrdered(SetRelation(at, f.key));
    SimpleOrdered(DeleteRelation(at, f.key));
    if IsRelation(f.value) {
      var below, gone := ChildPath(f.key, stale), ChildPath(f.key, deletable);
      var first := if f.key in stale then Nothing
        else if f.value.Persistable? then PlanOf(f.value.item, below, gone, at + [Step(f.key, 0)])
        else PlanElements(f.value.elements, f.key, below, gone, at, 0);
      if f.key !in stale {
        if f.value.Persistable? {
          ItemOrdered(f.value.item, below, gone, at + [Step(f.key, 0)]);
        } else {
          ElementsOrdered(f.value.elements, f.key, below, gone, at, 0);
        }
      }
      forall a, b | Has(first, a) && Has(Do(SetRelation(at, f.key)), b) ensures !MustPrecede(b, a) {
        if f.value.Persistable? {
          UnderItem(f.value.item, below, gone, at + [Step(f.key, 0)], a);
        } else {
          UnderElements(f.value.elements, f.key, below, gone, at, 0, a);
        }
      }
      ThenOrdered(first, Do(SetRelation(at, f.key)));
    }
  }

  lemma {:induction false} ElementsOrdered(
    vs: seq<Value>, key: string, stale: seq<string>, deletable: seq<string>, at: Position, i: nat)
    requires forall v | v in vs :: UniqueValue(v)
    ensures AllRunsOrdered(PlanElements(vs, key, stale, deletable, at, i))
    decreases vs, 0
  {
    SimpleOrdered(Save(at));
    if vs != [] {
      var left := SaveItem(vs[0], stale, deletable, at + [Step(key, i)]);
      var right := PlanElements(vs[1..], key, stale, deletable, at, i + 1);
      assert vs[0] in vs && forall v | v in vs[1..] :: v in vs;
      ValueOrdered(vs[0], stale, deletable, at + [Step(key, i)]);
      ElementsOrdered(vs[1..], key, stale, deletable, at, i + 1);
      forall a, b | Has(left, a) && Has(right, b) ensures !MustPrecede(a, b) && !MustPrecede(b, a) {
        UnderValue(vs[0], stale, deletable, at + [Step(key, i)], a);
        UnderElements(vs[1..], key, stale, deletable, at, i + 1, b);
        assert a.at[|at|] == Step(key, i);
        AsideIsFree(a, b, |at|);
      }
      BothOrdered(left, right);
    }
  }

  lemma AsideIsFree(a: Action, b: Action, n: nat)
    requires n < |a.at| && n < |b.at| && a.at[n] != b.at[n]
    ensures !MustPrecede(a, b) && !MustPrecede(b, a)
  {
  }

  lemma {:induction false} ValueOrdered(v: Value, stale: seq<string>, deletable: seq<string>, at: Position)
    requires UniqueValue(v)
    ensures AllRunsOrdered(SaveItem(v, stale, deletable, at))
    decreases v, 2
  {
    SimpleOrdered(Save(at));
    if v.Persistable? { ItemOrdered(v.item, stale, deletable, at); }
  }

  /** In every run an item is saved before anything below it is saved, set or cleared, and a relation is
      set only after everything below it. */
  lemma SavedInOrder(item: Item, stale: seq<string>, deletable: seq<string>, tr: seq<Action>, i: nat, j: nat)
    requires Unique(item) && Runs(PlanOf(item, stale, deletable, []), tr)
    requires i < |tr| && j < |tr| && MustPrecede(tr[i], tr[j])
    ensures i < j
  {
    ItemOrdered(item, stale, deletable, []);
    assert Ordered(tr);
    hide Runs, PlanOf, Unique;
    assert i != j;
  }
}
