/** transformArgs of lib/server-code/model/service.js: what typed rebuilding makes of an argument, as a
    function on trees and on the room the host's stack has left. */
module Arguments {
  import opened Options
  import opened Sequences
  import opened TypeMappings
  import J = JsValues

  datatype Value =
    | Undefined | Null | Bool(b: bool) | Num(n: real) | Str(s: string) | Date(time: int)
    | Ref(addr: nat)

  datatype Tree =
    | Leaf(v: Value)
    | Arr(elements: seq<Tree>)
    | Node(clazz: Option<string>, props: J.Props<Tree>)

  /** `classes` are the keys of model.types, `defs` is model.definitions.types. */
  datatype Model = Model(classes: set<string>, defs: Definitions)

  /** RangeError is what the host throws when its stack is full. */
  datatype Error = TypeError | RangeError

  datatype Outcome<+T> = Ok(value: T) | Throws(error: Error)

  predicate TruthyValue(v: Value) {
    match v
    case Undefined => false
    case Null => false
    case Bool(b) => b
    case Num(n) => n != 0.0
    case Str(s) => s != ""
    case _ => true
  }

  predicate Truthy(t: Tree) {
    t.Leaf? ==> TruthyValue(t.v)
  }

  function Declared(m: Model, name: string): seq<Property> {
    if name in m.defs then m.defs[name].properties else []
  }

  /** Property names of one type are distinct. */
  predicate WellNamed(ds: seq<Property>) {
    forall i, j | 0 <= i < j < |ds| :: ds[i].name != ds[j].name
  }

  predicate ModelOk(m: Model) {
    forall name | name in m.defs :: WellNamed(m.defs[name].properties)
  }

  /** `properties[key]`: None when nothing is declared, Some(None) when the declaration has no type. */
  function DefinitionOf(ds: seq<Property>, key: string): Option<Option<Type>> {
    if ds == [] then None
    else if ds[0].name == key then Some(ds[0].type_)
    else DefinitionOf(ds[1..], key)
  }

  function Indexed(s: seq<Tree>, i: nat): J.Props<Tree>
    decreases |s|
  {
    if s == [] then J.Nil else J.Cons(J.NatToString(i), s[0], Indexed(s[1..], i + 1))
  }

  function Characters(s: string): seq<Tree> {
    seq(|s|, i requires 0 <= i < |s| => Leaf(Str([s[i]])))
  }

  /** What Object.assign copies from a value. */
  function OwnProps(t: Tree): J.Props<Tree> {
    match t
    case Node(_, props) => props
    case Arr(es) => Indexed(es, 0)
    case Leaf(v) => if v.Str? then Indexed(Characters(v.s), 0) else J.Nil
  }

  /** `value[key]` */
  function PartOf(own: J.Props<Tree>, key: string): Tree {
    if J.Has(own, key) then J.Lookup(own, key).value else Leaf(Undefined)
  }

  /** Declared properties the value does not have: they are assigned undefined. */
  function Missing(ps: J.Props<Tree>, ds: seq<Property>): J.Props<Tree> {
    if ds == [] then J.Nil
    else if J.Has(ps, ds[0].name) then Missing(ps, ds[1..])
    else J.Cons(ds[0].name, Leaf(Undefined), Missing(ps, ds[1..]))
  }

  predicate HasLength(t: Tree) {
    match t
    case Arr(es) => es != []
    case Leaf(v) => v.Str? && v.s != ""
    case Node(_, props) => J.Has(props, "length") && Truthy(J.Lookup(props, "length").value)
  }

  /** `transform(value, valueDefinition)` with `depth` frames left.  It throws a TypeError for a definition
      without a type, and for `map` of something that has a length but is no array. */
  function Rebuilt(m: Model, t: Tree, d: Option<Option<Type>>, depth: nat): Outcome<Tree>
    decreases depth, 0, 0
  {
    if depth == 0 then Throws(RangeError)
    else if d.None? || !Truthy(t) then Ok(t)
    else if d.value.None? then Throws(TypeError)
    else
      var type_ := d.value.value;
      if type_.name in m.classes then
        var ds := Declared(m, type_.name);
        match FirstError(m, OwnProps(t), ds, depth - 1)
        case Some(e) => Throws(e)
        case None => Ok(Node(Some(type_.name), Filling(m, OwnProps(t), ds, depth - 1)))
      else if type_.name == "Array" && HasLength(t) && type_.element.Some? then
        if t.Arr? then
          match RebuiltElements(m, t.elements, type_.element, depth - 1)
          case Throws(e) => Throws(e)
          case Ok(es) => Ok(Arr(es))
        else Throws(TypeError)
      else Ok(t)
  }

  /** What the first of the declared properties to fail throws. */
  function FirstError(m: Model, own: J.Props<Tree>, ds: seq<Property>, depth: nat): Option<Error>
    decreases depth, 1, |ds|
  {
    if ds == [] then None
    else
      match Rebuilt(m, PartOf(own, ds[0].name), Some(ds[0].type_), depth)
      case Throws(e) => Some(e)
      case Ok(_) => FirstError(m, own, ds[1..], depth)
  }

  /** The copy when the properties `ds` have been assigned without an error. */
  function Filling(m: Model, own: J.Props<Tree>, ds: seq<Property>, depth: nat): J.Props<Tree>
    decreases depth, 2, 0
  {
    J.Append(RebuiltProps(m, own, ds, depth), Missing(own, ds))
  }

  function RebuiltProps(m: Model, ps: J.Props<Tree>, ds: seq<Property>, depth: nat): J.Props<Tree>
    decreases depth, 1, ps
  {
    match ps
    case Nil => J.Nil
    case Cons(k, v, rest) =>
      J.Cons(k, RebuiltMember(m, v, DefinitionOf(ds, k), depth), RebuiltProps(m, rest, ds, depth))
  }

  function RebuiltMember(m: Model, v: Tree, d: Option<Option<Type>>, depth: nat): Tree
    decreases depth, 0, 1
  {
    if d.None? then v
    else
      match Rebuilt(m, v, d, depth)
      case Ok(r) => r
      case Throws(_) => v
  }

  function RebuiltElements(m: Model, es: seq<Tree>, element: Option<Type>, depth: nat): (r: Outcome<seq<Tree>>)
    ensures r.Ok? ==> |r.value| == |es|
    decreases depth, 1, |es|
  {
    if es == [] then Ok([])
    else
      match Rebuilt(m, es[0], Some(element), depth)
      case Throws(e) => Throws(e)
      case Ok(r) =>
        match RebuiltElements(m, es[1..], element, depth)
        case Throws(e) => Throws(e)
        case Ok(rest) => Ok([r] + rest)
  }

  // ----- keys

  /** Keys of one object are distinct, all the way down. */
  predicate Unique(t: Tree)
    decreases t
  {
    match t
    case Leaf(_) => true
    case Arr(es) => forall e | e in es :: Unique(e)
    case Node(_, ps) => J.DistinctKeys(ps) && UniqueProps(ps)
  }

  predicate UniqueProps(ps: J.Props<Tree>)
    decreases ps
  {
    match ps
    case Nil => true
    case Cons(_, v, rest) => Unique(v) && UniqueProps(rest)
  }

  lemma {:induction false} IndexedKeys(s: seq<Tree>, i: nat)
    requires forall e | e in s :: Unique(e)
    ensures forall key | J.Has(Indexed(s, i), key) :: J.IsIndex(key) && J.DigitsValue(key) >= i
    ensures J.DistinctKeys(Indexed(s, i)) && UniqueProps(Indexed(s, i))
    decreases |s|
  {
    if s != [] {
      J.NatToStringValue(i);
      assert s[0] in s && forall e | e in s[1..] :: e in s;
      IndexedKeys(s[1..], i + 1);
      assert J.DigitsValue(J.NatToString(i)) == i;
    }
  }

  lemma OwnUnique(t: Tree)
    requires Unique(t)
    ensures J.DistinctKeys(OwnProps(t)) && UniqueProps(OwnProps(t))
  {
    match t
    case Node(_, _) =>
    case Arr(es) => IndexedKeys(es, 0);
    case Leaf(v) => if v.Str? { IndexedKeys(Characters(v.s), 0); }
  }

  lemma {:induction false} PartUnique(ps: J.Props<Tree>, key: string)
    requires UniqueProps(ps)
    ensures Unique(PartOf(ps, key))
    decreases ps
  {
    if ps.Cons? && ps.key != key {
      PartUnique(ps.rest, key);
      assert PartOf(ps, key) == PartOf(ps.rest, key);
    }
  }

  // ----- no property fails

  lemma {:induction false} NoErrorIs(m: Model, own: J.Props<Tree>, ds: seq<Property>, depth: nat)
    ensures FirstError(m, own, ds, depth) == None <==>
      forall p | p in ds :: Rebuilt(m, PartOf(own, p.name), Some(p.type_), depth).Ok?
    decreases |ds|
  {
    hide Rebuilt, PartOf;
    if ds != [] {
      NoErrorIs(m, own, ds[1..], depth);
      assert ds == [ds[0]] + ds[1..];
    }
  }

  lemma {:induction false} DefinitionIs(ds: seq<Property>, key: string)
    ensures DefinitionOf(ds, key).Some? ==>
      exists p :: p in ds && p.name == key && Some(p.type_) == DefinitionOf(ds, key)
  {
    if ds != [] && ds[0].name == key {
      assert ds[0] in ds;
    } else if ds != [] {
      DefinitionIs(ds[1..], key);
    }
  }

  /** Every declared member is rebuilt without an error. */
  predicate AllFine(m: Model, ps: J.Props<Tree>, ds: seq<Property>, depth: nat)
    decreases ps
  {
    match ps
    case Nil => true
    case Cons(k, v, rest) =>
      && (DefinitionOf(ds, k).Some? ==> Rebuilt(m, v, DefinitionOf(ds, k), depth).Ok?)
      && AllFine(m, rest, ds, depth)
  }

  lemma {:induction false} FineMembers(m: Model, own: J.Props<Tree>, ps: J.Props<Tree>, ds: seq<Property>, depth: nat)
    requires FirstError(m, own, ds, depth) == None && J.DistinctKeys(ps)
    requires forall k | J.Has(ps, k) :: J.Lookup(ps, k) == J.Lookup(own, k)
    ensures AllFine(m, ps, ds, depth)
    decreases ps
  {
    hide Rebuilt;
    if ps.Cons? {
      NoErrorIs(m, own, ds, depth);
      DefinitionIs(ds, ps.key);
      assert J.Has(ps, ps.key) && J.Lookup(ps, ps.key) == Some(ps.val);
      forall k | J.Has(ps.rest, k) ensures J.Lookup(ps.rest, k) == J.Lookup(own, k) {
        assert k != ps.key && J.Has(ps, k);
      }
      FineMembers(m, own, ps.rest, ds, depth);
    }
  }

  lemma UndefinedStays(m: Model, d: Option<Option<Type>>, depth: nat)
    ensures Rebuilt(m, Leaf(Undefined), d, depth) == if depth == 0 then Throws(RangeError) else Ok(Leaf(Undefined))
  {
  }

  // ----- every typed position holds an instance

  predicate Typed(m: Model, t: Tree, d: Option<Option<Type>>)
    decreases t
  {
    d.Some? && Truthy(t) ==>
      d.value.Some? &&
      var type_ := d.value.value;
      && (type_.name in m.classes ==>
            t.Node? && t.clazz == Some(type_.name) && TypedProps(m, t.props, Declared(m, type_.name)))
      && (type_.name !in m.classes && type_.name == "Array" && t.Arr? && type_.element.Some? ==>
            forall e | e in t.elements :: Typed(m, e, Some(type_.element)))
  }

  predicate TypedProps(m: Model, ps: J.Props<Tree>, ds: seq<Property>)
    decreases ps
  {
    match ps
    case Nil => true
    case Cons(k, v, rest) => Typed(m, v, DefinitionOf(ds, k)) && TypedProps(m, rest, ds)
  }

  lemma {:induction false} MissingTyped(m: Model, ps: J.Props<Tree>, ds: seq<Property>, all: seq<Property>)
    ensures TypedProps(m, Missing(ps, ds), all)
    decreases |ds|
  {
    if ds != [] { MissingTyped(m, ps, ds[1..], all); }
  }

  lemma {:induction false} AppendTyped(m: Model, ps: J.Props<Tree>, qs: J.Props<Tree>, ds: seq<Property>)
    ensures TypedProps(m, J.Append(ps, qs), ds) <==> TypedProps(m, ps, ds) && TypedProps(m, qs, ds)
  {
    if ps.Cons? { AppendTyped(m, ps.rest, qs, ds); }
  }

  /** Wherever a definition names a registered type, through nested properties and arrays, a value that is
      not falsy has become an instance of its class. */
  lemma {:induction false} RebuiltIsTyped(m: Model, t: Tree, d: Option<Option<Type>>, depth: nat)
    requires Unique(t) && Rebuilt(m, t, d, depth).Ok?
    ensures Typed(m, Rebuilt(m, t, d, depth).value, d)
    decreases depth, 0, 0
  {
    if d.Some? && Truthy(t) {
      var type_ := d.value.value;
      if type_.name in m.classes {
        var ds, own := Declared(m, type_.name), OwnProps(t);
        OwnUnique(t);
        FineMembers(m, own, own, ds, depth - 1);
        RebuiltPropsTyped(m, own, ds, depth - 1);
        MissingTyped(m, own, ds, ds);
        AppendTyped(m, RebuiltProps(m, own, ds, depth - 1), Missing(own, ds), ds);
      } else if type_.name == "Array" && t.Arr? && type_.element.Some? && t.elements != [] {
        RebuiltElementsTyped(m, t.elements, type_.element, depth - 1);
      }
    }
  }

  lemma {:induction false} RebuiltPropsTyped(m: Model, ps: J.Props<Tree>, ds: seq<Property>, depth: nat)
    requires AllFine(m, ps, ds, depth) && UniqueProps(ps)
    ensures TypedProps(m, RebuiltProps(m, ps, ds, depth), ds)
    decreases depth, 1, ps
  {
    if ps.Cons? {
      if DefinitionOf(ds, ps.key).Some? { RebuiltIsTyped(m, ps.val, DefinitionOf(ds, ps.key), depth); }
      RebuiltPropsTyped(m, ps.rest, ds, depth);
    }
  }

  lemma {:induction false} RebuiltElementsTyped(m: Model, es: seq<Tree>, element: Option<Type>, depth: nat)
    requires (forall e | e in es :: Unique(e)) && RebuiltElements(m, es, element, depth).Ok?
    ensures forall e | e in RebuiltElements(m, es, element, depth).value :: Typed(m, e, Some(element))
    decreases depth, 1, |es|
  {
    if es != [] {
      assert es[0] in es && forall e | e in es[1..] :: e in es;
      RebuiltIsTyped(m, es[0], Some(element), depth);
      RebuiltElementsTyped(m, es[1..], element, depth);
    }
  }

  // ----- the data

  /** A tree without its class tags and undefined fields. */
  function Data(t: Tree): Tree
    decreases t
  {
    match t
    case Leaf(_) => t
    case Arr(es) => Arr(DataElements(es))
    case Node(_, ps) => Node(None, DataProps(ps))
  }

  function DataElements(es: seq<Tree>): (r: seq<Tree>)
    ensures |r| == |es|
    decreases es
  {
    if es == [] then [] else [Data(es[0])] + DataElements(es[1..])
  }

  function DataProps(ps: J.Props<Tree>): J.Props<Tree>
    decreases ps
  {
    match ps
    case Nil => J.Nil
    case Cons(k, v, rest) => if v == Leaf(Undefined) then DataProps(rest) else J.Cons(k, Data(v), DataProps(rest))
  }

  /** No truthy primitive, date or array stands where a registered type is declared. */
  predicate Fits(m: Model, t: Tree, d: Option<Option<Type>>)
    decreases t
  {
    d.Some? && d.value.Some? && Truthy(t) ==>
      var type_ := d.value.value;
      && (type_.name in m.classes ==> t.Node? && FitsProps(m, t.props, Declared(m, type_.name)))
      && (type_.name !in m.classes && type_.name == "Array" && t.Arr? && type_.element.Some? ==>
            forall e | e in t.elements :: Fits(m, e, Some(type_.element)))
  }

  predicate FitsProps(m: Model, ps: J.Props<Tree>, ds: seq<Property>)
    decreases ps
  {
    match ps
    case Nil => true
    case Cons(k, v, rest) => Fits(m, v, DefinitionOf(ds, k)) && FitsProps(m, rest, ds)
  }

  lemma {:induction false} MissingData(ps: J.Props<Tree>, qs: J.Props<Tree>, ds: seq<Property>)
    ensures DataProps(J.Append(ps, Missing(qs, ds))) == DataProps(ps)
    decreases ps, |ds|
  {
    if ps.Cons? {
      MissingData(ps.rest, qs, ds);
    } else if ds != [] {
      MissingData(ps, qs, ds[1..]);
    }
  }

  /** Rebuilding leaves the data as it was exactly when everything fits; falsy values are never touched. */
  lemma {:induction false} DataUnchanged(m: Model, t: Tree, d: Option<Option<Type>>, depth: nat)
    requires Unique(t) && Rebuilt(m, t, d, depth).Ok?
    ensures Data(Rebuilt(m, t, d, depth).value) == Data(t) <==> Fits(m, t, d)
    ensures Rebuilt(m, t, d, depth).value == Leaf(Undefined) <==> t == Leaf(Undefined)
    decreases depth, 0, 0
  {
    if d.Some? && Truthy(t) {
      var type_ := d.value.value;
      if type_.name in m.classes {
        var ds := Declared(m, type_.name);
        if t.Node? {
          OwnUnique(t);
          FineMembers(m, t.props, t.props, ds, depth - 1);
          PropsUnchanged(m, t.props, ds, depth - 1);
          MissingData(RebuiltProps(m, t.props, ds, depth - 1), t.props, ds);
        }
      } else if type_.name == "Array" && t.Arr? && type_.element.Some? && t.elements != [] {
        ElementsUnchanged(m, t.elements, type_.element, depth - 1);
      }
    }
  }

  lemma {:induction false} PropsUnchanged(m: Model, ps: J.Props<Tree>, ds: seq<Property>, depth: nat)
    requires AllFine(m, ps, ds, depth) && UniqueProps(ps)
    ensures DataProps(RebuiltProps(m, ps, ds, depth)) == DataProps(ps) <==> FitsProps(m, ps, ds)
    decreases depth, 1, ps
  {
    if ps.Cons? {
      if DefinitionOf(ds, ps.key).Some? { DataUnchanged(m, ps.val, DefinitionOf(ds, ps.key), depth); }
      PropsUnchanged(m, ps.rest, ds, depth);
    }
  }

  lemma {:induction false} ElementsUnchanged(m: Model, es: seq<Tree>, element: Option<Type>, depth: nat)
    requires (forall e | e in es :: Unique(e)) && RebuiltElements(m, es, element, depth).Ok?
    ensures DataElements(RebuiltElements(m, es, element, depth).value) == DataElements(es)
            <==> forall e | e in es :: Fits(m, e, Some(element))
    decreases depth, 1, |es|
  {
    if es != [] {
      assert es[0] in es && forall e | e in es[1..] :: e in es;
      DataUnchanged(m, es[0], Some(element), depth);
      ElementsUnchanged(m, es[1..], element, depth);
      var r := RebuiltElements(m, es, element, depth).value;
      assert r[1..] == RebuiltElements(m, es[1..], element, depth).value;
      assert es == [es[0]] + es[1..];
      var a, b := DataElements(r), DataElements(es);
      assert a[0] == Data(r[0]) && b[0] == Data(es[0]);
      assert a[1..] == DataElements(r[1..]) && b[1..] == DataElements(es[1..]);
    }
  }

  /** An argument whose data change: a number where a registered type is declared. */
  lemma NumberIsLost()
    ensures var m, t := Model({"Point"}, map[]), Leaf(Num(1.0)); var d := Some(Some(Type("Point", None)));
      && Rebuilt(m, t, d, 1) == Ok(Node(Some("Point"), J.Nil))
      && Data(Rebuilt(m, t, d, 1).value) != Data(t) && !Fits(m, t, d)
  {
    assert FirstError(Model({"Point"}, map[]), J.Nil, [], 0) == None;
    assert RebuiltProps(Model({"Point"}, map[]), J.Nil, [], 0) == J.Nil;
  }
}
