/** What typed rebuilding makes of an argument, one level at a time and written out: which values are left
    alone, what an instance holds under every key, and what is thrown. */
module ArgumentLaws {
  import opened Options
  import opened TypeMappings
  import opened Arguments
  import J = JsValues

  /** `value` is not falsy. */
  predicate Counts(t: Tree) {
    t.Leaf? ==> t.v != Undefined && t.v != Null && t.v != Bool(false) && t.v != Num(0.0) && t.v != Str("")
  }

  /** The properties Object.assign copies: an object's own, the elements of an array and the characters of a
      string under their indices, and nothing of anything else. */
  ghost predicate Owns(t: Tree, own: J.Props<Tree>) {
    match t
    case Node(_, props) => own == props
    case Arr(es) => Numbered(own, es)
    case Leaf(v) =>
      if v.Str? then Numbered(own, seq(|v.s|, i requires 0 <= i < |v.s| => Leaf(Str([v.s[i]])))) else own == J.Nil
  }

  ghost predicate Numbered(own: J.Props<Tree>, es: seq<Tree>) {
    && (forall i | 0 <= i < |es| :: J.Lookup(own, J.NatToString(i)) == Some(es[i]))
    && |J.Keys(own)| == |es| && forall i | 0 <= i < |es| :: J.Keys(own)[i] == J.NatToString(i)
  }

  function Held(own: J.Props<Tree>, key: string): Tree {
    match J.Lookup(own, key) case Some(v) => v case None => Leaf(Undefined)
  }

  /** The copy has the properties of the value in their order; each declared one is the rebuilt value of what
      was held under its name, undefined included, and the others are as they were. */
  ghost predicate Copies(m: Model, own: J.Props<Tree>, ds: seq<Property>, n: nat, ps: J.Props<Tree>) {
    && J.Keys(own) <= J.Keys(ps)
    && (forall p | p in ds ::
          J.Has(ps, p.name) && Rebuilt(m, Held(own, p.name), Some(p.type_), n) == Ok(J.Lookup(ps, p.name).value))
    && (forall k | (forall p | p in ds :: p.name != k) :: J.Lookup(ps, k) == J.Lookup(own, k))
  }

  /** The first declared property that cannot be rebuilt throws. */
  ghost predicate PropertyThrows(m: Model, own: J.Props<Tree>, ds: seq<Property>, n: nat, i: nat, e: Error) {
    && i < |ds| && Rebuilt(m, Held(own, ds[i].name), Some(ds[i].type_), n) == Throws(e)
    && forall j | 0 <= j < i :: Rebuilt(m, Held(own, ds[j].name), Some(ds[j].type_), n).Ok?
  }

  ghost predicate ElementThrows(m: Model, es: seq<Tree>, element: Option<Type>, n: nat, i: nat, e: Error) {
    && i < |es| && Rebuilt(m, es[i], Some(element), n) == Throws(e)
    && forall j | 0 <= j < i :: Rebuilt(m, es[j], Some(element), n).Ok?
  }

  ghost predicate Filled(m: Model, t: Tree, name: string, own: J.Props<Tree>, n: nat, r: Outcome<Tree>) {
    PropertiesFilled(m, name, if name in m.defs then m.defs[name].properties else [], own, n, r)
  }

  ghost predicate PropertiesFilled(
    m: Model, name: string, ds: seq<Property>, own: J.Props<Tree>, n: nat, r: Outcome<Tree>)
  {
    match r
    case Ok(x) => x.Node? && x.clazz == Some(name) && Copies(m, own, ds, n, x.props)
    case Throws(e) => exists i :: PropertyThrows(m, own, ds, n, i, e)
  }

  ghost predicate Mapped(m: Model, es: seq<Tree>, element: Option<Type>, n: nat, r: Outcome<Tree>) {
    match r
    case Ok(x) =>
      && x.Arr? && |x.elements| == |es|
      && forall i | 0 <= i < |es| :: Rebuilt(m, es[i], Some(element), n) == Ok(x.elements[i])
    case Throws(e) => exists i :: ElementThrows(m, es, element, n, i, e)
  }

  /** `value.length` is not falsy. */
  predicate Long(t: Tree) {
    match t
    case Arr(es) => |es| > 0
    case Leaf(v) => v.Str? && |v.s| > 0
    case Node(_, props) => J.Has(props, "length") && Counts(Held(props, "length"))
  }

  // ----- the laws hold

  lemma {:induction false} NumberedLaw(es: seq<Tree>, i: nat)
    ensures |J.Keys(Indexed(es, i))| == |es|
    ensures forall k | 0 <= k < |es| ::
      J.Keys(Indexed(es, i))[k] == J.NatToString(i + k) && J.Lookup(Indexed(es, i), J.NatToString(i + k)) == Some(es[k])
    decreases |es|
  {
    hide J.NatToString;
    if es != [] {
      NumberedLaw(es[1..], i + 1);
      forall k | 0 <= k < |es|
        ensures J.Keys(Indexed(es, i))[k] == J.NatToString(i + k)
          && J.Lookup(Indexed(es, i), J.NatToString(i + k)) == Some(es[k])
      {
        J.IndicesDiffer(i, i + k);
        if k > 0 {
          assert i + 1 + (k - 1) == i + k && es[1..][k - 1] == es[k];
        }
      }
    }
  }

  lemma OwnLaw(t: Tree)
    ensures Owns(t, OwnProps(t))
  {
    match t
    case Arr(es) => NumberedLaw(es, 0);
    case Leaf(v) =>
      if v.Str? {
        NumberedLaw(Characters(v.s), 0);
        assert Characters(v.s) == seq(|v.s|, i requires 0 <= i < |v.s| => Leaf(Str([v.s[i]])));
      }
    case Node(_, _) =>
  }

  lemma {:induction false} RebuiltPropsAt(m: Model, ps: J.Props<Tree>, ds: seq<Property>, n: nat, key: string)
    ensures J.Keys(RebuiltProps(m, ps, ds, n)) == J.Keys(ps)
    ensures J.Lookup(RebuiltProps(m, ps, ds, n), key) ==
      if J.Has(ps, key) then Some(RebuiltMember(m, J.Lookup(ps, key).value, DefinitionOf(ds, key), n)) else None
    decreases ps
  {
    hide Rebuilt, RebuiltMember;
    if ps.Cons? { RebuiltPropsAt(m, ps.rest, ds, n, key); }
  }

  lemma {:induction false} MissingAt(own: J.Props<Tree>, ds: seq<Property>, key: string)
    ensures J.Lookup(Missing(own, ds), key) ==
      if !J.Has(own, key) && DefinitionOf(ds, key).Some? then Some(Leaf(Undefined)) else None
    decreases |ds|
  {
    if ds != [] { MissingAt(own, ds[1..], key); }
  }

  lemma {:induction false} AppendKeys<V>(ps: J.Props<V>, qs: J.Props<V>)
    ensures J.Keys(J.Append(ps, qs)) == J.Keys(ps) + J.Keys(qs)
  {
    if ps.Cons? { AppendKeys(ps.rest, qs); }
  }

  lemma {:induction false} DefinedIs(ds: seq<Property>, key: string)
    requires WellNamed(ds)
    ensures forall p | p in ds && p.name == key :: DefinitionOf(ds, key) == Some(p.type_)
    ensures (forall p | p in ds :: p.name != key) ==> DefinitionOf(ds, key) == None
    decreases |ds|
  {
    if ds != [] {
      assert forall i | 0 <= i < |ds[1..]| :: ds[1..][i] == ds[i + 1];
      DefinedIs(ds[1..], key);
      assert ds == [ds[0]] + ds[1..];
    }
  }

  lemma CopyLaw(m: Model, own: J.Props<Tree>, ds: seq<Property>, n: nat)
    requires WellNamed(ds) && FirstError(m, own, ds, n) == None
    ensures Copies(m, own, ds, n, Filling(m, own, ds, n))
  {
    hide Rebuilt, WellNamed;
    var ps := Filling(m, own, ds, n);
    AppendKeys(RebuiltProps(m, own, ds, n), Missing(own, ds));
    RebuiltPropsAt(m, own, ds, n, "");
    NoErrorIs(m, own, ds, n);
    forall p | p in ds
      ensures J.Has(ps, p.name) && Rebuilt(m, Held(own, p.name), Some(p.type_), n) == Ok(J.Lookup(ps, p.name).value)
    {
      DefinedIs(ds, p.name);
      EntryLaw(m, own, ds, n, p.name);
      UndefinedStays(m, Some(p.type_), n);
      assert Held(own, p.name) == PartOf(own, p.name);
    }
    forall k | (forall p | p in ds :: p.name != k) ensures J.Lookup(ps, k) == J.Lookup(own, k) {
      DefinedIs(ds, k);
      EntryLaw(m, own, ds, n, k);
    }
  }

  lemma EntryLaw(m: Model, own: J.Props<Tree>, ds: seq<Property>, n: nat, key: string)
    ensures J.Lookup(Filling(m, own, ds, n), key) ==
      if J.Has(own, key) then Some(RebuiltMember(m, J.Lookup(own, key).value, DefinitionOf(ds, key), n))
      else if DefinitionOf(ds, key).Some? then Some(Leaf(Undefined)) else None
  {
    hide Rebuilt, RebuiltMember;
    J.LookupAppend(RebuiltProps(m, own, ds, n), Missing(own, ds), key);
    RebuiltPropsAt(m, own, ds, n, key);
    MissingAt(own, ds, key);
  }

  lemma {:induction false} PropertyErrorLaw(m: Model, own: J.Props<Tree>, ds: seq<Property>, n: nat) returns (i: nat)
    requires FirstError(m, own, ds, n).Some?
    ensures PropertyThrows(m, own, ds, n, i, FirstError(m, own, ds, n).value)
    decreases |ds|
  {
    hide Rebuilt;
    assert Held(own, ds[0].name) == PartOf(own, ds[0].name);
    if Rebuilt(m, PartOf(own, ds[0].name), Some(ds[0].type_), n).Throws? {
      i := 0;
    } else {
      var k := PropertyErrorLaw(m, own, ds[1..], n);
      i := k + 1;
      assert ds[i] == ds[1..][k] && forall j | 0 < j < i :: ds[j] == ds[1..][j - 1];
    }
  }

  lemma {:induction false} ElementsLaw(m: Model, es: seq<Tree>, element: Option<Type>, n: nat)
    ensures Mapped(m, es, element, n,
      match RebuiltElements(m, es, element, n) case Ok(rs) => Ok(Arr(rs)) case Throws(e) => Throws(e))
    decreases |es|
  {
    hide Rebuilt;
    if es != [] {
      ElementsLaw(m, es[1..], element, n);
      assert forall j | 0 < j < |es| :: es[j] == es[1..][j - 1];
      match Rebuilt(m, es[0], Some(element), n)
      case Throws(e) => assert ElementThrows(m, es, element, n, 0, e);
      case Ok(_) =>
        match RebuiltElements(m, es[1..], element, n)
        case Throws(e) =>
          var i: nat :| ElementThrows(m, es[1..], element, n, i, e);
          assert ElementThrows(m, es, element, n, i + 1, e);
        case Ok(_) =>
    }
  }

  /** One level of rebuilding, with a frame for this one and `n` for what it calls. */
  lemma RebuiltLaw(m: Model, t: Tree, d: Option<Option<Type>>, n: nat)
    requires ModelOk(m)
    ensures var r := Rebuilt(m, t, d, n + 1);
      if d == None || !Counts(t) then r == Ok(t)
      else if d == Some(None) then r == Throws(TypeError)
      else
        var Type(name, element) := d.value.value;
        if name in m.classes then exists own :: Owns(t, own) && Filled(m, t, name, own, n, r)
        else if name == "Array" && Long(t) && element.Some? then
          if t.Arr? then Mapped(m, t.elements, element, n, r) else r == Throws(TypeError)
        else r == Ok(t)
  {
    assert Counts(t) == Truthy(t) && Long(t) == HasLength(t);
    if d.Some? && d.value.Some? && Counts(t) {
      var name := d.value.value.name;
      if name in m.classes {
        hide Owns, Filled;
        OwnLaw(t);
        FilledLaw(m, t, d.value.value, n);
      } else if name == "Array" && t.Arr? && t.elements != [] && d.value.value.element.Some? {
        ElementsLaw(m, t.elements, d.value.value.element, n);
      }
    }
  }

  lemma FilledLaw(m: Model, t: Tree, ty: Type, n: nat)
    requires ModelOk(m) && Truthy(t) && ty.name in m.classes
    ensures Filled(m, t, ty.name, OwnProps(t), n, Rebuilt(m, t, Some(Some(ty)), n + 1))
  {
    hide Copies, OwnProps;
    var own, ds := OwnProps(t), Declared(m, ty.name);
    assert WellNamed(ds);
    if FirstError(m, own, ds, n) == None {
      CopyLaw(m, own, ds, n);
    } else {
      var i := PropertyErrorLaw(m, own, ds, n);
      assert PropertyThrows(m, own, ds, n, i, FirstError(m, own, ds, n).value);
    }
  }
}
