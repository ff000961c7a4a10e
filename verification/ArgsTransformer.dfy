/** transformArgs of lib/server-code/model/service.js over a heap of objects and arrays: it fills fresh
    copies, property by property, and never writes to what it was given. */
module ArgsTransformer {
  import opened Options
  import opened TypeMappings
  import opened Arguments
  import J = JsValues

  datatype Object = Array(elements: seq<Value>) | Instance(clazz: Option<string>, props: J.Props<Value>)

  type Heap = map<nat, Object>

  /** The value is, in this heap, the finite tree `t`. */
  predicate Denotes(h: Heap, v: Value, t: Tree)
    decreases t
  {
    match t
    case Leaf(w) => v == w && !w.Ref?
    case Arr(es) => v.Ref? && v.addr in h && h[v.addr].Array? && DenotesAll(h, h[v.addr].elements, es)
    case Node(c, ps) =>
      && v.Ref? && v.addr in h && h[v.addr].Instance? && h[v.addr].clazz == c
      && J.DistinctKeys(ps) && DenotesProps(h, h[v.addr].props, ps)
  }

  predicate DenotesAll(h: Heap, vs: seq<Value>, es: seq<Tree>)
    decreases es
  {
    if es == [] then vs == [] else vs != [] && Denotes(h, vs[0], es[0]) && DenotesAll(h, vs[1..], es[1..])
  }

  predicate DenotesProps(h: Heap, vs: J.Props<Value>, ps: J.Props<Tree>)
    decreases ps
  {
    match ps
    case Nil => vs.Nil?
    case Cons(k, t, rest) => vs.Cons? && vs.key == k && Denotes(h, vs.val, t) && DenotesProps(h, vs.rest, rest)
  }

  predicate Grows(h: Heap, h': Heap) {
    forall a | a in h :: a in h' && h'[a] == h[a]
  }

  lemma {:induction false} DenotesGrows(h: Heap, h': Heap, v: Value, t: Tree)
    requires Denotes(h, v, t) && Grows(h, h')
    ensures Denotes(h', v, t)
    decreases t
  {
    match t
    case Leaf(_) =>
    case Arr(es) => AllGrows(h, h', h[v.addr].elements, es);
    case Node(_, ps) => PropsGrow(h, h', h[v.addr].props, ps);
  }

  lemma {:induction false} AllGrows(h: Heap, h': Heap, vs: seq<Value>, es: seq<Tree>)
    requires DenotesAll(h, vs, es) && Grows(h, h')
    ensures DenotesAll(h', vs, es)
    decreases es
  {
    if es != [] {
      DenotesGrows(h, h', vs[0], es[0]);
      AllGrows(h, h', vs[1..], es[1..]);
    }
  }

  lemma {:induction false} PropsGrow(h: Heap, h': Heap, vs: J.Props<Value>, ps: J.Props<Tree>)
    requires DenotesProps(h, vs, ps) && Grows(h, h')
    ensures DenotesProps(h', vs, ps)
    decreases ps
  {
    if ps.Cons? {
      DenotesGrows(h, h', vs.val, ps.val);
      PropsGrow(h, h', vs.rest, ps.rest);
    }
  }

  // ----- property lists

  /** `value[key] = v` */
  function Put<V>(ps: J.Props<V>, key: string, v: V): J.Props<V> {
    if J.Has(ps, key) then J.Assign(ps, key, v) else J.Append(ps, J.Cons(key, v, J.Nil))
  }

  lemma {:induction false} DenotesLookup(h: Heap, vs: J.Props<Value>, ps: J.Props<Tree>, key: string)
    requires DenotesProps(h, vs, ps)
    ensures J.Has(vs, key) <==> J.Has(ps, key)
    ensures J.Has(ps, key) ==> Denotes(h, J.Lookup(vs, key).value, J.Lookup(ps, key).value)
    decreases ps
  {
    if ps.Cons? { DenotesLookup(h, vs.rest, ps.rest, key); }
  }

  lemma {:induction false} DenotesAssign(h: Heap, vs: J.Props<Value>, ps: J.Props<Tree>, key: string, v: Value, t: Tree)
    requires DenotesProps(h, vs, ps) && Denotes(h, v, t)
    ensures DenotesProps(h, J.Assign(vs, key, v), J.Assign(ps, key, t))
    ensures DenotesProps(h, J.Append(vs, J.Cons(key, v, J.Nil)), J.Append(ps, J.Cons(key, t, J.Nil)))
    decreases ps
  {
    if ps.Cons? { DenotesAssign(h, vs.rest, ps.rest, key, v, t); }
  }

  lemma DenotesPut(h: Heap, vs: J.Props<Value>, ps: J.Props<Tree>, key: string, v: Value, t: Tree)
    requires DenotesProps(h, vs, ps) && Denotes(h, v, t)
    ensures DenotesProps(h, Put(vs, key, v), Put(ps, key, t))
  {
    DenotesLookup(h, vs, ps, key);
    DenotesAssign(h, vs, ps, key, v, t);
  }

  lemma {:induction false} DenotesUnique(h: Heap, v: Value, t: Tree)
    requires Denotes(h, v, t)
    ensures Unique(t)
    decreases t
  {
    match t
    case Leaf(_) =>
    case Arr(es) =>
      AllLength(h, h[v.addr].elements, es);
      forall e | e in es ensures Unique(e) {
        var i :| 0 <= i < |es| && es[i] == e;
        DenotesAt(h, h[v.addr].elements, es, i);
        DenotesUnique(h, h[v.addr].elements[i], e);
      }
    case Node(_, ps) => PropsUnique(h, h[v.addr].props, ps);
  }

  lemma {:induction false} PropsUnique(h: Heap, vs: J.Props<Value>, ps: J.Props<Tree>)
    requires DenotesProps(h, vs, ps)
    ensures UniqueProps(ps)
    decreases ps
  {
    if ps.Cons? {
      DenotesUnique(h, vs.val, ps.val);
      PropsUnique(h, vs.rest, ps.rest);
    }
  }

  lemma OwnDistinct(h: Heap, v: Value, t: Tree)
    requires Denotes(h, v, t)
    ensures J.DistinctKeys(OwnProps(t))
  {
    DenotesUnique(h, v, t);
    OwnUnique(t);
  }

  // ----- the copy after the first declared properties

  lemma {:induction false} DefinitionPrefix(ds: seq<Property>, i: nat, key: string)
    requires i < |ds| && WellNamed(ds)
    ensures DefinitionOf(ds[..i + 1], key) ==
            if key == ds[i].name then Some(ds[i].type_) else DefinitionOf(ds[..i], key)
    ensures DefinitionOf(ds[..i], ds[i].name) == None
  {
    if i > 0 {
      var t := ds[1..];
      assert ds[..i][1..] == t[..i - 1] && ds[..i + 1][1..] == t[..i];
      assert t[i - 1] == ds[i];
      DefinitionPrefix(t, i - 1, key);
    }
  }

  lemma {:induction false} MissingPrefix(ps: J.Props<Tree>, ds: seq<Property>, i: nat)
    requires i < |ds|
    ensures Missing(ps, ds[..i + 1]) ==
            if J.Has(ps, ds[i].name) then Missing(ps, ds[..i])
            else J.Append(Missing(ps, ds[..i]), J.Cons(ds[i].name, Leaf(Undefined), J.Nil))
  {
    if i > 0 {
      var t := ds[1..];
      assert ds[..i][1..] == t[..i - 1] && ds[..i + 1][1..] == t[..i];
      MissingPrefix(ps, t, i - 1);
    } else {
      assert ds[..1][1..] == [];
    }
  }

  /** One more property declared: the entry of that name is rebuilt, the others stay. */
  lemma {:induction false} RebuiltNext(m: Model, ps: J.Props<Tree>, ds: seq<Property>, i: nat, depth: nat)
    requires i < |ds| && WellNamed(ds) && J.DistinctKeys(ps)
    ensures var name := ds[i].name; var now := RebuiltProps(m, ps, ds[..i], depth);
      && J.Lookup(now, name) == J.Lookup(ps, name)
      && RebuiltProps(m, ps, ds[..i + 1], depth) ==
         if J.Has(ps, name) then
           J.Assign(now, name, RebuiltMember(m, J.Lookup(ps, name).value, Some(ds[i].type_), depth))
         else now
    decreases ps
  {
    hide Rebuilt, WellNamed;
    if ps.Cons? {
      DefinitionPrefix(ds, i, ps.key);
      RebuiltNext(m, ps.rest, ds, i, depth);
    }
  }

  lemma MissingHas(ps: J.Props<Tree>, ds: seq<Property>, i: nat)
    requires i < |ds| && WellNamed(ds)
    ensures !J.Has(Missing(ps, ds[..i]), ds[i].name)
  {
    if i > 0 {
      var t := ds[1..];
      assert ds[..i][1..] == t[..i - 1];
      MissingHas(ps, t, i - 1);
    }
  }

  /** The loop finds what the argument has under the next name, and puts the rebuilt value there. */
  lemma FillingNext(m: Model, own: J.Props<Tree>, ds: seq<Property>, i: nat, depth: nat)
    requires i < |ds| && WellNamed(ds) && J.DistinctKeys(own)
    ensures var name := ds[i].name; var now := Filling(m, own, ds[..i], depth);
      var r := Rebuilt(m, PartOf(own, name), Some(ds[i].type_), depth);
      && J.Lookup(now, name) == J.Lookup(own, name)
      && (r.Ok? ==> Filling(m, own, ds[..i + 1], depth) == Put(now, name, r.value))
  {
    hide WellNamed;
    var name := ds[i].name;
    var now, gone := RebuiltProps(m, own, ds[..i], depth), Missing(own, ds[..i]);
    RebuiltNext(m, own, ds, i, depth);
    MissingPrefix(own, ds, i);
    MissingHas(own, ds, i);
    J.LookupAppend(now, gone, name);
    UndefinedStays(m, Some(ds[i].type_), depth);
    hide Rebuilt;
    if J.Has(own, name) {
      AssignFront(now, gone, name, RebuiltMember(m, PartOf(own, name), Some(ds[i].type_), depth));
    } else {
      J.AppendAssoc(now, gone, J.Cons(name, Leaf(Undefined), J.Nil));
    }
  }

  lemma {:induction false} AssignFront(ps: J.Props<Tree>, qs: J.Props<Tree>, key: string, v: Tree)
    requires J.Has(ps, key)
    ensures J.Assign(J.Append(ps, qs), key, v) == J.Append(J.Assign(ps, key, v), qs)
    decreases ps
  {
    if ps.key != key { AssignFront(ps.rest, qs, key, v); }
  }

  /** Properties assigned without an error, and what the next one makes of that. */
  lemma {:induction false} FirstErrorNext(m: Model, own: J.Props<Tree>, ds: seq<Property>, i: nat, depth: nat)
    requires i < |ds| && FirstError(m, own, ds[..i], depth) == None
    ensures var r := Rebuilt(m, PartOf(own, ds[i].name), Some(ds[i].type_), depth);
      && (r.Ok? ==> FirstError(m, own, ds[..i + 1], depth) == None)
      && (r.Throws? ==> FirstError(m, own, ds, depth) == Some(r.error))
  {
    hide Rebuilt, PartOf;
    if i == 0 {
      assert ds[..1][1..] == [];
    } else {
      var t := ds[1..];
      assert ds[..i][1..] == t[..i - 1] && ds[..i + 1][1..] == t[..i] && t[i - 1] == ds[i];
      FirstErrorNext(m, own, t, i - 1, depth);
    }
  }

  lemma {:induction false} NothingAssigned(m: Model, own: J.Props<Tree>, depth: nat)
    ensures FirstError(m, own, [], depth) == None && Filling(m, own, [], depth) == own
    decreases own
  {
    NothingDeclared(m, own, depth);
    J.AppendNil(own);
  }

  lemma {:induction false} NothingDeclared(m: Model, ps: J.Props<Tree>, depth: nat)
    ensures RebuiltProps(m, ps, [], depth) == ps
    decreases ps
  {
    if ps.Cons? { NothingDeclared(m, ps.rest, depth); }
  }

  lemma {:induction false} AppendDistinct(ps: J.Props<Tree>, key: string, v: Tree)
    requires J.DistinctKeys(ps) && !J.Has(ps, key)
    ensures J.DistinctKeys(J.Append(ps, J.Cons(key, v, J.Nil)))
    decreases ps
  {
    if ps.Cons? {
      J.LookupAppend(ps.rest, J.Cons(key, v, J.Nil), ps.key);
      AppendDistinct(ps.rest, key, v);
    }
  }

  lemma PutDistinct(ps: J.Props<Tree>, key: string, v: Tree)
    requires J.DistinctKeys(ps)
    ensures J.DistinctKeys(Put(ps, key, v))
  {
    if J.Has(ps, key) { J.LookupAssign(ps, key, v, key); } else { AppendDistinct(ps, key, v); }
  }

  /** One round of the loop: the copy that denoted the first `i` properties denotes one more. */
  lemma RoundDone(
    m: Model, h: Heap, own: J.Props<Tree>, ds: seq<Property>, i: nat, depth: nat, props: J.Props<Value>, value: Value)
    requires i < |ds| && WellNamed(ds) && J.DistinctKeys(own)
    requires J.DistinctKeys(Filling(m, own, ds[..i], depth)) && DenotesProps(h, props, Filling(m, own, ds[..i], depth))
    requires var r := Rebuilt(m, PartOf(own, ds[i].name), Some(ds[i].type_), depth);
      r.Ok? && Denotes(h, value, r.value)
    ensures var next := Filling(m, own, ds[..i + 1], depth);
      J.DistinctKeys(next) && DenotesProps(h, Put(props, ds[i].name, value), next)
  {
    hide WellNamed, Denotes, DenotesProps, Filling, Put, Rebuilt, PartOf;
    FillingNext(m, own, ds, i, depth);
    var now := Filling(m, own, ds[..i], depth);
    var r := Rebuilt(m, PartOf(own, ds[i].name), Some(ds[i].type_), depth).value;
    PutDistinct(now, ds[i].name, r);
    DenotesPut(h, props, now, ds[i].name, value, r);
  }

  /** `value[propName]` */
  function Read(props: J.Props<Value>, key: string): Value {
    if J.Has(props, key) then J.Lookup(props, key).value else Undefined
  }

  /** The value the loop reads is what the argument has under that name. */
  lemma RoundReads(
    m: Model, h: Heap, own: J.Props<Tree>, ds: seq<Property>, i: nat, depth: nat, props: J.Props<Value>)
    requires i < |ds| && WellNamed(ds) && J.DistinctKeys(own)
    requires DenotesProps(h, props, Filling(m, own, ds[..i], depth))
    ensures Denotes(h, Read(props, ds[i].name), PartOf(own, ds[i].name))
  {
    hide WellNamed, Filling, Rebuilt;
    FillingNext(m, own, ds, i, depth);
    DenotesLookup(h, props, Filling(m, own, ds[..i], depth), ds[i].name);
  }

  // ----- the walk

  function IndexedValues(vs: seq<Value>, i: nat): J.Props<Value>
    decreases |vs|
  {
    if vs == [] then J.Nil else J.Cons(J.NatToString(i), vs[0], IndexedValues(vs[1..], i + 1))
  }

  lemma {:induction false} DenotesIndexed(h: Heap, vs: seq<Value>, es: seq<Tree>, i: nat)
    requires DenotesAll(h, vs, es)
    ensures DenotesProps(h, IndexedValues(vs, i), Indexed(es, i))
    decreases |es|
  {
    if es != [] { DenotesIndexed(h, vs[1..], es[1..], i + 1); }
  }

  function CharacterValues(s: string): seq<Value> {
    seq(|s|, i requires 0 <= i < |s| => Str([s[i]]))
  }

  lemma {:induction false} DenotesCharacters(h: Heap, s: string)
    ensures DenotesAll(h, CharacterValues(s), Characters(s))
    decreases |s|
  {
    if s != [] {
      DenotesCharacters(h, s[1..]);
      assert CharacterValues(s)[1..] == CharacterValues(s[1..]);
      assert Characters(s)[1..] == Characters(s[1..]);
    }
  }

  lemma {:induction false} DenotesPush(h: Heap, vs: seq<Value>, es: seq<Tree>, v: Value, t: Tree)
    requires DenotesAll(h, vs, es) && Denotes(h, v, t)
    ensures DenotesAll(h, vs + [v], es + [t])
    decreases |es|
  {
    if es == [] {
      assert [v][1..] == [] && [t][1..] == [];
      assert vs + [v] == [v] && es + [t] == [t];
    } else {
      DenotesPush(h, vs[1..], es[1..], v, t);
      assert (vs + [v])[1..] == vs[1..] + [v] && (es + [t])[1..] == es[1..] + [t];
    }
  }

  lemma {:induction false} DenotesAt(h: Heap, vs: seq<Value>, es: seq<Tree>, i: nat)
    requires DenotesAll(h, vs, es) && i < |es|
    ensures |vs| == |es| && Denotes(h, vs[i], es[i])
  {
    AllLength(h, vs, es);
    if i > 0 { DenotesAt(h, vs[1..], es[1..], i - 1); }
  }

  lemma {:induction false} AllLength(h: Heap, vs: seq<Value>, es: seq<Tree>)
    requires DenotesAll(h, vs, es)
    ensures |vs| == |es|
    decreases |es|
  {
    if es != [] { AllLength(h, vs[1..], es[1..]); }
  }

  lemma {:induction false} ElementsNext(m: Model, es: seq<Tree>, element: Option<Type>, i: nat, depth: nat)
    requires i < |es| && RebuiltElements(m, es[..i], element, depth).Ok?
    ensures var e := Rebuilt(m, es[i], Some(element), depth);
      var now := RebuiltElements(m, es[..i], element, depth).value;
      && (e.Ok? ==> RebuiltElements(m, es[..i + 1], element, depth) == Ok(now + [e.value]))
      && (e.Throws? ==> RebuiltElements(m, es, element, depth) == Throws(e.error))
  {
    hide Rebuilt;
    var e := Rebuilt(m, es[i], Some(element), depth);
    if i == 0 {
      assert es[..0] == [] && es[..1] == [es[0]] && [es[0]][1..] == [];
      assert e.Ok? ==> [e.value] + [] == [] + [e.value];
    } else {
      var t := es[1..];
      assert es[..i][1..] == t[..i - 1] && es[..i + 1][1..] == t[..i] && t[i - 1] == es[i];
      assert es[..i][0] == es[0] && es[..i + 1][0] == es[0];
      ElementsNext(m, t, element, i - 1, depth);
      var first, now := Rebuilt(m, es[0], Some(element), depth), RebuiltElements(m, t[..i - 1], element, depth);
      if e.Ok? {
        assert [first.value] + (now.value + [e.value]) == ([first.value] + now.value) + [e.value];
      }
    }
  }

  lemma DenotesTruthy(h: Heap, v: Value, t: Tree)
    requires Denotes(h, v, t)
    ensures TruthyValue(v) <==> Truthy(t)
  {
  }

  lemma InstanceDenotes(h: Heap, h': Heap, addr: nat, name: string, props: J.Props<Value>, ps: J.Props<Tree>)
    requires DenotesProps(h, props, ps) && J.DistinctKeys(ps) && addr !in h
    requires h' == h[addr := Instance(Some(name), props)]
    ensures Denotes(h', Ref(addr), Node(Some(name), ps))
  {
    PropsGrow(h, h', props, ps);
  }

  lemma ArrayDenotes(h: Heap, h': Heap, addr: nat, vs: seq<Value>, es: seq<Tree>)
    requires DenotesAll(h, vs, es) && addr !in h && h' == h[addr := Array(vs)]
    ensures Denotes(h', Ref(addr), Arr(es))
  {
    AllGrows(h, h', vs, es);
  }

  /** The walk has the outcome of the tree: the same error, or a value that is the rebuilt tree. */
  predicate Matches(h: Heap, o: Outcome<Value>, r: Outcome<Tree>) {
    match r
    case Throws(e) => o == Throws(e)
    case Ok(t) => o.Ok? && Denotes(h, o.value, t)
  }

  class Transformer {
    const m: Model
    var heap: Heap
    var next: nat

    ghost predicate Valid()
      reads this
    {
      ModelOk(m) && forall a | a in heap :: a < next
    }

    constructor (m: Model, heap: Heap, next: nat)
      requires ModelOk(m) && forall a | a in heap :: a < next
      ensures Valid() && this.m == m && this.heap == heap
    {
      this.m, this.heap, this.next := m, heap, next;
    }

    method Allocate(o: Object) returns (r: Value)
      requires Valid()
      modifies this
      ensures Valid() && Grows(old(heap), heap)
      ensures r == Ref(old(next)) && old(next) !in old(heap) && heap == old(heap)[old(next) := o]
    {
      heap := heap[next := o];
      r := Ref(next);
      next := next + 1;
    }

    /** `transform`, with `depth` frames left.  What was in the heap stays as it was. */
    method Transform(v: Value, d: Option<Option<Type>>, depth: nat, ghost t: Tree) returns (o: Outcome<Value>)
      requires Valid() && Denotes(heap, v, t)
      modifies this
      ensures Valid() && Grows(old(heap), heap)
      ensures Matches(heap, o, Rebuilt(m, t, d, depth))
      ensures d.None? && depth > 0 ==> o == Ok(v)
      decreases depth, 0
    {
      DenotesTruthy(heap, v, t);
      hide Denotes, ModelOk, FirstError, Filling, RebuiltElements;
      if depth == 0 {
        return Throws(RangeError);
      }
      if d.None? || !TruthyValue(v) {
        return Ok(v);
      }
      if d.value.None? {
        return Throws(TypeError);
      }
      var typeName := d.value.value.name;
      if typeName in m.classes {
        o := Fill(v, d.value.value, depth - 1, t);
      } else if typeName == "Array" && d.value.value.element.Some? {
        o := Map(v, d.value.value, depth - 1, t);
      } else {
        o := Ok(v);
      }
    }

    /** Object.assign's source side. */
    method Copied(v: Value, ghost t: Tree) returns (props: J.Props<Value>)
      requires Denotes(heap, v, t)
      ensures DenotesProps(heap, props, OwnProps(t))
    {
      if v.Ref? {
        match heap[v.addr]
        case Array(vs) =>
          props := IndexedValues(vs, 0);
          DenotesIndexed(heap, vs, t.elements, 0);
        case Instance(_, ps) => props := ps;
      } else if v.Str? {
        props := IndexedValues(CharacterValues(v.s), 0);
        DenotesCharacters(heap, v.s);
        DenotesIndexed(heap, CharacterValues(v.s), Characters(v.s), 0);
      } else {
        props := J.Nil;
      }
    }

    /** `Object.assign(new valueType.clazz(), value)` and the loop over the declared properties.  The copy
        is put into the heap when it is complete: nothing refers to it before. */
    method Fill(v: Value, type_: Type, depth: nat, ghost t: Tree) returns (o: Outcome<Value>)
      requires Valid() && Denotes(heap, v, t) && Truthy(t) && type_.name in m.classes
      modifies this
      ensures Valid() && Grows(old(heap), heap)
      ensures Matches(heap, o, Rebuilt(m, t, Some(Some(type_)), depth + 1))
      decreases depth, 1
    {
      hide ModelOk, WellNamed, Denotes, DenotesProps, Rebuilt, Filling, FirstError, OwnProps, PartOf, Put;
      FillIs(m, t, type_, depth);
      var props := Copied(v, t);
      ghost var own := OwnProps(t);
      OwnDistinct(heap, v, t);
      NothingAssigned(m, own, depth);
      var declared := if type_.name in m.defs then m.defs[type_.name].properties else [];
      DeclaredNamed(m, type_.name);
      assert declared[..0] == [];
      for i := 0 to |declared|
        invariant Valid() && Grows(old(heap), heap)
        invariant FirstError(m, own, declared[..i], depth) == None
        invariant J.DistinctKeys(Filling(m, own, declared[..i], depth))
        invariant DenotesProps(heap, props, Filling(m, own, declared[..i], depth))
      {
        var name := declared[i].name;
        RoundReads(m, heap, own, declared, i, depth, props);
        ghost var before := heap;
        var rebuilt := Transform(Read(props, name), Some(declared[i].type_), depth, PartOf(own, name));
        FirstErrorNext(m, own, declared, i, depth);
        if rebuilt.Throws? {
          return Throws(rebuilt.error);
        }
        PropsGrow(before, heap, props, Filling(m, own, declared[..i], depth));
        RoundDone(m, heap, own, declared, i, depth, props, rebuilt.value);
        props := Put(props, name, rebuilt.value);
      }
      assert declared[..|declared|] == declared;
      ghost var complete := heap;
      var r := Allocate(Instance(Some(type_.name), props));
      InstanceDenotes(complete, heap, r.addr, type_.name, props, Filling(m, own, declared, depth));
      o := Ok(r);
    }

    /** `value.map(item => transform(item, elementDef))`, when the value has a length. */
    method Map(v: Value, type_: Type, depth: nat, ghost t: Tree) returns (o: Outcome<Value>)
      requires Valid() && Denotes(heap, v, t) && Truthy(t)
      requires type_.name == "Array" && type_.name !in m.classes && type_.element.Some?
      modifies this
      ensures Valid() && Grows(old(heap), heap)
      ensures Matches(heap, o, Rebuilt(m, t, Some(Some(type_)), depth + 1))
      decreases depth, 2
    {
      hide ModelOk, DenotesAll, RebuiltElements;
      var hasLength := HasLengthValue(v, t);
      if !hasLength {
        return Ok(v);
      }
      if !v.Ref? || !heap[v.addr].Array? {
        return Throws(TypeError);
      }
      MapIs(m, t, type_, depth);
      hide Rebuilt, Denotes;
      o := MapItems(heap[v.addr].elements, type_.element, depth, t.elements);
    }

    method HasLengthValue(v: Value, ghost t: Tree) returns (b: bool)
      requires Denotes(heap, v, t) && Truthy(t)
      ensures b == HasLength(t)
    {
      if v.Ref? {
        match heap[v.addr]
        case Array(vs) => b := vs != [];
        case Instance(_, ps) =>
          DenotesLookup(heap, ps, t.props, "length");
          if J.Has(ps, "length") {
            DenotesTruthy(heap, J.Lookup(ps, "length").value, J.Lookup(t.props, "length").value);
            b := TruthyValue(J.Lookup(ps, "length").value);
          } else {
            b := false;
          }
      } else {
        b := v.Str? && v.s != "";
      }
    }

    method MapItems(items: seq<Value>, element: Option<Type>, depth: nat, ghost es: seq<Tree>)
      returns (o: Outcome<Value>)
      requires Valid() && DenotesAll(heap, items, es)
      modifies this
      ensures Valid() && Grows(old(heap), heap)
      ensures Matches(heap, o, ArrayOf(RebuiltElements(m, es, element, depth)))
      decreases depth, 1
    {
      hide ModelOk, Denotes, DenotesAll, Rebuilt, RebuiltElements;
      AllLength(heap, items, es);
      var mapped: seq<Value> := [];
      NoElements(m, heap, es, element, depth);
      for i := 0 to |items|
        invariant Valid() && Grows(old(heap), heap) && DenotesAll(heap, items, es)
        invariant RebuiltElements(m, es[..i], element, depth).Ok?
        invariant DenotesAll(heap, mapped, RebuiltElements(m, es[..i], element, depth).value)
      {
        ghost var before := heap;
        DenotesAt(heap, items, es, i);
        ElementsNext(m, es, element, i, depth);
        var item := Transform(items[i], Some(element), depth, es[i]);
        if item.Throws? {
          return Throws(item.error);
        }
        ghost var now, e := RebuiltElements(m, es[..i], element, depth).value, Rebuilt(m, es[i], Some(element), depth);
        AllGrows(before, heap, items, es);
        AllGrows(before, heap, mapped, now);
        DenotesPush(heap, mapped, now, item.value, e.value);
        mapped := mapped + [item.value];
      }
      assert es[..|items|] == es;
      ghost var complete := heap;
      var r := Allocate(Array(mapped));
      ArrayDenotes(complete, heap, r.addr, mapped, RebuiltElements(m, es, element, depth).value);
      o := Ok(r);
    }

    /** transformArgs: argument number `i` under the definition of parameter number `i`; arguments beyond the
        parameters are handed on as they are. */
    method TransformArgs(args: seq<Value>, params: seq<Property>, depth: nat, ghost trees: seq<Tree>)
      returns (o: Outcome<seq<Value>>)
      requires Valid() && DenotesAll(heap, args, trees)
      modifies this
      ensures Valid() && Grows(old(heap), heap)
      ensures o.Ok? ==> |o.value| == |args| == |trees|
      ensures o.Ok? ==> forall i | 0 <= i < |args| && i < |params| ::
        Matches(heap, Ok(o.value[i]), Rebuilt(m, trees[i], Some(params[i].type_), depth))
      ensures o.Ok? ==> forall i | |params| <= i < |args| :: o.value[i] == args[i]
      ensures o.Throws? && depth == 0 ==> o.error == RangeError && args != []
      ensures o.Throws? && depth > 0 ==>
        exists i ::
          && 0 <= i < |trees| && i < |params| && Rebuilt(m, trees[i], Some(params[i].type_), depth) == Throws(o.error)
          && forall j | 0 <= j < i :: Rebuilt(m, trees[j], Some(params[j].type_), depth).Ok?
    {
      hide ModelOk, Denotes, DenotesAll, Rebuilt;
      AllLength(heap, args, trees);
      var result: seq<Value> := [];
      for i := 0 to |args|
        invariant Valid() && Grows(old(heap), heap) && DenotesAll(heap, args, trees) && |result| == i
        invariant i > 0 ==> depth > 0
        invariant forall j | 0 <= j < i && j < |params| ::
                    Matches(heap, Ok(result[j]), Rebuilt(m, trees[j], Some(params[j].type_), depth))
        invariant forall j | |params| <= j < i :: result[j] == args[j]
      {
        ghost var before := heap;
        DenotesAt(heap, args, trees, i);
        var argDef := if i < |params| then Some(params[i].type_) else None;
        NoRoom(m, trees[i], argDef);
        var arg := Transform(args[i], argDef, depth, trees[i]);
        if arg.Throws? {
          return Throws(arg.error);
        }
        AllGrows(before, heap, args, trees);
        forall j | 0 <= j < i && j < |params|
          ensures Matches(heap, Ok(result[j]), Rebuilt(m, trees[j], Some(params[j].type_), depth))
        {
          DenotesGrows(before, heap, result[j], Rebuilt(m, trees[j], Some(params[j].type_), depth).value);
        }
        result := result + [arg.value];
      }
      o := Ok(result);
    }
  }

  lemma NoRoom(m: Model, t: Tree, d: Option<Option<Type>>)
    ensures Rebuilt(m, t, d, 0) == Throws(RangeError)
  {
  }

  function ArrayOf(r: Outcome<seq<Tree>>): Outcome<Tree> {
    match r
    case Throws(e) => Throws(e)
    case Ok(es) => Ok(Arr(es))
  }

  lemma DeclaredNamed(m: Model, name: string)
    requires ModelOk(m)
    ensures WellNamed(Declared(m, name))
  {
  }

  lemma FillIs(m: Model, t: Tree, type_: Type, depth: nat)
    requires Truthy(t) && type_.name in m.classes
    ensures var own, ds := OwnProps(t), Declared(m, type_.name);
      Rebuilt(m, t, Some(Some(type_)), depth + 1) ==
      match FirstError(m, own, ds, depth)
      case Some(e) => Throws(e)
      case None => Ok(Node(Some(type_.name), Filling(m, own, ds, depth)))
  {
  }

  lemma NoElements(m: Model, h: Heap, es: seq<Tree>, element: Option<Type>, depth: nat)
    ensures RebuiltElements(m, es[..0], element, depth) == Ok([]) && DenotesAll(h, [], [])
  {
  }

  lemma MapIs(m: Model, t: Tree, type_: Type, depth: nat)
    requires t.Arr? && t.elements != [] && type_.name == "Array" && type_.name !in m.classes && type_.element.Some?
    ensures Rebuilt(m, t, Some(Some(type_)), depth + 1) ==
            ArrayOf(RebuiltElements(m, t.elements, type_.element, depth))
  {
  }
}
