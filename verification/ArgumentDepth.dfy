/** When typed rebuilding ends, and in what: read off the argument and the definitions, with no walk to
    follow.  A string whose type leads back to itself through properties named "0" is rebuilt for ever,
    since a character is its own first character. */
module ArgumentDepth {
  import opened Options
  import opened Sequences
  import opened TypeMappings
  import opened Arguments
  import J = JsValues

  // ----- more room changes nothing but the lack of it

  predicate Ends<T>(r: Outcome<T>) {
    r != Throws(RangeError)
  }

  lemma {:induction false} Deeper(m: Model, t: Tree, d: Option<Option<Type>>, n: nat)
    requires Unique(t) && Ends(Rebuilt(m, t, d, n))
    ensures Rebuilt(m, t, d, n + 1) == Rebuilt(m, t, d, n)
    decreases n, 0, 0
  {
    if n > 0 && d.Some? && Truthy(t) && d.value.Some? {
      var type_ := d.value.value;
      if type_.name in m.classes {
        var ds, own := Declared(m, type_.name), OwnProps(t);
        OwnUnique(t);
        hide J.DistinctKeys, UniqueProps;
        FirstErrorDeeper(m, own, ds, n - 1);
        if FirstError(m, own, ds, n - 1) == None {
          FineMembers(m, own, own, ds, n - 1);
          PropsDeeper(m, own, ds, n - 1);
        }
      } else if type_.name == "Array" && t.Arr? && type_.element.Some? && t.elements != [] {
        ElementsDeeper(m, t.elements, type_.element, n - 1);
      }
    }
  }

  lemma {:induction false} FirstErrorDeeper(m: Model, own: J.Props<Tree>, ds: seq<Property>, n: nat)
    requires UniqueProps(own) && FirstError(m, own, ds, n) != Some(RangeError)
    ensures FirstError(m, own, ds, n + 1) == FirstError(m, own, ds, n)
    decreases n, 1, |ds|
  {
    hide Rebuilt;
    if ds != [] {
      PartUnique(own, ds[0].name);
      Deeper(m, PartOf(own, ds[0].name), Some(ds[0].type_), n);
      if Rebuilt(m, PartOf(own, ds[0].name), Some(ds[0].type_), n).Ok? {
        FirstErrorDeeper(m, own, ds[1..], n);
      }
    }
  }

  lemma {:induction false} PropsDeeper(m: Model, ps: J.Props<Tree>, ds: seq<Property>, n: nat)
    requires UniqueProps(ps) && AllFine(m, ps, ds, n)
    ensures RebuiltProps(m, ps, ds, n + 1) == RebuiltProps(m, ps, ds, n)
    decreases n, 1, ps
  {
    hide Rebuilt;
    if ps.Cons? {
      if DefinitionOf(ds, ps.key).Some? { Deeper(m, ps.val, DefinitionOf(ds, ps.key), n); }
      PropsDeeper(m, ps.rest, ds, n);
    }
  }

  lemma {:induction false} ElementsDeeper(m: Model, es: seq<Tree>, element: Option<Type>, n: nat)
    requires (forall e | e in es :: Unique(e)) && Ends(RebuiltElements(m, es, element, n))
    ensures RebuiltElements(m, es, element, n + 1) == RebuiltElements(m, es, element, n)
    decreases n, 1, |es|
  {
    hide Rebuilt, Unique;
    if es != [] {
      assert es[0] in es && forall e | e in es[1..] :: e in es;
      Deeper(m, es[0], Some(element), n);
      if Rebuilt(m, es[0], Some(element), n).Ok? { ElementsDeeper(m, es[1..], element, n); }
    }
  }

  /** An end reached with some room is the end reached with any more. */
  lemma {:induction false} Stable(m: Model, t: Tree, d: Option<Option<Type>>, n: nat, n': nat)
    requires Unique(t) && n <= n' && Ends(Rebuilt(m, t, d, n))
    ensures Rebuilt(m, t, d, n') == Rebuilt(m, t, d, n)
    decreases n' - n
  {
    if n < n' {
      Deeper(m, t, d, n);
      Stable(m, t, d, n + 1, n');
    }
  }

  // ----- a single character

  predicate IsCharacter(t: Tree) {
    t.Leaf? && t.v.Str? && |t.v.s| == 1
  }

  /** The registered type of the property "0" of a type. */
  function ZeroType(m: Model, name: string): Option<string> {
    match DefinitionOf(Declared(m, name), "0")
    case Some(Some(ty)) => if ty.name in m.classes then Some(ty.name) else None
    case _ => None
  }

  function ZeroTypeAfter(m: Model, name: string, k: nat): Option<string>
    decreases k
  {
    if k == 0 then Some(name)
    else match ZeroType(m, name) case None => None case Some(next) => ZeroTypeAfter(m, next, k - 1)
  }

  lemma CharacterParts(t: Tree, key: string)
    requires IsCharacter(t)
    ensures PartOf(OwnProps(t), key) == if key == "0" then t else Leaf(Undefined)
  {
    assert [t.v.s[0]] == t.v.s;
    assert Characters(t.v.s) == [t];
    assert J.NatToString(0) == "0";
    OnePart(t, key);
  }

  lemma OnePart(t: Tree, key: string)
    requires J.NatToString(0) == "0"
    ensures PartOf(Indexed([t], 0), key) == if key == "0" then t else Leaf(Undefined)
  {
    hide J.NatToString;
    assert [t][1..] == [];
    assert Indexed([], 1) == J.Nil;
    var ps: J.Props<Tree> := J.Cons("0", t, J.Nil);
    assert Indexed([t], 0) == ps;
    assert J.Lookup(ps, key) == if key == "0" then Some(t) else None;
  }

  lemma {:induction false} AfterSplits(m: Model, name: string, i: nat, k: nat)
    ensures ZeroTypeAfter(m, name, i + k) ==
      match ZeroTypeAfter(m, name, i) case None => None case Some(next) => ZeroTypeAfter(m, next, k)
    decreases i
  {
    if i > 0 && ZeroType(m, name).Some? {
      AfterSplits(m, ZeroType(m, name).value, i - 1, k);
    }
  }

  lemma AfterIsClass(m: Model, name: string, k: nat)
    requires name in m.classes && ZeroTypeAfter(m, name, k).Some?
    ensures ZeroTypeAfter(m, name, k).value in m.classes
    decreases k
  {
    if k > 0 { AfterIsClass(m, ZeroType(m, name).value, k - 1); }
  }

  lemma {:induction false} NoDupCard(s: seq<string>)
    requires NoDup(s)
    ensures |set x | x in s| == |s|
  {
    if s != [] {
      NoDupCard(s[1..]);
      assert forall i | 0 <= i < |s[1..]| :: s[1..][i] == s[i + 1];
      assert s[0] !in s[1..];
      assert (set x | x in s) == (set x | x in s[1..]) + {s[0]};
    } else {
      assert (set x | x in s) == {};
    }
  }

  lemma Pigeons(s: seq<string>, holes: set<string>)
    requires (forall x | x in s :: x in holes) && |s| > |holes|
    ensures exists i, j :: 0 <= i < j < |s| && s[i] == s[j]
  {
    FewDifferent(s, holes);
  }

  lemma FewDifferent(s: seq<string>, holes: set<string>)
    requires forall x | x in s :: x in holes
    ensures NoDup(s) ==> |s| <= |holes|
  {
    if NoDup(s) {
      NoDupCard(s);
      var all := set x | x in s;
      assert all <= holes;
      assert holes == all + (holes - all) && |holes| == |all| + |holes - all|;
    }
  }

  /** Once they come round they go on for ever. */
  lemma RoundForEver(m: Model, name: string, k: nat)
    requires name in m.classes && ZeroTypeAfter(m, name, |m.classes|).Some?
    ensures ZeroTypeAfter(m, name, k).Some?
    decreases k
  {
    var c := |m.classes|;
    forall i: nat | i <= c ensures ZeroTypeAfter(m, name, i).Some? { AfterSplits(m, name, i, c - i); }
    if k > c {
      var met := seq(c + 1, i requires 0 <= i <= c => ZeroTypeAfter(m, name, i).value);
      forall x | x in met ensures x in m.classes {
        var i :| 0 <= i < |met| && met[i] == x;
        AfterIsClass(m, name, i);
      }
      Pigeons(met, m.classes);
      var i, j :| 0 <= i < j < |met| && met[i] == met[j];
      AfterSplits(m, name, j, k - j);
      AfterSplits(m, name, i, k - j);
      RoundForEver(m, name, i + (k - j));
    }
  }

  /** What a character throws at a registered type, if its types leave the classes within `k` steps. */
  function CharacterFailure(m: Model, name: string, k: nat): Option<Error>
    decreases k
  {
    match DefinitionOf(Declared(m, name), "0")
    case None => None
    case Some(None) => Some(TypeError)
    case Some(Some(ty)) =>
      if ty.name in m.classes then if k == 0 then Some(RangeError) else CharacterFailure(m, ty.name, k - 1)
      else if ty.name == "Array" && ty.element.Some? then Some(TypeError)
      else None
  }

  /** It is looked for long enough: what has not left the classes in as many steps as there are classes
      never leaves them. */
  lemma {:induction false} RoundIs(m: Model, name: string)
    requires name in m.classes
    ensures CharacterFailure(m, name, |m.classes|) == Some(RangeError)
            <==> forall k: nat :: ZeroTypeAfter(m, name, k).Some?
  {
    RoundAfter(m, name, |m.classes|);
    if ZeroTypeAfter(m, name, |m.classes| + 1).Some? {
      AfterSplits(m, name, |m.classes|, 1);
      forall k: nat ensures ZeroTypeAfter(m, name, k).Some? { RoundForEver(m, name, k); }
    }
  }

  lemma {:induction false} RoundAfter(m: Model, name: string, k: nat)
    ensures CharacterFailure(m, name, k) == Some(RangeError) <==> ZeroTypeAfter(m, name, k + 1).Some?
    decreases k
  {
    if k > 0 && ZeroType(m, name).Some? { RoundAfter(m, ZeroType(m, name).value, k - 1); }
  }

  function ErrorIn<T>(r: Outcome<T>): Option<Error> {
    match r case Ok(_) => None case Throws(e) => Some(e)
  }

  /** Of a character's properties only "0" is there to be rebuilt. */
  lemma {:induction false} CharacterError(m: Model, t: Tree, ds: seq<Property>, n: nat)
    requires IsCharacter(t) && WellNamed(ds) && n > 0
    ensures FirstError(m, OwnProps(t), ds, n) ==
            if DefinitionOf(ds, "0").None? then None else ErrorIn(Rebuilt(m, t, DefinitionOf(ds, "0"), n))
    decreases |ds|
  {
    hide Rebuilt, OwnProps, PartOf;
    if ds != [] {
      CharacterParts(t, ds[0].name);
      UndefinedStays(m, Some(ds[0].type_), n);
      CharacterError(m, t, ds[1..], n);
      if ds[0].name == "0" && DefinitionOf(ds[1..], "0").Some? {
        DefinitionIs(ds[1..], "0");
      }
    }
  }

  lemma {:induction false} CharacterOverflows(m: Model, t: Tree, ty: Type, n: nat)
    requires ModelOk(m) && IsCharacter(t) && ty.name in m.classes && forall k: nat :: ZeroTypeAfter(m, ty.name, k).Some?
    ensures Rebuilt(m, t, Some(Some(ty)), n) == Throws(RangeError)
    decreases n
  {
    if n > 0 {
      var ds := Declared(m, ty.name);
      assert ZeroTypeAfter(m, ty.name, 1).Some?;
      if n > 1 {
        var next := DefinitionOf(ds, "0").value.value;
        forall k: nat ensures ZeroTypeAfter(m, next.name, k).Some? { assert ZeroTypeAfter(m, ty.name, k + 1).Some?; }
        CharacterError(m, t, ds, n - 1);
        CharacterOverflows(m, t, next, n - 1);
      }
    }
  }

  lemma {:induction false} CharacterEnds(m: Model, t: Tree, ty: Type, k: nat, n: nat)
    requires ModelOk(m) && IsCharacter(t) && ty.name in m.classes && n >= k + 2
    requires CharacterFailure(m, ty.name, k) != Some(RangeError)
    ensures ErrorIn(Rebuilt(m, t, Some(Some(ty)), n)) == CharacterFailure(m, ty.name, k)
    decreases k
  {
    var ds := Declared(m, ty.name);
    CharacterError(m, t, ds, n - 1);
    match DefinitionOf(ds, "0")
    case Some(Some(next)) => if next.name in m.classes { CharacterEnds(m, t, next, k - 1, n - 1); }
    case _ =>
  }

  // ----- any argument

  function Height(t: Tree): nat
    decreases t
  {
    match t
    case Leaf(v) => if v.Str? && |v.s| >= 2 then 1 else 0
    case Arr(es) => 1 + HeightAll(es)
    case Node(_, ps) => 1 + HeightProps(ps)
  }

  function HeightAll(es: seq<Tree>): (h: nat)
    ensures forall e | e in es :: Height(e) <= h
    decreases es
  {
    if es == [] then 0
    else
      assert es == [es[0]] + es[1..];
      var a, b := Height(es[0]), HeightAll(es[1..]);
      if a >= b then a else b
  }

  function HeightProps(ps: J.Props<Tree>): nat
    decreases ps
  {
    match ps
    case Nil => 0
    case Cons(_, v, rest) => if Height(v) >= HeightProps(rest) then Height(v) else HeightProps(rest)
  }

  lemma {:induction false} LookupHeight(ps: J.Props<Tree>, key: string)
    requires J.Has(ps, key)
    ensures Height(J.Lookup(ps, key).value) <= HeightProps(ps)
    decreases ps
  {
    if ps.key != key { LookupHeight(ps.rest, key); }
  }

  lemma {:induction false} IndexedHas(s: seq<Tree>, i: nat, key: string)
    requires J.Has(Indexed(s, i), key)
    ensures J.Lookup(Indexed(s, i), key).value in s
    decreases |s|
  {
    if J.NatToString(i) == key {
      assert s[0] in s;
    } else {
      IndexedHas(s[1..], i + 1, key);
    }
  }

  /** A part of a value is lower than the value, but for the first character of a character. */
  lemma PartLower(t: Tree, key: string)
    requires J.Has(OwnProps(t), key) && !IsCharacter(t)
    ensures Height(PartOf(OwnProps(t), key)) < Height(t)
  {
    match t
    case Node(_, ps) => LookupHeight(ps, key);
    case Arr(es) => IndexedHas(es, 0, key);
    case Leaf(v) => IndexedHas(Characters(v.s), 0, key);
  }

  /** Room for the height of the value and one round through the classes. */
  function Enough(m: Model, t: Tree): nat {
    Height(t) + |m.classes| + 2
  }

  /** What rebuilding throws if the stack has room enough, and RangeError if none is enough.  The walk goes
      down the argument only: a character at a registered type is answered at once. */
  function Failure(m: Model, t: Tree, d: Option<Option<Type>>): Option<Error>
    decreases Height(t), 1, 0
  {
    if d.None? || !Truthy(t) then None
    else if d.value.None? then Some(TypeError)
    else
      var ty := d.value.value;
      if ty.name in m.classes then
        if IsCharacter(t) then CharacterFailure(m, ty.name, |m.classes|) else FailureAmong(m, t, Declared(m, ty.name))
      else if ty.name == "Array" && HasLength(t) && ty.element.Some? then
        if t.Arr? then FailureOf(m, t.elements, ty.element, Height(t)) else Some(TypeError)
      else None
  }

  /** Of the declared properties, in their order. */
  function FailureAmong(m: Model, t: Tree, ds: seq<Property>): Option<Error>
    requires !IsCharacter(t)
    decreases Height(t), 0, |ds|
  {
    if ds == [] then None
    else
      var own := OwnProps(t);
      var first := if J.Has(own, ds[0].name) then
        PartLower(t, ds[0].name);
        Failure(m, PartOf(own, ds[0].name), Some(ds[0].type_))
      else None;
      if first.Some? then first else FailureAmong(m, t, ds[1..])
  }

  /** Of elements lower than `h`, in their order. */
  function FailureOf(m: Model, es: seq<Tree>, element: Option<Type>, h: nat): Option<Error>
    requires forall e | e in es :: Height(e) < h
    decreases h, 0, |es|
  {
    if es == [] then None
    else
      var first := Failure(m, es[0], Some(element));
      if first.Some? then first else FailureOf(m, es[1..], element, h)
  }

  /** With enough room the walk throws what was foretold, or returns as foretold. */
  lemma {:induction false} FailureIs(m: Model, t: Tree, d: Option<Option<Type>>, n: nat)
    requires ModelOk(m) && n >= Enough(m, t)
    ensures ErrorIn(Rebuilt(m, t, d, n)) == Failure(m, t, d)
    decreases Height(t), 1, 0
  {
    if d.Some? && d.value.Some? && Truthy(t) {
      var ty := d.value.value;
      if ty.name in m.classes {
        if IsCharacter(t) {
          CharacterFailureIs(m, t, ty, n);
        } else {
          FailureAmongIs(m, t, Declared(m, ty.name), n - 1);
        }
      } else if ty.name == "Array" && t.Arr? && t.elements != [] && ty.element.Some? {
        FailureOfIs(m, t.elements, ty.element, Height(t), n - 1);
      }
    }
  }

  lemma CharacterFailureIs(m: Model, t: Tree, ty: Type, n: nat)
    requires ModelOk(m) && IsCharacter(t) && ty.name in m.classes && n >= |m.classes| + 2
    ensures ErrorIn(Rebuilt(m, t, Some(Some(ty)), n)) == CharacterFailure(m, ty.name, |m.classes|)
  {
    hide Rebuilt, CharacterFailure, ModelOk;
    RoundIs(m, ty.name);
    if CharacterFailure(m, ty.name, |m.classes|) == Some(RangeError) {
      CharacterOverflows(m, t, ty, n);
    } else {
      CharacterEnds(m, t, ty, |m.classes|, n);
    }
  }

  lemma {:induction false} FailureAmongIs(m: Model, t: Tree, ds: seq<Property>, n: nat)
    requires ModelOk(m) && !IsCharacter(t) && n >= Height(t) + |m.classes| + 1
    ensures FirstError(m, OwnProps(t), ds, n) == FailureAmong(m, t, ds)
    decreases Height(t), 0, |ds|
  {
    hide Rebuilt, Failure, OwnProps, ModelOk;
    if ds != [] {
      var own := OwnProps(t);
      if J.Has(own, ds[0].name) {
        PartLower(t, ds[0].name);
        FailureIs(m, PartOf(own, ds[0].name), Some(ds[0].type_), n);
      } else {
        UndefinedStays(m, Some(ds[0].type_), n);
      }
      FailureAmongIs(m, t, ds[1..], n);
    }
  }

  lemma {:induction false} FailureOfIs(m: Model, es: seq<Tree>, element: Option<Type>, h: nat, n: nat)
    requires ModelOk(m) && (forall e | e in es :: Height(e) < h) && n >= h + |m.classes| + 1
    ensures ErrorIn(RebuiltElements(m, es, element, n)) == FailureOf(m, es, element, h)
    decreases h, 0, |es|
  {
    hide Rebuilt, Failure, ModelOk;
    if es != [] {
      FailureIs(m, es[0], Some(element), n);
      FailureOfIs(m, es[1..], element, h, n);
    }
  }

  /** Rebuilding ends, given the room, if and only if no RangeError is foretold; it then needs no more room
      than the height of the argument and one round through the classes, and more makes no difference. */
  lemma EndsExactly(m: Model, t: Tree, d: Option<Option<Type>>)
    requires Unique(t) && ModelOk(m)
    ensures (exists n: nat :: Ends(Rebuilt(m, t, d, n))) <==> Failure(m, t, d) != Some(RangeError)
    ensures Failure(m, t, d) != Some(RangeError) ==>
      forall n: nat | n >= Enough(m, t) :: Rebuilt(m, t, d, n) == Rebuilt(m, t, d, Enough(m, t))
  {
    hide Failure, Unique, ModelOk;
    var enough := Enough(m, t);
    FailureIs(m, t, d, enough);
    if Failure(m, t, d) == Some(RangeError) {
      forall n: nat ensures !Ends(Rebuilt(m, t, d, n)) { EndlessOverflows(m, t, d, n); }
    } else {
      assert Ends(Rebuilt(m, t, d, enough));
      forall n: nat | n >= enough ensures Rebuilt(m, t, d, n) == Rebuilt(m, t, d, enough) {
        Stable(m, t, d, enough, n);
      }
    }
  }

  lemma EndlessOverflows(m: Model, t: Tree, d: Option<Option<Type>>, n: nat)
    requires Unique(t) && ModelOk(m) && Failure(m, t, d) == Some(RangeError)
    ensures Rebuilt(m, t, d, n) == Throws(RangeError)
  {
    hide Rebuilt, Failure, Unique, ModelOk;
    var room := if n >= Enough(m, t) then n else Enough(m, t);
    FailureIs(m, t, d, room);
    if Ends(Rebuilt(m, t, d, n)) { Stable(m, t, d, n, room); }
  }

  // ----- models no argument overflows with

  /** The properties "0" of the type lead on and on through registered types. */
  ghost predicate Endless(m: Model, name: string) {
    name in m.classes && forall k: nat :: ZeroTypeAfter(m, name, k).Some?
  }

  /** No stack is deep enough for the argument. */
  ghost predicate OverflowsAlways(m: Model, t: Tree, d: Option<Option<Type>>) {
    forall n: nat :: Rebuilt(m, t, d, n) == Throws(RangeError)
  }

  lemma CharacterEndless(m: Model, name: string)
    requires name in m.classes && CharacterFailure(m, name, |m.classes|) == Some(RangeError)
    ensures Endless(m, name)
  {
    RoundIs(m, name);
  }

  lemma {:induction false} EndlessWithin(m: Model, t: Tree, d: Option<Option<Type>>)
    requires Failure(m, t, d) == Some(RangeError)
    ensures exists name :: Endless(m, name)
    decreases Height(t), 1, 0
  {
    hide Endless, CharacterFailure;
    var ty := d.value.value;
    if ty.name in m.classes {
      if IsCharacter(t) {
        CharacterEndless(m, ty.name);
      } else {
        EndlessAmong(m, t, Declared(m, ty.name));
      }
    } else {
      EndlessOf(m, t.elements, ty.element, Height(t));
    }
  }

  lemma {:induction false} EndlessAmong(m: Model, t: Tree, ds: seq<Property>)
    requires !IsCharacter(t) && FailureAmong(m, t, ds) == Some(RangeError)
    ensures exists name :: Endless(m, name)
    decreases Height(t), 0, |ds|
  {
    hide Endless, Failure, OwnProps;
    var own := OwnProps(t);
    if J.Has(own, ds[0].name) {
      PartLower(t, ds[0].name);
      if Failure(m, PartOf(own, ds[0].name), Some(ds[0].type_)).Some? {
        EndlessWithin(m, PartOf(own, ds[0].name), Some(ds[0].type_));
      } else {
        EndlessAmong(m, t, ds[1..]);
      }
    } else {
      EndlessAmong(m, t, ds[1..]);
    }
  }

  lemma {:induction false} EndlessOf(m: Model, es: seq<Tree>, element: Option<Type>, h: nat)
    requires (forall e | e in es :: Height(e) < h) && FailureOf(m, es, element, h) == Some(RangeError)
    ensures exists name :: Endless(m, name)
    decreases h, 0, |es|
  {
    hide Endless, Failure;
    if Failure(m, es[0], Some(element)).Some? {
      EndlessWithin(m, es[0], Some(element));
    } else {
      EndlessOf(m, es[1..], element, h);
    }
  }

  /** Some argument overflows every stack if and only if some registered type is endless; a string of one
      character at that type is such an argument. */
  lemma SafeModels(m: Model)
    requires ModelOk(m)
    ensures (exists t, d :: Unique(t) && OverflowsAlways(m, t, d)) <==> exists name :: Endless(m, name)
  {
    if t, d :| Unique(t) && OverflowsAlways(m, t, d) {
      assert Rebuilt(m, t, d, Enough(m, t)) == Throws(RangeError);
      FailureIs(m, t, d, Enough(m, t));
      EndlessWithin(m, t, d);
    }
    if name :| Endless(m, name) {
      var t := Leaf(Str("a"));
      EndlessString(m, t, name);
      assert Unique(t) && OverflowsAlways(m, t, Some(Some(Type(name, None))));
    }
  }

  lemma EndlessString(m: Model, t: Tree, name: string)
    requires ModelOk(m) && Endless(m, name) && IsCharacter(t)
    ensures OverflowsAlways(m, t, Some(Some(Type(name, None))))
  {
    forall n: nat ensures Rebuilt(m, t, Some(Some(Type(name, None))), n) == Throws(RangeError) {
      CharacterOverflows(m, t, Type(name, None), n);
    }
  }

  /** A type whose property "0" is of that type again, and a string: no stack is deep enough. */
  lemma SelfTypedString(n: nat)
    ensures var ty := Type("C", None); var m := Model({"C"}, map["C" := Definition([Property("0", Some(ty))], [])]);
      Rebuilt(m, Leaf(Str("a")), Some(Some(ty)), n) == Throws(RangeError)
  {
    var ty := Type("C", None);
    var m := Model({"C"}, map["C" := Definition([Property("0", Some(ty))], [])]);
    assert ZeroType(m, "C") == Some("C");
    forall k: nat ensures ZeroTypeAfter(m, "C", k).Some? { ZeroStays(m, "C", k); }
    CharacterOverflows(m, Leaf(Str("a")), ty, n);
  }

  lemma {:induction false} ZeroStays(m: Model, name: string, k: nat)
    requires ZeroType(m, name) == Some(name)
    ensures ZeroTypeAfter(m, name, k) == Some(name)
    decreases k
  {
    if k > 0 { ZeroStays(m, name, k - 1); }
  }
}
