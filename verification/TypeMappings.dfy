/** Type references of lib/server-code/model/service-descriptor.js and the graph their definitions span. */
module TypeMappings {
  import opened Options

  datatype Type = Type(name: string, element: Option<Type>)

  datatype Property = Property(name: string, type_: Option<Type>)

  datatype Method = Method(name: string, access: string, returnType: Option<Type>, params: seq<Property>)

  datatype Definition = Definition(properties: seq<Property>, methods: seq<Method>)

  type Definitions = map<string, Definition>

  /** unwrapPromise, and `void` for what is left of nothing. */
  function Unwrapped(t: Option<Type>): Option<Type>
    decreases t
  {
    if t.Some? && t.value.name == "Promise" then Unwrapped(t.value.element) else t
  }

  function Outer(t: Option<Type>): Type {
    if Unwrapped(t).Some? then Unwrapped(t).value else Type("void", None)
  }

  lemma {:induction false} OuterShrinks(t: Option<Type>)
    ensures Outer(t).name != "Promise"
    ensures Unwrapped(t).Some? ==> Unwrapped(t) == t || Unwrapped(t).value < t.value
    decreases t
  {
    if t.Some? && t.value.name == "Promise" {
      OuterShrinks(t.value.element);
    }
  }

  // ----- getTypeMapping

  datatype Mapping = Mapping(type_: string, javaType: string, nativeType: string, fullType: string,
                             elementType: Option<string>)

  /** An entry of `typesMapping`: a name, or a generic one that takes the element's. */
  datatype Nature = Absent | Plain(name: string) | Generic(name: string)

  function Upper(s: string): string {
    seq(|s|, i requires 0 <= i < |s| => if 'a' <= s[i] <= 'z' then s[i] - 'a' + 'A' else s[i])
  }

  function JavaNature(name: string): Nature {
    match name
    case "STRING" => Plain("java.lang.String")
    case "BOOLEAN" => Plain("boolean")
    case "NUMBER" => Plain("float")
    case "ARRAY" => Generic("java.util.List")
    case "OBJECT" => Plain("java.lang.Object")
    case "DATE" => Plain("java.util.Date")
    case _ => Absent
  }

  function NativeNature(name: string): Nature {
    match name
    case "BOOLEAN" => Plain("bool")
    case "NUMBER" => Plain("float")
    case "ARRAY" => Generic("List")
    case "DATE" => Plain("DateTime")
    case _ => Absent
  }

  predicate Known(defs: Definitions, name: string) {
    name != "" && name in defs
  }

  function Packaged(defs: Definitions, name: string): string {
    if name in defs then "services." + name else name
  }

  function Resolve(defs: Definitions, nature: Nature, element: Option<string>, name: string): string {
    match nature
    case Absent => Packaged(defs, name)
    case Plain(n) => Packaged(defs, n)
    case Generic(n) => Packaged(defs, if element.Some? then n + "<" + element.value + ">" else n)
  }

  function GetTypeMapping(t: Option<Type>, defs: Definitions): (m: Mapping)
    ensures m.type_ == Outer(t).name
    ensures m.elementType == if Outer(t).element.Some? then Some(Outer(Outer(t).element).name) else None
    decreases t
  {
    var outer := Outer(t);
    OuterShrinks(t);
    var sub := if outer.element.Some? then Some(GetTypeMapping(outer.element, defs)) else None;
    var upper := Upper(outer.name);
    Mapping(
      outer.name,
      Resolve(defs, JavaNature(upper), if sub.Some? then Some(sub.value.javaType) else None, outer.name),
      Resolve(defs, NativeNature(upper), if sub.Some? then Some(sub.value.nativeType) else None, outer.name),
      Packaged(defs, outer.name),
      if sub.Some? then Some(sub.value.type_) else None)
  }

  /** Promises are looked through, and what is left of nothing is void. */
  lemma OuterLaw(name: string, element: Option<Type>)
    ensures Outer(None) == Type("void", None)
    ensures Outer(Some(Type(name, element))) == if name == "Promise" then Outer(element) else Type(name, element)
  {
  }

  /** A name in the namespace of the definitions is written with it. */
  function InNamespace(defs: Definitions, name: string): string {
    (if name in defs then "services." else "") + name
  }

  /** What Java calls a type of that name, in any case, with elements Java calls `of`. */
  function JavaName(name: string, of: Option<string>): string {
    var upper := Upper(name);
    if upper == "STRING" then "java.lang.String"
    else if upper == "BOOLEAN" then "boolean"
    else if upper == "NUMBER" then "float"
    else if upper == "OBJECT" then "java.lang.Object"
    else if upper == "DATE" then "java.util.Date"
    else if upper == "ARRAY" then "java.util.List" + Bracketed(of)
    else name
  }

  function NativeName(name: string, of: Option<string>): string {
    var upper := Upper(name);
    if upper == "BOOLEAN" then "bool"
    else if upper == "NUMBER" then "float"
    else if upper == "DATE" then "DateTime"
    else if upper == "ARRAY" then "List" + Bracketed(of)
    else name
  }

  function Bracketed(of: Option<string>): string {
    match of case None => "" case Some(name) => "<" + name + ">"
  }

  lemma ResolveLaw(defs: Definitions, nature: Nature, of: Option<string>, name: string)
    ensures Resolve(defs, nature, of, name) == InNamespace(defs,
      match nature case Absent => name case Plain(n) => n case Generic(n) => n + Bracketed(of))
  {
    match nature {
      case Absent => assert "" + name == name;
      case Plain(n) => assert "" + n == n;
      case Generic(n) =>
        if of.Some? {
          assert n + "<" + of.value + ">" == n + ("<" + of.value + ">");
        } else {
          assert n + "" == n;
        }
        assert "" + (n + Bracketed(of)) == n + Bracketed(of);
    }
  }

  lemma JavaLaw(defs: Definitions, name: string, of: Option<string>)
    ensures Resolve(defs, JavaNature(Upper(name)), of, name) == InNamespace(defs, JavaName(name, of))
  {
    hide Upper, Resolve, InNamespace, Bracketed;
    ResolveLaw(defs, JavaNature(Upper(name)), of, name);
  }

  lemma NativeLaw(defs: Definitions, name: string, of: Option<string>)
    ensures Resolve(defs, NativeNature(Upper(name)), of, name) == InNamespace(defs, NativeName(name, of))
  {
    hide Upper, Resolve, InNamespace, Bracketed;
    ResolveLaw(defs, NativeNature(Upper(name)), of, name);
  }

  /** The names a type goes by outside: the built-in ones have names of their own, that of an array with the
      name of its elements; any other keeps its name, and a defined one is in the namespace. */
  lemma NamesLaw(name: string, element: Option<Type>, defs: Definitions)
    requires name != "Promise"
    ensures var m := GetTypeMapping(Some(Type(name, element)), defs);
      && m.fullType == InNamespace(defs, name)
      && (element.None? ==>
            && m.javaType == InNamespace(defs, JavaName(name, None))
            && m.nativeType == InNamespace(defs, NativeName(name, None)))
      && (element.Some? ==>
            var of := GetTypeMapping(element, defs);
            && m.javaType == InNamespace(defs, JavaName(name, Some(of.javaType)))
            && m.nativeType == InNamespace(defs, NativeName(name, Some(of.nativeType))))
  {
    hide JavaName, NativeName, JavaNature, NativeNature, Resolve, Upper;
    OuterLaw(name, element);
    var java := if element.Some? then Some(GetTypeMapping(element, defs).javaType) else None;
    var native := if element.Some? then Some(GetTypeMapping(element, defs).nativeType) else None;
    JavaLaw(defs, name, java);
    NativeLaw(defs, name, native);
    assert "" + name == name;
  }

  lemma UpperLaw(name: string, i: nat)
    requires i < |name|
    ensures |Upper(name)| == |name|
    ensures Upper(name)[i] == if 'a' <= name[i] <= 'z' then ((name[i] as int) - 32) as char else name[i]
  {
  }

  // ----- the graph of definitions

  /** A type reference names its outer type and, one level down, the type of its elements. */
  predicate Mentions(t: Option<Type>, name: string) {
    || name == Outer(t).name
    || (Outer(t).element.Some? && name == Outer(Outer(t).element).name)
  }

  predicate Edge(defs: Definitions, a: string, b: string) {
    Known(defs, a) && Known(defs, b) && exists p :: p in defs[a].properties && Mentions(p.type_, b)
  }

  ghost predicate Walk(defs: Definitions, path: seq<string>) {
    |path| >= 2 && forall i | 0 <= i < |path| - 1 :: Edge(defs, path[i], path[i + 1])
  }

  ghost predicate Reaches(defs: Definitions, a: string, b: string) {
    exists path :: Walk(defs, path) && path[0] == a && path[|path| - 1] == b
  }

  lemma EdgeReaches(defs: Definitions, a: string, b: string)
    requires Edge(defs, a, b)
    ensures Reaches(defs, a, b)
  {
    var path := [a, b];
    assert Walk(defs, path) && path[0] == a && path[|path| - 1] == b;
  }

  lemma ReachesNext(defs: Definitions, a: string, b: string, c: string)
    requires Reaches(defs, a, b) && Edge(defs, b, c)
    ensures Reaches(defs, a, c)
  {
    hide Edge;
    var path :| Walk(defs, path) && path[0] == a && path[|path| - 1] == b;
    var longer := path + [c];
    assert forall i | 0 <= i < |path| :: longer[i] == path[i];
    assert Walk(defs, longer) && longer[0] == a && longer[|longer| - 1] == c;
  }

  /** The types of a method's signature. */
  predicate InSignature(m: Method, t: Option<Type>) {
    t == m.returnType || exists p :: p in m.params && p.type_ == t
  }

  /** A defined type named by the signature of a method that is not private. */
  ghost predicate Public(defs: Definitions, services: seq<string>, name: string) {
    Known(defs, name) && exists s, m, t ::
      && s in services && s in defs && m in defs[s].methods && m.access != "private"
      && InSignature(m, t) && Mentions(t, name)
  }

  ghost predicate Needed(defs: Definitions, services: seq<string>, name: string) {
    Public(defs, services, name) || exists r :: Public(defs, services, r) && Reaches(defs, r, name)
  }

  /** What a method that is not private takes or returns is needed, for a promise or an array what it is of. */
  lemma PublicNeeds(defs: Definitions, services: seq<string>, s: string, m: Method, t: Option<Type>, name: string)
    requires s in services && s in defs && m in defs[s].methods && m.access != "private"
    requires t == m.returnType || exists p :: p in m.params && p.type_ == t
    requires name != "" && name in defs
    requires name == Outer(t).name || (Outer(t).element.Some? && name == Outer(Outer(t).element).name)
    ensures Needed(defs, services, name)
  {
    assert InSignature(m, t) && Mentions(t, name);
    assert Public(defs, services, name);
  }

  /** Private methods alone need nothing. */
  lemma PrivateNeedsNothing(defs: Definitions, services: seq<string>, name: string)
    requires forall s, m | s in services && s in defs && m in defs[s].methods :: m.access == "private"
    ensures !Needed(defs, services, name)
  {
  }

  lemma NeededIsDefined(defs: Definitions, services: seq<string>, name: string)
    requires Needed(defs, services, name)
    ensures name != "" && name in defs
  {
    if r :| Public(defs, services, r) && Reaches(defs, r, name) {
      var path :| Walk(defs, path) && path[0] == r && path[|path| - 1] == name;
      assert Edge(defs, path[|path| - 2], path[|path| - 2 + 1]);
    }
  }

  lemma NeededNext(defs: Definitions, services: seq<string>, a: string, b: string)
    requires Needed(defs, services, a) && Edge(defs, a, b)
    ensures Needed(defs, services, b)
  {
    hide Edge, Public, Reaches;
    if Public(defs, services, a) {
      EdgeReaches(defs, a, b);
    } else {
      var r :| Public(defs, services, r) && Reaches(defs, r, a);
      ReachesNext(defs, r, a, b);
    }
  }
}
