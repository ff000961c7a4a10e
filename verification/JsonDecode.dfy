/** What a parsed JSON text means: the object graph it denotes once references, dates and
    classes are resolved.  This is the specification `parse` of lib/util/json.js is proved against. */
module JsonDecode {
  import opened Options
  import opened Sequences
  import opened JsValues

  // ----- texts the format describes

  predicate StringLeaves(ms: Props<Json>) {
    match ms
    case Nil => true
    case Cons(k, v, rest) => IsIndex(k) && v.Leaf? && v.p.Str? && StringLeaves(rest)
  }

  function Strings(ms: Props<Json>): seq<string>
    requires StringLeaves(ms)
  {
    match ms
    case Nil => []
    case Cons(_, v, rest) => [v.p.s] + Strings(rest)
  }

  predicate IsStampArray(t: Json) {
    t.Node? && t.kind == Arr && StringLeaves(t.members)
  }

  /** Meta fields occur in objects only; ___dates___ lists strings, ___objectref is a number or null;
      no key is empty. */
  predicate WellFormed(t: Json)
    decreases t
  {
    match t
    case Leaf(_) => true
    case Node(kind, ms) => DistinctKeys(ms) && WellFormedMembers(kind, ms)
  }

  predicate WellFormedMembers(kind: Kind, ms: Props<Json>)
    decreases ms
  {
    match ms
    case Nil => true
    case Cons(k, v, rest) =>
      && k != ""
      && (kind == Arr ==> IsIndex(k))
      && (k == DATES_FIELD ==> IsStampArray(v))
      && (k == OBJECTREF_FIELD ==> v.Leaf? && (v.p.Null? || v.p.Num?))
      && WellFormed(v)
      && WellFormedMembers(kind, rest)
  }

  // ----- references

  predicate IsReference(t: Json) {
    t.Node? && Has(t.members, OBJECTREF_FIELD) && Lookup(t.members, OBJECTREF_FIELD) != Some(Leaf(Null))
  }

  /** The id of a reference, None for anything else. */
  function RefId(t: Json): Option<Prim> {
    if IsReference(t) && Lookup(t.members, OBJECTREF_FIELD).value.Leaf?
    then Some(Lookup(t.members, OBJECTREF_FIELD).value.p)
    else None
  }

  /** `chain[id]` exists */
  predicate InRange(id: Prim, count: nat) {
    id.Num? && 0.0 <= id.n && id.n.Floor as real == id.n && id.n.Floor < count
  }

  function Index(id: Prim, count: nat): (i: nat)
    requires InRange(id, count)
    ensures i < count
  {
    id.n.Floor
  }

  /** Every reference below the root, forward ones and nested ones included, names a container. */
  predicate RefsInRange(ms: Props<Json>, count: nat) {
    match ms
    case Nil => true
    case Cons(k, v, rest) =>
      && (RefId(v).Some? && k != DATES_FIELD ==> InRange(RefId(v).value, count))
      && (v.Node? && k != DATES_FIELD ==> RefsInRange(v.members, count))
      && RefsInRange(rest, count)
  }

  /** Some container below the root is a reference. */
  predicate HasReferences(ms: Props<Json>) {
    match ms
    case Nil => false
    case Cons(_, v, rest) => IsReference(v) || (v.Node? && HasReferences(v.members)) || HasReferences(rest)
  }

  // ----- dates

  predicate HasDates(t: Json) {
    t.Node? && HasDatesIn(t.members)
  }

  predicate HasDatesIn(ms: Props<Json>) {
    match ms
    case Nil => false
    case Cons(k, v, rest) => k == DATES_FIELD || HasDates(v) || HasDatesIn(rest)
  }

  /** No member that follows a ___dates___ member holds another ___dates___ at any depth:
      the one `dates` variable of the reviver still belongs to the object when it is closed. */
  predicate DatesInOrder(t: Json) {
    t.Node? ==> DatesInOrderIn(t.members)
  }

  predicate DatesInOrderIn(ms: Props<Json>) {
    match ms
    case Nil => true
    case Cons(k, v, rest) =>
      && DatesInOrder(v)
      && (k == DATES_FIELD ==> !HasDatesIn(rest))
      && DatesInOrderIn(rest)
  }

  function DatesOf(ms: Props<Json>): Option<seq<string>> {
    match Lookup<Json>(ms, DATES_FIELD)
    case Some(t) => if IsStampArray(t) then Some(Strings(t.members)) else None
    case None => None
  }

  function ReviveDate(v: Value, stamps: seq<string>): Value {
    if v.Prim? && v.p.Str? && v.p.s in stamps then Date(ParseInt(v.p.s)) else v
  }

  function ReviveDates(ps: Props<Value>, dates: Option<seq<string>>): Props<Value> {
    match ps
    case Nil => Nil
    case Cons(k, v, rest) =>
      Cons(k, if dates.Some? then ReviveDate(v, dates.value) else v, ReviveDates(rest, dates))
  }

  // ----- classes

  function TextAt(ms: Props<Json>, key: string): Option<string> {
    match Lookup<Json>(ms, key)
    case Some(Leaf(Str(s))) => Some(s)
    case _ => None
  }

  function Mapped(name: Option<string>, other: Option<string>, classes: set<string>): Option<string> {
    if name.Some? && name.value in classes then name
    else if other.Some? && other.value in classes then other
    else None
  }

  function ClassOf(ms: Props<Json>, classes: set<string>): Option<string> {
    Mapped(TextAt(ms, "___class"), TextAt(ms, "___jsonclass"), classes)
  }

  // ----- the object graph

  /** How many containers `t` contributes to the numbering: a reference and all below it count
      for nothing, and neither does a ___dates___ list. */
  function Count(k: string, t: Json): nat
    decreases t
  {
    if k == DATES_FIELD || t.Leaf? || IsReference(t) then 0 else 1 + CountIn(t.members)
  }

  function CountIn(ms: Props<Json>): nat {
    match ms
    case Nil => 0
    case Cons(k, v, rest) => Count(k, v) + CountIn(rest)
  }

  /** The root is numbered 0 whatever it looks like. */
  function Total(t: Json): nat {
    match t
    case Leaf(_) => 0
    case Node(_, ms) => 1 + CountIn(ms)
  }

  /** The value of a member: a container is referred to by its number, `base` being the number of
      the first container of `t`; a reference by the number it carries. */
  function Slot(k: string, t: Json, base: nat, total: nat): Value {
    if k == DATES_FIELD then Prim(Null)
    else match t
      case Leaf(p) => Prim(p)
      case Node(_, _) =>
        match RefId(t)
        case Some(id) => Ref(if InRange(id, total) then Index(id, total) else 0)
        case None => Ref(base)
  }

  function Slots(ms: Props<Json>, base: nat, total: nat): Props<Value> {
    match ms
    case Nil => Nil
    case Cons(k, v, rest) => Cons(k, Slot(k, v, base, total), Slots(rest, base + Count(k, v), total))
  }

  /** Container number `base`: its members revived, its ___dates___ member gone, its class applied. */
  function Container(t: Json, base: nat, total: nat, classes: set<string>): Object
    requires t.Node?
  {
    var slots := Slots(t.members, base + 1, total);
    Object(t.kind, ClassOf(t.members, classes),
           Remove(ReviveDates(slots, DatesOf(t.members)), DATES_FIELD))
  }

  /** A container and those below it, in preorder. */
  function ContainersFrom(t: Json, base: nat, total: nat, classes: set<string>): (os: seq<Object>)
    requires t.Node?
    ensures |os| == 1 + CountIn(t.members)
    decreases t, 1
  {
    [Container(t, base, total, classes)] + Containers(t.members, base + 1, total, classes)
  }

  /** The containers of the members, in preorder. */
  function Containers(ms: Props<Json>, base: nat, total: nat, classes: set<string>): (os: seq<Object>)
    ensures |os| == CountIn(ms)
    decreases ms, 0
  {
    match ms
    case Nil => []
    case Cons(k, v, rest) =>
      var more := Containers(rest, base + Count(k, v), total, classes);
      if Count(k, v) == 0 then more else ContainersFrom(v, base, total, classes) + more
  }

  /** All containers of a text in preorder; a `Ref(i)` in them means container number i. */
  function Decode(t: Json, classes: set<string>): (os: seq<Object>)
    requires t.Node?
    ensures |os| == Total(t)
  {
    ContainersFrom(t, 0, Total(t), classes)
  }

  // ----- a heap that holds a decoded graph

  function Renamed(v: Value, addrs: seq<nat>): Value {
    if v.Ref? && v.addr < |addrs| then Ref(addrs[v.addr]) else v
  }

  function RenamedProps(ps: Props<Value>, addrs: seq<nat>): Props<Value> {
    match ps
    case Nil => Nil
    case Cons(k, v, rest) => Cons(k, Renamed(v, addrs), RenamedProps(rest, addrs))
  }

  function RenamedObject(o: Object, addrs: seq<nat>): Object {
    o.(props := RenamedProps(o.props, addrs))
  }

  /** Object number i of the graph lives at addrs[i], different objects at different addresses. */
  predicate Holds(heap: Heap, addrs: seq<nat>, graph: seq<Object>) {
    && |addrs| == |graph|
    && NoDup(addrs)
    && forall i | 0 <= i < |addrs| :: addrs[i] in heap && heap[addrs[i]] == RenamedObject(graph[i], addrs)
  }
}
