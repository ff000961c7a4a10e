/** `stringify` of lib/util/json.js: a depth-first walk of a possibly cyclic heap that numbers
    containers in the order they are opened and prints a repeat as {___objectref: number}. */
module JsonEncode {
  import opened Options
  import opened Sequences
  import opened JsValues

  // ----- the caller's data

  predicate ValueIn(h: Heap, v: Value) {
    v.Ref? ==> v.addr in h
  }

  predicate PropsIn(h: Heap, ps: Props<Value>) {
    match ps
    case Nil => true
    case Cons(_, v, rest) => ValueIn(h, v) && PropsIn(h, rest)
  }

  /** Values and keys a caller may hand over: no key is one of the three the format reserves. */
  predicate PlainProps(ps: Props<Value>) {
    match ps
    case Nil => true
    case Cons(k, v, rest) =>
      && k != "" && k != OBJECTREF_FIELD && k != DATES_FIELD
      && !v.DateList?
      && PlainProps(rest)
  }

  predicate PlainObject(h: Heap, o: Object) {
    && PropsIn(h, o.props) && PlainProps(o.props) && DistinctKeys(o.props)
    && (o.kind == Arr ==> IndexKeys(o.props))
  }

  /** A finite object graph: every reference leads to an object of the heap. */
  predicate PlainHeap(h: Heap) {
    forall a | a in h :: PlainObject(h, h[a])
  }

  // ----- the date rewriting of the replacer

  /** The distinct timestamps of an object's dates, in the order its keys are enumerated. */
  function Stamps(ps: Props<Value>, found: seq<string>): seq<string> {
    match ps
    case Nil => found
    case Cons(_, v, rest) =>
      Stamps(rest, if v.Date? && Stamp(v.time) !in found then found + [Stamp(v.time)] else found)
  }

  function Rewritten(v: Value): Value {
    if v.Date? then Prim(Str(Stamp(v.time))) else v
  }

  function RewrittenProps(ps: Props<Value>): Props<Value> {
    match ps
    case Nil => Nil
    case Cons(k, v, rest) => Cons(k, Rewritten(v), RewrittenProps(rest))
  }

  /** What the replacer leaves in the caller's object after it has been visited. */
  function RewrittenObject(o: Object): Object {
    var stamps := Stamps(o.props, []);
    if stamps == [] then o
    else o.(props := Append(RewrittenProps(o.props), Cons(DATES_FIELD, DateList(stamps), Nil)))
  }

  // ----- the printed tree

  function StampLeaves(stamps: seq<string>, i: nat): Props<Json>
    requires i <= |stamps|
    decreases |stamps| - i
  {
    if i == |stamps| then Nil
    else Cons(NatToString(i), Leaf(Str(stamps[i])), StampLeaves(stamps, i + 1))
  }

  function StampArray(stamps: seq<string>): Json {
    Node(Arr, StampLeaves(stamps, 0))
  }

  function Reference(id: nat): Json {
    Node(Obj, Cons(OBJECTREF_FIELD, Leaf(Num(id as real)), Nil))
  }

  /** The ___dates___ member: printed after all others, and never for an array. */
  function DatesMember(o: Object): Props<Json> {
    var stamps := Stamps(o.props, []);
    if o.kind == Arr || stamps == [] then Nil else Cons(DATES_FIELD, StampArray(stamps), Nil)
  }

  /** The containers not yet opened. */
  ghost function Unseen(h: Heap, order: seq<nat>): set<nat> {
    h.Keys - (set a | a in order)
  }

  predicate OrderIn(h: Heap, order: seq<nat>) {
    NoDup(order) && forall a | a in order :: a in h
  }

  /** The tree printed for a value when the containers in `order` were opened before it,
      and the containers opened after it. */
  function Encode(h: Heap, order: seq<nat>, v: Value): (r: (Json, seq<nat>))
    requires PlainHeap(h) && ValueIn(h, v) && OrderIn(h, order)
    ensures OrderIn(h, r.1) && order <= r.1
    decreases Unseen(h, order), v, 0
  {
    match v
    case Prim(p) => (Leaf(p), order)
    case Date(time) => (Leaf(Str(Stamp(time))), order)
    case DateList(stamps) => (StampArray(stamps), order)
    case Ref(a) =>
      if a in order then (Reference(IndexOf(order, a)), order)
      else
        assert a in Unseen(h, order) && a !in Unseen(h, order + [a]);
        assert Unseen(h, order + [a]) <= Unseen(h, order);
        var (members, order') := EncodeProps(h, order + [a], h[a].props);
        (Node(h[a].kind, Append(members, DatesMember(h[a]))), order')
  }

  function EncodeProps(h: Heap, order: seq<nat>, ps: Props<Value>): (r: (Props<Json>, seq<nat>))
    requires PlainHeap(h) && PropsIn(h, ps) && OrderIn(h, order)
    ensures OrderIn(h, r.1) && order <= r.1
    decreases Unseen(h, order), ps, 1
  {
    match ps
    case Nil => (Nil, order)
    case Cons(k, v, rest) =>
      var (t, order1) := Encode(h, order, v);
      assert Unseen(h, order1) <= Unseen(h, order);
      var (ts, order2) := EncodeProps(h, order1, rest);
      (Cons(k, t, ts), order2)
  }

  // ----- the replacer's date loop

  /** One turn of the loop over the properties of `v`. */
  function ResolveDate(ps: Props<Value>, prop: string): Props<Value> {
    match Lookup<Value>(ps, prop)
    case Some(Date(time)) =>
      var stamp := Stamp(time);
      var named := Assign(ps, prop, Prim(Str(stamp)));
      var held := if Has(named, DATES_FIELD) then named
                  else Append(named, Cons(DATES_FIELD, DateList([]), Nil));
      (match Lookup<Value>(held, DATES_FIELD)
       case Some(DateList(stamps)) =>
         if stamp in stamps then held else Assign(held, DATES_FIELD, DateList(stamps + [stamp]))
       case _ => held)
    case _ => ps
  }

  function ResolveDates(ps: Props<Value>, todo: Props<Value>): Props<Value>
    decreases todo
  {
    match todo
    case Nil => ps
    case Cons(k, _, rest) => ResolveDates(ResolveDate(ps, k), rest)
  }

  predicate DateFree(ps: Props<Value>) {
    match ps
    case Nil => true
    case Cons(_, v, rest) => !v.Date? && DateFree(rest)
  }

  lemma {:induction false} DateFreeLookup(ps: Props<Value>, key: string)
    requires DateFree(ps)
    ensures Has(ps, key) ==> !Lookup(ps, key).value.Date?
  {
    if ps.Cons? { DateFreeLookup(ps.rest, key); }
  }

  lemma {:induction false} ResolveDateFree(ps: Props<Value>, todo: Props<Value>)
    requires DateFree(ps)
    ensures ResolveDates(ps, todo) == ps
    decreases todo
  {
    if todo.Cons? {
      DateFreeLookup(ps, todo.key);
      ResolveDateFree(ps, todo.rest);
    }
  }

  function StampTail(stamps: seq<string>): Props<Value> {
    if stamps == [] then Nil else Cons(DATES_FIELD, DateList(stamps), Nil)
  }

  lemma {:induction false} PlainHasNot(ps: Props<Value>)
    requires PlainProps(ps)
    ensures !Has(ps, DATES_FIELD) && !Has(ps, OBJECTREF_FIELD) && !Has(ps, "")
  {
    if ps.Cons? { PlainHasNot(ps.rest); }
  }

  lemma {:induction false} RewrittenHas(ps: Props<Value>, key: string)
    ensures Has(RewrittenProps(ps), key) <==> Has(ps, key)
  {
    if ps.Cons? { RewrittenHas(ps.rest, key); }
  }

  lemma {:induction false} RewrittenDateFree(ps: Props<Value>, stamps: seq<string>)
    ensures DateFree(Append(RewrittenProps(ps), StampTail(stamps)))
  {
    if ps.Cons? { RewrittenDateFree(ps.rest, stamps); }
  }

  /** The loop has rewritten `done` and stands before `todo`. */
  lemma {:induction false} ResolveDatesFrom(done: Props<Value>, todo: Props<Value>, found: seq<string>)
    requires PlainProps(todo) && DistinctKeys(todo)
    requires !Has(done, DATES_FIELD)
    requires forall k | Has(todo, k) :: !Has(done, k)
    ensures ResolveDates(Append(done, Append(todo, StampTail(found))), todo) ==
            Append(done, Append(RewrittenProps(todo), StampTail(Stamps(todo, found))))
    decreases todo
  {
    match todo {
      case Nil =>
      case Cons(k, v, rest) =>
        PlainHasNot(todo);
        var ps := Append(done, Append(todo, StampTail(found)));
        assert Has(todo, k);
        AssignAppend(done, k, v, Append(rest, StampTail(found)), Rewritten(v));
        var found' := if v.Date? && Stamp(v.time) !in found then found + [Stamp(v.time)] else found;
        var done' := Append(done, Cons(k, Rewritten(v), Nil));
        forall tail: Props<Value>
          ensures Append(done, Cons(k, Rewritten(v), tail)) == Append(done', tail)
        {
          AppendAssoc(done, Cons(k, Rewritten(v), Nil), tail);
        }
        forall j ensures Has(done', j) <==> Has(done, j) || j == k {
          LookupAppend(done, Cons(k, Rewritten(v), Nil), j);
        }
        assert ResolveDate(ps, k) == Append(done', Append(rest, StampTail(found'))) by {
          assert Lookup(ps, k) == Some(v);
          if v.Date? {
            ResolveOne(done', rest, found, Stamp(v.time));
            assert Assign(ps, k, Rewritten(v)) == Append(done', Append(rest, StampTail(found)));
          }
        }
        forall j | Has(rest, j) ensures !Has(done', j) {
          assert Has(todo, j);
        }
        ResolveDatesFrom(done', rest, found');
    }
  }

  /** Recording one timestamp in the object's ___dates___ list. */
  lemma ResolveOne(done: Props<Value>, rest: Props<Value>, found: seq<string>, stamp: string)
    requires !Has(done, DATES_FIELD) && !Has(rest, DATES_FIELD)
    ensures
      var named := Append(done, Append(rest, StampTail(found)));
      var held := if Has(named, DATES_FIELD) then named
                  else Append(named, Cons(DATES_FIELD, DateList([]), Nil));
      && Lookup(held, DATES_FIELD) == Some(DateList(found))
      && Append(done, Append(rest, StampTail(if stamp in found then found else found + [stamp]))) ==
         (if stamp in found then held else Assign(held, DATES_FIELD, DateList(found + [stamp])))
  {
    var both := Append(done, rest);
    LookupAppend(done, rest, DATES_FIELD);
    forall tail: Props<Value> ensures Append(done, Append(rest, tail)) == Append(both, tail) {
      AppendAssoc(done, rest, tail);
    }
    var named := Append(done, Append(rest, StampTail(found)));
    LookupAppend(both, StampTail(found), DATES_FIELD);
    AppendNil(both);
    AssignAppend(both, DATES_FIELD, DateList(found), Nil, DateList(found + [stamp]));
  }

  /** The loop turns a caller's object into RewrittenObject, and leaves it alone the next time. */
  lemma ResolveDatesIsRewritten(o: Object)
    requires PlainProps(o.props) && DistinctKeys(o.props)
    ensures o.(props := ResolveDates(o.props, o.props)) == RewrittenObject(o)
    ensures var ps := RewrittenObject(o).props; ResolveDates(ps, ps) == ps
  {
    ResolveDatesFrom(Nil, o.props, []);
    AppendNil(o.props);
    var stamps := Stamps(o.props, []);
    RewrittenDateFree(o.props, stamps);
    AppendNil(RewrittenProps(o.props));
    if stamps == [] { NoStamps(o.props, []); }
    ResolveDateFree(RewrittenObject(o).props, RewrittenObject(o).props);
  }

  lemma {:induction false} NoStamps(ps: Props<Value>, found: seq<string>)
    ensures |Stamps(ps, found)| >= |found|
    ensures Stamps(ps, found) == [] ==> RewrittenProps(ps) == ps && DateFree(ps)
  {
    if ps.Cons? {
      var unlisted := ps.val.Date? && Stamp(ps.val.time) !in found;
      NoStamps(ps.rest, if unlisted then found + [Stamp(ps.val.time)] else found);
    }
  }

  // ----- encoding the rewritten object

  lemma {:induction false} EncodeRewritten(h: Heap, order: seq<nat>, ps: Props<Value>)
    requires PlainHeap(h) && PropsIn(h, ps) && OrderIn(h, order)
    ensures PropsIn(h, RewrittenProps(ps))
    ensures EncodeProps(h, order, RewrittenProps(ps)) == EncodeProps(h, order, ps)
    decreases ps
  {
    if ps.Cons? {
      var (t, order1) := Encode(h, order, ps.val);
      EncodeRewritten(h, order1, ps.rest);
    }
  }

  lemma {:induction false} EncodeAppend(h: Heap, order: seq<nat>, ps: Props<Value>, stamps: seq<string>)
    requires PlainHeap(h) && PropsIn(h, ps) && OrderIn(h, order)
    ensures
      var tail := Cons(DATES_FIELD, DateList(stamps), Nil);
      var (ts, order') := EncodeProps(h, order, ps);
      && PropsIn(h, Append(ps, tail))
      && EncodeProps(h, order, Append(ps, tail)) ==
         (Append(ts, Cons(DATES_FIELD, StampArray(stamps), Nil)), order')
    decreases ps
  {
    if ps.Cons? {
      var (t, order1) := Encode(h, order, ps.val);
      EncodeAppend(h, order1, ps.rest, stamps);
    }
  }

  /** What the host enumerates of an object: all keys of an object, only the elements of an array. */
  function Enumerated(o: Object): Props<Value> {
    if o.kind == Arr then Remove(o.props, DATES_FIELD) else o.props
  }

  /** Only the list of timestamps is stored under ___dates___. */
  predicate NoRefUnderDates(ps: Props<Value>) {
    match ps
    case Nil => true
    case Cons(k, v, rest) => (v.Ref? ==> k != DATES_FIELD) && NoRefUnderDates(rest)
  }

  lemma {:induction false} RewrittenNoRefUnderDates(ps: Props<Value>, tail: Props<Value>)
    requires PlainProps(ps) && NoRefUnderDates(tail)
    ensures NoRefUnderDates(ps) && NoRefUnderDates(Append(RewrittenProps(ps), tail))
  {
    if ps.Cons? {
      RewrittenNoRefUnderDates(ps.rest, tail);
    }
  }

  lemma ObjectIsPlain(h: Heap, a: nat)
    requires PlainHeap(h) && a in h
    ensures PlainObject(h, h[a]) && RewrittenObject(h[a]).kind == h[a].kind
  {
  }

  lemma EncodeEnumerated(h: Heap, order: seq<nat>, o: Object)
    requires PlainHeap(h) && PlainObject(h, o) && OrderIn(h, order)
    ensures
      var ps := Enumerated(RewrittenObject(o));
      var (ts, order') := EncodeProps(h, order, o.props);
      && PropsIn(h, ps) && NoRefUnderDates(ps)
      && EncodeProps(h, order, ps) == (Append(ts, DatesMember(o)), order')
  {
    var stamps := Stamps(o.props, []);
    var (ts, _) := EncodeProps(h, order, o.props);
    AppendNil(ts);
    PlainHasNot(o.props);
    RewrittenHas(o.props, DATES_FIELD);
    RemoveAppend(RewrittenProps(o.props), DATES_FIELD, DateList(stamps));
    RemoveAppend(o.props, DATES_FIELD, DateList(stamps));
    EncodeRewritten(h, order, o.props);
    AppendNil(RewrittenProps(o.props));
    RewrittenNoRefUnderDates(o.props, Nil);
    RewrittenNoRefUnderDates(o.props, Cons(DATES_FIELD, DateList(stamps), Nil));
    EncodeAppend(h, order, RewrittenProps(o.props), stamps);
  }

  // ----- stringify

  /** What the replacer hands back to JSON.stringify. */
  datatype Replaced = Same(v: Value) | ObjectRef(id: nat)

  /** Rewriting an object gives what the books say, and doing it again changes nothing. */
  lemma RewrittenOnce(h: Heap, a: nat)
    requires PlainHeap(h) && a in h
    ensures h[a].(props := ResolveDates(h[a].props, h[a].props)) == RewrittenObject(h[a])
    ensures var o := RewrittenObject(h[a]); o.(props := ResolveDates(o.props, o.props)) == o
  {
    ResolveDatesIsRewritten(h[a]);
  }

  class Encoder {
    var heap: Heap
    var seen: map<nat, nat>
    var incr: nat
    ghost const original: Heap
    ghost var order: seq<nat>

    ghost predicate Valid()
      reads this
    {
      && PlainHeap(original)
      && OrderIn(original, order)
      && incr == |order|
      && (forall a :: a in seen <==> a in order)
      && (forall i | 0 <= i < |order| :: seen[order[i]] == i)
      && heap.Keys == original.Keys
      && (forall a | a in heap ::
            heap[a] == if a in order then RewrittenObject(original[a]) else original[a])
    }

    constructor (heap: Heap)
      requires PlainHeap(heap)
      ensures Valid() && original == heap && this.heap == heap && order == []
    {
      this.heap := heap;
      seen := map[];
      incr := 0;
      original := heap;
      order := [];
    }

    /** The loop of the replacer over the keys of an object: it rewrites the dates in place. */
    method RewriteDates(a: nat)
      requires a in heap
      modifies `heap
      ensures heap == old(heap)[a := old(heap)[a].(
                props := ResolveDates(old(heap)[a].props, old(heap)[a].props))]
    {
      ghost var before := heap;
      var todo := heap[a].props;
      while todo.Cons?
        invariant a in heap && heap == before[a := before[a].(props := heap[a].props)]
        invariant ResolveDates(heap[a].props, todo) == ResolveDates(before[a].props, before[a].props)
        decreases todo
      {
        var o := heap[a];
        var prop := todo.key;
        match Lookup<Value>(o.props, prop) {
          case Some(Date(time)) =>
            var stamp := Stamp(time);
            var ps := Assign(o.props, prop, Prim(Str(stamp)));
            if !Has(ps, DATES_FIELD) {
              ps := Append(ps, Cons(DATES_FIELD, DateList([]), Nil));
            }
            match Lookup<Value>(ps, DATES_FIELD) {
              case Some(DateList(stamps)) =>
                if stamp !in stamps {
                  ps := Assign(ps, DATES_FIELD, DateList(stamps + [stamp]));
                }
              case _ =>
            }
            heap := heap[a := o.(props := ps)];
          case _ =>
        }
        todo := todo.rest;
      }
    }

    method Replacer(k: string, v: Value) returns (r: Replaced)
      requires Valid() && ValueIn(original, v) && (v.Ref? ==> k != DATES_FIELD)
      modifies this
      ensures Valid()
      ensures order == if v.Ref? && v.addr !in old(order) then old(order) + [v.addr] else old(order)
      ensures r == if v.Ref? && v.addr in old(order) then ObjectRef(IndexOf(order, v.addr)) else Same(v)
    {
      hide ResolveDates, RewrittenObject, PlainHeap;
      r := Same(v);
      if v.Ref? && k != DATES_FIELD {
        var a := v.addr;
        RewriteDates(a);
        RewrittenOnce(original, a);
        if a in seen {
          r := ObjectRef(seen[a]);
          IndexOfUnique(order, a, seen[a]) by {
            var i :| 0 <= i < |order| && order[i] == a;
            assert seen[order[i]] == i;
          }
        } else {
          seen := seen[a := incr];
          incr := incr + 1;
          order := order + [a];
        }
      }
    }

    /** SerializeJSONProperty of ECMA-262 section 25.5.2: the replacer runs before the children. */
    method Serialize(k: string, v: Value) returns (t: Json)
      requires Valid() && ValueIn(original, v) && (v.Ref? ==> k != DATES_FIELD)
      modifies this
      ensures Valid()
      ensures (t, order) == Encode(original, old(order), v)
      decreases Unseen(original, order), v, 0
    {
      hide PlainHeap, PlainObject, OrderIn, RewrittenObject, PropsIn, NoRefUnderDates, Enumerated;
      ghost var order0 := order;
      var r := Replacer(k, v);
      match r {
        case ObjectRef(id) => t := Reference(id);
          IndexOfPrefix(order0, order, v.addr);
        case Same(Prim(p)) => t := Leaf(p);
        case Same(Date(time)) => t := Leaf(Str(Stamp(time)));
        case Same(DateList(stamps)) => t := StampArray(stamps);
        case Same(Ref(a)) =>
          assert a in Unseen(original, order0) && a !in Unseen(original, order);
          assert Unseen(original, order) <= Unseen(original, order0);
          ObjectIsPlain(original, a);
          EncodeEnumerated(original, order, original[a]);
          var members := SerializeMembers(Enumerated(heap[a]));
          t := Node(heap[a].kind, members);
      }
    }

    method SerializeMembers(ps: Props<Value>) returns (ts: Props<Json>)
      requires Valid() && PropsIn(original, ps) && NoRefUnderDates(ps)
      modifies this
      ensures Valid()
      ensures (ts, order) == EncodeProps(original, old(order), ps)
      decreases Unseen(original, order), ps, 1
    {
      match ps {
        case Nil => ts := Nil;
        case Cons(k, v, rest) =>
          ghost var order0 := order;
          var t := Serialize(k, v);
          assert Unseen(original, order) <= Unseen(original, order0);
          var more := SerializeMembers(rest);
          ts := Cons(k, t, more);
      }
    }
  }
}
