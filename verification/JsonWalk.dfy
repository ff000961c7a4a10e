/** The variables of `parse` in lib/util/json.js as they are after each part of the postorder visit:
    revived members, the stack of chains, the references found, the objects that hold dates. */
module JsonWalk {
  import opened Options
  import opened JsValues
  import opened JsonDecode

  /** The host has made one object per container of the text.  Container number n of the text,
      references and ___dates___ lists counted too, is the object at address 2 * n; the instance
      that replaces it, if its class is mapped, is made at 2 * n + 1. */
  function Size(t: Json): nat {
    match t
    case Leaf(_) => 0
    case Node(_, ms) => 1 + SizeIn(ms)
  }

  function SizeIn(ms: Props<Json>): nat {
    match ms
    case Nil => 0
    case Cons(_, v, rest) => Size(v) + SizeIn(rest)
  }

  function Address(t: Json, n: nat, classes: set<string>): nat
    requires t.Node?
  {
    if ClassOf(t.members, classes).Some? then 2 * n + 1 else 2 * n
  }

  datatype Entry = Entry(key: string, value: Value)

  type Chain = seq<Entry>

  datatype ObjectReference = ObjectReference(parent: nat, key: string, id: Prim)

  // ----- what the walk leaves behind, before the root is patched

  /** The revived value of a member. */
  function Revived(k: string, t: Json, n: nat, classes: set<string>): Value {
    if k == DATES_FIELD then Prim(Null)
    else match t
      case Leaf(p) => Prim(p)
      case Node(_, _) => Ref(Address(t, n, classes))
  }

  function RevivedProps(ms: Props<Json>, n: nat, classes: set<string>): Props<Value> {
    match ms
    case Nil => Nil
    case Cons(k, v, rest) =>
      Cons(k, Revived(k, v, n, classes), RevivedProps(rest, n + Size(v), classes))
  }

  /** The object of a container when its own revivers have run. */
  function ClosedObject(t: Json, n: nat, classes: set<string>): Object
    requires t.Node?
  {
    Object(t.kind, ClassOf(t.members, classes),
           ReviveDates(RevivedProps(t.members, n + 1, classes), DatesOf(t.members)))
  }

  ghost predicate Laid(heap: Heap, t: Json, n: nat, classes: set<string>)
    decreases t
  {
    t.Node? ==>
      && Address(t, n, classes) in heap
      && heap[Address(t, n, classes)] == ClosedObject(t, n, classes)
      && LaidIn(heap, t.members, n + 1, classes)
  }

  ghost predicate LaidIn(heap: Heap, ms: Props<Json>, n: nat, classes: set<string>)
    decreases ms
  {
    match ms
    case Nil => true
    case Cons(k, v, rest) =>
      && (k != DATES_FIELD ==> Laid(heap, v, n, classes))
      && LaidIn(heap, rest, n + Size(v), classes)
  }

  /** Members whose value the reference reviver sees as an object. */
  predicate Numberable(k: string, t: Json) {
    k != DATES_FIELD && t.Node?
  }

  /** A child's chain on the stack, and its id when the child is a reference. */
  datatype Kid = Kid(chain: Chain, id: Option<Prim>)

  /** The chain of a container: itself, then the chains of its children but for references. */
  function ChainOf(k: string, t: Json, n: nat, classes: set<string>): (c: Chain)
    requires t.Node?
    ensures c != [] && c[0] == Entry(k, Ref(Address(t, n, classes)))
    decreases t, 1
  {
    [Entry(k, Ref(Address(t, n, classes)))] + Merged(Kids(t.members, n + 1, classes))
  }

  function Kids(ms: Props<Json>, n: nat, classes: set<string>): seq<Kid>
    decreases ms, 0
  {
    match ms
    case Nil => []
    case Cons(k, v, rest) =>
      var more := Kids(rest, n + Size(v), classes);
      if Numberable(k, v) then [Kid(ChainOf(k, v, n, classes), RefId(v))] + more else more
  }

  function Merged(kids: seq<Kid>): Chain {
    if kids == [] then [] else (if kids[0].id.None? then kids[0].chain else []) + Merged(kids[1..])
  }

  /** The references pushed when an object is closed: its children are popped from the last one. */
  function Found(kids: seq<Kid>, parent: nat): seq<ObjectReference>
  {
    if kids == [] then []
    else Found(kids[1..], parent)
         + (if kids[0].id.Some? && kids[0].chain != []
            then [ObjectReference(parent, kids[0].chain[0].key, kids[0].id.value)] else [])
  }

  /** `refs` after the members of a container and then the container have been visited. */
  function References(refs: seq<ObjectReference>, t: Json, n: nat, classes: set<string>): seq<ObjectReference>
    requires t.Node?
    decreases t, 1
  {
    ReferencesIn(refs, t.members, n + 1, classes)
    + Found(Kids(t.members, n + 1, classes), Address(t, n, classes))
  }

  function ReferencesIn(refs: seq<ObjectReference>, ms: Props<Json>, n: nat, classes: set<string>)
    : seq<ObjectReference>
    decreases ms, 0
  {
    match ms
    case Nil => refs
    case Cons(k, v, rest) =>
      ReferencesIn(if Numberable(k, v) then References(refs, v, n, classes) else refs, rest, n + Size(v), classes)
  }

  /** `datesHolders` after the members of a container and then the container have been visited. */
  function Holders(held: seq<nat>, t: Json, n: nat, classes: set<string>): seq<nat>
    requires t.Node?
    decreases t, 1
  {
    HoldersIn(held, t.members, n + 1, classes)
    + (if Has(t.members, DATES_FIELD) then [Address(t, n, classes)] else [])
  }

  function HoldersIn(held: seq<nat>, ms: Props<Json>, n: nat, classes: set<string>): seq<nat>
    decreases ms, 0
  {
    match ms
    case Nil => held
    case Cons(k, v, rest) =>
      HoldersIn(if Numberable(k, v) then Holders(held, v, n, classes) else held, rest, n + Size(v), classes)
  }

  /** `chains` after the members have been visited. */
  function ChainsIn(stack: seq<Chain>, ms: Props<Json>, n: nat, classes: set<string>): seq<Chain>
    decreases ms
  {
    match ms
    case Nil => stack
    case Cons(k, v, rest) =>
      ChainsIn(if Numberable(k, v) then stack + [ChainOf(k, v, n, classes)] else stack,
               rest, n + Size(v), classes)
  }

  lemma StackedCons(stack: seq<Chain>, kid: Kid, kids: seq<Kid>)
    ensures stack + Stacked([kid] + kids) == (stack + [kid.chain]) + Stacked(kids)
  {
    assert ([kid] + kids)[1..] == kids;
  }

  lemma {:induction false} ChainsAreStacked(stack: seq<Chain>, ms: Props<Json>, n: nat, classes: set<string>)
    ensures ChainsIn(stack, ms, n, classes) == stack + Stacked(Kids(ms, n, classes))
    decreases ms
  {
    if ms.Cons? {
      var r := n + Size(ms.val);
      if Numberable(ms.key, ms.val) {
        var c := ChainOf(ms.key, ms.val, n, classes);
        ChainsAreStacked(stack + [c], ms.rest, r, classes);
        StackedCons(stack, Kid(c, RefId(ms.val)), Kids(ms.rest, r, classes));
      } else {
        ChainsAreStacked(stack, ms.rest, r, classes);
      }
    }
  }

  // ----- facts about the revived members

  /** The number of the first container of a member's value. */
  function NumberOf(ms: Props<Json>, n: nat, key: string): nat
    requires Has(ms, key)
  {
    if ms.key == key then n else NumberOf(ms.rest, n + Size(ms.val), key)
  }

  lemma {:induction false} LookupRevived(ms: Props<Json>, n: nat, classes: set<string>, key: string)
    ensures Lookup(RevivedProps(ms, n, classes), key) ==
            if Has(ms, key)
            then Some(Revived(key, Lookup(ms, key).value, NumberOf(ms, n, key), classes))
            else None
    ensures Has(ms, key) ==>
      n <= NumberOf(ms, n, key) && NumberOf(ms, n, key) + Size(Lookup(ms, key).value) <= n + SizeIn(ms)
  {
    if ms.Cons? {
      LookupRevived(ms.rest, n + Size(ms.val), classes, key);
    }
  }

  lemma {:induction false} RevivedDistinct(ms: Props<Json>, n: nat, classes: set<string>)
    requires DistinctKeys(ms)
    ensures DistinctKeys(RevivedProps(ms, n, classes))
  {
    if ms.Cons? {
      RevivedDistinct(ms.rest, n + Size(ms.val), classes);
      LookupRevived(ms.rest, n + Size(ms.val), classes, ms.key);
    }
  }

  lemma {:induction false} LookupReviveDates(ps: Props<Value>, dates: Option<seq<string>>, key: string)
    ensures Lookup(ReviveDates(ps, dates), key) ==
            (match Lookup(ps, key)
             case None => None
             case Some(v) => Some(if dates.Some? then ReviveDate(v, dates.value) else v))
    ensures Keys(ReviveDates(ps, dates)) == Keys(ps)
    ensures DistinctKeys(ps) ==> DistinctKeys(ReviveDates(ps, dates))
  {
    if ps.Cons? {
      LookupReviveDates(ps.rest, dates, key);
      LookupReviveDates(ps.rest, dates, ps.key);
    }
  }

  lemma {:induction false} WellFormedLookup(kind: Kind, ms: Props<Json>, key: string)
    requires WellFormedMembers(kind, ms) && Has(ms, key)
    ensures var v := Lookup(ms, key).value;
      && key != "" && (kind == Arr ==> IsIndex(key))
      && (key == DATES_FIELD ==> IsStampArray(v))
      && (key == OBJECTREF_FIELD ==> v.Leaf? && (v.p.Null? || v.p.Num?))
      && WellFormed(v)
  {
    if ms.key != key {
      WellFormedLookup(kind, ms.rest, key);
    }
  }

  /** Looking a key up in a closed container. */
  lemma LookupClosed(t: Json, n: nat, classes: set<string>, key: string)
    requires t.Node? && WellFormed(t)
    ensures DistinctKeys(ClosedObject(t, n, classes).props)
    ensures Lookup(ClosedObject(t, n, classes).props, key) ==
      if !Has(t.members, key) then None
      else
        var v := Revived(key, Lookup(t.members, key).value, NumberOf(t.members, n + 1, key), classes);
        Some(if DatesOf(t.members).Some? then ReviveDate(v, DatesOf(t.members).value) else v)
  {
    LookupRevived(t.members, n + 1, classes, key);
    RevivedDistinct(t.members, n + 1, classes);
    LookupReviveDates(RevivedProps(t.members, n + 1, classes), DatesOf(t.members), key);
  }

  // ----- the identity test: whose chain is on top of the stack

  /** `value[OBJECTREF_FIELD] != null` */
  function RefIdAt(ps: Props<Value>): Option<Prim> {
    match Lookup<Value>(ps, OBJECTREF_FIELD)
    case Some(Prim(p)) => if p.Null? then None else Some(p)
    case _ => None
  }

  /** The head of a child's chain is found in the parent under its key. */
  ghost predicate IsChild(heap: Heap, ps: Props<Value>, kid: Kid) {
    && kid.chain != []
    && kid.chain[0].value.Ref?
    && kid.chain[0].value.addr in heap
    && Lookup(ps, kid.chain[0].key) == Some(kid.chain[0].value)
    && kid.id == RefIdAt(heap[kid.chain[0].value.addr].props)
  }

  ghost predicate NoChild(ps: Props<Value>, chain: Chain) {
    chain != [] && Lookup(ps, chain[0].key) != Some(chain[0].value)
  }

  function Stacked(kids: seq<Kid>): (cs: seq<Chain>)
    ensures |cs| == |kids| && forall i | 0 <= i < |kids| :: cs[i] == kids[i].chain
  {
    if kids == [] then [] else [kids[0].chain] + Stacked(kids[1..])
  }

  /** The heads on the stack were allocated before container n. */
  ghost predicate HeadsBelow(chains: seq<Chain>, n: nat) {
    forall i | 0 <= i < |chains| ::
      chains[i] != [] && chains[i][0].value.Ref? && chains[i][0].value.addr < 2 * n
  }

  lemma RefIdAtClosed(t: Json, n: nat, classes: set<string>)
    requires t.Node? && WellFormed(t)
    ensures RefIdAt(ClosedObject(t, n, classes).props) == RefId(t)
  {
    LookupClosed(t, n, classes, OBJECTREF_FIELD);
    if Has(t.members, OBJECTREF_FIELD) {
      WellFormedLookup(t.kind, t.members, OBJECTREF_FIELD);
    }
  }

  lemma {:induction false} KidsAreChildren(
    heap: Heap, ps: Props<Value>, kind: Kind, ms: Props<Json>, n: nat, classes: set<string>)
    requires WellFormedMembers(kind, ms) && DistinctKeys(ms) && LaidIn(heap, ms, n, classes)
    requires forall k | Has(ms, k) && Lookup(RevivedProps(ms, n, classes), k).Some?
      && Lookup(RevivedProps(ms, n, classes), k).value.Ref? ::
      Lookup(ps, k) == Lookup(RevivedProps(ms, n, classes), k)
    ensures forall kid | kid in Kids(ms, n, classes) :: IsChild(heap, ps, kid)
    decreases ms
  {
    if ms.Cons? {
      var r := n + Size(ms.val);
      assert Has(ms, ms.key);
      forall k | Has(ms.rest, k) && Lookup(RevivedProps(ms.rest, r, classes), k).Some?
        && Lookup(RevivedProps(ms.rest, r, classes), k).value.Ref?
        ensures Lookup(ps, k) == Lookup(RevivedProps(ms.rest, r, classes), k)
      {
        assert k != ms.key;
        assert Has(ms, k);
        assert Lookup(RevivedProps(ms, n, classes), k) == Lookup(RevivedProps(ms.rest, r, classes), k);
      }
      KidsAreChildren(heap, ps, kind, ms.rest, r, classes);
      if ms.key != DATES_FIELD && ms.val.Node? {
        RefIdAtClosed(ms.val, n, classes);
        assert Lookup(RevivedProps(ms, n, classes), ms.key) == Some(Ref(Address(ms.val, n, classes)));
        assert IsChild(heap, ps, Kid(ChainOf(ms.key, ms.val, n, classes), RefId(ms.val)));
      }
    }
  }

  lemma BaseHasNoChild(t: Json, n: nat, classes: set<string>, base: seq<Chain>)
    requires t.Node? && WellFormed(t) && HeadsBelow(base, n)
    ensures forall i | 0 <= i < |base| :: NoChild(ClosedObject(t, n, classes).props, base[i])
  {
    forall i | 0 <= i < |base| ensures NoChild(ClosedObject(t, n, classes).props, base[i]) {
      LookupClosed(t, n, classes, base[i][0].key);
      LookupRevived(t.members, n + 1, classes, base[i][0].key);
    }
  }

  /** Taking the last child off the stack. */
  lemma PopKid(kids: seq<Kid>, j: nat, parent: nat)
    requires 0 < j <= |kids|
    ensures Stacked(kids[..j]) == Stacked(kids[..j - 1]) + [kids[j - 1].chain]
    ensures Merged(kids[j - 1..]) == (if kids[j - 1].id.None? then kids[j - 1].chain else []) + Merged(kids[j..])
    ensures Found(kids[j - 1..], parent) == Found(kids[j..], parent) +
            (if kids[j - 1].id.Some? && kids[j - 1].chain != []
             then [ObjectReference(parent, kids[j - 1].chain[0].key, kids[j - 1].id.value)] else [])
  {
    assert kids[j - 1..][1..] == kids[j..] && kids[j - 1..][0] == kids[j - 1];
  }

  /** The stack, the chain under construction and the references found. */
  datatype Merge = Merge(stack: seq<Chain>, chain: Chain, refs: seq<ObjectReference>)

  /** One turn of the merging loop: the chain on top of the stack belongs to a child of `parent`. */
  function MergeTop(m: Merge, id: Option<Prim>, parent: nat): Merge
    requires m.stack != [] && m.stack[|m.stack| - 1] != [] && m.chain != []
  {
    var top := m.stack[|m.stack| - 1];
    var stack := m.stack[..|m.stack| - 1];
    match id
    case Some(p) => Merge(stack, m.chain, m.refs + [ObjectReference(parent, top[0].key, p)])
    case None => Merge(stack, m.chain[..1] + top + m.chain[1..], m.refs)
  }

  /** The loop with j children left on the stack. */
  ghost predicate MergedTo(m: Merge, base: seq<Chain>, kids: seq<Kid>, j: nat, m0: Merge, parent: nat)
    requires j <= |kids|
  {
    && m.stack == base + Stacked(kids[..j])
    && m.chain == m0.chain + Merged(kids[j..])
    && m.refs == m0.refs + Found(kids[j..], parent)
  }

  lemma MergeStarts(base: seq<Chain>, kids: seq<Kid>, m0: Merge, parent: nat)
    requires m0.stack == base + Stacked(kids)
    ensures MergedTo(m0, base, kids, |kids|, m0, parent)
  {
    assert kids[..|kids|] == kids && kids[|kids|..] == [];
  }

  lemma MergeEnds(m: Merge, base: seq<Chain>, kids: seq<Kid>, m0: Merge, parent: nat)
    requires MergedTo(m, base, kids, 0, m0, parent)
    ensures m == Merge(base, m0.chain + Merged(kids), m0.refs + Found(kids, parent))
  {
    assert kids[..0] == [] && kids[0..] == kids;
  }

  lemma MergeTops(m: Merge, base: seq<Chain>, kids: seq<Kid>, j: nat, m0: Merge, parent: nat)
    requires 0 < j <= |kids| && MergedTo(m, base, kids, j, m0, parent) && |m0.chain| == 1
    requires kids[j - 1].chain != []
    ensures m.stack != [] && m.stack[|m.stack| - 1] == kids[j - 1].chain && m.chain != []
    ensures MergedTo(MergeTop(m, kids[j - 1].id, parent), base, kids, j - 1, m0, parent)
  {
    PopKid(kids, j, parent);
    StackTop(m.stack, base, Stacked(kids[..j - 1]), kids[j - 1].chain);
    Spliced(m.chain, m0.chain, Merged(kids[j..]), kids[j - 1].chain);
    if kids[j - 1].id.Some? {
      PushedAfter(m0.refs, Found(kids[j..], parent), kids[j - 1], parent);
    }
  }

  lemma StackTop(all: seq<Chain>, base: seq<Chain>, stack: seq<Chain>, top: Chain)
    requires all == base + (stack + [top])
    ensures all != [] && all[|all| - 1] == top && all[..|all| - 1] == base + stack
  {
  }

  /** `chain.splice(1, 0, ...prev)` */
  lemma Spliced(chain: Chain, head: Chain, tail: Chain, prev: Chain)
    requires |head| == 1 && chain == head + tail
    ensures chain[..1] + prev + chain[1..] == head + (prev + tail)
  {
    assert chain[..1] == head && chain[1..] == tail;
  }

  lemma PushedAfter(refs: seq<ObjectReference>, found: seq<ObjectReference>, kid: Kid, parent: nat)
    requires kid.chain != [] && kid.id.Some?
    ensures (refs + found) + [ObjectReference(parent, kid.chain[0].key, kid.id.value)] ==
            refs + (found + [ObjectReference(parent, kid.chain[0].key, kid.id.value)])
  {
  }

  // ----- parse

  /** The heap gained objects for containers n .. n + size only. */
  ghost predicate Grown(before: Heap, after: Heap, n: nat, size: nat) {
    && (forall a | a in before :: a in after && after[a] == before[a])
    && (forall a | a in after :: a in before || 2 * n <= a < 2 * (n + size))
  }

  lemma {:induction false} LaidFrame(before: Heap, after: Heap, t: Json, n: nat, classes: set<string>)
    requires Laid(before, t, n, classes)
    requires forall a | a in before :: a in after && after[a] == before[a]
    ensures Laid(after, t, n, classes)
    decreases t
  {
    if t.Node? {
      LaidInFrame(before, after, t.members, n + 1, classes);
    }
  }

  lemma {:induction false} LaidInFrame(before: Heap, after: Heap, ms: Props<Json>, n: nat, classes: set<string>)
    requires LaidIn(before, ms, n, classes)
    requires forall a | a in before :: a in after && after[a] == before[a]
    ensures LaidIn(after, ms, n, classes)
    decreases ms
  {
    if ms.Cons? {
      if ms.key != DATES_FIELD {
        LaidFrame(before, after, ms.val, n, classes);
      }
      LaidInFrame(before, after, ms.rest, n + Size(ms.val), classes);
    }
  }

  /** The children alone raise no error. */
  predicate KidsInOrder(ms: Props<Json>) {
    match ms
    case Nil => true
    case Cons(_, v, rest) => DatesInOrder(v) && KidsInOrder(rest)
  }

  /** The `dates` variable after one member has been visited. */
  function DatesThen(k: string, t: Json, dates: Option<seq<string>>): Option<seq<string>> {
    if k == DATES_FIELD then (if IsStampArray(t) then Some(Strings(t.members)) else None)
    else if HasDates(t) then None
    else dates
  }

  /** The `dates` variable after the members have been visited. */
  function DatesAfter(ms: Props<Json>, dates: Option<seq<string>>): Option<seq<string>>
    decreases ms
  {
    match ms
    case Nil => dates
    case Cons(k, v, rest) => DatesAfter(rest, DatesThen(k, v, dates))
  }

  lemma {:induction false} DatesAfterNone(ms: Props<Json>, dates: Option<seq<string>>)
    requires !Has(ms, DATES_FIELD)
    ensures DatesAfter(ms, dates) == if HasDatesIn(ms) then None else dates
    decreases ms
  {
    if ms.Cons? {
      DatesAfterNone(ms.rest, DatesThen(ms.key, ms.val, dates));
    }
  }

  /** At the close of an object the variable holds the object's own list or nothing. */
  lemma {:induction false} DatesAtClose(kind: Kind, ms: Props<Json>, dates: Option<seq<string>>)
    requires WellFormedMembers(kind, ms) && DistinctKeys(ms)
    ensures DatesInOrderIn(ms) <==>
      KidsInOrder(ms) && (Has(ms, DATES_FIELD) ==> DatesAfter(ms, dates).Some?)
    ensures Has(ms, DATES_FIELD) && DatesAfter(ms, dates).Some? ==> DatesAfter(ms, dates) == DatesOf(ms)
    decreases ms
  {
    if ms.Cons? {
      var dates' := DatesThen(ms.key, ms.val, dates);
      DatesAtClose(kind, ms.rest, dates');
      if ms.key == DATES_FIELD {
        DatesAfterNone(ms.rest, dates');
      }
    }
  }

  function NameOf(ps: Props<Value>, classes: set<string>): Option<string> {
    Mapped(StringAt(ps, "___class"), StringAt(ps, "___jsonclass"), classes)
  }

  function StringAt(ps: Props<Value>, key: string): Option<string> {
    match Lookup<Value>(ps, key)
    case Some(Prim(Str(s))) => Some(s)
    case _ => None
  }

  lemma NameOfRevived(ms: Props<Json>, n: nat, classes: set<string>)
    ensures NameOf(RevivedProps(ms, n, classes), classes) == ClassOf(ms, classes)
  {
    LookupRevived(ms, n, classes, "___class");
    LookupRevived(ms, n, classes, "___jsonclass");
  }

  lemma NoIndexClass(kind: Kind, ms: Props<Json>, classes: set<string>)
    requires WellFormedMembers(kind, ms) && kind == Arr
    ensures ClassOf(ms, classes) == None && !Has(ms, DATES_FIELD) && !Has(ms, OBJECTREF_FIELD)
  {
    assert !IsDigit("___class"[0]) && !IsDigit("___jsonclass"[0]);
    assert !IsDigit(DATES_FIELD[0]) && !IsDigit(OBJECTREF_FIELD[0]);
    if Has(ms, "___class") { WellFormedLookup(kind, ms, "___class"); }
    if Has(ms, "___jsonclass") { WellFormedLookup(kind, ms, "___jsonclass"); }
    if Has(ms, DATES_FIELD) { WellFormedLookup(kind, ms, DATES_FIELD); }
    if Has(ms, OBJECTREF_FIELD) { WellFormedLookup(kind, ms, OBJECTREF_FIELD); }
  }

  /** The elements of the host's array of strings. */
  function Elements(ps: Props<Value>): seq<string> {
    match ps
    case Nil => []
    case Cons(_, v, rest) => (if v.Prim? && v.p.Str? then [v.p.s] else []) + Elements(rest)
  }

  lemma {:induction false} ElementsOfStamps(ms: Props<Json>, n: nat, classes: set<string>)
    requires StringLeaves(ms)
    ensures Elements(RevivedProps(ms, n, classes)) == Strings(ms)
    ensures SizeIn(ms) == 0 && !HasDatesIn(ms) && KidsInOrder(ms)
    ensures forall stack :: ChainsIn(stack, ms, n, classes) == stack
    ensures forall refs :: ReferencesIn(refs, ms, n, classes) == refs
    ensures forall held :: HoldersIn(held, ms, n, classes) == held
    ensures ClassOf(ms, classes) == None && !Has(ms, DATES_FIELD) && DatesInOrderIn(ms)
    decreases ms
  {
    assert !IsDigit("___class"[0]) && !IsDigit("___jsonclass"[0]) && !IsDigit(DATES_FIELD[0]);
    if ms.Cons? {
      assert IsDigit(ms.key[0]);
      ElementsOfStamps(ms.rest, n, classes);
    }
  }

  /** The variables of `parse` the revivers share. */
  datatype Walk = Walk(
    heap: Heap, datesHolders: seq<nat>, dates: Option<seq<string>>,
    refs: seq<ObjectReference>, chains: seq<Chain>)

  /** The class mapping, and which of the two meta fields the text mentions. */
  datatype Setup = Setup(classes: set<string>, textHasDates: bool, textHasRefs: bool)

  /** Containers are numbered from n on; nothing on the stack or in the heap is numbered so yet. */
  ghost predicate Before(w: Walk, n: nat) {
    HeadsBelow(w.chains, n) && forall a | a in w.heap :: a < 2 * n
  }

  /** What visiting one member does to the shared variables. */
  ghost predicate Visited(s: Setup, w: Walk, w': Walk, k: string, t: Json, n: nat) {
    && Grown(w.heap, w'.heap, n, Size(t))
    && (k != DATES_FIELD ==> Laid(w'.heap, t, n, s.classes))
    && w'.dates == DatesThen(k, t, w.dates)
    && w'.datesHolders ==
       (if s.textHasDates && Numberable(k, t) then Holders(w.datesHolders, t, n, s.classes) else w.datesHolders)
    && w'.refs == (if s.textHasRefs && Numberable(k, t) then References(w.refs, t, n, s.classes) else w.refs)
    && w'.chains == (if s.textHasRefs && Numberable(k, t) then w.chains + [ChainOf(k, t, n, s.classes)] else w.chains)
  }

  ghost predicate VisitedIn(s: Setup, w: Walk, w': Walk, ms: Props<Json>, n: nat) {
    && Grown(w.heap, w'.heap, n, SizeIn(ms))
    && LaidIn(w'.heap, ms, n, s.classes)
    && w'.dates == DatesAfter(ms, w.dates)
    && w'.datesHolders == (if s.textHasDates then HoldersIn(w.datesHolders, ms, n, s.classes) else w.datesHolders)
    && w'.refs == (if s.textHasRefs then ReferencesIn(w.refs, ms, n, s.classes) else w.refs)
    && w'.chains == (if s.textHasRefs then ChainsIn(w.chains, ms, n, s.classes) else w.chains)
  }

  lemma VisitedBefore(s: Setup, w: Walk, w': Walk, k: string, t: Json, n: nat)
    requires Before(w, n) && Visited(s, w, w', k, t, n)
    ensures Before(w', n + Size(t))
  {
  }

  lemma VisitedCons(s: Setup, w: Walk, w1: Walk, w2: Walk, k: string, t: Json, rest: Props<Json>, n: nat)
    requires Visited(s, w, w1, k, t, n) && VisitedIn(s, w1, w2, rest, n + Size(t))
    ensures VisitedIn(s, w, w2, Cons(k, t, rest), n)
  {
    if k != DATES_FIELD {
      LaidFrame(w1.heap, w2.heap, t, n, s.classes);
    }
  }

  /** From the members of a container to the container. */
  lemma VisitedNode(s: Setup, w: Walk, w1: Walk, w2: Walk, k: string, t: Json, n: nat)
    requires t.Node? && k != DATES_FIELD && VisitedIn(s, w, w1, t.members, n + 1)
    requires Laid(w2.heap, t, n, s.classes)
    requires forall a | a in w1.heap :: a in w2.heap && w2.heap[a] == w1.heap[a]
    requires w2.heap.Keys <= w1.heap.Keys + {2 * n, 2 * n + 1}
    requires w2.dates == (if HasDates(t) then None else w.dates)
    requires HasDates(t) ==> s.textHasDates
    requires w2.datesHolders ==
      w1.datesHolders + (if Has(t.members, DATES_FIELD) then [Address(t, n, s.classes)] else [])
    requires s.textHasRefs ==>
      && w2.refs == w1.refs + Found(Kids(t.members, n + 1, s.classes), Address(t, n, s.classes))
      && w2.chains == w.chains + [ChainOf(k, t, n, s.classes)]
    requires !s.textHasRefs ==> w2.refs == w1.refs && w2.chains == w1.chains
    ensures Visited(s, w, w2, k, t, n)
  {
    if !s.textHasDates && Has(t.members, DATES_FIELD) {
      HasDatesMember(t.members);
    }
  }

  /** The strings of a ___dates___ list are read; nothing is numbered. */
  lemma {:induction false} StampArrayVisited(s: Setup, w: Walk, w1: Walk, ms: Props<Json>, n: nat)
    requires StringLeaves(ms) && VisitedIn(s, w, w1, ms, n + 1) && Before(w, n)
    ensures
      var ps := RevivedProps(ms, n + 1, s.classes);
      var t := Node(Arr, ms);
      && DatesInOrder(t)
      && Visited(s, w, w1.(heap := w1.heap[2 * n := Object(Arr, None, ps)], dates := Some(Elements(ps))),
                 DATES_FIELD, t, n)
  {
    ElementsOfStamps(ms, n + 1, s.classes);
  }

  lemma {:induction false} LaidWithout(heap: Heap, ms: Props<Json>, m: nat, classes: set<string>, n: nat)
    requires LaidIn(heap, ms, m, classes) && n < m
    ensures LaidIn(map a | a in heap && a != 2 * n :: heap[a], ms, m, classes)
    decreases ms
  {
    if ms.Cons? {
      var rest := map a | a in heap && a != 2 * n :: heap[a];
      if ms.key != DATES_FIELD && ms.val.Node? {
        LaidWithout(heap, ms.val.members, m + 1, classes, n);
        assert Laid(rest, ms.val, m, classes);
      }
      LaidWithout(heap, ms.rest, m + Size(ms.val), classes, n);
    }
  }

  lemma {:induction false} NoDatesRevived(ps: Props<Value>)
    ensures ReviveDates(ps, None) == ps
  {
    if ps.Cons? { NoDatesRevived(ps.rest); }
  }

  lemma {:induction false} HasDatesMember(ms: Props<Json>)
    requires Has(ms, DATES_FIELD)
    ensures HasDatesIn(ms)
  {
    if ms.key != DATES_FIELD { HasDatesMember(ms.rest); }
  }

  lemma ClosedChildren(heap: Heap, t: Json, n: nat, classes: set<string>)
    requires t.Node? && WellFormed(t) && Laid(heap, t, n, classes)
    ensures forall kid | kid in Kids(t.members, n + 1, classes) ::
      IsChild(heap, ClosedObject(t, n, classes).props, kid)
  {
    forall k | Has(t.members, k) && Lookup(RevivedProps(t.members, n + 1, classes), k).Some?
      && Lookup(RevivedProps(t.members, n + 1, classes), k).value.Ref?
      ensures Lookup(ClosedObject(t, n, classes).props, k) == Lookup(RevivedProps(t.members, n + 1, classes), k)
    {
      LookupClosed(t, n, classes, k);
      LookupRevived(t.members, n + 1, classes, k);
    }
    KidsAreChildren(heap, ClosedObject(t, n, classes).props, t.kind, t.members, n + 1, classes);
  }

  lemma {:induction false} ReviveDatesAppend(ps: Props<Value>, qs: Props<Value>, dates: Option<seq<string>>)
    ensures ReviveDates(Append(ps, qs), dates) == Append(ReviveDates(ps, dates), ReviveDates(qs, dates))
  {
    if ps.Cons? { ReviveDatesAppend(ps.rest, qs, dates); }
  }
}
