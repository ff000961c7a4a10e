/** The end of `parse` in lib/util/json.js: at the root the ___dates___ fields are deleted and every
    reference found is replaced by the container its number stands for. */
module JsonPatch {
  import opened Options
  import opened Sequences
  import opened JsValues
  import opened JsonDecode
  import opened JsonWalk

  // ----- deleting the ___dates___ fields

  /** What `delete datesHolder[DATES_FIELD]` for each holder does to a heap. */
  ghost predicate Cleaned(h: Heap, h': Heap, holders: seq<nat>) {
    && h'.Keys == h.Keys
    && forall a | a in h ::
      h'[a] == if a in holders then h[a].(props := Remove(h[a].props, DATES_FIELD)) else h[a]
  }

  function CleanObject(t: Json, n: nat, classes: set<string>): Object
    requires t.Node?
  {
    var o := ClosedObject(t, n, classes);
    o.(props := Remove(o.props, DATES_FIELD))
  }

  ghost predicate Clean(heap: Heap, t: Json, n: nat, classes: set<string>)
    decreases t
  {
    t.Node? ==>
      && Address(t, n, classes) in heap
      && heap[Address(t, n, classes)] == CleanObject(t, n, classes)
      && CleanIn(heap, t.members, n + 1, classes)
  }

  ghost predicate CleanIn(heap: Heap, ms: Props<Json>, n: nat, classes: set<string>)
    decreases ms
  {
    match ms
    case Nil => true
    case Cons(k, v, rest) =>
      && (k != DATES_FIELD ==> Clean(heap, v, n, classes))
      && CleanIn(heap, rest, n + Size(v), classes)
  }

  /** Every container with a ___dates___ field is among the holders. */
  ghost predicate Covered(holders: seq<nat>, t: Json, n: nat, classes: set<string>)
    decreases t
  {
    t.Node? ==>
      && (Has(t.members, DATES_FIELD) ==> Address(t, n, classes) in holders)
      && CoveredIn(holders, t.members, n + 1, classes)
  }

  ghost predicate CoveredIn(holders: seq<nat>, ms: Props<Json>, n: nat, classes: set<string>)
    decreases ms
  {
    match ms
    case Nil => true
    case Cons(k, v, rest) =>
      && (k != DATES_FIELD ==> Covered(holders, v, n, classes))
      && CoveredIn(holders, rest, n + Size(v), classes)
  }

  lemma {:induction false} HoldersCover(
    holders: seq<nat>, held: seq<nat>, t: Json, n: nat, classes: set<string>)
    requires t.Node? && forall a | a in Holders(held, t, n, classes) :: a in holders
    ensures Covered(holders, t, n, classes) && forall a | a in held :: a in holders
    decreases t, 1
  {
    HoldersInCover(holders, held, t.members, n + 1, classes);
  }

  lemma {:induction false} HoldersInCover(
    holders: seq<nat>, held: seq<nat>, ms: Props<Json>, n: nat, classes: set<string>)
    requires forall a | a in HoldersIn(held, ms, n, classes) :: a in holders
    ensures CoveredIn(holders, ms, n, classes) && forall a | a in held :: a in holders
    decreases ms, 0
  {
    if ms.Cons? {
      var held' := if Numberable(ms.key, ms.val) then Holders(held, ms.val, n, classes) else held;
      HoldersInCover(holders, held', ms.rest, n + Size(ms.val), classes);
      if Numberable(ms.key, ms.val) {
        HoldersCover(holders, held, ms.val, n, classes);
      }
    }
  }

  lemma {:induction false} NoHolders(t: Json, n: nat, classes: set<string>)
    requires !HasDates(t)
    ensures Covered([], t, n, classes)
    decreases t, 1
  {
    if t.Node? {
      NoHoldersIn(t.members, n + 1, classes);
      if Has(t.members, DATES_FIELD) { HasDatesMember(t.members); }
    }
  }

  lemma {:induction false} NoHoldersIn(ms: Props<Json>, n: nat, classes: set<string>)
    requires !HasDatesIn(ms)
    ensures CoveredIn([], ms, n, classes)
    decreases ms, 0
  {
    if ms.Cons? {
      NoHolders(ms.val, n, classes);
      NoHoldersIn(ms.rest, n + Size(ms.val), classes);
    }
  }

  /** The holders are objects of the heap. */
  ghost predicate HoldersStand(heap: Heap, holders: seq<nat>) {
    forall a | a in holders :: a in heap && DistinctKeys(heap[a].props)
  }

  lemma {:induction false} HoldersAreLaid(heap: Heap, held: seq<nat>, t: Json, n: nat, classes: set<string>)
    requires t.Node? && WellFormed(t) && Laid(heap, t, n, classes) && HoldersStand(heap, held)
    ensures HoldersStand(heap, Holders(held, t, n, classes))
    decreases t, 1
  {
    HoldersInAreLaid(heap, held, t.kind, t.members, n + 1, classes);
    LookupClosed(t, n, classes, DATES_FIELD);
  }

  lemma {:induction false} HoldersInAreLaid(
    heap: Heap, held: seq<nat>, kind: Kind, ms: Props<Json>, n: nat, classes: set<string>)
    requires WellFormedMembers(kind, ms) && LaidIn(heap, ms, n, classes) && HoldersStand(heap, held)
    ensures HoldersStand(heap, HoldersIn(held, ms, n, classes))
    decreases ms, 0
  {
    hide Laid, Holders, HoldersStand;
    if ms.Cons? {
      if Numberable(ms.key, ms.val) {
        HoldersAreLaid(heap, held, ms.val, n, classes);
        HoldersInAreLaid(heap, Holders(held, ms.val, n, classes), kind, ms.rest, n + Size(ms.val), classes);
      } else {
        HoldersInAreLaid(heap, held, kind, ms.rest, n + Size(ms.val), classes);
      }
    }
  }

  lemma {:induction false} CleanedIsClean(
    h: Heap, h': Heap, holders: seq<nat>, t: Json, n: nat, classes: set<string>)
    requires WellFormed(t) && Laid(h, t, n, classes)
    requires Cleaned(h, h', holders) && Covered(holders, t, n, classes)
    ensures Clean(h', t, n, classes)
    decreases t, 1
  {
    if t.Node? {
      CleanedIsCleanIn(h, h', holders, t.kind, t.members, n + 1, classes);
      LookupClosed(t, n, classes, DATES_FIELD);
      LookupRemove(ClosedObject(t, n, classes).props, DATES_FIELD, DATES_FIELD);
    }
  }

  lemma {:induction false} CleanedIsCleanIn(
    h: Heap, h': Heap, holders: seq<nat>, kind: Kind, ms: Props<Json>, n: nat, classes: set<string>)
    requires WellFormedMembers(kind, ms) && LaidIn(h, ms, n, classes)
    requires Cleaned(h, h', holders) && CoveredIn(holders, ms, n, classes)
    ensures CleanIn(h', ms, n, classes)
    decreases ms, 0
  {
    if ms.Cons? {
      if ms.key != DATES_FIELD {
        CleanedIsClean(h, h', holders, ms.val, n, classes);
      }
      CleanedIsCleanIn(h, h', holders, kind, ms.rest, n + Size(ms.val), classes);
    }
  }

  /** The root still sees its children once the fields are deleted. */
  lemma ChildrenAfterCleaning(h: Heap, h': Heap, holders: seq<nat>, a: nat, kid: Kid)
    requires a in h && DistinctKeys(h[a].props) && IsChild(h, h[a].props, kid)
    requires Cleaned(h, h', holders) && HoldersStand(h, holders)
    requires kid.chain[0].key != DATES_FIELD
    ensures IsChild(h', h'[a].props, kid)
  {
    var b := kid.chain[0].value.addr;
    LookupRemove(h[a].props, DATES_FIELD, kid.chain[0].key);
    if b in holders {
      LookupRemove(h[b].props, DATES_FIELD, OBJECTREF_FIELD);
    }
  }

  lemma {:induction false} KidsAreNotDates(ms: Props<Json>, n: nat, classes: set<string>)
    ensures forall kid | kid in Kids(ms, n, classes) :: kid.chain != [] && kid.chain[0].key != DATES_FIELD
    decreases ms
  {
    if ms.Cons? {
      KidsAreNotDates(ms.rest, n + Size(ms.val), classes);
    }
  }

  // ----- which references were found

  /** `refs` holds the references among the members of each container, and no others. */
  ghost predicate Exact(refs: seq<ObjectReference>, t: Json, n: nat, classes: set<string>)
    decreases t
  {
    t.Node? ==>
      && (forall r | r in refs && r.parent == Address(t, n, classes) ::
            Has(t.members, r.key) && r.key != DATES_FIELD && RefId(Lookup(t.members, r.key).value) == Some(r.id))
      && (forall k | Has(t.members, k) && k != DATES_FIELD && RefId(Lookup(t.members, k).value).Some? ::
            ObjectReference(Address(t, n, classes), k, RefId(Lookup(t.members, k).value).value) in refs)
      && ExactIn(refs, t.members, n + 1, classes)
  }

  ghost predicate ExactIn(refs: seq<ObjectReference>, ms: Props<Json>, n: nat, classes: set<string>)
    decreases ms
  {
    match ms
    case Nil => true
    case Cons(k, v, rest) =>
      && (k != DATES_FIELD ==> Exact(refs, v, n, classes))
      && ExactIn(refs, rest, n + Size(v), classes)
  }

  ghost predicate SameBetween(refs: seq<ObjectReference>, refs': seq<ObjectReference>, n: nat, size: nat) {
    forall r: ObjectReference | 2 * n <= r.parent < 2 * (n + size) :: r in refs <==> r in refs'
  }

  lemma {:induction false} ExactFrame(
    refs: seq<ObjectReference>, refs': seq<ObjectReference>, t: Json, n: nat, classes: set<string>)
    requires Exact(refs, t, n, classes) && SameBetween(refs, refs', n, Size(t))
    ensures Exact(refs', t, n, classes)
    decreases t, 1
  {
    if t.Node? {
      ExactInFrame(refs, refs', t.members, n + 1, classes);
    }
  }

  lemma {:induction false} ExactInFrame(
    refs: seq<ObjectReference>, refs': seq<ObjectReference>, ms: Props<Json>, n: nat, classes: set<string>)
    requires ExactIn(refs, ms, n, classes) && SameBetween(refs, refs', n, SizeIn(ms))
    ensures ExactIn(refs', ms, n, classes)
    decreases ms, 0
  {
    if ms.Cons? {
      if ms.key != DATES_FIELD {
        ExactFrame(refs, refs', ms.val, n, classes);
      }
      ExactInFrame(refs, refs', ms.rest, n + Size(ms.val), classes);
    }
  }

  /** Membership in Found: one entry for each member that is a reference. */
  lemma {:induction false} FoundMembers(kind: Kind, ms: Props<Json>, n: nat, classes: set<string>, parent: nat)
    requires WellFormedMembers(kind, ms) && DistinctKeys(ms)
    ensures forall r | r in Found(Kids(ms, n, classes), parent) ::
      r.parent == parent && Has(ms, r.key) && r.key != DATES_FIELD && RefId(Lookup(ms, r.key).value) == Some(r.id)
    ensures forall k | Has(ms, k) && k != DATES_FIELD && RefId(Lookup(ms, k).value).Some? ::
      ObjectReference(parent, k, RefId(Lookup(ms, k).value).value) in Found(Kids(ms, n, classes), parent)
    decreases ms
  {
    if ms.Cons? {
      var r := n + Size(ms.val);
      var kids := Kids(ms.rest, r, classes);
      FoundMembers(kind, ms.rest, r, classes, parent);
      forall k | Has(ms.rest, k) ensures k != ms.key && Lookup(ms, k) == Lookup(ms.rest, k) {}
      if Numberable(ms.key, ms.val) {
        var kid := Kid(ChainOf(ms.key, ms.val, n, classes), RefId(ms.val));
        assert ([kid] + kids)[1..] == kids;
      } else {
        assert RefId(ms.val).None? || ms.key == DATES_FIELD;
      }
    }
  }

  ghost predicate ParentsBelow(refs: seq<ObjectReference>, n: nat) {
    forall r | r in refs :: r.parent < 2 * n
  }

  lemma {:induction false} ReferencesExact(
    refs: seq<ObjectReference>, t: Json, n: nat, classes: set<string>)
    requires t.Node? && WellFormed(t) && ParentsBelow(refs, n)
    ensures Exact(References(refs, t, n, classes), t, n, classes)
    ensures ParentsBelow(References(refs, t, n, classes), n + Size(t))
    ensures forall r: ObjectReference | r.parent < 2 * n :: r in refs <==> r in References(refs, t, n, classes)
    decreases t, 1
  {
    var ms := t.members;
    var a := Address(t, n, classes);
    ReferencesInExact(refs, t.kind, ms, n + 1, classes);
    FoundMembers(t.kind, ms, n + 1, classes, a);
    var inner := ReferencesIn(refs, ms, n + 1, classes);
    var all := References(refs, t, n, classes);
    assert forall r :: r in all <==> r in inner || r in Found(Kids(ms, n + 1, classes), a);
    ExactInFrame(inner, all, ms, n + 1, classes);
    forall r | r in inner && r.parent == a ensures r in refs {}
  }

  lemma {:induction false} ReferencesInExact(
    refs: seq<ObjectReference>, kind: Kind, ms: Props<Json>, n: nat, classes: set<string>)
    requires WellFormedMembers(kind, ms) && n > 0
    requires forall r | r in refs :: r.parent < 2 * n
    ensures ExactIn(ReferencesIn(refs, ms, n, classes), ms, n, classes)
    ensures ParentsBelow(ReferencesIn(refs, ms, n, classes), n + SizeIn(ms))
    ensures forall r: ObjectReference | r.parent < 2 * n :: r in refs <==> r in ReferencesIn(refs, ms, n, classes)
    decreases ms, 0
  {
    if ms.Cons? {
      var refs' := if Numberable(ms.key, ms.val) then References(refs, ms.val, n, classes) else refs;
      if Numberable(ms.key, ms.val) {
        ReferencesExact(refs, ms.val, n, classes);
      }
      ReferencesInExact(refs', kind, ms.rest, n + Size(ms.val), classes);
      if Numberable(ms.key, ms.val) {
        ExactFrame(refs', ReferencesIn(refs, ms, n, classes), ms.val, n, classes);
      }
    }
  }

  lemma {:induction false} NoReferences(t: Json, n: nat, classes: set<string>, total: nat)
    requires t.Node? && !HasReferences(t.members)
    ensures Exact([], t, n, classes) && RefsInRange(t.members, total)
    decreases t, 1
  {
    NoReferencesIn(t.members, n + 1, classes, total);
  }

  lemma {:induction false} NoReferencesIn(ms: Props<Json>, n: nat, classes: set<string>, total: nat)
    requires !HasReferences(ms)
    ensures ExactIn([], ms, n, classes) && RefsInRange(ms, total)
    ensures forall k | Has(ms, k) :: RefId(Lookup(ms, k).value).None?
    decreases ms, 0
  {
    if ms.Cons? {
      if ms.val.Node? {
        NoReferences(ms.val, n, classes, total);
      }
      NoReferencesIn(ms.rest, n + Size(ms.val), classes, total);
    }
  }

  // ----- their ids

  lemma {:induction false} RangeToFound(
    refs: seq<ObjectReference>, t: Json, n: nat, classes: set<string>, total: nat)
    requires t.Node? && WellFormed(t) && RefsInRange(t.members, total)
    ensures forall r | r in References(refs, t, n, classes) :: r in refs || InRange(r.id, total)
    decreases t, 1
  {
    RangeToFoundIn(refs, t.kind, t.members, n + 1, classes, total);
    FoundMembers(t.kind, t.members, n + 1, classes, Address(t, n, classes));
    forall r | r in Found(Kids(t.members, n + 1, classes), Address(t, n, classes)) ensures InRange(r.id, total) {
      RangeLookup(t.members, total, r.key);
    }
  }

  lemma {:induction false} RangeToFoundIn(
    refs: seq<ObjectReference>, kind: Kind, ms: Props<Json>, n: nat, classes: set<string>, total: nat)
    requires WellFormedMembers(kind, ms) && RefsInRange(ms, total)
    ensures forall r | r in ReferencesIn(refs, ms, n, classes) :: r in refs || InRange(r.id, total)
    decreases ms, 0
  {
    if ms.Cons? {
      var refs' := if Numberable(ms.key, ms.val) then References(refs, ms.val, n, classes) else refs;
      if Numberable(ms.key, ms.val) {
        RangeToFound(refs, ms.val, n, classes, total);
      }
      RangeToFoundIn(refs', kind, ms.rest, n + Size(ms.val), classes, total);
    }
  }

  lemma {:induction false} RangeLookup(ms: Props<Json>, total: nat, key: string)
    requires RefsInRange(ms, total) && Has(ms, key) && key != DATES_FIELD
    ensures RefId(Lookup(ms, key).value).Some? ==> InRange(RefId(Lookup(ms, key).value).value, total)
  {
    if ms.key != key { RangeLookup(ms.rest, total, key); }
  }

  lemma {:induction false} FoundToRange(
    refs: seq<ObjectReference>, t: Json, n: nat, classes: set<string>, total: nat)
    requires t.Node? && WellFormed(t) && Exact(refs, t, n, classes)
    requires forall r | r in refs :: InRange(r.id, total)
    ensures RefsInRange(t.members, total)
    decreases t, 1
  {
    forall k | Has(t.members, k) && k != DATES_FIELD && RefId(Lookup(t.members, k).value).Some?
      ensures InRange(RefId(Lookup(t.members, k).value).value, total)
    {
      var r := ObjectReference(Address(t, n, classes), k, RefId(Lookup(t.members, k).value).value);
      assert r in refs;
    }
    FoundToRangeIn(refs, t.kind, t.members, n + 1, classes, total);
  }

  lemma {:induction false} FoundToRangeIn(
    refs: seq<ObjectReference>, kind: Kind, ms: Props<Json>, n: nat, classes: set<string>, total: nat)
    requires WellFormedMembers(kind, ms) && DistinctKeys(ms) && ExactIn(refs, ms, n, classes)
    requires forall r | r in refs :: InRange(r.id, total)
    requires forall k | Has(ms, k) && k != DATES_FIELD && RefId(Lookup(ms, k).value).Some? ::
      InRange(RefId(Lookup(ms, k).value).value, total)
    ensures RefsInRange(ms, total)
    decreases ms, 0
  {
    if ms.Cons? {
      assert Has(ms, ms.key);
      forall k | Has(ms.rest, k) ensures Has(ms, k) && Lookup(ms, k) == Lookup(ms.rest, k) {}
      if Numberable(ms.key, ms.val) {
        FoundToRange(refs, ms.val, n, classes, total);
      }
      FoundToRangeIn(refs, kind, ms.rest, n + Size(ms.val), classes, total);
    }
  }

  // ----- replacing references

  /** `ref.parent[ref.key] = chains[0][ref.id].value` */
  function Replace(heap: Heap, r: ObjectReference, chain: Chain): Heap
    requires r.parent in heap && InRange(r.id, |chain|)
  {
    var o := heap[r.parent];
    heap[r.parent := o.(props := Assign(o.props, r.key, chain[Index(r.id, |chain|)].value))]
  }

  ghost predicate Replaceable(heap: Heap, refs: seq<ObjectReference>) {
    forall r | r in refs :: r.parent in heap && DistinctKeys(heap[r.parent].props)
  }

  /** The heap after the references in `refs` have been replaced. */
  ghost predicate Replaced(h: Heap, h': Heap, refs: seq<ObjectReference>, chain: Chain)
    requires forall r | r in refs :: InRange(r.id, |chain|)
  {
    && h'.Keys == h.Keys
    && (forall a | a in h ::
          h'[a] == h[a].(props := h'[a].props) && Keys(h'[a].props) == Keys(h[a].props))
    && (forall a | a in h && DistinctKeys(h[a].props) :: DistinctKeys(h'[a].props))
    && (forall a, k | a in h && (forall r | r in refs :: r.parent != a || r.key != k) ::
          Lookup(h'[a].props, k) == Lookup(h[a].props, k))
    && (forall r | r in refs && r.parent in h && Has(h[r.parent].props, r.key)
                   && (forall q | q in refs && q.parent == r.parent && q.key == r.key :: q.id == r.id) ::
          Lookup(h'[r.parent].props, r.key) == Some(chain[Index(r.id, |chain|)].value))
  }

  lemma ReplacedOne(h: Heap, h1: Heap, refs: seq<ObjectReference>, r: ObjectReference, chain: Chain)
    requires r.parent in h && InRange(r.id, |chain|)
    requires forall q | q in refs :: InRange(q.id, |chain|)
    requires Replaced(h, h1, refs, chain)
    ensures forall q | q in refs + [r] :: InRange(q.id, |chain|)
    ensures Replaced(h, Replace(h1, r, chain), refs + [r], chain)
  {
    var all := refs + [r];
    var h2 := Replace(h1, r, chain);
    var v := chain[Index(r.id, |chain|)].value;
    forall k ensures Lookup(h2[r.parent].props, k) ==
      if k == r.key && Has(h1[r.parent].props, k) then Some(v) else Lookup(h1[r.parent].props, k)
    {
      LookupAssign(h1[r.parent].props, r.key, v, k);
    }
    LookupAssign(h1[r.parent].props, r.key, v, r.key);
    forall a, k | a in h && (forall q | q in all :: q.parent != a || q.key != k)
      ensures Lookup(h2[a].props, k) == Lookup(h[a].props, k)
    {
      assert r in all;
      forall q | q in refs ensures q.parent != a || q.key != k { assert q in all; }
    }
    forall q | q in all && q.parent in h && Has(h[q.parent].props, q.key)
               && (forall p | p in all && p.parent == q.parent && p.key == q.key :: p.id == q.id)
      ensures Lookup(h2[q.parent].props, q.key) == Some(chain[Index(q.id, |chain|)].value)
    {
      HasIsKey(h[q.parent].props, q.key);
      HasIsKey(h1[q.parent].props, q.key);
      assert r in all;
      if q.parent == r.parent && q.key == r.key {
        assert q.id == r.id;
      } else {
        assert q in refs;
        forall p | p in refs && p.parent == q.parent && p.key == q.key ensures p.id == q.id { assert p in all; }
      }
    }
  }

  lemma {:induction false} ReferencesReplaceable(
    heap: Heap, refs: seq<ObjectReference>, t: Json, n: nat, classes: set<string>)
    requires t.Node? && WellFormed(t) && Clean(heap, t, n, classes) && Replaceable(heap, refs)
    ensures Replaceable(heap, References(refs, t, n, classes))
    decreases t, 1
  {
    ReferencesInReplaceable(heap, refs, t.kind, t.members, n + 1, classes);
    LookupClosed(t, n, classes, DATES_FIELD);
    LookupRemove(ClosedObject(t, n, classes).props, DATES_FIELD, DATES_FIELD);
    FoundMembers(t.kind, t.members, n + 1, classes, Address(t, n, classes));
  }

  lemma {:induction false} ReferencesInReplaceable(
    heap: Heap, refs: seq<ObjectReference>, kind: Kind, ms: Props<Json>, n: nat, classes: set<string>)
    requires WellFormedMembers(kind, ms) && CleanIn(heap, ms, n, classes) && Replaceable(heap, refs)
    ensures Replaceable(heap, ReferencesIn(refs, ms, n, classes))
    decreases ms, 0
  {
    if ms.Cons? {
      var refs' := if Numberable(ms.key, ms.val) then References(refs, ms.val, n, classes) else refs;
      if Numberable(ms.key, ms.val) {
        ReferencesReplaceable(heap, refs, ms.val, n, classes);
      }
      ReferencesInReplaceable(heap, refs', kind, ms.rest, n + Size(ms.val), classes);
    }
  }

  // ----- the finished objects

  /** The value of a member in the finished graph. */
  function FinalValue(k: string, t: Json, n: nat, classes: set<string>, addrs: seq<nat>): Value {
    match RefId(t)
    case Some(id) =>
      if k != DATES_FIELD && InRange(id, |addrs|) then Ref(addrs[Index(id, |addrs|)])
      else Revived(k, t, n, classes)
    case None => Revived(k, t, n, classes)
  }

  function FinalProps(ms: Props<Json>, n: nat, classes: set<string>, addrs: seq<nat>): Props<Value> {
    match ms
    case Nil => Nil
    case Cons(k, v, rest) =>
      Cons(k, FinalValue(k, v, n, classes, addrs), FinalProps(rest, n + Size(v), classes, addrs))
  }

  function FinalObject(t: Json, n: nat, classes: set<string>, addrs: seq<nat>): Object
    requires t.Node?
  {
    Object(t.kind, ClassOf(t.members, classes),
           Remove(ReviveDates(FinalProps(t.members, n + 1, classes, addrs), DatesOf(t.members)), DATES_FIELD))
  }

  ghost predicate Final(heap: Heap, t: Json, n: nat, classes: set<string>, addrs: seq<nat>)
    decreases t
  {
    t.Node? ==>
      && Address(t, n, classes) in heap
      && heap[Address(t, n, classes)] == FinalObject(t, n, classes, addrs)
      && FinalIn(heap, t.members, n + 1, classes, addrs)
  }

  ghost predicate FinalIn(heap: Heap, ms: Props<Json>, n: nat, classes: set<string>, addrs: seq<nat>)
    decreases ms
  {
    match ms
    case Nil => true
    case Cons(k, v, rest) =>
      && (k != DATES_FIELD ==> Final(heap, v, n, classes, addrs))
      && FinalIn(heap, rest, n + Size(v), classes, addrs)
  }

  lemma {:induction false} LookupFinal(
    ms: Props<Json>, n: nat, classes: set<string>, addrs: seq<nat>, key: string)
    ensures Lookup(FinalProps(ms, n, classes, addrs), key) ==
            if Has(ms, key)
            then Some(FinalValue(key, Lookup(ms, key).value, NumberOf(ms, n, key), classes, addrs))
            else None
    ensures Keys(FinalProps(ms, n, classes, addrs)) == Keys(ms) == Keys(RevivedProps(ms, n, classes))
    ensures DistinctKeys(ms) ==> DistinctKeys(FinalProps(ms, n, classes, addrs))
  {
    if ms.Cons? {
      LookupFinal(ms.rest, n + Size(ms.val), classes, addrs, key);
      LookupFinal(ms.rest, n + Size(ms.val), classes, addrs, ms.key);
    }
  }

  lemma {:induction false} RemoveKeys<V, W>(ps: Props<V>, qs: Props<W>, key: string)
    requires Keys(ps) == Keys(qs)
    ensures Keys(Remove(ps, key)) == Keys(Remove(qs, key))
  {
    if ps.Cons? {
      assert qs.Cons? by { assert Keys(qs) != []; }
      assert Keys(ps)[0] == ps.key && Keys(qs)[0] == qs.key;
      assert Keys(ps)[1..] == Keys(ps.rest) && Keys(qs)[1..] == Keys(qs.rest);
      if ps.key != key {
        RemoveKeys(ps.rest, qs.rest, key);
      }
    } else {
      assert qs.Nil? by { assert Keys(qs) == []; }
    }
  }

  function Addresses(chain: Chain): (s: seq<nat>)
    ensures |s| == |chain|
    ensures forall i | 0 <= i < |chain| :: s[i] == if chain[i].value.Ref? then chain[i].value.addr else 0
  {
    if chain == [] then []
    else [if chain[0].value.Ref? then chain[0].value.addr else 0] + Addresses(chain[1..])
  }

  /** One container: the properties after cleaning and replacing are the final ones. */
  lemma ContainerIsFinal(
    h: Heap, h': Heap, refs: seq<ObjectReference>, chain: Chain, t: Json, n: nat, classes: set<string>)
    requires t.Node? && WellFormed(t) && Clean(h, t, n, classes) && Exact(refs, t, n, classes)
    requires forall r | r in refs :: InRange(r.id, |chain|)
    requires forall i | 0 <= i < |chain| :: chain[i].value.Ref?
    requires Replaced(h, h', refs, chain)
    ensures h'[Address(t, n, classes)] == FinalObject(t, n, classes, Addresses(chain))
  {
    var a := Address(t, n, classes);
    var ms := t.members;
    var addrs := Addresses(chain);
    var dates := DatesOf(ms);
    var final := ReviveDates(FinalProps(ms, n + 1, classes, addrs), dates);
    var closed := ClosedObject(t, n, classes).props;
    LookupClosed(t, n, classes, DATES_FIELD);
    LookupRemove(closed, DATES_FIELD, DATES_FIELD);
    LookupFinal(ms, n + 1, classes, addrs, DATES_FIELD);
    LookupReviveDates(FinalProps(ms, n + 1, classes, addrs), dates, DATES_FIELD);
    LookupReviveDates(RevivedProps(ms, n + 1, classes), dates, DATES_FIELD);
    RemoveKeys(closed, final, DATES_FIELD);
    LookupRemove(final, DATES_FIELD, DATES_FIELD);
    forall k | Has(h'[a].props, k)
      ensures Lookup(h'[a].props, k) == Lookup(Remove(final, DATES_FIELD), k)
    {
      HasIsKey(h'[a].props, k);
      HasIsKey(h[a].props, k);
      LookupRemove(closed, DATES_FIELD, k);
      LookupRemove(final, DATES_FIELD, k);
      LookupClosed(t, n, classes, k);
      LookupFinal(ms, n + 1, classes, addrs, k);
      LookupReviveDates(FinalProps(ms, n + 1, classes, addrs), dates, k);
      FinalMember(h, h', refs, chain, t, n, classes, k);
    }
    PropsExtensional(h'[a].props, Remove(final, DATES_FIELD));
  }

  lemma FinalMember(
    h: Heap, h': Heap, refs: seq<ObjectReference>, chain: Chain, t: Json, n: nat, classes: set<string>, k: string)
    requires t.Node? && WellFormed(t) && Clean(h, t, n, classes) && Exact(refs, t, n, classes)
    requires forall r | r in refs :: InRange(r.id, |chain|)
    requires forall i | 0 <= i < |chain| :: chain[i].value.Ref?
    requires Replaced(h, h', refs, chain)
    requires Has(t.members, k) && k != DATES_FIELD && Has(h[Address(t, n, classes)].props, k)
    ensures
      var id := RefId(Lookup(t.members, k).value);
      var a := Address(t, n, classes);
      Lookup(h'[a].props, k) ==
      if id.Some? then Some(Ref(Addresses(chain)[Index(id.value, |chain|)])) else Lookup(h[a].props, k)
  {
    var a := Address(t, n, classes);
    var id := RefId(Lookup(t.members, k).value);
    if id.Some? {
      var r := ObjectReference(a, k, id.value);
      assert r in refs;
      assert Lookup(h'[a].props, k) == Some(chain[Index(r.id, |chain|)].value);
    }
  }

  lemma {:induction false} EverythingIsFinal(
    h: Heap, h': Heap, refs: seq<ObjectReference>, chain: Chain, t: Json, n: nat, classes: set<string>)
    requires WellFormed(t) && Clean(h, t, n, classes) && Exact(refs, t, n, classes)
    requires forall r | r in refs :: InRange(r.id, |chain|)
    requires forall i | 0 <= i < |chain| :: chain[i].value.Ref?
    requires Replaced(h, h', refs, chain)
    ensures Final(h', t, n, classes, Addresses(chain))
    decreases t, 1
  {
    if t.Node? {
      ContainerIsFinal(h, h', refs, chain, t, n, classes);
      EverythingIsFinalIn(h, h', refs, chain, t.kind, t.members, n + 1, classes);
    }
  }

  lemma {:induction false} EverythingIsFinalIn(
    h: Heap, h': Heap, refs: seq<ObjectReference>, chain: Chain,
    kind: Kind, ms: Props<Json>, n: nat, classes: set<string>)
    requires WellFormedMembers(kind, ms) && CleanIn(h, ms, n, classes) && ExactIn(refs, ms, n, classes)
    requires forall r | r in refs :: InRange(r.id, |chain|)
    requires forall i | 0 <= i < |chain| :: chain[i].value.Ref?
    requires Replaced(h, h', refs, chain)
    ensures FinalIn(h', ms, n, classes, Addresses(chain))
    decreases ms, 0
  {
    if ms.Cons? {
      if ms.key != DATES_FIELD {
        EverythingIsFinal(h, h', refs, chain, ms.val, n, classes);
      }
      EverythingIsFinalIn(h, h', refs, chain, kind, ms.rest, n + Size(ms.val), classes);
    }
  }

  // ----- the chain is the preorder numbering

  /** The addresses of the numbered containers among the members, in preorder. */
  function Numbered(ms: Props<Json>, n: nat, classes: set<string>): (s: seq<nat>)
    ensures |s| == CountIn(ms)
    decreases ms, 0
  {
    match ms
    case Nil => []
    case Cons(k, v, rest) =>
      var more := Numbered(rest, n + Size(v), classes);
      if Count(k, v) == 0 then more else NumberedFrom(v, n, classes) + more
  }

  function NumberedFrom(t: Json, n: nat, classes: set<string>): (s: seq<nat>)
    requires t.Node?
    ensures |s| == 1 + CountIn(t.members)
    decreases t, 1
  {
    [Address(t, n, classes)] + Numbered(t.members, n + 1, classes)
  }

  lemma AddressesAppend(c: Chain, d: Chain)
    ensures Addresses(c + d) == Addresses(c) + Addresses(d)
  {
  }

  lemma {:induction false} ChainIsPreorder(k: string, t: Json, n: nat, classes: set<string>)
    requires t.Node? && WellFormed(t)
    ensures Addresses(ChainOf(k, t, n, classes)) == NumberedFrom(t, n, classes)
    ensures forall i | 0 <= i < |ChainOf(k, t, n, classes)| :: ChainOf(k, t, n, classes)[i].value.Ref?
    decreases t, 1
  {
    MergedIsPreorder(t.kind, t.members, n + 1, classes);
    AddressesAppend([Entry(k, Ref(Address(t, n, classes)))], Merged(Kids(t.members, n + 1, classes)));
  }

  lemma NothingMerged(n: nat, classes: set<string>)
    ensures Merged(Kids(Nil, n, classes)) == [] && Addresses([]) == [] && Numbered(Nil, n, classes) == []
  {
  }

  lemma NumberedCons(k: string, t: Json, rest: Props<Json>, n: nat, classes: set<string>)
    ensures var more := Numbered(rest, n + Size(t), classes);
      Numbered(Cons(k, t, rest), n, classes) == if Count(k, t) == 0 then more else NumberedFrom(t, n, classes) + more
  {
  }

  /** One member more: its chain comes first if it is a container to number. */
  lemma MergedCons(k: string, t: Json, rest: Props<Json>, n: nat, classes: set<string>)
    requires WellFormed(t) && k != ""
    ensures var more := Merged(Kids(rest, n + Size(t), classes));
      Merged(Kids(Cons(k, t, rest), n, classes)) == if Count(k, t) == 0 then more else ChainOf(k, t, n, classes) + more
  {
    NumberedOrNot(k, t);
    hide ChainOf, Size, Count, RefId, IsReference, Merged, Numberable;
    var kids := Kids(rest, n + Size(t), classes);
    if Numberable(k, t) {
      MergedFront(Kid(ChainOf(k, t, n, classes), RefId(t)), kids);
    }
  }

  lemma MergedFront(kid: Kid, kids: seq<Kid>)
    ensures Merged([kid] + kids) == (if kid.id.None? then kid.chain else []) + Merged(kids)
  {
    assert ([kid] + kids)[1..] == kids;
  }

  /** What is no container to number is no chain on the stack, or the chain of a reference. */
  lemma NumberedOrNot(k: string, t: Json)
    requires WellFormed(t) && k != ""
    ensures Count(k, t) != 0 <==> Numberable(k, t) && RefId(t).None?
    ensures Numberable(k, t) ==> t.Node?
  {
    if t.Node? && IsReference(t) {
      WellFormedLookup(t.kind, t.members, OBJECTREF_FIELD);
    }
  }

  lemma {:induction false} MergedIsPreorder(kind: Kind, ms: Props<Json>, n: nat, classes: set<string>)
    requires WellFormedMembers(kind, ms)
    ensures Addresses(Merged(Kids(ms, n, classes))) == Numbered(ms, n, classes)
    ensures forall i | 0 <= i < |Merged(Kids(ms, n, classes))| :: Merged(Kids(ms, n, classes))[i].value.Ref?
    decreases ms, 0
  {
    hide ChainOf, ClassOf, Addresses, Numbered, NumberedFrom, Merged, Kids, Size, Count;
    if ms.Cons? {
      var r := n + Size(ms.val);
      MergedIsPreorder(kind, ms.rest, r, classes);
      MergedCons(ms.key, ms.val, ms.rest, n, classes);
      NumberedCons(ms.key, ms.val, ms.rest, n, classes);
      NumberedOrNot(ms.key, ms.val);
      if Count(ms.key, ms.val) != 0 {
        ChainIsPreorder(ms.key, ms.val, n, classes);
        AddressesAppend(ChainOf(ms.key, ms.val, n, classes), Merged(Kids(ms.rest, r, classes)));
      }
    } else {
      NothingMerged(n, classes);
    }
  }

  lemma {:induction false} NumberedDistinct(ms: Props<Json>, n: nat, classes: set<string>)
    ensures NoDup(Numbered(ms, n, classes))
    ensures forall a | a in Numbered(ms, n, classes) :: 2 * n <= a < 2 * (n + SizeIn(ms))
    decreases ms
  {
    if ms.Cons? {
      NumberedDistinct(ms.rest, n + Size(ms.val), classes);
      if Count(ms.key, ms.val) != 0 {
        NumberedDistinct(ms.val.members, n + 1, classes);
        var own := NumberedFrom(ms.val, n, classes);
        assert forall a | a in own :: 2 * n <= a < 2 * (n + Size(ms.val));
        NoDupAppend([Address(ms.val, n, classes)], Numbered(ms.val.members, n + 1, classes));
        NoDupAppend(own, Numbered(ms.rest, n + Size(ms.val), classes));
      }
    }
  }

  lemma NoDupAppend(s: seq<nat>, t: seq<nat>)
    requires NoDup(s) && NoDup(t) && forall a, b | a in s && b in t :: a != b
    ensures NoDup(s + t)
  {
    forall i, j | 0 <= i < j < |s + t| ensures (s + t)[i] != (s + t)[j] {
      if i < |s| <= j {
        assert s[i] in s && t[j - |s|] in t;
      }
    }
  }

  // ----- the finished heap holds the decoded graph

  lemma {:induction false} RenamedAppendOps(ps: Props<Value>, addrs: seq<nat>, dates: Option<seq<string>>)
    ensures RenamedProps(ReviveDates(ps, dates), addrs) == ReviveDates(RenamedProps(ps, addrs), dates)
  {
    if ps.Cons? {
      RenamedAppendOps(ps.rest, addrs, dates);
    }
  }

  lemma {:induction false} RenamedRemove(ps: Props<Value>, addrs: seq<nat>, key: string)
    ensures RenamedProps(Remove(ps, key), addrs) == Remove(RenamedProps(ps, addrs), key)
  {
    if ps.Cons? && ps.key != key {
      RenamedRemove(ps.rest, addrs, key);
    }
  }

  /** `addrs` numbers the members' containers from `base` on. */
  ghost predicate Aligned(addrs: seq<nat>, base: nat, ms: Props<Json>, n: nat, classes: set<string>) {
    && base + CountIn(ms) <= |addrs|
    && forall i | 0 <= i < CountIn(ms) :: addrs[base + i] == Numbered(ms, n, classes)[i]
  }

  lemma AlignedCons(addrs: seq<nat>, base: nat, ms: Props<Json>, n: nat, classes: set<string>)
    requires ms.Cons? && Aligned(addrs, base, ms, n, classes)
    ensures Aligned(addrs, base + Count(ms.key, ms.val), ms.rest, n + Size(ms.val), classes)
    ensures Count(ms.key, ms.val) != 0 ==>
      && addrs[base] == Address(ms.val, n, classes)
      && Aligned(addrs, base + 1, ms.val.members, n + 1, classes)
  {
    var c := Count(ms.key, ms.val);
    var all := Numbered(ms, n, classes);
    var rest := Numbered(ms.rest, n + Size(ms.val), classes);
    forall i | 0 <= i < |rest| ensures addrs[base + c + i] == rest[i] {
      assert all[c + i] == rest[i] && addrs[base + (c + i)] == all[c + i];
    }
    if c != 0 {
      var inner := Numbered(ms.val.members, n + 1, classes);
      var own := NumberedFrom(ms.val, n, classes);
      assert all == own + rest;
      assert addrs[base + 0] == all[0];
      forall i | 0 <= i < |inner| ensures addrs[base + 1 + i] == inner[i] {
        assert own[1 + i] == inner[i] && all[1 + i] == own[1 + i] && addrs[base + (1 + i)] == all[1 + i];
      }
    }
  }

  lemma SlotIsFinal(k: string, t: Json, base: nat, n: nat, classes: set<string>, addrs: seq<nat>)
    requires WellFormed(t)
    requires RefId(t).Some? && k != DATES_FIELD ==> InRange(RefId(t).value, |addrs|)
    requires Count(k, t) != 0 ==> base < |addrs| && addrs[base] == Address(t, n, classes)
    ensures Renamed(Slot(k, t, base, |addrs|), addrs) == FinalValue(k, t, n, classes, addrs)
  {
    if IsReference(t) {
      WellFormedLookup(t.kind, t.members, OBJECTREF_FIELD);
    }
  }

  lemma {:induction false} SlotsAreFinal(
    kind: Kind, ms: Props<Json>, base: nat, n: nat, classes: set<string>, addrs: seq<nat>)
    requires WellFormedMembers(kind, ms) && Aligned(addrs, base, ms, n, classes) && RefsInRange(ms, |addrs|)
    ensures RenamedProps(Slots(ms, base, |addrs|), addrs) == FinalProps(ms, n, classes, addrs)
    decreases ms
  {
    if ms.Cons? {
      AlignedCons(addrs, base, ms, n, classes);
      SlotsAreFinal(kind, ms.rest, base + Count(ms.key, ms.val), n + Size(ms.val), classes, addrs);
      SlotIsFinal(ms.key, ms.val, base, n, classes, addrs);
    }
  }

  lemma ContainerHolds(t: Json, base: nat, n: nat, classes: set<string>, addrs: seq<nat>)
    requires t.Node? && WellFormed(t) && Aligned(addrs, base + 1, t.members, n + 1, classes)
    requires RefsInRange(t.members, |addrs|)
    ensures FinalObject(t, n, classes, addrs) == RenamedObject(Container(t, base, |addrs|, classes), addrs)
  {
    var slots := Slots(t.members, base + 1, |addrs|);
    SlotsAreFinal(t.kind, t.members, base + 1, n + 1, classes, addrs);
    RenamedAppendOps(slots, addrs, DatesOf(t.members));
    RenamedRemove(ReviveDates(slots, DatesOf(t.members)), addrs, DATES_FIELD);
  }

  /** The objects `os` live at addrs[base], addrs[base + 1], ... */
  ghost predicate HoldsFrom(heap: Heap, addrs: seq<nat>, base: nat, os: seq<Object>) {
    && base + |os| <= |addrs|
    && forall i | 0 <= i < |os| :: Lives(heap, addrs, base + i, os[i])
  }

  ghost predicate Lives(heap: Heap, addrs: seq<nat>, i: nat, o: Object) {
    i < |addrs| && addrs[i] in heap && heap[addrs[i]] == RenamedObject(o, addrs)
  }

  lemma HoldsOne(heap: Heap, addrs: seq<nat>, i: nat, o: Object)
    requires Lives(heap, addrs, i, o)
    ensures HoldsFrom(heap, addrs, i, [o])
  {
  }

  lemma HoldsAppend(heap: Heap, addrs: seq<nat>, base: nat, os: seq<Object>, more: seq<Object>)
    requires HoldsFrom(heap, addrs, base, os) && HoldsFrom(heap, addrs, base + |os|, more)
    ensures HoldsFrom(heap, addrs, base, os + more)
  {
    forall i | 0 <= i < |os + more| ensures Lives(heap, addrs, base + i, (os + more)[i]) {
      if i >= |os| {
        assert Lives(heap, addrs, base + |os| + (i - |os|), more[i - |os|]);
      }
    }
  }

  lemma {:induction false} ContainersHold(
    heap: Heap, kind: Kind, ms: Props<Json>, base: nat, n: nat, classes: set<string>, addrs: seq<nat>)
    requires WellFormedMembers(kind, ms) && Aligned(addrs, base, ms, n, classes) && RefsInRange(ms, |addrs|)
    requires FinalIn(heap, ms, n, classes, addrs)
    ensures HoldsFrom(heap, addrs, base, Containers(ms, base, |addrs|, classes))
    decreases ms, 0
  {
    if ms.Cons? {
      var c := Count(ms.key, ms.val);
      AlignedCons(addrs, base, ms, n, classes);
      ContainersHold(heap, kind, ms.rest, base + c, n + Size(ms.val), classes, addrs);
      if c != 0 {
        ContainersFromHold(heap, ms.val, base, n, classes, addrs);
        HoldsAppend(heap, addrs, base, ContainersFrom(ms.val, base, |addrs|, classes),
                    Containers(ms.rest, base + c, |addrs|, classes));
      }
    }
  }

  lemma {:induction false} ContainersFromHold(
    heap: Heap, t: Json, base: nat, n: nat, classes: set<string>, addrs: seq<nat>)
    requires t.Node? && WellFormed(t) && RefsInRange(t.members, |addrs|)
    requires Aligned(addrs, base + 1, t.members, n + 1, classes)
    requires base < |addrs| && addrs[base] == Address(t, n, classes) && Final(heap, t, n, classes, addrs)
    ensures HoldsFrom(heap, addrs, base, ContainersFrom(t, base, |addrs|, classes))
    decreases t, 1
  {
    ContainerHolds(t, base, n, classes, addrs);
    ContainersHold(heap, t.kind, t.members, base + 1, n + 1, classes, addrs);
    HoldsOne(heap, addrs, base, Container(t, base, |addrs|, classes));
    HoldsAppend(heap, addrs, base, [Container(t, base, |addrs|, classes)],
                Containers(t.members, base + 1, |addrs|, classes));
  }

  /** The heap `parse` leaves behind holds the graph the text denotes. */
  lemma FinalHolds(heap: Heap, t: Json, classes: set<string>)
    requires t.Node? && WellFormed(t)
    requires RefsInRange(t.members, Total(t))
    requires Final(heap, t, 0, classes, NumberedFrom(t, 0, classes))
    ensures Holds(heap, NumberedFrom(t, 0, classes), Decode(t, classes))
  {
    var addrs := NumberedFrom(t, 0, classes);
    ContainersFromHold(heap, t, 0, 0, classes, addrs);
    NumberedDistinct(t.members, 1, classes);
    NoDupAppend([Address(t, 0, classes)], Numbered(t.members, 1, classes));
    forall i | 0 <= i < |addrs|
      ensures addrs[i] in heap && heap[addrs[i]] == RenamedObject(Decode(t, classes)[i], addrs)
    {
      assert Lives(heap, addrs, 0 + i, Decode(t, classes)[i]);
    }
  }
}
