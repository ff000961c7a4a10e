/** `parse` of lib/util/json.js: three revivers that run after the children of every value, and a
    stack of chains that rebuilds the preorder numbering of containers from that postorder visit. */
module JsonParse {
  import opened Options
  import opened JsValues
  import opened JsonDecode
  import opened JsonWalk
  import opened JsonPatch
  import opened JsonReading

  class Reviver {
    const classes: set<string>
    const textHasDates: bool
    const textHasRefs: bool
    var heap: Heap
    var datesHolders: seq<nat>
    var dates: Option<seq<string>>
    var refs: seq<ObjectReference>
    var chains: seq<Chain>

    constructor (classes: set<string>, textHasDates: bool, textHasRefs: bool)
      ensures this.classes == classes && this.textHasDates == textHasDates && this.textHasRefs == textHasRefs
      ensures heap == map[] && datesHolders == [] && dates == None && refs == [] && chains == []
    {
      this.classes := classes;
      this.textHasDates := textHasDates;
      this.textHasRefs := textHasRefs;
      heap := map[];
      datesHolders := [];
      dates := None;
      refs := [];
      chains := [];
    }

    method ClassTransform(value: Value) returns (v: Value)
      requires value.Ref? && value.addr in heap
      modifies `heap
      ensures
        var o := old(heap[value.addr]);
        var name := NameOf(o.props, classes);
        if name.None? then v == value && heap == old(heap)
        else v == Ref(value.addr + 1) && heap == old(heap)[value.addr + 1 := Object(Obj, name, o.props)]
      ensures v.Ref? && v.addr in heap && heap[v.addr].props == old(heap[value.addr].props)
      ensures ClassHeld(heap[v.addr].props, classes, if v == value then None else heap[v.addr].clazz)
    {
      HeldLaw(heap[value.addr].props, classes);
      v := value;
      var o := heap[value.addr];
      var name := NameOf(o.props, classes);
      if name.Some? {
        // Object.assign(new Class(), value)
        v := Ref(value.addr + 1);
        heap := heap[value.addr + 1 := Object(Obj, name, o.props)];
      }
    }

    method DatesTransform(value: Value) returns (ok: bool)
      requires value.Ref? && value.addr in heap && DistinctKeys(heap[value.addr].props)
      modifies `heap, `datesHolders, `dates
      ensures
        var o := old(heap[value.addr]);
        if !Has(o.props, DATES_FIELD) then ok && unchanged(this)
        else
          && ok == old(dates).Some?
          && (ok ==>
              && heap == old(heap)[value.addr := o.(props := ReviveDates(o.props, old(dates)))]
              && datesHolders == old(datesHolders) + [value.addr]
              && dates == None)
    {
      var a := value.addr;
      var o := heap[a];
      if Has(o.props, DATES_FIELD) {
        if dates.None? {
          return false;
        }
        var todo := o.props;
        ghost var done := Nil;
        ghost var before := heap;
        while todo.Cons?
          invariant unchanged(`dates, `datesHolders, `refs, `chains)
          invariant o.props == Append(done, todo) && DistinctKeys(todo)
          invariant forall k | Has(todo, k) :: !Has(done, k)
          invariant a in heap
          invariant heap == before[a := o.(props := Append(ReviveDates(done, dates), todo))]
          decreases todo
        {
          var v := Lookup(heap[a].props, todo.key);
          ghost var tail := Cons(todo.key, todo.val, Nil);
          LookupReviveDates(done, dates, todo.key);
          assert Has(todo, todo.key);
          AssignAppend(ReviveDates(done, dates), todo.key, todo.val, todo.rest, ReviveDate(todo.val, dates.value));
          if v.Some? && v.value.Prim? && v.value.p.Str? && v.value.p.s in dates.value {
            heap := heap[a := heap[a].(props := Assign(heap[a].props, todo.key, Date(ParseInt(v.value.p.s))))];
          }
          ReviveDatesAppend(done, tail, dates);
          AppendAssoc(done, tail, todo.rest);
          AppendAssoc(ReviveDates(done, dates), ReviveDates(tail, dates), todo.rest);
          forall k | Has(todo.rest, k) ensures !Has(Append(done, tail), k) {
            LookupAppend(done, tail, k);
            assert Has(todo, k);
          }
          done := Append(done, tail);
          todo := todo.rest;
        }
        AppendNil(done);
        AppendNil(ReviveDates(done, dates));
        datesHolders := datesHolders + [a];
        dates := None;
      }
      ok := true;
    }

    /** Stage one of the reference reviver: chains whose head is a child of `value` are popped. */
    method MergeChains(key: string, value: Value, ghost base: seq<Chain>, ghost kids: seq<Kid>)
      requires value.Ref? && value.addr in heap
      requires chains == base + Stacked(kids)
      requires forall kid | kid in kids :: IsChild(heap, heap[value.addr].props, kid)
      requires forall i | 0 <= i < |base| :: NoChild(heap[value.addr].props, base[i])
      modifies `chains, `refs
      ensures chains == base + [[Entry(key, value)] + Merged(kids)]
      ensures refs == old(refs) + Found(kids, value.addr)
    {
      var chain := [Entry(key, value)];
      ghost var j := |kids|;
      ghost var m0 := Merge(chains, chain, refs);
      ghost var m := m0;
      MergeStarts(base, kids, m0, value.addr);
      while |chains| > 0
        invariant unchanged(`heap)
        invariant m == Merge(chains, chain, refs)
        invariant 0 <= j <= |kids| && MergedTo(m, base, kids, j, m0, value.addr)
        decreases |chains|
      {
        if j > 0 {
          assert kids[j - 1] in kids;
          MergeTops(m, base, kids, j, m0, value.addr);
        } else {
          MergeEnds(m, base, kids, m0, value.addr);
        }
        var prevChain := chains[|chains| - 1];
        var prevChainHead := prevChain[0];
        if Lookup(heap[value.addr].props, prevChainHead.key) == Some(prevChainHead.value) {
          var refId := RefIdAt(heap[prevChainHead.value.addr].props);
          if refId.Some? {
            refs := refs + [ObjectReference(value.addr, prevChainHead.key, refId.value)];
          } else {
            chain := chain[..1] + prevChain + chain[1..];
          }
          chains := chains[..|chains| - 1];
          m := MergeTop(m, refId, value.addr);
          j := j - 1;
        } else {
          break;
        }
      }
      MergeEnds(m, base, kids, m0, value.addr);
      chains := chains + [chain];
    }

    ghost function Variables(): Walk
      reads this
    {
      Walk(heap, datesHolders, dates, refs, chains)
    }

    ghost function TheSetup(): Setup {
      Setup(classes, textHasDates, textHasRefs)
    }

    /** InternalizeJSONProperty of ECMA-262 section 25.5.1 below the root: a container's members
        are revived before the container itself. */
    method Internalize(key: string, t: Json, n: nat) returns (ok: bool, v: Value)
      requires key != "" && WellFormed(t) && (key == DATES_FIELD ==> IsStampArray(t))
      requires (HasDates(t) || key == DATES_FIELD) ==> textHasDates
      requires Before(Variables(), n)
      modifies this
      ensures ok <==> DatesInOrder(t)
      ensures ok ==> v == Revived(key, t, n, classes)
      ensures ok ==> Visited(TheSetup(), old(Variables()), Variables(), key, t, n)
      decreases t, 1
    {
      match t {
        case Leaf(p) =>
          return true, Prim(p);
        case Node(kind, ms) =>
          ghost var w := Variables();
          DatesAtClose(kind, ms, dates);
          var slots;
          ok, slots := InternalizeMembers(kind, ms, n + 1);
          if !ok {
            return false, Prim(Null);
          }
          ghost var w1 := Variables();
          heap := heap[2 * n := Object(kind, None, slots)];
          if key == DATES_FIELD {
            StampArrayVisited(TheSetup(), w, w1, ms, n);
            dates := Some(Elements(heap[2 * n].props));
            return true, Prim(Null);
          }
          LaidInFrame(w1.heap, heap, ms, n + 1, classes);
          ok, v := Close(t, n, w.dates);
          if ok && textHasRefs {
            ChainsAreStacked(w.chains, ms, n + 1, classes);
            ClosedChildren(heap, t, n, classes);
            BaseHasNoChild(t, n, classes, w.chains);
            MergeChains(key, v, w.chains, Kids(ms, n + 1, classes));
          }
          if ok {
            VisitedNode(TheSetup(), w, w1, Variables(), key, t, n);
          }
      }
    }

    /** The class and date revivers on a container whose members have been revived. */
    method Close(ghost t: Json, n: nat, ghost dates0: Option<seq<string>>) returns (ok: bool, v: Value)
      requires t.Node? && WellFormed(t) && KidsInOrder(t.members)
      requires HasDates(t) ==> textHasDates
      requires 2 * n in heap && 2 * n + 1 !in heap
      requires heap[2 * n] == Object(t.kind, None, RevivedProps(t.members, n + 1, classes))
      requires LaidIn(heap, t.members, n + 1, classes)
      requires dates == DatesAfter(t.members, dates0)
      modifies `heap, `datesHolders, `dates
      ensures ok <==> DatesInOrder(t)
      ensures ok ==> v == Ref(Address(t, n, classes)) && Laid(heap, t, n, classes)
      ensures ok ==> forall a | a in old(heap) && a != 2 * n :: a in heap && heap[a] == old(heap[a])
      ensures ok ==> heap.Keys <= old(heap.Keys) + {2 * n + 1}
      ensures ok ==> dates == (if HasDates(t) then None else dates0)
      ensures ok && Has(t.members, DATES_FIELD) ==>
        datesHolders == old(datesHolders) + [Address(t, n, classes)]
      ensures ok && !Has(t.members, DATES_FIELD) ==> datesHolders == old(datesHolders)
    {
      ghost var ms := t.members;
      NameOfRevived(ms, n + 1, classes);
      if t.kind == Arr {
        NoIndexClass(t.kind, ms, classes);
      }
      RevivedDistinct(ms, n + 1, classes);
      LookupRevived(ms, n + 1, classes, DATES_FIELD);
      DatesAtClose(t.kind, ms, dates0);
      LaidWithout(heap, ms, n + 1, classes, n);
      v := ClassTransform(Ref(2 * n));
      ok := true;
      if textHasDates {
        ok := DatesTransform(v);
      }
      if ok {
        LaidInFrame(map a | a in old(heap) && a != 2 * n :: old(heap)[a], heap, ms, n + 1, classes);
        if !Has(ms, DATES_FIELD) {
          DatesAfterNone(ms, dates0);
          NoDatesRevived(RevivedProps(ms, n + 1, classes));
        } else {
          HasDatesMember(ms);
        }
      }
    }

    method InternalizeMembers(kind: Kind, ms: Props<Json>, n: nat) returns (ok: bool, ps: Props<Value>)
      requires WellFormedMembers(kind, ms) && DistinctKeys(ms)
      requires HasDatesIn(ms) ==> textHasDates
      requires Before(Variables(), n)
      modifies this
      ensures ok <==> KidsInOrder(ms)
      ensures ok ==> ps == RevivedProps(ms, n, classes)
      ensures ok ==> VisitedIn(TheSetup(), old(Variables()), Variables(), ms, n)
      decreases ms, 0
    {
      hide Visited, Before, HasDates;
      match ms {
        case Nil => ok, ps := true, Nil;
        case Cons(k, v, rest) =>
          hide VisitedIn;
          ghost var w := Variables();
          var value, more;
          ok, value := Internalize(k, v, n);
          if !ok {
            return false, Nil;
          }
          ghost var w1 := Variables();
          VisitedBefore(TheSetup(), w, w1, k, v, n);
          ok, more := InternalizeMembers(kind, rest, n + Size(v));
          if !ok {
            return false, Nil;
          }
          VisitedCons(TheSetup(), w, w1, Variables(), k, v, rest, n);
          ps := Cons(k, value, more);
      }
    }

    /** `datesHolders.forEach(datesHolder => { delete datesHolder[DATES_FIELD] })` */
    method DeleteDates()
      requires HoldersStand(heap, datesHolders)
      modifies `heap, `datesHolders
      ensures Cleaned(old(heap), heap, old(datesHolders)) && datesHolders == []
    {
      for i := 0 to |datesHolders|
        invariant unchanged(`datesHolders)
        invariant Cleaned(old(heap), heap, datesHolders[..i])
      {
        var a := datesHolders[i];
        assert datesHolders[..i + 1] == datesHolders[..i] + [a];
        LookupRemove(old(heap)[a].props, DATES_FIELD, DATES_FIELD);
        LookupRemove(heap[a].props, DATES_FIELD, DATES_FIELD);
        heap := heap[a := heap[a].(props := Remove(heap[a].props, DATES_FIELD))];
      }
      assert datesHolders[..|datesHolders|] == datesHolders;
      datesHolders := [];
    }

    /** Stage two: `refs.forEach(...)`.  A number no container has raises a TypeError. */
    method ReplaceReferences() returns (ok: bool)
      requires chains != [] && Replaceable(heap, refs)
      modifies `heap
      ensures ok <==> forall r | r in refs :: InRange(r.id, |chains[0]|)
      ensures ok ==> Replaced(old(heap), heap, refs, chains[0])
    {
      ghost var chain := chains[0];
      for i := 0 to |refs|
        invariant forall r | r in refs[..i] :: InRange(r.id, |chain|)
        invariant Replaced(old(heap), heap, refs[..i], chain)
      {
        var r := refs[i];
        assert r in refs;
        if !InRange(r.id, |chains[0]|) {
          return false;
        }
        ReplacedOne(old(heap), heap, refs[..i], r, chain);
        assert refs[..i + 1] == refs[..i] + [r];
        var o := heap[r.parent];
        heap := heap[r.parent := o.(props := Assign(o.props, r.key, chains[0][Index(r.id, |chains[0]|)].value))];
      }
      assert refs[..|refs|] == refs;
      ok := true;
    }

    /** `parse` on the tree of a text.  Without an error the heap holds the graph the text denotes,
        whatever the depth and the direction of its references. */
    method Parse(t: Json) returns (ok: bool, v: Value)
      requires WellFormed(t)
      requires HasDates(t) ==> textHasDates
      requires t.Node? && HasReferences(t.members) ==> textHasRefs
      requires heap == map[] && datesHolders == [] && dates == None && refs == [] && chains == []
      modifies this
      ensures t.Leaf? ==> ok && v == Prim(t.p)
      ensures t.Node? ==> (ok <==> DatesInOrder(t) && RefsInRange(t.members, Total(t)))
      ensures t.Node? && ok ==>
        && v == Ref(Address(t, 0, classes))
        && Holds(heap, NumberedFrom(t, 0, classes), Decode(t, classes))
      ensures t.Node? && ok && textHasRefs ==>
        && |chains| == 1
        && Addresses(chains[0]) == NumberedFrom(t, 0, classes)
        && refs == References([], t, 0, classes)
    {
      match t {
        case Leaf(p) =>
          return true, Prim(p);
        case Node(kind, ms) =>
          ghost var w := Variables();
          DatesAtClose(kind, ms, dates);
          var slots;
          ok, slots := InternalizeMembers(kind, ms, 1);
          if !ok {
            return false, Prim(Null);
          }
          ghost var w1 := Variables();
          heap := heap[0 := Object(kind, None, slots)];
          LaidInFrame(w1.heap, heap, ms, 1, classes);
          ok, v := Close(t, 0, None);
          if !ok {
            return false, v;
          }
          if Has(ms, DATES_FIELD) {
            HasDatesMember(ms);
          } else {
            assert HoldersIn([], ms, 1, classes) + [] == HoldersIn([], ms, 1, classes);
          }
          ok := FinishRoot(t, v);
      }
    }

    /** The revivers at the root, where `key === ''`. */
    method FinishRoot(ghost t: Json, v: Value) returns (ok: bool)
      requires t.Node? && WellFormed(t) && v == Ref(Address(t, 0, classes)) && Laid(heap, t, 0, classes)
      requires HasDates(t) ==> textHasDates
      requires HasReferences(t.members) ==> textHasRefs
      requires datesHolders == if textHasDates then Holders([], t, 0, classes) else []
      requires textHasRefs ==>
        chains == ChainsIn([], t.members, 1, classes) && refs == ReferencesIn([], t.members, 1, classes)
      requires !textHasRefs ==> chains == [] && refs == []
      modifies this
      ensures ok <==> RefsInRange(t.members, Total(t))
      ensures ok ==> Holds(heap, NumberedFrom(t, 0, classes), Decode(t, classes))
      ensures ok && textHasRefs ==>
        && |chains| == 1
        && Addresses(chains[0]) == NumberedFrom(t, 0, classes)
        && refs == References([], t, 0, classes)
    {
      ghost var h := heap;
      ghost var holders := datesHolders;
      if textHasDates {
        HoldersAreLaid(heap, [], t, 0, classes);
        HoldersCover(datesHolders, [], t, 0, classes);
        DeleteDates();
      } else {
        NoHolders(t, 0, classes);
      }
      CleanedIsClean(h, heap, holders, t, 0, classes);
      ghost var h1 := heap;
      ghost var chain := ChainOf("", t, 0, classes);
      ChainIsPreorder("", t, 0, classes);
      ok := true;
      if textHasRefs {
        RootChildren(h, heap, holders, t, classes);
        ChainsAreStacked([], t.members, 1, classes);
        MergeChains("", v, [], Kids(t.members, 1, classes));
        ReferencesExact([], t, 0, classes);
        ReferencesReplaceable(heap, [], t, 0, classes);
        ok := ReplaceReferences();
        RangeIsFound(t, classes);
      } else {
        NoReferences(t, 0, classes, Total(t));
      }
      if ok {
        EverythingIsFinal(h1, heap, refs, chain, t, 0, classes);
        FinalHolds(heap, t, classes);
      }
    }
  }

  lemma RootChildren(h: Heap, h': Heap, holders: seq<nat>, t: Json, classes: set<string>)
    requires t.Node? && WellFormed(t) && Laid(h, t, 0, classes)
    requires Cleaned(h, h', holders) && HoldersStand(h, holders)
    ensures forall kid | kid in Kids(t.members, 1, classes) ::
      IsChild(h', h'[Address(t, 0, classes)].props, kid)
  {
    var a := Address(t, 0, classes);
    ClosedChildren(h, t, 0, classes);
    KidsAreNotDates(t.members, 1, classes);
    LookupClosed(t, 0, classes, DATES_FIELD);
    forall kid | kid in Kids(t.members, 1, classes) ensures IsChild(h', h'[a].props, kid) {
      ChildrenAfterCleaning(h, h', holders, a, kid);
    }
  }

  lemma RangeIsFound(t: Json, classes: set<string>)
    requires t.Node? && WellFormed(t)
    ensures RefsInRange(t.members, Total(t)) <==>
      forall r | r in References([], t, 0, classes) :: InRange(r.id, Total(t))
  {
    ReferencesExact([], t, 0, classes);
    if RefsInRange(t.members, Total(t)) {
      RangeToFound([], t, 0, classes, Total(t));
    } else if forall r | r in References([], t, 0, classes) :: InRange(r.id, Total(t)) {
      FoundToRange(References([], t, 0, classes), t, 0, classes, Total(t));
    }
  }
}
