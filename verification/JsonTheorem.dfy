/** The codec's promise, in terms of access paths: two graphs are alike when every path leads to the
    same thing in both, and two paths meet in one exactly when they meet in the other. */
module JsonTheorem {
  import opened Options
  import opened Sequences
  import opened JsValues
  import opened JsonEncode
  import opened JsonDecode
  import opened JsonWalk
  import opened JsonPatch
  import opened JsonParse
  import opened JsonRoundTrip

  function Follow(h: Heap, v: Value, path: seq<string>): Option<Value>
    decreases path
  {
    if path == [] then Some(v)
    else if v.Ref? && v.addr in h && Has(h[v.addr].props, path[0])
    then Follow(h, Lookup(h[v.addr].props, path[0]).value, path[1..])
    else None
  }

  ghost predicate Reaches(h: Heap, root: nat, a: nat) {
    exists path :: Follow(h, Ref(root), path) == Some(Ref(a))
  }

  /** The same value, or containers of the same kind with the same keys in the same order. */
  predicate SameNode(h: Heap, x: Value, h': Heap, y: Value) {
    if x.Ref? then
      && y.Ref? && x.addr in h && y.addr in h'
      && h[x.addr].kind == h'[y.addr].kind && Keys(h[x.addr].props) == Keys(h'[y.addr].props)
    else x == y
  }

  ghost predicate Isomorphic(h: Heap, v: Value, h': Heap, v': Value) {
    && (forall p ::
          match Follow(h, v, p)
          case None => Follow(h', v', p) == None
          case Some(x) => Follow(h', v', p).Some? && SameNode(h, x, h', Follow(h', v', p).value))
    && (forall p, q | Follow(h, v, p).Some? && Follow(h, v, q).Some?
          && Follow(h, v, p).value.Ref? && Follow(h, v, q).value.Ref? ::
          Follow(h, v, p) == Follow(h, v, q) <==> Follow(h', v', p) == Follow(h', v', q))
  }

  lemma {:induction false} FollowAppend(h: Heap, v: Value, p: seq<string>, q: seq<string>)
    ensures Follow(h, v, p + q) ==
      match Follow(h, v, p) case None => None case Some(w) => Follow(h, w, q)
    decreases p
  {
    if p == [] {
      assert p + q == q;
    } else {
      assert (p + q)[0] == p[0] && (p + q)[1..] == p[1..] + q;
      if v.Ref? && v.addr in h && Has(h[v.addr].props, p[0]) {
        FollowAppend(h, Lookup(h[v.addr].props, p[0]).value, p[1..], q);
      }
    }
  }

  // ----- the containers opened are those the root reaches

  predicate Within(ps: Props<Value>, s: seq<nat>) {
    match ps
    case Nil => true
    case Cons(_, v, rest) => (v.Ref? ==> v.addr in s) && Within(rest, s)
  }

  lemma {:induction false} WithinMore(ps: Props<Value>, s: seq<nat>, s': seq<nat>)
    requires Within(ps, s) && s <= s'
    ensures Within(ps, s')
  {
    assert forall x | x in s :: x in s';
    if ps.Cons? { WithinMore(ps.rest, s, s'); }
  }

  lemma {:induction false} WithinLookup(ps: Props<Value>, s: seq<nat>, k: string)
    requires Within(ps, s) && Has(ps, k)
    ensures Lookup(ps, k).value.Ref? ==> Lookup(ps, k).value.addr in s
  {
    if ps.key != k { WithinLookup(ps.rest, s, k); }
  }

  ghost predicate ClosedAfter(h: Heap, n: nat, order: seq<nat>)
    requires forall a | a in order :: a in h
  {
    forall i | n <= i < |order| :: Within(h[order[i]].props, order)
  }

  lemma {:induction false} EncodeCloses(h: Heap, order: seq<nat>, v: Value)
    requires PlainHeap(h) && ValueIn(h, v) && OrderIn(h, order)
    ensures var order' := Encode(h, order, v).1;
      ClosedAfter(h, |order|, order') && (v.Ref? ==> v.addr in order')
    decreases Unseen(h, order), v, 0
  {
    if v.Ref? && v.addr !in order {
      var begun := order + [v.addr];
      assert v.addr in Unseen(h, order) && v.addr !in Unseen(h, begun);
      assert Unseen(h, begun) <= Unseen(h, order);
      EncodePropsCloses(h, begun, h[v.addr].props);
      assert v.addr in begun;
      assert EncodeProps(h, begun, h[v.addr].props).1[|order|] == v.addr;
    }
  }

  lemma {:induction false} EncodePropsCloses(h: Heap, order: seq<nat>, ps: Props<Value>)
    requires PlainHeap(h) && PropsIn(h, ps) && OrderIn(h, order)
    ensures var order' := EncodeProps(h, order, ps).1;
      ClosedAfter(h, |order|, order') && Within(ps, order')
    decreases Unseen(h, order), ps, 1
  {
    if ps.Cons? {
      var order1 := Encode(h, order, ps.val).1;
      var order2 := EncodeProps(h, order1, ps.rest).1;
      assert Unseen(h, order1) <= Unseen(h, order);
      EncodeCloses(h, order, ps.val);
      EncodePropsCloses(h, order1, ps.rest);
      forall i | |order| <= i < |order2| ensures Within(h[order2[i]].props, order2) {
        if i < |order1| {
          assert order2[i] == order1[i];
          WithinMore(h[order1[i]].props, order1, order2);
        }
      }
      assert ps.val.Ref? ==> ps.val.addr in order2;
    }
  }

  ghost predicate PropsReached(h: Heap, root: nat, ps: Props<Value>) {
    match ps
    case Nil => true
    case Cons(_, v, rest) => (v.Ref? ==> Reaches(h, root, v.addr)) && PropsReached(h, root, rest)
  }

  lemma {:induction false} OwnerReaches(h: Heap, root: nat, a: nat, path: seq<string>, ps: Props<Value>)
    requires a in h && Follow(h, Ref(root), path) == Some(Ref(a))
    requires DistinctKeys(ps) && forall k | Has(ps, k) :: Lookup(ps, k) == Lookup(h[a].props, k)
    ensures PropsReached(h, root, ps)
    decreases ps
  {
    if ps.Cons? {
      assert Lookup(ps, ps.key) == Some(ps.val) && Has(ps, ps.key);
      FollowAppend(h, Ref(root), path, [ps.key]);
      assert Follow(h, ps.val, [ps.key][1..]) == Some(ps.val);
      forall k | Has(ps.rest, k) ensures Lookup(ps.rest, k) == Lookup(h[a].props, k) {
        assert Has(ps, k) && k != ps.key;
      }
      OwnerReaches(h, root, a, path, ps.rest);
    }
  }

  lemma {:induction false} EncodeReaches(h: Heap, root: nat, order: seq<nat>, v: Value)
    requires PlainHeap(h) && ValueIn(h, v) && OrderIn(h, order)
    requires forall a | a in order :: Reaches(h, root, a)
    requires v.Ref? ==> Reaches(h, root, v.addr)
    ensures forall a | a in Encode(h, order, v).1 :: Reaches(h, root, a)
    decreases Unseen(h, order), v, 0
  {
    if v.Ref? && v.addr !in order {
      var begun := order + [v.addr];
      assert v.addr in Unseen(h, order) && v.addr !in Unseen(h, begun);
      assert Unseen(h, begun) <= Unseen(h, order);
      var path :| Follow(h, Ref(root), path) == Some(v);
      OwnerReaches(h, root, v.addr, path, h[v.addr].props);
      EncodePropsReaches(h, root, begun, h[v.addr].props);
    }
  }

  lemma {:induction false} EncodePropsReaches(h: Heap, root: nat, order: seq<nat>, ps: Props<Value>)
    requires PlainHeap(h) && PropsIn(h, ps) && OrderIn(h, order)
    requires forall a | a in order :: Reaches(h, root, a)
    requires PropsReached(h, root, ps)
    ensures forall a | a in EncodeProps(h, order, ps).1 :: Reaches(h, root, a)
    decreases Unseen(h, order), ps, 1
  {
    if ps.Cons? {
      var order1 := Encode(h, order, ps.val).1;
      assert Unseen(h, order1) <= Unseen(h, order);
      EncodeReaches(h, root, order, ps.val);
      EncodePropsReaches(h, root, order1, ps.rest);
    }
  }

  lemma {:induction false} PathStaysInOrder(h: Heap, order: seq<nat>, a: nat, path: seq<string>)
    requires (forall x | x in order :: x in h) && ClosedAfter(h, 0, order) && a in order
    ensures var r := Follow(h, Ref(a), path); r.Some? && r.value.Ref? ==> r.value.addr in order
    decreases path
  {
    if path != [] && Has(h[a].props, path[0]) {
      var i :| 0 <= i < |order| && order[i] == a;
      WithinLookup(h[order[i]].props, order, path[0]);
      var v := Lookup(h[a].props, path[0]).value;
      if v.Ref? {
        PathStaysInOrder(h, order, v.addr, path[1..]);
      }
    }
  }

  /** `stringify` opens each container the root reaches exactly once, and no other. */
  lemma OpenedIsReached(h: Heap, root: nat)
    requires PlainHeap(h) && root in h
    ensures var order := Encode(h, [], Ref(root)).1;
      && NoDup(order) && ClosedAfter(h, 0, order)
      && forall a :: a in order <==> Reaches(h, root, a)
  {
    var order := Encode(h, [], Ref(root)).1;
    EncodeCloses(h, [], Ref(root));
    assert Follow(h, Ref(root), []) == Some(Ref(root));
    EncodeReaches(h, root, [], Ref(root));
    forall a | Reaches(h, root, a) ensures a in order {
      var path :| Follow(h, Ref(root), path) == Some(Ref(a));
      PathStaysInOrder(h, order, root, path);
    }
  }

  /** Every reference in the members carries the number of a container opened before it. */
  predicate Backward(ms: Props<Json>, base: nat) {
    match ms
    case Nil => true
    case Cons(k, v, rest) =>
      && (RefId(v).Some? ==> InRange(RefId(v).value, base))
      && (Count(k, v) != 0 ==> Backward(v.members, base + 1))
      && Backward(rest, base + Count(k, v))
  }

  lemma {:induction false} BackwardAppend(ms: Props<Json>, base: nat, stamps: seq<string>)
    requires Backward(ms, base)
    ensures Backward(Append(ms, Cons(DATES_FIELD, StampArray(stamps), Nil)), base)
  {
    if ms.Cons? {
      BackwardAppend(ms.rest, base + Count(ms.key, ms.val), stamps);
    } else {
      StampArrayIs(stamps);
      NoIndexClass(Arr, StampLeaves(stamps, 0), {});
    }
  }

  lemma {:induction false} EncodeBackward(h: Heap, order: seq<nat>, v: Value)
    requires PlainHeap(h) && ValueIn(h, v) && OrderIn(h, order) && !v.DateList?
    ensures var t := Encode(h, order, v).0;
      && (RefId(t).Some? ==> InRange(RefId(t).value, |order|))
      && (v.Ref? && v.addr !in order ==> t.Node? && Backward(t.members, |order| + 1))
    decreases Unseen(h, order), v, 0
  {
    EncodedForm(h, order, v, |Encode(h, order, v).1|);
    if v.Ref? && v.addr !in order {
      var o := h[v.addr];
      var begun := order + [v.addr];
      assert v.addr in Unseen(h, order) && v.addr !in Unseen(h, begun);
      assert Unseen(h, begun) <= Unseen(h, order);
      EncodePropsBackward(h, begun, o.props);
      var ms := EncodeProps(h, begun, o.props).0;
      AppendNil(ms);
      BackwardAppend(ms, |order| + 1, Stamps(o.props, []));
    } else if v.Ref? {
      assert InRange(Num(IndexOf(order, v.addr) as real), |order|);
    }
  }

  /** A repeat is printed as the number its container was given when it was opened. */
  lemma {:induction false} EncodePropsBackward(h: Heap, order: seq<nat>, ps: Props<Value>)
    requires PlainHeap(h) && PropsIn(h, ps) && OrderIn(h, order) && PlainProps(ps)
    ensures Backward(EncodeProps(h, order, ps).0, |order|)
    decreases Unseen(h, order), ps, 1
  {
    if ps.Cons? {
      var (t, order1) := Encode(h, order, ps.val);
      assert Unseen(h, order1) <= Unseen(h, order);
      EncodeBackward(h, order, ps.val);
      EncodedForm(h, order, ps.val, |order1|);
      EncodePropsBackward(h, order1, ps.rest);
      assert Count(ps.key, t) == Count("", t);
    }
  }

  // ----- following a path in both graphs

  /** `order` lists the containers of a graph, `addrs` where their images live. */
  ghost predicate Mirrors(h: Heap, order: seq<nat>, h': Heap, addrs: seq<nat>, classes: set<string>) {
    && PlainHeap(h) && OrderIn(h, order) && ClosedAfter(h, 0, order)
    && Holds(h', addrs, Images(h, order, order, classes))
  }

  function Twin(order: seq<nat>, addrs: seq<nat>, a: nat): nat
    requires a in order && |order| == |addrs|
  {
    addrs[IndexOf(order, a)]
  }

  lemma {:induction false} LookupCanonical(ps: Props<Value>, order: seq<nat>, addrs: seq<nat>, k: string)
    ensures var qs := RenamedProps(CanonicalProps(ps, order), addrs);
      && Keys(qs) == Keys(ps)
      && (Has(qs, k) <==> Has(ps, k))
      && (Has(ps, k) ==> Lookup(qs, k) == Some(Renamed(Canonical(Lookup(ps, k).value, order), addrs)))
  {
    if ps.Cons? {
      LookupCanonical(ps.rest, order, addrs, k);
    }
  }

  lemma {:induction false} TwinLookup(
    h: Heap, order: seq<nat>, h': Heap, addrs: seq<nat>, classes: set<string>, a: nat, k: string)
    requires Mirrors(h, order, h', addrs, classes) && a in order
    ensures var b := Twin(order, addrs, a);
      && b in h' && h'[b].kind == h[a].kind && Keys(h'[b].props) == Keys(h[a].props)
      && (Has(h'[b].props, k) <==> Has(h[a].props, k))
      && (Has(h[a].props, k) ==>
            var v := Lookup(h[a].props, k).value;
            if v.Ref? then v.addr in order && Lookup(h'[b].props, k) == Some(Ref(Twin(order, addrs, v.addr)))
            else Lookup(h'[b].props, k) == Some(Recovered(h[a], v)) && !Recovered(h[a], v).Ref?)
  {
    hide Mirrors, Within, RenamedProps, CanonicalProps, RecoveredProps, Recovered;
    TwinIs(h, order, h', addrs, classes, a);
    LookupRecovered(h[a], k);
    LookupCanonical(RecoveredProps(h[a]), order, addrs, k);
    if Has(h[a].props, k) {
      WithinLookup(h[a].props, order, k);
      RecoveredKind(h[a], Lookup(h[a].props, k).value);
    }
  }

  lemma RecoveredKind(o: Object, v: Value)
    ensures if v.Ref? then Recovered(o, v) == v else !Recovered(o, v).Ref?
  {
  }

  /** The object in the parsed heap that stands for `a`. */
  lemma TwinIs(h: Heap, order: seq<nat>, h': Heap, addrs: seq<nat>, classes: set<string>, a: nat)
    requires Mirrors(h, order, h', addrs, classes) && a in order
    ensures |order| == |addrs| && a in h && Within(h[a].props, order) && DistinctKeys(h[a].props)
    ensures Twin(order, addrs, a) in h' && h'[Twin(order, addrs, a)].kind == h[a].kind
    ensures h'[Twin(order, addrs, a)].props == RenamedProps(CanonicalProps(RecoveredProps(h[a]), order), addrs)
  {
    hide Within, RenamedProps, CanonicalProps, RecoveredProps;
    var i := IndexOf(order, a);
    assert Within(h[order[i]].props, order);
  }

  ghost predicate AllRecoverable(h: Heap, order: seq<nat>)
    requires forall a | a in order :: a in h
  {
    forall a | a in order :: Recoverable(h[a])
  }

  lemma {:induction false} Track(
    h: Heap, order: seq<nat>, h': Heap, addrs: seq<nat>, classes: set<string>, a: nat, path: seq<string>)
    requires Mirrors(h, order, h', addrs, classes) && a in order
    ensures
      var x := Follow(h, Ref(a), path);
      var y := Follow(h', Ref(Twin(order, addrs, a)), path);
      && (x.None? <==> y.None?)
      && (x.Some? && x.value.Ref? ==>
            x.value.addr in order && y == Some(Ref(Twin(order, addrs, x.value.addr))))
      && (x.Some? && !x.value.Ref? ==> !y.value.Ref? && (AllRecoverable(h, order) ==> y == x))
    decreases path
  {
    if path != [] {
      var b := Twin(order, addrs, a);
      TwinLookup(h, order, h', addrs, classes, a, path[0]);
      if Has(h[a].props, path[0]) {
        var v := Lookup(h[a].props, path[0]).value;
        if v.Ref? {
          Track(h, order, h', addrs, classes, v.addr, path[1..]);
        } else if AllRecoverable(h, order) {
          RecoverableIsExact(h[a]);
          LookupRecovered(h[a], path[0]);
        }
      }
    }
  }

  lemma TwinInjective(order: seq<nat>, addrs: seq<nat>, a: nat, b: nat)
    requires a in order && b in order && |order| == |addrs| && NoDup(addrs)
    ensures Twin(order, addrs, a) == Twin(order, addrs, b) <==> a == b
  {
    var i, j := IndexOf(order, a), IndexOf(order, b);
    assert i != j ==> addrs[i] != addrs[j];
  }

  lemma MirrorIsIsomorphic(
    h: Heap, order: seq<nat>, h': Heap, addrs: seq<nat>, classes: set<string>, root: nat)
    requires Mirrors(h, order, h', addrs, classes) && root in order && AllRecoverable(h, order)
    ensures Isomorphic(h, Ref(root), h', Ref(Twin(order, addrs, root)))
  {
    var v' := Ref(Twin(order, addrs, root));
    forall p ensures
      match Follow(h, Ref(root), p)
      case None => Follow(h', v', p) == None
      case Some(x) => Follow(h', v', p).Some? && SameNode(h, x, h', Follow(h', v', p).value)
    {
      Track(h, order, h', addrs, classes, root, p);
      var x := Follow(h, Ref(root), p);
      if x.Some? && x.value.Ref? {
        TwinLookup(h, order, h', addrs, classes, x.value.addr, "");
      }
    }
    forall p, q | Follow(h, Ref(root), p).Some? && Follow(h, Ref(root), q).Some?
      && Follow(h, Ref(root), p).value.Ref? && Follow(h, Ref(root), q).value.Ref?
      ensures Follow(h, Ref(root), p) == Follow(h, Ref(root), q) <==> Follow(h', v', p) == Follow(h', v', q)
    {
      Track(h, order, h', addrs, classes, root, p);
      Track(h, order, h', addrs, classes, root, q);
      TwinInjective(order, addrs, Follow(h, Ref(root), p).value.addr, Follow(h, Ref(root), q).value.addr);
    }
  }

  lemma MirroredObject(h: Heap, order: seq<nat>, h': Heap, addrs: seq<nat>, classes: set<string>, a: nat)
    requires Mirrors(h, order, h', addrs, classes) && a in order
    ensures |order| == |addrs| && a in h && DistinctKeys(h[a].props)
  {
  }

  /** A container that is not recoverable is reached by a path, and one step further the graphs differ. */
  lemma MirrorDiffers(
    h: Heap, order: seq<nat>, h': Heap, addrs: seq<nat>, classes: set<string>, root: nat, a: nat)
    requires Mirrors(h, order, h', addrs, classes) && root in order
    requires Reaches(h, root, a) && a in order && !Recoverable(h[a])
    ensures !Isomorphic(h, Ref(root), h', Ref(Twin(order, addrs, root)))
  {
    hide Mirrors, Recovered, Keys;
    MirroredObject(h, order, h', addrs, classes, a);
    var path :| Follow(h, Ref(root), path) == Some(Ref(a));
    RecoverableIsExact(h[a]);
    hide Recoverable;
    var k :| Has(h[a].props, k) && !Lookup(h[a].props, k).value.Ref?
      && Recovered(h[a], Lookup(h[a].props, k).value) != Lookup(h[a].props, k).value;
    var v' := Ref(Twin(order, addrs, root));
    Track(h, order, h', addrs, classes, root, path);
    TwinLookup(h, order, h', addrs, classes, a, k);
    FollowAppend(h, Ref(root), path, [k]);
    FollowAppend(h', v', path, [k]);
    assert [k][1..] == [];
    assert Follow(h, Ref(root), path + [k]) == Some(Lookup(h[a].props, k).value);
    assert Follow(h', v', path + [k]) == Some(Recovered(h[a], Lookup(h[a].props, k).value));
  }

  /** The round trip: whatever heap holds the graph denoted by the text of `stringify`, its root is
      isomorphic to the caller's exactly when every container the caller's root reaches is recoverable. */
  lemma RoundTrip(h: Heap, root: nat, h': Heap, addrs: seq<nat>, classes: set<string>)
    requires PlainHeap(h) && root in h
    requires Encode(h, [], Ref(root)).0.Node? ==>
      Holds(h', addrs, Decode(Encode(h, [], Ref(root)).0, classes))
    ensures addrs != []
    ensures Isomorphic(h, Ref(root), h', Ref(addrs[0])) <==>
      forall a | Reaches(h, root, a) :: a in h && Recoverable(h[a])
  {
    var order := Encode(h, [], Ref(root)).1;
    DecodeEncode(h, root, classes);
    OpenedIsReached(h, root);
    IndexOfUnique(order, root, 0);
    if AllRecoverable(h, order) {
      MirrorIsIsomorphic(h, order, h', addrs, classes, root);
    } else {
      var a :| a in order && !Recoverable(h[a]);
      MirrorDiffers(h, order, h', addrs, classes, root, a);
    }
  }

  /** A graph that does not come back: a date in an array is the stamp of that date afterwards. */
  lemma DateInArrayIsLost(h': Heap, addrs: seq<nat>, classes: set<string>)
    requires var h := map[0 := Object(Arr, None, Cons("0", Date(Some(5)), Nil))];
      Encode(h, [], Ref(0)).0.Node? ==> Holds(h', addrs, Decode(Encode(h, [], Ref(0)).0, classes))
    ensures addrs != []
    ensures !Isomorphic(map[0 := Object(Arr, None, Cons("0", Date(Some(5)), Nil))], Ref(0), h', Ref(addrs[0]))
  {
    var h := map[0 := Object(Arr, None, Cons("0", Date(Some(5)), Nil))];
    RoundTrip(h, 0, h', addrs, classes);
    assert Follow(h, Ref(0), []) == Some(Ref(0));
    assert Reaches(h, 0, 0);
  }

  /** The address in the parsed heap of the one object that stands for container `a`. */
  function Standing(h: Heap, root: nat, addrs: seq<nat>, a: nat): nat
    requires PlainHeap(h) && root in h
    requires var order := Encode(h, [], Ref(root)).1; a in order && |order| == |addrs|
  {
    Twin(Encode(h, [], Ref(root)).1, addrs, a)
  }

  /** What the text has under the key: the string, or the stamp of the date. */
  predicate Says(ps: Props<Value>, key: string, c: string) {
    match Lookup<Value>(ps, key)
    case Some(Prim(Str(s))) => s == c
    case Some(Date(time)) => Stamp(time) == c
    case _ => false
  }

  /** The mapped class `___class` says, else the one `___jsonclass` says, else none. */
  ghost predicate ClassSaid(ps: Props<Value>, classes: set<string>, clazz: Option<string>) {
    if exists c :: c in classes && Says(ps, "___class", c)
    then clazz.Some? && clazz.value in classes && Says(ps, "___class", clazz.value)
    else if exists c :: c in classes && Says(ps, "___jsonclass", c)
    then clazz.Some? && clazz.value in classes && Says(ps, "___jsonclass", clazz.value)
    else clazz == None
  }

  lemma SaidLaw(ps: Props<Value>, classes: set<string>)
    ensures ClassSaid(ps, classes, NameOf(RewrittenProps(ps), classes))
  {
    LookupRewritten(ps, "___class");
    LookupRewritten(ps, "___jsonclass");
    if c :| c in classes && Says(ps, "___class", c) {
      assert StringAt(RewrittenProps(ps), "___class") == Some(c);
    } else if c :| c in classes && Says(ps, "___jsonclass", c) {
      assert StringAt(RewrittenProps(ps), "___jsonclass") == Some(c);
    }
  }

  /** Every way to a container leads to the one object that stands for it, an instance of its class if it
      is mapped, and never to the object the instance replaced; whatever became of the data. */
  lemma PathLeadsToInstance(
    h: Heap, root: nat, h': Heap, addrs: seq<nat>, classes: set<string>, path: seq<string>, a: nat)
    requires PlainHeap(h) && root in h
    requires Encode(h, [], Ref(root)).0.Node? ==>
      Holds(h', addrs, Decode(Encode(h, [], Ref(root)).0, classes))
    requires Follow(h, Ref(root), path) == Some(Ref(a))
    ensures addrs != [] && a in h
    ensures a in Encode(h, [], Ref(root)).1 && |Encode(h, [], Ref(root)).1| == |addrs|
    ensures Follow(h', Ref(addrs[0]), path) == Some(Ref(Standing(h, root, addrs, a)))
    ensures var b := Standing(h, root, addrs, a);
      b in h' && ClassSaid(h[a].props, classes, h'[b].clazz)
  {
    hide ClassSaid;
    var order := Encode(h, [], Ref(root)).1;
    DecodeEncode(h, root, classes);
    OpenedIsReached(h, root);
    IndexOfUnique(order, root, 0);
    Track(h, order, h', addrs, classes, root, path);
    SaidLaw(h[a].props, classes);
    assert addrs[IndexOf(order, a)] in addrs;
  }

  /** Two paths to containers meet in the parsed graph exactly when they meet in the caller's, recoverable
      or not. */
  lemma PathsMeet(
    h: Heap, root: nat, h': Heap, addrs: seq<nat>, classes: set<string>, p: seq<string>, q: seq<string>, a: nat, b: nat)
    requires PlainHeap(h) && root in h
    requires Encode(h, [], Ref(root)).0.Node? ==>
      Holds(h', addrs, Decode(Encode(h, [], Ref(root)).0, classes))
    requires Follow(h, Ref(root), p) == Some(Ref(a)) && Follow(h, Ref(root), q) == Some(Ref(b))
    ensures addrs != []
    ensures Follow(h', Ref(addrs[0]), p) == Follow(h', Ref(addrs[0]), q) <==> a == b
  {
    hide PlainHeap, Encode, Follow, Decode;
    DecodeEncode(h, root, classes);
    PathLeadsToInstance(h, root, h', addrs, classes, p, a);
    PathLeadsToInstance(h, root, h', addrs, classes, q, b);
    TwinInjective(Encode(h, [], Ref(root)).1, addrs, a, b);
  }

  /** The same with the two implementations: `parse` never fails on what `stringify` printed. */
  method StringifyThenParse(heap: Heap, root: nat, classes: set<string>, textHasDates: bool, textHasRefs: bool)
    returns (ok: bool, heap': Heap, v: Value)
    requires PlainHeap(heap) && root in heap
    requires HasDates(Encode(heap, [], Ref(root)).0) ==> textHasDates
    requires var t := Encode(heap, [], Ref(root)).0;
      (t.Node? && HasReferences(t.members)) ==> textHasRefs
    ensures ok
    ensures Isomorphic(heap, Ref(root), heap', v) <==>
      forall a | Reaches(heap, root, a) :: a in heap && Recoverable(heap[a])
  {
    var encoder := new Encoder(heap);
    var text := encoder.Serialize("", Ref(root));
    DecodeEncode(heap, root, classes);
    var reviver := new Reviver(classes, textHasDates, textHasRefs);
    ok, v := reviver.Parse(text);
    heap' := reviver.heap;
    RoundTrip(heap, root, heap', NumberedFrom(text, 0, classes), classes);
  }
}
