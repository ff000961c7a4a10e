/** `parse(stringify(g))` of lib/util/json.js: the text `stringify` prints denotes the caller's graph
    container by container, and the parsed graph is isomorphic to it exactly when every date in it
    can be recovered. */
module JsonRoundTrip {
  import opened Options
  import opened Sequences
  import opened JsValues
  import opened JsonEncode
  import opened JsonDecode
  import opened JsonWalk
  import opened JsonPatch
  import opened JsonParse

  // ----- the image of a container

  /** The properties of a container after printing and reading back, dates being the only values
      that can change: an array's dates stay strings, and a string equal to a sibling date's
      timestamp becomes a date. */
  function RecoveredProps(o: Object): Props<Value> {
    ReviveDates(RewrittenProps(o.props), KeptStamps(o))
  }

  function KeptStamps(o: Object): Option<seq<string>> {
    var stamps := Stamps(o.props, []);
    if o.kind == Arr || stamps == [] then None else Some(stamps)
  }

  /** References replaced by the numbers of the containers they lead to. */
  function Canonical(v: Value, order: seq<nat>): Value {
    if v.Ref? && v.addr in order then Ref(IndexOf(order, v.addr)) else v
  }

  function CanonicalProps(ps: Props<Value>, order: seq<nat>): Props<Value> {
    match ps
    case Nil => Nil
    case Cons(k, v, rest) => Cons(k, Canonical(v, order), CanonicalProps(rest, order))
  }

  function Image(o: Object, order: seq<nat>, classes: set<string>): Object {
    Object(o.kind, NameOf(RewrittenProps(o.props), classes), CanonicalProps(RecoveredProps(o), order))
  }

  function Images(h: Heap, s: seq<nat>, order: seq<nat>, classes: set<string>): (os: seq<Object>)
    requires forall a | a in s :: a in h
    ensures |os| == |s| && forall i | 0 <= i < |s| :: os[i] == Image(h[s[i]], order, classes)
  {
    if s == [] then [] else [Image(h[s[0]], order, classes)] + Images(h, s[1..], order, classes)
  }

  lemma ImagesAppend(h: Heap, s: seq<nat>, s': seq<nat>, order: seq<nat>, classes: set<string>)
    requires (forall a | a in s :: a in h) && (forall a | a in s' :: a in h)
    ensures forall a | a in s + s' :: a in h
    ensures Images(h, s + s', order, classes) == Images(h, s, order, classes) + Images(h, s', order, classes)
  {
  }

  lemma ImagesSplit(
    h: Heap, order: seq<nat>, order1: seq<nat>, order2: seq<nat>, all: seq<nat>, classes: set<string>)
    requires order <= order1 <= order2 && forall a | a in order2 :: a in h
    ensures Images(h, order2[|order|..], all, classes) ==
            Images(h, order1[|order|..], all, classes) + Images(h, order2[|order1|..], all, classes)
    ensures order1 == order ==>
      Images(h, order2[|order|..], all, classes) == Images(h, order2[|order1|..], all, classes)
  {
    assert order2[|order|..] == order1[|order|..] + order2[|order1|..];
    ImagesAppend(h, order1[|order|..], order2[|order1|..], all, classes);
  }

  // ----- the ___dates___ member of the printed object

  lemma {:induction false} StampLeavesAre(stamps: seq<string>, i: nat)
    requires i <= |stamps|
    ensures var ms := StampLeaves(stamps, i);
      StringLeaves(ms) && Strings(ms) == stamps[i..] && DatesInOrderIn(ms)
    ensures !HasDatesIn(StampLeaves(stamps, i)) && WellFormedMembers(Arr, StampLeaves(stamps, i))
    ensures DistinctKeys(StampLeaves(stamps, i))
    ensures forall j | 0 <= j < i :: !Has(StampLeaves(stamps, i), NatToString(j))
    decreases |stamps| - i
  {
    NatToStringValue(i);
    assert !IsDigit(DATES_FIELD[0]) && !IsDigit(OBJECTREF_FIELD[0]);
    assert IsDigit(NatToString(i)[0]);
    if i < |stamps| {
      StampLeavesAre(stamps, i + 1);
      forall j | 0 <= j < i ensures NatToString(j) != NatToString(i) {
        NatToStringValue(j);
      }
    }
  }

  lemma StampArrayIs(stamps: seq<string>)
    ensures var t := StampArray(stamps);
      IsStampArray(t) && Strings(t.members) == stamps && WellFormed(t) && DatesInOrder(t)
  {
    StampLeavesAre(stamps, 0);
  }

  // ----- every printed text is well formed

  lemma {:induction false} EncodedForm(h: Heap, order: seq<nat>, v: Value, total: nat)
    requires PlainHeap(h) && ValueIn(h, v) && OrderIn(h, order) && !v.DateList?
    requires |Encode(h, order, v).1| <= total
    ensures var (t, order') := Encode(h, order, v);
      && WellFormed(t) && DatesInOrder(t)
      && (t.Node? ==> RefsInRange(t.members, total))
      && (RefId(t).Some? ==> InRange(RefId(t).value, total))
      && (v.Ref? && v.addr in order ==> IsReference(t))
      && (v.Ref? && v.addr !in order ==> t.Node? && !IsReference(t))
      && Count("", t) == |order'| - |order|
    decreases Unseen(h, order), v, 0
  {
    if v.Ref? && v.addr !in order {
      var a := v.addr;
      var o := h[a];
      assert a in Unseen(h, order) && a !in Unseen(h, order + [a]);
      assert Unseen(h, order + [a]) <= Unseen(h, order);
      EncodedMembers(h, order + [a], o.kind, o.props, total);
      var (ms, order') := EncodeProps(h, order + [a], o.props);
      PlainHasNot(o.props);
      WithDatesMember(o, ms, total);
    } else if v.Ref? {
      assert InRange(Num(IndexOf(order, v.addr) as real), total);
    }
  }

  lemma {:induction false} EncodedMembers(h: Heap, order: seq<nat>, kind: Kind, ps: Props<Value>, total: nat)
    requires PlainHeap(h) && PropsIn(h, ps) && OrderIn(h, order)
    requires PlainProps(ps) && DistinctKeys(ps) && (kind == Arr ==> IndexKeys(ps))
    requires |EncodeProps(h, order, ps).1| <= total
    ensures var (ms, order') := EncodeProps(h, order, ps);
      && WellFormedMembers(kind, ms) && DatesInOrderIn(ms) && RefsInRange(ms, total)
      && (forall k :: Has(ms, k) <==> Has(ps, k)) && DistinctKeys(ms)
      && CountIn(ms) == |order'| - |order|
    decreases Unseen(h, order), ps, 1
  {
    if ps.Cons? {
      var (t, order1) := Encode(h, order, ps.val);
      assert Unseen(h, order1) <= Unseen(h, order);
      EncodedForm(h, order, ps.val, total);
      EncodedMembers(h, order1, kind, ps.rest, total);
      assert ps.key != DATES_FIELD && ps.key != OBJECTREF_FIELD;
      assert Count(ps.key, t) == Count("", t);
      var ms := EncodeProps(h, order, ps).0;
      forall k ensures Has(ms, k) <==> Has(ps, k) {
        assert Has(ms.rest, k) <==> Has(ps.rest, k);
      }
    }
  }

  /** Printing the list of timestamps after the other members. */
  lemma WithDatesMember(o: Object, ms: Props<Json>, total: nat)
    requires WellFormedMembers(o.kind, ms) && DistinctKeys(ms) && DatesInOrderIn(ms) && RefsInRange(ms, total)
    requires !Has(ms, DATES_FIELD) && !Has(ms, OBJECTREF_FIELD)
    ensures var t := Node(o.kind, Append(ms, DatesMember(o)));
      && WellFormed(t) && DatesInOrder(t) && RefsInRange(t.members, total) && !IsReference(t)
      && CountIn(t.members) == CountIn(ms)
  {
    StampArrayIs(Stamps(o.props, []));
    AppendNil(ms);
    WithLast(o.kind, ms, DATES_FIELD, StampArray(Stamps(o.props, [])), total);
    LookupAppend(ms, DatesMember(o), OBJECTREF_FIELD);
  }

  lemma {:induction false} WithLast(kind: Kind, ms: Props<Json>, k: string, t: Json, total: nat)
    requires WellFormedMembers(kind, ms) && DistinctKeys(ms) && DatesInOrderIn(ms) && RefsInRange(ms, total)
    requires k == DATES_FIELD && !Has(ms, k) && IsStampArray(t) && WellFormed(t) && DatesInOrder(t)
    ensures var all := Append(ms, Cons(k, t, Nil));
      && (kind == Obj ==> WellFormedMembers(kind, all))
      && DistinctKeys(all) && DatesInOrderIn(all) && RefsInRange(all, total) && CountIn(all) == CountIn(ms)
  {
    if ms.Cons? {
      WithLast(kind, ms.rest, k, t, total);
      LookupAppend(ms.rest, Cons(k, t, Nil), ms.key);
    } else {
      StampsRange(t.members, total);
    }
  }

  lemma {:induction false} StampsRange(ms: Props<Json>, total: nat)
    requires StringLeaves(ms)
    ensures RefsInRange(ms, total)
  {
    if ms.Cons? { StampsRange(ms.rest, total); }
  }

  // ----- decoding what was encoded

  lemma {:induction false} CanonicalRevive(ps: Props<Value>, order: seq<nat>, dates: Option<seq<string>>)
    ensures CanonicalProps(ReviveDates(ps, dates), order) == ReviveDates(CanonicalProps(ps, order), dates)
  {
    if ps.Cons? {
      CanonicalRevive(ps.rest, order, dates);
    }
  }

  lemma {:induction false} SlotsAppendDates(ms: Props<Json>, t: Json, base: nat, total: nat)
    requires !Has(ms, DATES_FIELD)
    ensures var tail := Cons(DATES_FIELD, t, Nil);
      && Slots(Append(ms, tail), base, total) == Append(Slots(ms, base, total), Cons(DATES_FIELD, Prim(Null), Nil))
      && !Has(Slots(ms, base, total), DATES_FIELD)
  {
    if ms.Cons? {
      SlotsAppendDates(ms.rest, t, base + Count(ms.key, ms.val), total);
    }
  }

  lemma {:induction false} ContainersAppendDates(
    ms: Props<Json>, t: Json, base: nat, total: nat, classes: set<string>)
    ensures Containers(Append(ms, Cons(DATES_FIELD, t, Nil)), base, total, classes) ==
            Containers(ms, base, total, classes)
  {
    if ms.Cons? {
      ContainersAppendDates(ms.rest, t, base + Count(ms.key, ms.val), total, classes);
    }
  }

  lemma {:induction false} TextOfEncoded(h: Heap, order: seq<nat>, ps: Props<Value>, key: string)
    requires PlainHeap(h) && PropsIn(h, ps) && OrderIn(h, order) && PlainProps(ps)
    ensures TextAt(EncodeProps(h, order, ps).0, key) == StringAt(RewrittenProps(ps), key)
    ensures Has(EncodeProps(h, order, ps).0, key) <==> Has(ps, key)
    decreases ps
  {
    if ps.Cons? {
      TextOfEncoded(h, Encode(h, order, ps.val).1, ps.rest, key);
    }
  }

  /** The ___dates___ member is read and then dropped. */
  lemma DatesMemberRead(o: Object, ms: Props<Json>, base: nat, total: nat, classes: set<string>)
    requires !Has(ms, DATES_FIELD)
    ensures var t := Node(o.kind, Append(ms, DatesMember(o)));
      && Remove(ReviveDates(Slots(t.members, base, total), DatesOf(t.members)), DATES_FIELD) ==
         ReviveDates(Slots(ms, base, total), KeptStamps(o))
      && ClassOf(t.members, classes) == ClassOf(ms, classes)
      && Containers(t.members, base, total, classes) == Containers(ms, base, total, classes)
  {
    var stamps := Stamps(o.props, []);
    var last := StampArray(stamps);
    var tail := Cons(DATES_FIELD, last, Nil);
    var kept := KeptStamps(o);
    AppendNil(ms);
    SlotsAppendDates(ms, last, base, total);
    ContainersAppendDates(ms, last, base, total, classes);
    var slots := Slots(ms, base, total);
    LookupReviveDates(slots, kept, DATES_FIELD);
    RemoveAppend(ReviveDates(slots, kept), DATES_FIELD, Prim(Null));
    if kept.Some? {
      StampArrayIs(stamps);
      LookupAppend(ms, tail, DATES_FIELD);
      LookupAppend(ms, tail, "___class");
      LookupAppend(ms, tail, "___jsonclass");
      ReviveDatesAppend(slots, Cons(DATES_FIELD, Prim(Null), Nil), kept);
    }
  }

  /** The text `ms` of the values `ps`, whose containers are numbered from |order| on. */
  ghost predicate Decoded(
    h: Heap, ms: Props<Json>, ps: Props<Value>, order: seq<nat>, order': seq<nat>, all: seq<nat>, classes: set<string>)
    requires forall a | a in order' :: a in h
  {
    && order <= order'
    && Slots(ms, |order|, |all|) == CanonicalProps(RewrittenProps(ps), all)
    && Containers(ms, |order|, |all|, classes) == Images(h, order'[|order|..], all, classes)
  }

  lemma {:induction false} DecodedCons(
    h: Heap, k: string, t: Json, ts: Props<Json>, v: Value, rest: Props<Value>,
    order: seq<nat>, order1: seq<nat>, order2: seq<nat>, all: seq<nat>, classes: set<string>)
    requires order <= order1 <= order2 && forall a | a in order2 :: a in h
    requires Slot(k, t, |order|, |all|) == Canonical(Rewritten(v), all)
    requires Count(k, t) == |order1| - |order|
    requires Count(k, t) != 0 ==>
      ContainersFrom(t, |order|, |all|, classes) == Images(h, order1[|order|..], all, classes)
    requires Decoded(h, ts, rest, order1, order2, all, classes)
    ensures Decoded(h, Cons(k, t, ts), Cons(k, v, rest), order, order2, all, classes)
  {
    hide Slots, Slot, Containers, ContainersFrom, Images, Count, Canonical, Rewritten;
    ImagesSplit(h, order, order1, order2, all, classes);
    ContainersCons(k, t, ts, |order|, |all|, classes,
                   Images(h, order1[|order|..], all, classes), Images(h, order2[|order1|..], all, classes));
    SlotsCons(k, t, ts, |order|, |order1|, |all|);
  }

  lemma SlotsCons(k: string, t: Json, ts: Props<Json>, base: nat, base1: nat, total: nat)
    requires base1 == base + Count(k, t)
    ensures Slots(Cons(k, t, ts), base, total) == Cons(k, Slot(k, t, base, total), Slots(ts, base1, total))
  {
  }

  lemma ContainersCons(
    k: string, t: Json, ts: Props<Json>, base: nat, total: nat, classes: set<string>,
    own: seq<Object>, more: seq<Object>)
    requires Count(k, t) != 0 ==> ContainersFrom(t, base, total, classes) == own
    requires Count(k, t) == 0 ==> own == []
    requires Containers(ts, base + Count(k, t), total, classes) == more
    ensures Containers(Cons(k, t, ts), base, total, classes) == own + more
  {
  }

  /** What the text of a list of values denotes, `all` being the order at the end of the walk. */
  lemma {:induction false} DecodeMembers(
    h: Heap, order: seq<nat>, kind: Kind, ps: Props<Value>, all: seq<nat>, classes: set<string>)
    requires PlainHeap(h) && PropsIn(h, ps) && OrderIn(h, order) && OrderIn(h, all)
    requires PlainProps(ps) && DistinctKeys(ps) && (kind == Arr ==> IndexKeys(ps))
    requires EncodeProps(h, order, ps).1 <= all
    ensures var (ms, order') := EncodeProps(h, order, ps);
      Decoded(h, ms, ps, order, order', all, classes)
    decreases Unseen(h, order), ps, 1
  {
    if ps.Cons? {
      var (t, order1) := Encode(h, order, ps.val);
      var (ms, order2) := EncodeProps(h, order1, ps.rest);
      assert Unseen(h, order1) <= Unseen(h, order);
      EncodedForm(h, order, ps.val, |all|);
      assert order1 <= all;
      DecodeValue(h, order, ps.key, ps.val, all, classes);
      DecodeMembers(h, order1, kind, ps.rest, all, classes);
      DecodedCons(h, ps.key, t, ms, ps.val, ps.rest, order, order1, order2, all, classes);
    }
  }

  lemma {:induction false} DecodeValue(
    h: Heap, order: seq<nat>, k: string, v: Value, all: seq<nat>, classes: set<string>)
    requires PlainHeap(h) && ValueIn(h, v) && OrderIn(h, order) && OrderIn(h, all) && !v.DateList?
    requires k != DATES_FIELD && Encode(h, order, v).1 <= all
    ensures var (t, order') := Encode(h, order, v);
      && Slot(k, t, |order|, |all|) == Canonical(Rewritten(v), all)
      && (Count(k, t) == 0 ==> order' == order)
      && (Count(k, t) != 0 ==>
            ContainersFrom(t, |order|, |all|, classes) == Images(h, order'[|order|..], all, classes))
    decreases Unseen(h, order), v, 0
  {
    EncodedForm(h, order, v, |all|);
    if v.Ref? && v.addr in order {
      assert order <= all;
      IndexOfPrefix(order, all, v.addr);
    } else if v.Ref? {
      var a := v.addr;
      var begun := order + [a];
      assert a in Unseen(h, order) && a !in Unseen(h, begun);
      assert Unseen(h, begun) <= Unseen(h, order);
      DecodeMembers(h, begun, h[a].kind, h[a].props, all, classes);
      assert all[|order|] == a by { assert begun <= all; }
      IndexOfUnique(all, a, |order|);
      OpenedContainer(h, order, a, all, classes);
    }
  }

  /** The container just opened, once its members are known. */
  lemma OpenedContainer(h: Heap, order: seq<nat>, a: nat, all: seq<nat>, classes: set<string>)
    requires PlainHeap(h) && a in h && OrderIn(h, order + [a]) && OrderIn(h, all)
    requires var (ms, order') := EncodeProps(h, order + [a], h[a].props);
      Decoded(h, ms, h[a].props, order + [a], order', all, classes)
    ensures var (ms, order') := EncodeProps(h, order + [a], h[a].props);
      var t := Node(h[a].kind, Append(ms, DatesMember(h[a])));
      ContainersFrom(t, |order|, |all|, classes) == Images(h, order'[|order|..], all, classes)
  {
    var order' := EncodeProps(h, order + [a], h[a].props).1;
    assert order'[|order|..] == [a] + order'[|order| + 1..];
    ImagesAppend(h, [a], order'[|order| + 1..], all, classes);
    var o := h[a];
    var ms := EncodeProps(h, order + [a], o.props).0;
    PlainHasNot(o.props);
    TextOfEncoded(h, order + [a], o.props, DATES_FIELD);
    TextOfEncoded(h, order + [a], o.props, "___class");
    TextOfEncoded(h, order + [a], o.props, "___jsonclass");
    DatesMemberRead(o, ms, |order| + 1, |all|, classes);
    CanonicalRevive(RewrittenProps(o.props), all, KeptStamps(o));
  }

  /** Container by container, the printed text denotes the caller's graph: the i-th container of the
      text is the image of the i-th container the walk opened. */
  lemma DecodeEncode(h: Heap, root: nat, classes: set<string>)
    requires PlainHeap(h) && root in h
    ensures var (t, order) := Encode(h, [], Ref(root));
      && t.Node? && WellFormed(t) && DatesInOrder(t) && RefsInRange(t.members, Total(t))
      && |order| == Total(t) && order != [] && order[0] == root
      && Decode(t, classes) == Images(h, order, order, classes)
  {
    var (t, order) := Encode(h, [], Ref(root));
    EncodedForm(h, [], Ref(root), |order|);
    DecodeValue(h, [], "", Ref(root), order, classes);
    assert order[0..] == order;
    assert [] + [root] <= order;
  }

  // ----- when every value of a container survives

  predicate HasStamp(ps: Props<Value>, s: string) {
    match ps
    case Nil => false
    case Cons(_, v, rest) => (v.Date? && Stamp(v.time) == s) || HasStamp(rest, s)
  }

  /** No date in an array, and no string that equals the timestamp of a date in the same object. */
  ghost predicate Recoverable(o: Object) {
    if o.kind == Arr then DateFree(o.props)
    else forall k | Has(o.props, k) && Lookup(o.props, k).value.Prim? && Lookup(o.props, k).value.p.Str? ::
      !HasStamp(o.props, Lookup(o.props, k).value.p.s)
  }

  lemma {:induction false} StampsAre(ps: Props<Value>, found: seq<string>, s: string)
    ensures s in Stamps(ps, found) <==> s in found || HasStamp(ps, s)
    decreases ps
  {
    if ps.Cons? {
      var found' := if ps.val.Date? && Stamp(ps.val.time) !in found then found + [Stamp(ps.val.time)] else found;
      StampsAre(ps.rest, found', s);
    }
  }

  /** The list of dates names each stamp once. */
  lemma {:induction false} StampsDistinct(ps: Props<Value>, found: seq<string>)
    requires NoDup(found)
    ensures NoDup(Stamps(ps, found)) && found <= Stamps(ps, found)
    decreases ps
  {
    if ps.Cons? {
      var found' := if ps.val.Date? && Stamp(ps.val.time) !in found then found + [Stamp(ps.val.time)] else found;
      StampsDistinct(ps.rest, found');
    }
  }

  /** The list itself is printed as an array of strings, under its indices. */
  lemma {:induction false} StampLeavesAt(stamps: seq<string>, i: nat)
    requires i <= |stamps|
    ensures |Keys(StampLeaves(stamps, i))| == |stamps| - i
    ensures forall j | i <= j < |stamps| ::
      && Keys(StampLeaves(stamps, i))[j - i] == NatToString(j)
      && Lookup(StampLeaves(stamps, i), NatToString(j)) == Some(Leaf(Str(stamps[j])))
    decreases |stamps| - i
  {
    hide NatToString;
    if i < |stamps| {
      StampLeavesAt(stamps, i + 1);
      forall j | i <= j < |stamps|
        ensures Keys(StampLeaves(stamps, i))[j - i] == NatToString(j)
          && Lookup(StampLeaves(stamps, i), NatToString(j)) == Some(Leaf(Str(stamps[j])))
      {
        IndicesDiffer(i, j);
        if j > i { assert Keys(StampLeaves(stamps, i + 1))[j - (i + 1)] == NatToString(j); }
      }
    }
  }

  /** The dates of an object are printed in one member, the list of their stamps, each once and by index. */
  lemma DatesPrinted(o: Object)
    ensures var stamps := Stamps(o.props, []);
      && NoDup(stamps) && (forall s :: s in stamps <==> HasStamp(o.props, s))
      && if o.kind == Arr || stamps == [] then DatesMember(o) == Nil
         else
           exists list ::
             && DatesMember(o) == Cons("___dates___", Node(Arr, list), Nil)
             && |Keys(list)| == |stamps|
             && forall j | 0 <= j < |stamps| ::
                  Keys(list)[j] == NatToString(j) && Lookup(list, NatToString(j)) == Some(Leaf(Str(stamps[j])))
  {
    var stamps := Stamps(o.props, []);
    StampsDistinct(o.props, []);
    forall s ensures s in stamps <==> HasStamp(o.props, s) { StampsAre(o.props, [], s); }
    StampLeavesAt(stamps, 0);
  }

  lemma {:induction false} LookupRewritten(ps: Props<Value>, k: string)
    ensures Has(RewrittenProps(ps), k) <==> Has(ps, k)
    ensures Has(ps, k) ==> Lookup(RewrittenProps(ps), k) == Some(Rewritten(Lookup(ps, k).value))
    ensures Keys(RewrittenProps(ps)) == Keys(ps)
  {
    if ps.Cons? {
      LookupRewritten(ps.rest, k);
    }
  }

  /** What becomes of one value. */
  function Recovered(o: Object, v: Value): Value {
    if KeptStamps(o).Some? then ReviveDate(Rewritten(v), KeptStamps(o).value) else Rewritten(v)
  }

  lemma LookupRecovered(o: Object, k: string)
    ensures Has(RecoveredProps(o), k) <==> Has(o.props, k)
    ensures Has(o.props, k) ==> Lookup(RecoveredProps(o), k) == Some(Recovered(o, Lookup(o.props, k).value))
    ensures Keys(RecoveredProps(o)) == Keys(o.props)
  {
    LookupRewritten(o.props, k);
    LookupReviveDates(RewrittenProps(o.props), KeptStamps(o), k);
  }

  lemma {:induction false} DateHasStamp(ps: Props<Value>, k: string)
    requires Has(ps, k) && Lookup(ps, k).value.Date?
    ensures HasStamp(ps, Stamp(Lookup(ps, k).value.time)) && !DateFree(ps)
  {
    if ps.key != k {
      DateHasStamp(ps.rest, k);
    }
  }

  /** One value survives unless it is a date in an array or a string beside a date of that timestamp. */
  lemma ValueRecovered(o: Object, k: string)
    requires Has(o.props, k)
    ensures var v := Lookup(o.props, k).value;
      Recovered(o, v) == v <==>
      !(v.Date? && o.kind == Arr) && !(o.kind == Obj && v.Prim? && v.p.Str? && HasStamp(o.props, v.p.s))
  {
    var v := Lookup(o.props, k).value;
    match v {
      case Date(time) =>
        StampsAre(o.props, [], Stamp(time));
        DateHasStamp(o.props, k);
        ParseIntStamp(time);
      case Prim(Str(s)) =>
        StampsAre(o.props, [], s);
      case _ =>
    }
  }

  lemma {:induction false} SomeDate(ps: Props<Value>)
    requires !DateFree(ps) && DistinctKeys(ps)
    ensures exists k :: Has(ps, k) && Lookup(ps, k).value.Date?
  {
    if ps.val.Date? {
      assert Has(ps, ps.key) && Lookup(ps, ps.key).value.Date?;
    } else {
      SomeDate(ps.rest);
      var k :| Has(ps.rest, k) && Lookup(ps.rest, k).value.Date?;
      assert k != ps.key && Has(ps, k);
    }
  }

  /** The condition a caller can check is exact. */
  lemma RecoverableIsExact(o: Object)
    requires DistinctKeys(o.props)
    ensures Recoverable(o) ==> RecoveredProps(o) == o.props
    ensures !Recoverable(o) ==> exists k ::
      && Has(o.props, k) && !Lookup(o.props, k).value.Ref?
      && Recovered(o, Lookup(o.props, k).value) != Lookup(o.props, k).value
  {
    if Recoverable(o) {
      forall k | Has(o.props, k) ensures Lookup(o.props, k) == Lookup(RecoveredProps(o), k) {
        LookupRecovered(o, k);
        ValueRecovered(o, k);
        if Lookup(o.props, k).value.Date? { DateHasStamp(o.props, k); }
      }
      LookupRecovered(o, "");
      PropsExtensional(o.props, RecoveredProps(o));
    } else if o.kind == Arr {
      SomeDate(o.props);
      var k :| Has(o.props, k) && Lookup(o.props, k).value.Date?;
      ValueRecovered(o, k);
    } else {
      var k :| Has(o.props, k) && Lookup(o.props, k).value.Prim? && Lookup(o.props, k).value.p.Str?
        && HasStamp(o.props, Lookup(o.props, k).value.p.s);
      ValueRecovered(o, k);
    }
  }
}
