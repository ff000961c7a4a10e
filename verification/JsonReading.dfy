/** What a text says, container by container and member by member: the graph it denotes read off its
    members, with the field names of the format written out. */
module JsonReading {
  import opened Options
  import opened JsValues
  import opened JsonDecode
  import opened JsonWalk

  /** The object stands for another container. */
  predicate PointsElsewhere(t: Json) {
    t.Node? && Has(t.members, "___objectref") && Lookup(t.members, "___objectref") != Some(Leaf(Null))
  }

  /** The containers written out in full, in the order in which they begin. */
  function Texts(t: Json): seq<Json>
    requires t.Node?
  {
    [t] + TextsIn(t.members)
  }

  function TextsIn(ms: Props<Json>): seq<Json> {
    match ms
    case Nil => []
    case Cons(k, v, rest) =>
      (if k == "___dates___" || v.Leaf? || PointsElsewhere(v) then [] else [v] + TextsIn(v.members)) + TextsIn(rest)
  }

  /** The members written before the one with that key. */
  function Preceding<V>(ms: Props<V>, key: string): Props<V> {
    match ms
    case Nil => Nil
    case Cons(k, v, rest) => if k == key then Nil else Cons(k, v, Preceding(rest, key))
  }

  /** The string is listed as the stamp of a date. */
  ghost predicate Dated(ms: Props<Json>, s: string) {
    exists list, j :: Lookup(ms, "___dates___") == Some(Node(Arr, list)) && Lookup(list, j) == Some(Leaf(Str(s)))
  }

  /** The class the container is an instance of: the one `___class` names if it is mapped, else the one
      `___jsonclass` names if that is, else none. */
  ghost predicate ClassIs(ms: Props<Json>, classes: set<string>, clazz: Option<string>) {
    if exists c :: c in classes && Lookup(ms, "___class") == Some(Leaf(Str(c)))
    then clazz.Some? && clazz.value in classes && Lookup(ms, "___class") == Some(Leaf(Str(clazz.value)))
    else if exists c :: c in classes && Lookup(ms, "___jsonclass") == Some(Leaf(Str(c)))
    then clazz.Some? && clazz.value in classes && Lookup(ms, "___jsonclass") == Some(Leaf(Str(clazz.value)))
    else clazz == None
  }

  /** The same of an object with its members parsed. */
  ghost predicate ClassHeld(ps: Props<Value>, classes: set<string>, clazz: Option<string>) {
    if exists c :: c in classes && Lookup(ps, "___class") == Some(Prim(Str(c)))
    then clazz.Some? && clazz.value in classes && Lookup(ps, "___class") == Some(Prim(Str(clazz.value)))
    else if exists c :: c in classes && Lookup(ps, "___jsonclass") == Some(Prim(Str(c)))
    then clazz.Some? && clazz.value in classes && Lookup(ps, "___jsonclass") == Some(Prim(Str(clazz.value)))
    else clazz == None
  }

  lemma HeldLaw(ps: Props<Value>, classes: set<string>)
    ensures ClassHeld(ps, classes, NameOf(ps, classes))
  {
    if c :| c in classes && Lookup(ps, "___class") == Some(Prim(Str(c))) {
      assert StringAt(ps, "___class") == Some(c);
    } else if c :| c in classes && Lookup(ps, "___jsonclass") == Some(Prim(Str(c))) {
      assert StringAt(ps, "___jsonclass") == Some(c);
    }
  }

  // ----- the containers

  /** The object is container number `base + i` for the text number `i`. */
  ghost predicate Written(
    texts: seq<Json>, objects: seq<Object>, base: nat, total: nat, classes: set<string>)
  {
    && |texts| == |objects|
    && forall i | 0 <= i < |texts| ::
         texts[i].Node? && WellFormed(texts[i]) && objects[i] == Container(texts[i], base + i, total, classes)
  }

  lemma WrittenAppend(
    a: seq<Json>, b: seq<Json>, x: seq<Object>, y: seq<Object>, base: nat, total: nat, classes: set<string>)
    requires Written(a, x, base, total, classes) && Written(b, y, base + |a|, total, classes)
    ensures Written(a + b, x + y, base, total, classes)
  {
    hide WellFormed, Container;
    forall i | 0 <= i < |a + b|
      ensures (a + b)[i].Node? && WellFormed((a + b)[i])
        && (x + y)[i] == Container((a + b)[i], base + i, total, classes)
    {
      if i >= |a| { assert (a + b)[i] == b[i - |a|] && (x + y)[i] == y[i - |a|]; }
    }
  }

  lemma SameReference(t: Json)
    ensures IsReference(t) == PointsElsewhere(t)
  {
  }

  /** Not written out as a container of the graph. */
  predicate Skipped(k: string, v: Json) {
    k == "___dates___" || v.Leaf? || PointsElsewhere(v)
  }

  lemma SkippedCounts(k: string, v: Json)
    ensures Count(k, v) == if Skipped(k, v) then 0 else 1 + CountIn(v.members)
  {
    hide IsReference, PointsElsewhere, CountIn;
    SameReference(v);
  }

  lemma SkippedTexts(k: string, v: Json, rest: Props<Json>)
    ensures TextsIn(Cons(k, v, rest)) ==
            if Skipped(k, v) then TextsIn(rest) else ([v] + TextsIn(v.members)) + TextsIn(rest)
  {
    hide PointsElsewhere;
    assert [] + TextsIn(rest) == TextsIn(rest);
  }

  lemma SkippedContainers(k: string, v: Json, rest: Props<Json>, base: nat, total: nat, classes: set<string>)
    ensures var more := Containers(rest, base + Count(k, v), total, classes);
      Containers(Cons(k, v, rest), base, total, classes) ==
        if Count(k, v) == 0 then more
        else ([Container(v, base, total, classes)] + Containers(v.members, base + 1, total, classes)) + more
  {
    hide Container, IsReference, CountIn;
  }

  /** A member that is skipped adds nothing, any other itself and what is inside. */
  lemma MemberAdds(k: string, v: Json, rest: Props<Json>, base: nat, total: nat, classes: set<string>)
    ensures var more := Containers(rest, base + Count(k, v), total, classes);
      if Count(k, v) == 0 then
        TextsIn(Cons(k, v, rest)) == TextsIn(rest) && Containers(Cons(k, v, rest), base, total, classes) == more
      else
        && v.Node? && Count(k, v) == 1 + CountIn(v.members)
        && TextsIn(Cons(k, v, rest)) == ([v] + TextsIn(v.members)) + TextsIn(rest)
        && Containers(Cons(k, v, rest), base, total, classes) ==
           ([Container(v, base, total, classes)] + Containers(v.members, base + 1, total, classes)) + more
  {
    hide Container, Count, TextsIn, Containers, CountIn, PointsElsewhere;
    SkippedCounts(k, v);
    SkippedTexts(k, v, rest);
    SkippedContainers(k, v, rest, base, total, classes);
  }

  lemma {:induction false} TextsAre(kind: Kind, ms: Props<Json>, base: nat, total: nat, classes: set<string>)
    requires WellFormedMembers(kind, ms)
    ensures |TextsIn(ms)| == CountIn(ms)
    ensures Written(TextsIn(ms), Containers(ms, base, total, classes), base, total, classes)
    decreases ms
  {
    hide Written, Container, Count, Containers, TextsIn;
    if ms.Nil? {
      NoTexts(base, total, classes);
    } else {
      var v, rest := ms.val, ms.rest;
      MemberAdds(ms.key, v, rest, base, total, classes);
      TextsAre(kind, rest, base + Count(ms.key, v), total, classes);
      if Count(ms.key, v) != 0 {
        TextsAre(v.kind, v.members, base + 1, total, classes);
        WrittenOne(v, base, total, classes);
        var own, objects := TextsIn(v.members), Containers(v.members, base + 1, total, classes);
        WrittenAppend([v], own, [Container(v, base, total, classes)], objects, base, total, classes);
        WrittenAppend([v] + own, TextsIn(rest), [Container(v, base, total, classes)] + objects,
                      Containers(rest, base + Count(ms.key, v), total, classes), base, total, classes);
      }
    }
  }

  lemma NoTexts(base: nat, total: nat, classes: set<string>)
    ensures TextsIn(Nil) == [] && Written([], Containers(Nil, base, total, classes), base, total, classes)
  {
  }

  lemma WrittenOne(t: Json, base: nat, total: nat, classes: set<string>)
    requires t.Node? && WellFormed(t)
    ensures Written([t], [Container(t, base, total, classes)], base, total, classes)
  {
    hide Container;
  }

  lemma TextsWritten(t: Json, classes: set<string>)
    requires t.Node? && WellFormed(t)
    ensures Written(Texts(t), Decode(t, classes), 0, Total(t), classes)
  {
    hide Written, Container;
    TextsAre(t.kind, t.members, 1, Total(t), classes);
    WrittenOne(t, 0, Total(t), classes);
    WrittenAppend([t], TextsIn(t.members), [Container(t, 0, Total(t), classes)],
                  Containers(t.members, 1, Total(t), classes), 0, Total(t), classes);
  }

  /** What is written inside a container follows it. */
  ghost predicate Follows(texts: seq<Json>, i: nat, inside: seq<Json>) {
    i + 1 + |inside| <= |texts| && texts[i + 1..i + 1 + |inside|] == inside
  }

  lemma FollowsWithin(a: seq<Json>, texts: seq<Json>, b: seq<Json>, i: nat, inside: seq<Json>)
    requires Follows(texts, i, inside)
    ensures Follows(a + texts + b, |a| + i, inside)
  {
    var all, from, to := a + texts + b, i + 1, i + 1 + |inside|;
    assert all[|a| + from..|a| + to] == texts[from..to];
  }

  lemma {:induction false} TextsFollow(ms: Props<Json>, i: nat)
    requires i < |TextsIn(ms)|
    ensures TextsIn(ms)[i].Node? && Follows(TextsIn(ms), i, TextsIn(TextsIn(ms)[i].members))
    decreases ms
  {
    hide Follows, PointsElsewhere;
    var v, rest := ms.val, TextsIn(ms.rest);
    if ms.key == "___dates___" || v.Leaf? || PointsElsewhere(v) {
      TextsFollow(ms.rest, i);
      assert [] + rest == rest;
    } else {
      var below := TextsIn(v.members);
      assert TextsIn(ms) == [v] + below + rest;
      if i == 0 {
        HeadFollows(v, below, rest);
      } else if i <= |below| {
        TextsFollow(v.members, i - 1);
        FollowsWithin([v], below, rest, i - 1, TextsIn(below[i - 1].members));
      } else {
        var k := i - 1 - |below|;
        TextsFollow(ms.rest, k);
        FollowsWithin([v] + below, rest, [], k, TextsIn(rest[k].members));
        assert [v] + below + rest + [] == [v] + below + rest;
      }
    }
  }

  lemma HeadFollows(v: Json, below: seq<Json>, rest: seq<Json>)
    ensures Follows([v] + below + rest, 0, below)
  {
    assert ([v] + below + rest)[1..1 + |below|] == below;
  }

  lemma {:induction false} SlotAt(ms: Props<Json>, base: nat, total: nat, key: string)
    ensures Lookup(Slots(ms, base, total), key) ==
      if !Has(ms, key) then None
      else Some(Slot(key, Lookup(ms, key).value, base + CountIn(Preceding(ms, key)), total))
    decreases ms
  {
    if ms.Cons? && ms.key != key { SlotAt(ms.rest, base + Count(ms.key, ms.val), total, key); }
  }

  lemma {:induction false} SlotsDistinct(ms: Props<Json>, base: nat, total: nat)
    requires DistinctKeys(ms)
    ensures DistinctKeys(Slots(ms, base, total))
    decreases ms
  {
    if ms.Cons? {
      SlotAt(ms.rest, base + Count(ms.key, ms.val), total, ms.key);
      SlotsDistinct(ms.rest, base + Count(ms.key, ms.val), total);
    }
  }

  lemma {:induction false} TextOfMember(kind: Kind, ms: Props<Json>, key: string)
    requires WellFormedMembers(kind, ms) && Has(ms, key)
    ensures |TextsIn(Preceding(ms, key))| == CountIn(Preceding(ms, key))
    ensures var v, j := Lookup(ms, key).value, |TextsIn(Preceding(ms, key))|;
      v.Node? && key != "___dates___" && !PointsElsewhere(v) ==> j < |TextsIn(ms)| && TextsIn(ms)[j] == v
    decreases ms
  {
    hide TextsIn, Count, Containers, PointsElsewhere, IsReference, Container;
    NoTexts(0, 0, {});
    MemberAdds(ms.key, ms.val, ms.rest, 0, 0, {});
    if ms.key == key {
      CountedMember(key, ms.val);
    } else {
      TextOfMember(kind, ms.rest, key);
      MemberAdds(ms.key, ms.val, Preceding(ms.rest, key), 0, 0, {});
      if Count(ms.key, ms.val) != 0 { TextsAre(ms.val.kind, ms.val.members, 0, 0, {}); }
    }
  }

  lemma CountedMember(key: string, v: Json)
    ensures v.Node? && key != "___dates___" && !PointsElsewhere(v) ==> Count(key, v) != 0
  {
    hide Count, PointsElsewhere;
    SkippedCounts(key, v);
  }

  // ----- what a container holds

  lemma ClassLaw(ms: Props<Json>, classes: set<string>)
    ensures ClassIs(ms, classes, ClassOf(ms, classes))
  {
    if c :| c in classes && Lookup(ms, "___class") == Some(Leaf(Str(c))) {
      assert TextAt(ms, "___class") == Some(c);
    } else if c :| c in classes && Lookup(ms, "___jsonclass") == Some(Leaf(Str(c))) {
      assert TextAt(ms, "___jsonclass") == Some(c);
    }
  }

  lemma {:induction false} StringsListed(ms: Props<Json>, s: string) returns (j: string)
    requires StringLeaves(ms) && DistinctKeys(ms) && s in Strings(ms)
    ensures Lookup(ms, j) == Some(Leaf(Str(s)))
    decreases ms
  {
    if ms.val.p.s == s {
      j := ms.key;
    } else {
      j := StringsListed(ms.rest, s);
      assert Has(ms.rest, j);
    }
  }

  lemma {:induction false} ListedStrings(ms: Props<Json>, s: string, j: string)
    requires StringLeaves(ms) && Lookup(ms, j) == Some(Leaf(Str(s)))
    ensures s in Strings(ms)
    decreases ms
  {
    if ms.key != j { ListedStrings(ms.rest, s, j); }
  }

  lemma DatedIs(kind: Kind, ms: Props<Json>, s: string)
    requires WellFormedMembers(kind, ms)
    ensures Dated(ms, s) <==> DatesOf(ms).Some? && s in DatesOf(ms).value
  {
    if Has(ms, DATES_FIELD) {
      WellFormedLookup(kind, ms, DATES_FIELD);
      var list := Lookup(ms, DATES_FIELD).value.members;
      if s in Strings(list) {
        var j := StringsListed(list, s);
        assert Lookup(ms, "___dates___") == Some(Node(Arr, list));
      }
      if list', j :| Lookup(ms, "___dates___") == Some(Node(Arr, list')) && Lookup(list', j) == Some(Leaf(Str(s))) {
        ListedStrings(list, s, j);
      }
    }
  }

  /** Container number `i` of the graph: its kind, its class and its keys. */
  lemma ReadsContainer(t: Json, classes: set<string>, i: nat)
    requires t.Node? && WellFormed(t) && i < |Decode(t, classes)|
    ensures |Texts(t)| == |Decode(t, classes)| && Texts(t)[i].Node?
    ensures var c, o := Texts(t)[i], Decode(t, classes)[i];
      && o.kind == c.kind && ClassIs(c.members, classes, o.clazz)
      && (forall k :: Has(o.props, k) <==> Has(c.members, k) && k != "___dates___")
  {
    hide WellFormed, ClassIs, Decode;
    TextsWritten(t, classes);
    var c := Texts(t)[i];
    ClassLaw(c.members, classes);
    forall k ensures Has(Decode(t, classes)[i].props, k) <==> Has(c.members, k) && k != "___dates___" {
      MemberLaw(c, i, Total(t), classes, k);
    }
  }

  lemma MemberLaw(c: Json, base: nat, total: nat, classes: set<string>, key: string)
    requires c.Node? && WellFormed(c)
    ensures Lookup(Container(c, base, total, classes).props, key) ==
      if !Has(c.members, key) || key == "___dates___" then None
      else
        var slot := Slot(key, Lookup(c.members, key).value, base + 1 + CountIn(Preceding(c.members, key)), total);
        Some(if DatesOf(c.members).Some? then ReviveDate(slot, DatesOf(c.members).value) else slot)
  {
    hide Slot, ReviveDate;
    var slots := Slots(c.members, base + 1, total);
    SlotAt(c.members, base + 1, total, key);
    SlotsDistinct(c.members, base + 1, total);
    LookupReviveDates(slots, DatesOf(c.members), key);
    LookupRemove(ReviveDates(slots, DatesOf(c.members)), DATES_FIELD, key);
  }

  /** A member of container number `i`: a listed stamp is the date it was written from, any other primitive
      is itself, a reference is the container with the number it carries, and an object or array written
      in full is the container it begins. */
  lemma ReadsMember(t: Json, classes: set<string>, i: nat, key: string)
    requires t.Node? && WellFormed(t) && i < |Decode(t, classes)| && i < |Texts(t)|
    requires Texts(t)[i].Node? && Has(Texts(t)[i].members, key) && key != "___dates___"
    ensures |Texts(t)| == |Decode(t, classes)| && Has(Decode(t, classes)[i].props, key)
    ensures var ms, o := Texts(t)[i].members, Decode(t, classes)[i];
      ValueIs(Texts(t), i, ms, Preceding(ms, key), Lookup(ms, key).value, Lookup(o.props, key).value)
  {
    hide WellFormed, Decode, Container, ValueIs, Slot, ReviveDate;
    TextsWritten(t, classes);
    MemberLaw(Texts(t)[i], i, Total(t), classes, key);
    ValueLaw(t, i, key);
  }

  /** The value of a member written as `v` behind the members `before` of container number `i`. */
  ghost predicate ValueIs(texts: seq<Json>, i: nat, ms: Props<Json>, before: Props<Json>, v: Json, x: Value) {
    if v.Leaf? then x == if v.p.Str? && Dated(ms, v.p.s) then Date(ParseInt(v.p.s)) else Prim(v.p)
    else if PointsElsewhere(v) then
      forall j: nat | j < |texts| && Lookup(v.members, "___objectref") == Some(Leaf(Num(j as real))) :: x == Ref(j)
    else
      var j := i + 1 + |TextsIn(before)|;
      j < |texts| && texts[j] == v && x == Ref(j)
  }

  lemma ValueLaw(t: Json, i: nat, key: string)
    requires t.Node? && WellFormed(t) && i < |Texts(t)| == Total(t) && Texts(t)[i].Node? && WellFormed(Texts(t)[i])
    requires Has(Texts(t)[i].members, key) && key != "___dates___"
    ensures var ms := Texts(t)[i].members; var v := Lookup(ms, key).value;
      var slot := Slot(key, v, i + 1 + CountIn(Preceding(ms, key)), Total(t));
      var x := if DatesOf(ms).Some? then ReviveDate(slot, DatesOf(ms).value) else slot;
      ValueIs(Texts(t), i, ms, Preceding(ms, key), v, x)
  {
    var c := Texts(t)[i];
    var ms := c.members;
    var v := Lookup(ms, key).value;
    if v.Leaf? {
      if v.p.Str? { DatedIs(c.kind, ms, v.p.s); }
    } else if !PointsElsewhere(v) {
      TextOfMember(c.kind, ms, key);
      PlaceLaw(t, i, |TextsIn(Preceding(ms, key))|);
    } else {
      WellFormedLookup(c.kind, ms, key);
      WellFormedLookup(v.kind, v.members, OBJECTREF_FIELD);
    }
  }

  /** The place of what is written inside container number `i`. */
  lemma PlaceLaw(t: Json, i: nat, j: nat)
    requires t.Node? && i < |Texts(t)| && Texts(t)[i].Node? && j < |TextsIn(Texts(t)[i].members)|
    ensures i + 1 + j < |Texts(t)| && Texts(t)[i + 1 + j] == TextsIn(Texts(t)[i].members)[j]
  {
    if i > 0 {
      TextsFollow(t.members, i - 1);
      var inside := TextsIn(Texts(t)[i].members);
      assert Texts(t)[i] == TextsIn(t.members)[i - 1];
      assert TextsIn(t.members)[i..i + |inside|][j] == inside[j];
    }
  }

  /** The numbers a reference may carry: those of the containers there are. */
  lemma RangeLaw(id: Prim, i: int, count: nat)
    ensures id == Num(i as real) ==> (InRange(id, count) <==> 0 <= i < count)
    ensures InRange(id, count) ==> id == Num(Index(id, count) as real)
    ensures !id.Num? ==> !InRange(id, count)
  {
  }

  // ----- stamps in decimal

  /** A number is written with its last decimal digit last. */
  lemma DecimalLaw(n: int, d: nat)
    requires n > 0 && d < 10
    ensures NatToString(d) == ["0123456789"[d]]
    ensures NatToString(10 * n + d) == NatToString(n) + ["0123456789"[d]]
  {
    assert (10 * n + d) / 10 == n && (10 * n + d) % 10 == d;
  }

  /** The sign of a date before 1970 comes first, and an invalid date is no number. */
  lemma StampLaw(n: int)
    requires n > 0
    ensures Stamp(Some(-n)) == "-" + NatToString(n) && Stamp(Some(n)) == NatToString(n)
    ensures Stamp(Some(0)) == NatToString(0) && Stamp(None) == "NaN"
  {
    hide NatToString;
  }

  /** Of a text that is no stamp the digits it begins with are read, behind a sign if there is one; one that
      begins with none is no number. */
  lemma ParseLaw(n: int, rest: string)
    requires n >= 0 && (rest == [] || !IsDigit(rest[0]))
    ensures ParseInt(NatToString(n) + rest) == Some(n)
    ensures ParseInt("-" + NatToString(n) + rest) == Some(-n)
    ensures ParseInt("+" + NatToString(n) + rest) == Some(n)
    ensures (rest != [] ==> rest[0] != '-' && rest[0] != '+') ==> ParseInt(rest) == None
  {
    hide NatToString, ParseDigits;
    NatToStringValue(n);
    var s := NatToString(n);
    DigitsLaw(s, rest);
    DigitsLaw([], rest);
    SignLaw(s, rest);
    assert [] + rest == rest;
  }

  lemma DigitsLaw(s: string, rest: string)
    requires (forall c | c in s :: IsDigit(c)) && (rest == [] || !IsDigit(rest[0]))
    ensures ParseDigits(s + rest) == if s == [] then None else Some(DigitsValue(s))
  {
    hide DigitsValue;
    PrefixOf(s, rest);
    assert (s + rest)[..|s|] == s;
  }

  lemma SignLaw(s: string, rest: string)
    requires s != [] && forall c | c in s :: IsDigit(c)
    ensures ParseInt(s + rest) == ParseDigits(s + rest)
    ensures ParseInt("+" + s + rest) == ParseDigits(s + rest)
    ensures ParseInt("-" + s + rest) == match ParseDigits(s + rest) case None => None case Some(n) => Some(-n)
  {
    hide ParseDigits;
    assert ("-" + s + rest)[1..] == s + rest && ("+" + s + rest)[1..] == s + rest;
    assert s[0] in s && (s + rest)[0] == s[0];
  }

  lemma {:induction false} PrefixOf(s: string, rest: string)
    requires (forall c | c in s :: IsDigit(c)) && (rest == [] || !IsDigit(rest[0]))
    ensures DigitsPrefix(s + rest) == |s|
    decreases |s|
  {
    if s == [] {
      assert s + rest == rest;
    } else {
      assert s[0] in s && (s + rest)[0] == s[0] && (s + rest)[1..] == s[1..] + rest;
      PrefixOf(s[1..], rest);
    }
  }
}
