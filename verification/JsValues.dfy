/** The JavaScript values the JSON codec of lib/util/json.js walks: primitives, dates,
    and containers (arrays and objects) that live in a heap and refer to each other by address. */
module JsValues {

  import opened Options
  import opened Sequences

  datatype Kind = Arr | Obj

  datatype Prim = Null | Bool(b: bool) | Num(n: real) | Str(s: string)

  /** The own enumerable properties of a container, in the order the host enumerates them.
      An array's keys are its indices written in decimal. */
  datatype Props<+V> = Nil | Cons(key: string, val: V, rest: Props<V>)

  /** `time` is the result of getTime(); None stands for NaN, an invalid date.
      A DateList is the array of strings that `stringify` stores under ___dates___. */
  datatype Value =
    | Prim(p: Prim)
    | Date(time: Option<int>)
    | Ref(addr: nat)
    | DateList(stamps: seq<string>)

  /** `clazz` is Some(C) for an instance made by `new C()`, None for a plain object or array. */
  datatype Object = Object(kind: Kind, clazz: Option<string>, props: Props<Value>)

  type Heap = map<nat, Object>

  /** A parsed JSON text: what JSON.stringify prints and JSON.parse reads. */
  datatype Json = Leaf(p: Prim) | Node(kind: Kind, members: Props<Json>)

  const OBJECTREF_FIELD: string := "___objectref"
  const DATES_FIELD: string := "___dates___"

  // ----- property lists

  function Lookup<V>(ps: Props<V>, key: string): Option<V> {
    match ps
    case Nil => None
    case Cons(k, v, rest) => if k == key then Some(v) else Lookup(rest, key)
  }

  predicate Has<V>(ps: Props<V>, key: string) {
    Lookup(ps, key).Some?
  }

  predicate DistinctKeys<V>(ps: Props<V>) {
    match ps
    case Nil => true
    case Cons(k, _, rest) => !Has(rest, k) && DistinctKeys(rest)
  }

  predicate IsDigit(c: char) { '0' <= c <= '9' }

  predicate IsIndex(key: string) {
    key != "" && forall c | c in key :: IsDigit(c)
  }

  predicate IndexKeys<V>(ps: Props<V>) {
    match ps
    case Nil => true
    case Cons(k, _, rest) => IsIndex(k) && IndexKeys(rest)
  }

  function Keys<V>(ps: Props<V>): seq<string> {
    match ps
    case Nil => []
    case Cons(k, _, rest) => [k] + Keys(rest)
  }

  function Append<V>(ps: Props<V>, qs: Props<V>): Props<V> {
    match ps
    case Nil => qs
    case Cons(k, v, rest) => Cons(k, v, Append(rest, qs))
  }

  /** `object[key] = v` for a key the object already has. */
  function Assign<V>(ps: Props<V>, key: string, v: V): Props<V> {
    match ps
    case Nil => Nil
    case Cons(k, w, rest) => if k == key then Cons(k, v, rest) else Cons(k, w, Assign(rest, key, v))
  }

  /** `delete object[key]` */
  function Remove<V>(ps: Props<V>, key: string): Props<V> {
    match ps
    case Nil => Nil
    case Cons(k, v, rest) => if k == key then rest else Cons(k, v, Remove(rest, key))
  }

  lemma LookupAssign<V>(ps: Props<V>, key: string, v: V, other: string)
    ensures Lookup(Assign(ps, key, v), other) ==
            if other == key && Has(ps, key) then Some(v) else Lookup(ps, other)
    ensures Keys(Assign(ps, key, v)) == Keys(ps)
    ensures DistinctKeys(ps) ==> DistinctKeys(Assign(ps, key, v))
  {
    if ps.Cons? {
      LookupAssign(ps.rest, key, v, other);
      LookupAssign(ps.rest, key, v, ps.key);
    }
  }

  lemma {:induction false} LookupAppend<V>(ps: Props<V>, qs: Props<V>, key: string)
    ensures Lookup(Append(ps, qs), key) == if Has(ps, key) then Lookup(ps, key) else Lookup(qs, key)
  {
    if ps.Cons? { LookupAppend(ps.rest, qs, key); }
  }

  lemma {:induction false} AppendAssoc<V>(a: Props<V>, b: Props<V>, c: Props<V>)
    ensures Append(Append(a, b), c) == Append(a, Append(b, c))
  {
    if a.Cons? { AppendAssoc(a.rest, b, c); }
  }

  lemma {:induction false} AppendNil<V>(a: Props<V>)
    ensures Append(a, Nil) == a
  {
    if a.Cons? { AppendNil(a.rest); }
  }

  lemma {:induction false} AssignAppend<V>(a: Props<V>, key: string, v: V, b: Props<V>, w: V)
    requires !Has(a, key)
    ensures Assign(Append(a, Cons(key, v, b)), key, w) == Append(a, Cons(key, w, b))
    ensures Lookup(Append(a, Cons(key, v, b)), key) == Some(v)
  {
    if a.Cons? { AssignAppend(a.rest, key, v, b, w); }
  }

  lemma {:induction false} RemoveAppend<V>(ps: Props<V>, key: string, v: V)
    ensures !Has(ps, key) ==> Remove(Append(ps, Cons(key, v, Nil)), key) == ps && Remove(ps, key) == ps
  {
    if ps.Cons? { RemoveAppend(ps.rest, key, v); }
  }

  lemma {:induction false} HasIsKey<V>(ps: Props<V>, key: string)
    ensures Has(ps, key) <==> key in Keys(ps)
  {
    if ps.Cons? { HasIsKey(ps.rest, key); }
  }

  lemma {:induction false} LookupRemove<V>(ps: Props<V>, key: string, other: string)
    requires DistinctKeys(ps)
    ensures Lookup(Remove(ps, key), other) == if other == key then None else Lookup(ps, other)
    ensures DistinctKeys(Remove(ps, key))
    ensures !Has(ps, key) ==> Remove(ps, key) == ps
  {
    if ps.Cons? {
      LookupRemove(ps.rest, key, other);
      LookupRemove(ps.rest, key, ps.key);
    }
  }

  /** Property lists with the same keys in the same order and the same values are equal. */
  lemma {:induction false} PropsExtensional<V>(ps: Props<V>, qs: Props<V>)
    requires Keys(ps) == Keys(qs) && DistinctKeys(ps)
    requires forall k | Has(ps, k) :: Lookup(ps, k) == Lookup(qs, k)
    ensures ps == qs
  {
    match ps {
      case Nil => assert Keys(qs) == []; assert qs.Nil?;
      case Cons(k, v, rest) =>
        assert Keys(qs) != [];
        assert Keys(qs)[0] == k && Keys(qs)[1..] == Keys(qs.rest);
        assert Keys(ps)[1..] == Keys(rest);
        assert Lookup(ps, k) == Some(v);
        forall j | Has(rest, j) ensures Lookup(rest, j) == Lookup(qs.rest, j) {
          assert j != k;
          assert Lookup(ps, j) == Lookup(rest, j);
        }
        PropsExtensional(rest, qs.rest);
    }
  }

  // ----- sequences without duplicates

  function IndexOf(s: seq<nat>, x: nat): (i: nat)
    requires x in s
    ensures i < |s| && s[i] == x
    ensures forall j | 0 <= j < i :: s[j] != x
  {
    if s[0] == x then 0 else 1 + IndexOf(s[1..], x)
  }

  lemma IndexOfUnique(s: seq<nat>, x: nat, i: nat)
    requires NoDup(s) && i < |s| && s[i] == x
    ensures IndexOf(s, x) == i
  {
    var j := IndexOf(s, x);
    assert !(i < j) && !(j < i);
  }

  lemma IndexOfPrefix(s: seq<nat>, longer: seq<nat>, x: nat)
    requires x in s && s <= longer && NoDup(longer)
    ensures x in longer && IndexOf(longer, x) == IndexOf(s, x)
  {
    var i := IndexOf(s, x);
    assert longer[i] == x;
    IndexOfUnique(longer, x, i);
  }

  // ----- timestamps: Date.getTime().toString() and Number.parseInt

  function Digit(d: nat): (c: char)
    requires d < 10
  {
    "0123456789"[d]
  }

  function DigitValue(c: char): nat
    requires IsDigit(c)
  {
    (c as int) - ('0' as int)
  }

  function NatToString(n: nat): string {
    if n < 10 then [Digit(n)] else NatToString(n / 10) + [Digit(n % 10)]
  }

  /** The string a Date is rewritten to: `v[prop].getTime().toString()`. */
  function Stamp(time: Option<int>): string {
    match time
    case None => "NaN"
    case Some(t) => if t < 0 then "-" + NatToString(-t) else NatToString(t)
  }

  function DigitsPrefix(s: string): (n: nat)
    ensures n <= |s|
  {
    if s != [] && IsDigit(s[0]) then 1 + DigitsPrefix(s[1..]) else 0
  }

  function DigitsValue(s: string): nat
    requires forall c | c in s :: IsDigit(c)
  {
    if s == [] then 0 else 10 * DigitsValue(s[..|s| - 1]) + DigitValue(s[|s| - 1])
  }

  lemma DigitsPrefixDigits(s: string)
    ensures forall c | c in s[..DigitsPrefix(s)] :: IsDigit(c)
  {
    if s != [] && IsDigit(s[0]) {
      DigitsPrefixDigits(s[1..]);
      assert s[..DigitsPrefix(s)] == [s[0]] + s[1..][..DigitsPrefix(s[1..])];
    }
  }

  /** The decimal number a string of digits starts with; None (NaN) when there is none. */
  function ParseDigits(s: string): Option<int> {
    var n := DigitsPrefix(s);
    DigitsPrefixDigits(s);
    if n == 0 then None else Some(DigitsValue(s[..n]))
  }

  /** Number.parseInt: an optional sign and the longest run of decimal digits. */
  function ParseInt(s: string): Option<int> {
    if s != [] && s[0] == '-' then
      match ParseDigits(s[1..]) case None => None case Some(n) => Some(-n)
    else if s != [] && s[0] == '+' then
      ParseDigits(s[1..])
    else
      ParseDigits(s)
  }

  lemma AllDigits(s: string)
    requires forall c | c in s :: IsDigit(c)
    ensures DigitsPrefix(s) == |s|
  {
    if s != [] {
      assert s[0] in s;
      forall c | c in s[1..] ensures IsDigit(c) { assert c in s; }
      AllDigits(s[1..]);
    }
  }

  lemma {:induction false} NatToStringValue(n: nat)
    ensures NatToString(n) != []
    ensures forall c | c in NatToString(n) :: IsDigit(c)
    ensures DigitsValue(NatToString(n)) == n
  {
    if n < 10 {
      var s := NatToString(n);
      assert s[..|s| - 1] == [];
      assert DigitValue(Digit(n)) == n;
    } else {
      NatToStringValue(n / 10);
      var s := NatToString(n);
      assert s[..|s| - 1] == NatToString(n / 10);
      assert IsDigit(Digit(n % 10)) && DigitValue(Digit(n % 10)) == n % 10;
    }
  }

  lemma IndicesDiffer(i: nat, j: nat)
    ensures i != j ==> NatToString(i) != NatToString(j)
  {
    NatToStringValue(i);
    NatToStringValue(j);
  }

  /** A timestamp written by `stringify` is read back by `parse`, an invalid date included. */
  lemma ParseIntStamp(time: Option<int>)
    ensures ParseInt(Stamp(time)) == time
  {
    match time {
      case None =>
        assert DigitsPrefix("NaN") == 0;
      case Some(t) =>
        var n := if t < 0 then -t else t;
        var s := NatToString(n);
        NatToStringValue(n);
        AllDigits(s);
        assert s[..|s|] == s;
        assert ParseDigits(s) == Some(n);
        if t < 0 {
          assert Stamp(time)[1..] == s;
        } else {
          assert IsDigit(s[0]);
        }
    }
  }
}
