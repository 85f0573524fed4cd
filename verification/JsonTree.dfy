/**
 The value trees of the canonical JSON codec: what the parser builds, the bounds
 it enforces, the sorting the writer applies, and equality up to the order of
 object entries.
 */
module JsonTree {
  import opened Bytes
  import opened JsonText

  /** Integers keep their spelling; there are no fractions or exponents. */
  datatype Json =
    | Object(entries: seq<Entry>)
    | Array(items: seq<Json>)
    | Str(text: seq<Rune>)
    | Integer(digits: seq<byte>)
    | Boolean(value: bool)
    | Null

  datatype Entry = Entry(key: seq<Rune>, value: Json)

  datatype Bounds = Bounds(maximumDocumentBytes: int, maximumDepth: int, maximumContainerEntries: int,
    maximumNodeCount: int)

  predicate Digit(b: byte) { '0' as int <= b <= '9' as int }

  /** `0`, or an optional minus sign and digits that do not start with zero. */
  predicate IntegerText(s: seq<byte>) {
    s == ['0' as int] ||
    var body := if s != [] && s[0] == '-' as int then s[1..] else s;
    body != [] && body[0] != '0' as int && forall k :: 0 <= k < |body| ==> Digit(body[k])
  }

  ghost predicate DistinctKeys(entries: seq<Entry>) {
    forall i, j :: 0 <= i < j < |entries| ==> entries[i].key != entries[j].key
  }

  /** Integers are spelled canonically and no object repeats a key. */
  ghost predicate WellFormed(v: Json) {
    match v
    case Object(entries) => DistinctKeys(entries) && forall e | e in entries :: WellFormed(e.value)
    case Array(items) => forall item | item in items :: WellFormed(item)
    case Integer(digits) => IntegerText(digits)
    case _ => true
  }

  /** Nesting and container sizes stay within the bounds when the root sits at `depth`. */
  ghost predicate Fits(v: Json, depth: nat, b: Bounds) {
    depth <= b.maximumDepth &&
    match v
    case Object(entries) => (entries == [] || |entries| <= b.maximumContainerEntries) &&
      forall e | e in entries :: Fits(e.value, depth + 1, b)
    case Array(items) => (items == [] || |items| <= b.maximumContainerEntries) &&
      forall item | item in items :: Fits(item, depth + 1, b)
    case _ => true
  }

  /** Number of values in the tree. */
  function Size(v: Json): (n: nat)
    ensures n >= 1
    decreases v, 1
  {
    match v
    case Object(entries) => 1 + EntriesSize(entries)
    case Array(items) => 1 + ItemsSize(items)
    case _ => 1
  }

  function EntriesSize(entries: seq<Entry>): (n: nat)
    ensures n >= |entries|
    decreases entries, 0
  {
    if entries == [] then 0 else Size(entries[0].value) + EntriesSize(entries[1..])
  }

  function ItemsSize(items: seq<Json>): (n: nat)
    ensures n >= |items|
    decreases items, 0
  {
    if items == [] then 0 else Size(items[0]) + ItemsSize(items[1..])
  }

  // ---- sorting by key ----

  ghost predicate StrictlySorted(entries: seq<Entry>) {
    forall i, j :: 0 <= i < j < |entries| ==> KeyLess(entries[i].key, entries[j].key)
  }

  function Insert(e: Entry, sorted: seq<Entry>): (r: seq<Entry>)
    ensures multiset(r) == multiset{e} + multiset(sorted)
  {
    if sorted == [] || KeyLess(e.key, sorted[0].key) then [e] + sorted
    else
      assert sorted == [sorted[0]] + sorted[1..];
      [sorted[0]] + Insert(e, sorted[1..])
  }

  function SortEntries(entries: seq<Entry>): (r: seq<Entry>)
    ensures multiset(r) == multiset(entries)
    ensures |r| == |entries|
  {
    if entries == [] then []
    else
      assert entries == [entries[0]] + entries[1..];
      var r := Insert(entries[0], SortEntries(entries[1..]));
      assert |multiset(r)| == |multiset(entries)|;
      r
  }

  lemma MembersOf<T>(a: seq<T>, b: seq<T>)
    requires multiset(a) == multiset(b)
    ensures forall x :: x in a <==> x in b
  {
    forall x ensures x in a <==> x in b {
      assert x in multiset(a) <==> x in a;
      assert x in multiset(b) <==> x in b;
    }
  }

  ghost predicate BelowAll(e: Entry, sorted: seq<Entry>) {
    forall x | x in sorted :: KeyLess(e.key, x.key)
  }

  lemma ConsSorted(e: Entry, sorted: seq<Entry>)
    requires StrictlySorted(sorted) && BelowAll(e, sorted)
    ensures StrictlySorted([e] + sorted)
  {
    hide KeyLess;
    var all := [e] + sorted;
    forall i, j | 0 <= i < j < |all| ensures KeyLess(all[i].key, all[j].key) {
      assert all[j] == sorted[j - 1] && sorted[j - 1] in sorted;
      assert i > 0 ==> all[i] == sorted[i - 1];
    }
  }

  lemma BelowFirst(e: Entry, sorted: seq<Entry>)
    requires StrictlySorted(sorted) && (sorted != [] ==> KeyLess(e.key, sorted[0].key))
    ensures BelowAll(e, sorted)
  {
    hide KeyLess;
    forall x | x in sorted ensures KeyLess(e.key, x.key) {
      var j :| 0 <= j < |sorted| && sorted[j] == x;
      if j > 0 { KeyTransitive(e.key, sorted[0].key, x.key); }
    }
  }

  lemma BelowRest(sorted: seq<Entry>)
    requires StrictlySorted(sorted) && sorted != []
    ensures StrictlySorted(sorted[1..]) && BelowAll(sorted[0], sorted[1..])
  {
    hide KeyLess;
    var tail := sorted[1..];
    forall x | x in tail ensures KeyLess(sorted[0].key, x.key) {
      var j :| 0 <= j < |tail| && tail[j] == x;
      assert sorted[j + 1] == x;
    }
    assert forall i :: 0 <= i < |tail| ==> tail[i] == sorted[i + 1];
  }

  lemma {:induction false} InsertSorted(e: Entry, sorted: seq<Entry>)
    requires StrictlySorted(sorted) && forall x | x in sorted :: x.key != e.key
    ensures StrictlySorted(Insert(e, sorted))
    decreases |sorted|
  {
    hide KeyLess, StrictlySorted, BelowAll;
    if sorted == [] || KeyLess(e.key, sorted[0].key) {
      BelowFirst(e, sorted);
      ConsSorted(e, sorted);
    } else {
      var tail := sorted[1..];
      BelowRest(sorted);
      InsertSorted(e, tail);
      KeyTrichotomy(e.key, sorted[0].key);
      assert sorted[0] in sorted;
      BelowInsert(sorted[0], e, tail);
      ConsSorted(sorted[0], Insert(e, tail));
    }
  }

  lemma BelowInsert(first: Entry, e: Entry, tail: seq<Entry>)
    requires BelowAll(first, tail) && KeyLess(first.key, e.key)
    ensures BelowAll(first, Insert(e, tail))
  {
    hide KeyLess;
    var r := Insert(e, tail);
    forall x | x in r ensures KeyLess(first.key, x.key) {
      assert x in multiset(r);
      assert x == e || x in multiset(tail);
    }
  }

  lemma {:induction false} SortSorted(entries: seq<Entry>)
    requires DistinctKeys(entries)
    ensures StrictlySorted(SortEntries(entries))
    decreases |entries|
  {
    if entries != [] {
      var tail := entries[1..];
      SortSorted(tail);
      MembersOf(SortEntries(tail), tail);
      InsertSorted(entries[0], SortEntries(tail));
    }
  }

  lemma SortedFirst(a: seq<Entry>, b: seq<Entry>)
    requires StrictlySorted(a) && StrictlySorted(b) && a != [] && b != []
    requires a[0] in b && b[0] in a
    ensures a[0] == b[0]
  {
    var j :| 0 <= j < |b| && b[j] == a[0];
    var k :| 0 <= k < |a| && a[k] == b[0];
    KeyTrichotomy(a[0].key, b[0].key);
  }

  /** A strictly sorted sequence is determined by its members, so any correct sort agrees with this one. */
  lemma {:induction false} SortedUnique(a: seq<Entry>, b: seq<Entry>)
    requires StrictlySorted(a) && StrictlySorted(b) && forall x :: x in a <==> x in b
    ensures a == b
    decreases |a|
  {
    assert a == [] || a[0] in a;
    assert b == [] || b[0] in b;
    if a != [] && b != [] {
      SortedFirst(a, b);
      SortedTailMembers(a);
      SortedTailMembers(b);
      SortedUnique(a[1..], b[1..]);
      assert a == [a[0]] + a[1..] && b == [b[0]] + b[1..];
    }
  }

  lemma SortedTailMembers(a: seq<Entry>)
    requires StrictlySorted(a) && a != []
    ensures forall x :: x in a[1..] <==> x in a && x != a[0]
  {
    forall j | 0 < j < |a| ensures a[j] != a[0] { KeyTrichotomy(a[0].key, a[j].key); }
  }

  lemma SortFixed(entries: seq<Entry>)
    requires StrictlySorted(entries)
    ensures DistinctKeys(entries) && SortEntries(entries) == entries
  {
    forall i, j | 0 <= i < j < |entries| ensures entries[i].key != entries[j].key {
      KeyTrichotomy(entries[i].key, entries[j].key);
    }
    SortSorted(entries);
    MembersOf(SortEntries(entries), entries);
    SortedUnique(SortEntries(entries), entries);
  }

  // ---- the normal form: every object sorted by key ----

  function Norm(v: Json): (r: Json)
    decreases v, 1
  {
    match v
    case Object(entries) => Object(SortEntries(NormEntries(entries)))
    case Array(items) => Array(NormItems(items))
    case _ => v
  }

  function NormEntries(entries: seq<Entry>): (r: seq<Entry>)
    ensures |r| == |entries|
    ensures forall i :: 0 <= i < |r| ==> r[i] == Entry(entries[i].key, Norm(entries[i].value))
    decreases entries, 0
  {
    if entries == [] then [] else [Entry(entries[0].key, Norm(entries[0].value))] + NormEntries(entries[1..])
  }

  function NormItems(items: seq<Json>): (r: seq<Json>)
    ensures |r| == |items|
    ensures forall i :: 0 <= i < |r| ==> r[i] == Norm(items[i])
    decreases items, 0
  {
    if items == [] then [] else [Norm(items[0])] + NormItems(items[1..])
  }

  function NormEntry(e: Entry): Entry { Entry(e.key, Norm(e.value)) }

  /** The members of a normalised object are the normalised members. */
  lemma NormMember(entries: seq<Entry>, e: Entry)
    requires e in entries
    ensures NormEntry(e) in SortEntries(NormEntries(entries))
  {
    MembersOf(SortEntries(NormEntries(entries)), NormEntries(entries));
    var i :| 0 <= i < |entries| && entries[i] == e;
    assert NormEntries(entries)[i] == NormEntry(e);
  }

  lemma NormMemberOrigin(entries: seq<Entry>, x: Entry) returns (e: Entry)
    requires x in SortEntries(NormEntries(entries))
    ensures e in entries && x == NormEntry(e)
  {
    var n := NormEntries(entries);
    MembersOf(SortEntries(n), n);
    var i :| 0 <= i < |n| && n[i] == x;
    e := entries[i];
  }

  lemma NormObjectSorted(entries: seq<Entry>)
    requires DistinctKeys(entries)
    ensures DistinctKeys(NormEntries(entries)) && StrictlySorted(SortEntries(NormEntries(entries)))
  {
    SortSorted(NormEntries(entries));
  }

  /** Normalising keeps the tree well formed, within bounds and of the same size. */
  lemma {:induction false} NormKeeps(v: Json, depth: nat, b: Bounds)
    requires WellFormed(v)
    ensures WellFormed(Norm(v)) && Size(Norm(v)) == Size(v)
    ensures Fits(v, depth, b) <==> Fits(Norm(v), depth, b)
    decreases v
  {
    match v
    case Object(entries) => NormKeepsObject(entries, depth, b);
    case Array(items) => NormKeepsArray(items, depth, b);
    case _ =>
  }

  lemma NormKeepsArray(items: seq<Json>, depth: nat, b: Bounds)
    requires WellFormed(Array(items))
    ensures WellFormed(Norm(Array(items))) && Size(Norm(Array(items))) == Size(Array(items))
    ensures Fits(Array(items), depth, b) <==> Fits(Norm(Array(items)), depth, b)
    decreases items, 0
  {
    var n := NormItems(items);
    forall item | item in items
      ensures WellFormed(Norm(item)) && Size(Norm(item)) == Size(item)
      ensures Fits(item, depth + 1, b) <==> Fits(Norm(item), depth + 1, b)
    {
      NormKeeps(item, depth + 1, b);
    }
    assert forall i :: 0 <= i < |n| ==> n[i] in n && items[i] in items;
    ItemsSizePointwise(n, items);
    assert WellFormed(Array(n));
  }

  lemma NormKeepsObject(entries: seq<Entry>, depth: nat, b: Bounds)
    requires WellFormed(Object(entries))
    ensures WellFormed(Norm(Object(entries))) && Size(Norm(Object(entries))) == Size(Object(entries))
    ensures Fits(Object(entries), depth, b) <==> Fits(Norm(Object(entries)), depth, b)
    decreases entries, 0
  {
    var n := NormEntries(entries);
    var s := SortEntries(n);
    forall e | e in entries
      ensures WellFormed(Norm(e.value)) && Size(Norm(e.value)) == Size(e.value)
      ensures Fits(e.value, depth + 1, b) <==> Fits(Norm(e.value), depth + 1, b)
    {
      NormKeeps(e.value, depth + 1, b);
    }
    assert forall i :: 0 <= i < |n| ==> entries[i] in entries;
    EntriesSizePointwise(n, entries);
    SortSize(n);
    NormObjectSorted(entries);
    SortFixed(s);
    forall x | x in s ensures WellFormed(x.value) {
      var e := NormMemberOrigin(entries, x);
    }
    NormFitsObject(entries, depth, b);
  }

  lemma NormFitsObject(entries: seq<Entry>, depth: nat, b: Bounds)
    requires forall e | e in entries :: Fits(e.value, depth + 1, b) <==> Fits(Norm(e.value), depth + 1, b)
    ensures Fits(Object(entries), depth, b) <==> Fits(Norm(Object(entries)), depth, b)
  {
    var s := SortEntries(NormEntries(entries));
    if Fits(Object(entries), depth, b) {
      forall x | x in s ensures Fits(x.value, depth + 1, b) {
        var e := NormMemberOrigin(entries, x);
      }
    }
    if Fits(Object(s), depth, b) {
      forall e | e in entries ensures Fits(e.value, depth + 1, b) {
        NormMember(entries, e);
      }
    }
  }

  lemma {:induction false} ItemsSizePointwise(a: seq<Json>, b: seq<Json>)
    requires |a| == |b| && forall i :: 0 <= i < |a| ==> Size(a[i]) == Size(b[i])
    ensures ItemsSize(a) == ItemsSize(b)
    decreases |a|
  {
    if a != [] { ItemsSizePointwise(a[1..], b[1..]); }
  }

  lemma {:induction false} EntriesSizePointwise(a: seq<Entry>, b: seq<Entry>)
    requires |a| == |b| && forall i :: 0 <= i < |a| ==> Size(a[i].value) == Size(b[i].value)
    ensures EntriesSize(a) == EntriesSize(b)
    decreases |a|
  {
    if a != [] { EntriesSizePointwise(a[1..], b[1..]); }
  }

  lemma {:induction false} InsertSize(e: Entry, s: seq<Entry>)
    ensures EntriesSize(Insert(e, s)) == Size(e.value) + EntriesSize(s)
    decreases |s|
  {
    if s == [] || KeyLess(e.key, s[0].key) {
      assert ([e] + s)[1..] == s;
    } else {
      InsertSize(e, s[1..]);
      assert Insert(e, s)[1..] == Insert(e, s[1..]);
    }
  }

  lemma {:induction false} SortSize(entries: seq<Entry>)
    ensures EntriesSize(SortEntries(entries)) == EntriesSize(entries)
    decreases |entries|
  {
    if entries != [] {
      SortSize(entries[1..]);
      InsertSize(entries[0], SortEntries(entries[1..]));
    }
  }

  /** Normalising twice is normalising once. */
  lemma {:induction false} NormIdempotent(v: Json)
    requires WellFormed(v)
    ensures Norm(Norm(v)) == Norm(v)
    decreases v
  {
    match v
    case Object(entries) =>
      var s := SortEntries(NormEntries(entries));
      forall x | x in s ensures Norm(x.value) == x.value {
        var e := NormMemberOrigin(entries, x);
        NormIdempotent(e.value);
      }
      assert forall i :: 0 <= i < |s| ==> s[i] in s;
      assert NormEntries(s) == s;
      NormObjectSorted(entries);
      SortFixed(s);
    case Array(items) =>
      forall i | 0 <= i < |items| ensures Norm(Norm(items[i])) == Norm(items[i]) {
        assert items[i] in items;
        NormIdempotent(items[i]);
      }
      assert NormItems(NormItems(items)) == NormItems(items);
    case _ =>
  }

  // ---- equality up to the order of object entries ----

  /** Every entry of one object has a counterpart in the other; all else is equal in place. */
  ghost predicate SameUpToOrder(a: Json, b: Json)
    decreases a
  {
    match (a, b)
    case (Object(xs), Object(ys)) =>
      && (forall x | x in xs :: exists y :: y in ys && x.key == y.key && SameUpToOrder(x.value, y.value))
      && (forall y | y in ys :: exists x :: x in xs && x.key == y.key && SameUpToOrder(x.value, y.value))
    case (Array(xs), Array(ys)) => |xs| == |ys| && forall i | 0 <= i < |xs| :: SameUpToOrder(xs[i], ys[i])
    case _ => a == b
  }

  /** Equality up to entry order is exactly equality of normal forms. */
  lemma {:induction false} SameIffNormEqual(a: Json, b: Json)
    requires WellFormed(a) && WellFormed(b)
    ensures SameUpToOrder(a, b) <==> Norm(a) == Norm(b)
    decreases a
  {
    match (a, b)
    case (Object(xs), Object(ys)) =>
      forall x, y | x in xs && y in ys ensures Agree(x.value, y.value) {
        SameIffNormEqual(x.value, y.value);
      }
      SameObjects(xs, ys);
    case (Array(xs), Array(ys)) =>
      forall i | 0 <= i < |xs| && i < |ys| ensures Agree(xs[i], ys[i]) {
        assert xs[i] in xs && ys[i] in ys;
        SameIffNormEqual(xs[i], ys[i]);
      }
      SameArrays(xs, ys);
    case _ =>
  }

  /** The equivalence to be shown, for one pair of values. */
  ghost predicate Agree(a: Json, b: Json) {
    SameUpToOrder(a, b) <==> Norm(a) == Norm(b)
  }

  lemma SameArrays(xs: seq<Json>, ys: seq<Json>)
    requires forall i | 0 <= i < |xs| && i < |ys| :: Agree(xs[i], ys[i])
    ensures Agree(Array(xs), Array(ys))
  {
    if SameUpToOrder(Array(xs), Array(ys)) { assert NormItems(xs) == NormItems(ys); }
    if Norm(Array(xs)) == Norm(Array(ys)) {
      assert NormItems(xs) == NormItems(ys);
      assert forall i :: 0 <= i < |xs| ==> NormItems(xs)[i] == NormItems(ys)[i];
    }
  }

  lemma SameObjects(xs: seq<Entry>, ys: seq<Entry>)
    requires DistinctKeys(xs) && DistinctKeys(ys)
    requires forall x, y | x in xs && y in ys :: Agree(x.value, y.value)
    ensures Agree(Object(xs), Object(ys))
  {
    if SameUpToOrder(Object(xs), Object(ys)) { SameGivesNormEqual(xs, ys); }
    if Norm(Object(xs)) == Norm(Object(ys)) { NormEqualGivesSame(xs, ys); }
  }

  ghost predicate Counterparts(xs: seq<Entry>, ys: seq<Entry>) {
    forall x | x in xs :: exists y :: y in ys && NormEntry(x) == NormEntry(y)
  }

  lemma CounterpartsCarryMembers(xs: seq<Entry>, ys: seq<Entry>, m: Entry)
    requires Counterparts(xs, ys) && m in SortEntries(NormEntries(xs))
    ensures m in SortEntries(NormEntries(ys))
  {
    var x := NormMemberOrigin(xs, m);
    var y :| y in ys && NormEntry(x) == NormEntry(y);
    NormMember(ys, y);
  }

  lemma SameGivesNormEqual(xs: seq<Entry>, ys: seq<Entry>)
    requires DistinctKeys(xs) && DistinctKeys(ys)
    requires SameUpToOrder(Object(xs), Object(ys))
    requires forall x, y | x in xs && y in ys :: Agree(x.value, y.value)
    ensures Norm(Object(xs)) == Norm(Object(ys))
  {
    forall x | x in xs ensures exists y :: y in ys && NormEntry(x) == NormEntry(y) {
      var y := FindCounterpart(xs, ys, x);
    }
    forall y | y in ys ensures exists x :: x in xs && NormEntry(y) == NormEntry(x) {
      var x := FindOriginal(xs, ys, y);
    }
    hide *;
    CounterpartsGiveNormEqual(xs, ys);
  }

  lemma UseAgreement(x: Entry, y: Entry)
    requires Agree(x.value, y.value) && SameUpToOrder(x.value, y.value) && x.key == y.key
    ensures NormEntry(x) == NormEntry(y)
  {
  }

  lemma FindCounterpart(xs: seq<Entry>, ys: seq<Entry>, x: Entry) returns (y: Entry)
    requires SameUpToOrder(Object(xs), Object(ys)) && x in xs
    requires forall x, y | x in xs && y in ys :: Agree(x.value, y.value)
    ensures y in ys && NormEntry(x) == NormEntry(y)
  {
    hide Norm, Agree;
    y :| y in ys && x.key == y.key && SameUpToOrder(x.value, y.value);
    assert Agree(x.value, y.value);
    hide *;
    UseAgreement(x, y);
  }

  lemma FindOriginal(xs: seq<Entry>, ys: seq<Entry>, y: Entry) returns (x: Entry)
    requires SameUpToOrder(Object(xs), Object(ys)) && y in ys
    requires forall x, y | x in xs && y in ys :: Agree(x.value, y.value)
    ensures x in xs && NormEntry(y) == NormEntry(x)
  {
    hide Norm, Agree;
    x :| x in xs && x.key == y.key && SameUpToOrder(x.value, y.value);
    assert Agree(x.value, y.value);
    hide *;
    UseAgreement(x, y);
  }

  lemma CounterpartsGiveNormEqual(xs: seq<Entry>, ys: seq<Entry>)
    requires DistinctKeys(xs) && DistinctKeys(ys) && Counterparts(xs, ys) && Counterparts(ys, xs)
    ensures Norm(Object(xs)) == Norm(Object(ys))
  {
    var a, b := SortEntries(NormEntries(xs)), SortEntries(NormEntries(ys));
    forall m | m in a ensures m in b { CounterpartsCarryMembers(xs, ys, m); }
    forall m | m in b ensures m in a { CounterpartsCarryMembers(ys, xs, m); }
    NormObjectSorted(xs);
    NormObjectSorted(ys);
    SortedUnique(a, b);
  }

  lemma NormEqualGivesSame(xs: seq<Entry>, ys: seq<Entry>)
    requires Norm(Object(xs)) == Norm(Object(ys))
    requires forall x, y | x in xs && y in ys :: Agree(x.value, y.value)
    ensures SameUpToOrder(Object(xs), Object(ys))
  {
    forall x | x in xs ensures exists y :: y in ys && x.key == y.key && SameUpToOrder(x.value, y.value) {
      NormMember(xs, x);
      var y := NormMemberOrigin(ys, NormEntry(x));
      assert Agree(x.value, y.value);
    }
    forall y | y in ys ensures exists x :: x in xs && x.key == y.key && SameUpToOrder(x.value, y.value) {
      NormMember(ys, y);
      var x := NormMemberOrigin(xs, NormEntry(y));
      assert Agree(x.value, y.value);
    }
  }
}
