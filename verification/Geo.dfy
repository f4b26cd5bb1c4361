/**
 The country index: address ranges, the last address of a network, and a binary search
 that agrees with scanning all ranges.
 */
module Geo {
  import opened Basics

  type Byte = x: nat | x < 256

  /** The bytes of an address, most significant first: 4 or 16 of them. */
  type Addr = seq<Byte>

  function Num(a: Addr): nat {
    if a == [] then 0 else Num(a[..|a| - 1]) * 256 + a[|a| - 1]
  }

  /** Shorter addresses come first; addresses of one length are ordered by value. */
  predicate AtMost(a: Addr, b: Addr) {
    |a| < |b| || (|a| == |b| && Num(a) <= Num(b))
  }

  // ---------------------------------------------------------------------------
  // The last address of a network

  function Pow2(n: nat): (r: nat)
    ensures r >= 1
  {
    if n == 0 then 1 else 2 * Pow2(n - 1)
  }

  function Or(x: nat, y: nat): nat {
    if x == 0 then y
    else if y == 0 then x
    else 2 * Or(x / 2, y / 2) + if x % 2 == 1 || y % 2 == 1 then 1 else 0
  }

  /** Setting the low bits of a number. */
  lemma {:induction false} OrMask(x: nat, n: nat)
    ensures Or(x, Pow2(n) - 1) == x - x % Pow2(n) + Pow2(n) - 1
  {
    if x == 0 {
    } else if n > 0 {
      OrMask(x / 2, n - 1);
      OrDoubles(x, Pow2(n - 1), Or(x / 2, Pow2(n - 1) - 1));
    } else {
      assert x % 1 == 0;
    }
  }

  lemma OrDoubles(x: nat, p: nat, r: int)
    requires x > 0 && p >= 1 && r == Or(x / 2, p - 1) == x / 2 - (x / 2) % p + p - 1
    ensures Or(x, 2 * p - 1) == x - x % (2 * p) + 2 * p - 1
  {
    ModDouble(x, p);
    OrOdd(x, p);
  }

  lemma OrOdd(x: nat, p: nat)
    requires x > 0 && p >= 1
    ensures Or(x, 2 * p - 1) == 2 * Or(x / 2, p - 1) + 1
  {
    Halved(p);
  }

  lemma Halved(p: nat)
    requires p >= 1
    ensures (2 * p - 1) / 2 == p - 1 && (2 * p - 1) % 2 == 1
  {
  }

  lemma {:induction false} MulPositive(k: nat, m: nat)
    ensures k * m >= 0 && (k + 1) * m == k * m + m
  {
  }

  lemma MulLarge(k: int, m: int)
    requires m > 0
    ensures k == 0 || k * m >= m || k * m <= -m
  {
    if k > 0 {
      MulPositive(k - 1, m);
    } else if k < 0 {
      MulPositive(-k - 1, m);
      assert k * m == -((-k - 1) * m) - m;
    }
  }

  lemma ModUnique(x: int, m: int, q: int, r: int)
    requires m > 0 && 0 <= r < m && x == q * m + r
    ensures x / m == q && x % m == r
  {
    assert (x / m - q) * m == r - x % m;
    MulLarge(x / m - q, m);
  }

  lemma ModDouble(x: nat, p: nat)
    requires p >= 1
    ensures x % (2 * p) == 2 * ((x / 2) % p) + x % 2
  {
    var h := x / 2;
    ModUnique(x, 2 * p, h / p, 2 * (h % p) + x % 2);
  }

  lemma ModBytes(m: nat, l: Byte, p: nat)
    requires p >= 1
    ensures (m * 256 + l) % (p * 256) == (m % p) * 256 + l
  {
    assert m == (m / p) * p + m % p;
    ModUnique(m * 256 + l, p * 256, m / p, (m % p) * 256 + l);
  }

  lemma Pow2Byte(n: nat)
    requires n >= 8
    ensures Pow2(n) == Pow2(n - 8) * 256
  {
    assert Pow2(n) == 2 * Pow2(n - 1) && Pow2(n - 1) == 2 * Pow2(n - 2);
    assert Pow2(n - 2) == 2 * Pow2(n - 3) && Pow2(n - 3) == 2 * Pow2(n - 4);
    assert Pow2(n - 4) == 2 * Pow2(n - 5) && Pow2(n - 5) == 2 * Pow2(n - 6);
    assert Pow2(n - 6) == 2 * Pow2(n - 7) && Pow2(n - 7) == 2 * Pow2(n - 8);
  }

  /** The bytes with the low `h` bits set, from the last byte on. */
  function LastBytes(a: Addr, h: nat): Addr {
    if a == [] || h == 0 then a
    else
      var n := if h > 8 then 8 else h;
      LastBytes(a[..|a| - 1], h - n) + [SetLow(a[|a| - 1], n)]
  }

  /** A byte with its n low bits set: it is combined with 0xff shifted right by 8 - n. */
  function SetLow(b: Byte, n: nat): Byte
    requires n <= 8
  {
    ShiftedMask(n);
    OrMask(b, n);
    SetLowRange(b, n);
    Or(b, Shifted(n))
  }

  lemma SetLowValue(b: Byte, n: nat)
    requires n <= 8
    ensures SetLow(b, n) == b - b % Pow2(n) + Pow2(n) - 1
  {
    ShiftedMask(n);
    OrMask(b, n);
  }

  lemma SmallPowers()
    ensures Pow2(0) == 1 && Pow2(1) == 2 && Pow2(2) == 4 && Pow2(3) == 8 && Pow2(4) == 16
    ensures Pow2(5) == 32 && Pow2(6) == 64 && Pow2(7) == 128 && Pow2(8) == 256
  {
    assert Pow2(2) == 2 * Pow2(1) && Pow2(3) == 2 * Pow2(2) && Pow2(4) == 2 * Pow2(3);
    assert Pow2(5) == 2 * Pow2(4) && Pow2(6) == 2 * Pow2(5) && Pow2(7) == 2 * Pow2(6) && Pow2(8) == 2 * Pow2(7);
  }

  /** A byte with its low bits set is a byte: the block it lies in ends below 256. */
  lemma BlockEnds(b: nat, p: nat, k: nat)
    requires p >= 1 && b < p * k
    ensures 0 <= b - b % p && b - b % p + p - 1 < p * k
  {
    var q := b / p;
    assert b == q * p + b % p;
    if q >= k {
      MulMonotone(k, q, p);
    }
    MulMonotone(q + 1, k, p);
    assert (q + 1) * p == q * p + p;
  }

  lemma MulMonotone(a: nat, b: nat, p: nat)
    ensures a <= b ==> a * p <= b * p
  {
    if a <= b {
      assert b * p == a * p + (b - a) * p;
    }
  }

  lemma SetLowRange(b: Byte, n: nat)
    requires n <= 8
    ensures 0 <= b - b % Pow2(n) + Pow2(n) - 1 < 256
    ensures n == 8 ==> b - b % Pow2(n) == 0 && Pow2(n) == 256
  {
    SmallPowers();
    Complement(n);
    BlockEnds(b, Pow2(n), Pow2(8 - n));
  }

  function Shifted(n: nat): nat
    requires n <= 8
  {
    255 / Pow2(8 - n)
  }

  lemma ShiftedMask(n: nat)
    requires n <= 8
    ensures Shifted(n) == Pow2(n) - 1
  {
    assert Pow2(8) == 256 && Pow2(7) == 128 && Pow2(6) == 64 && Pow2(5) == 32 && Pow2(4) == 16 && Pow2(3) == 8;
  }

  lemma LastBytesStep(a: Addr, i: nat, h: nat, n: nat)
    requires i < |a| && h > 0 && n == if h > 8 then 8 else h
    ensures LastBytes(a[..i + 1], h) == LastBytes(a[..i], h - n) + [SetLow(a[i], n)]
  {
    assert a[..i + 1][..i] == a[..i];
  }

  /** The bytes up to `i` are still the address's; setting `h` more bits there gives the goal. */
  predicate Filling(a: Addr, goal: Addr, b: Addr, i: int, h: int) {
    && -1 <= i < |a| == |b| && 0 <= h <= 8 * (i + 1)
    && b[..i + 1] == a[..i + 1] && goal == LastBytes(a[..i + 1], h) + b[i + 1..]
  }

  lemma FillingStep(a: Addr, goal: Addr, b: Addr, i: int, h: int, n: nat)
    requires Filling(a, goal, b, i, h) && i >= 0 && h > 0 && n == if h > 8 then 8 else h
    ensures Filling(a, goal, b[i := SetLow(b[i], n)], i - 1, h - n) == true
  {
    LastBytesStep(a, i, h, n);
    assert a[i] == a[..i + 1][i] == b[..i + 1][i] == b[i];
    var b' := b[i := SetLow(b[i], n)];
    assert b'[i..] == [SetLow(b[i], n)] + b[i + 1..];
    assert b'[..i] == b[..i + 1][..i] && a[..i] == a[..i + 1][..i];
  }

  method LastAddr(a: Addr, bits: nat) returns (b: Addr)
    requires bits <= 8 * |a|
    ensures b == LastBytes(a, 8 * |a| - bits)
  {
    b := a;
    var hostBits := 8 * |a| - bits;
    ghost var goal := LastBytes(a, hostBits);
    var i := |a| - 1;
    assert a[..i + 1] == a && b[i + 1..] == [];
    while i >= 0 && hostBits > 0
      invariant Filling(a, goal, b, i, hostBits) == true
    {
      var n := if hostBits > 8 then 8 else hostBits;
      FillingStep(a, goal, b, i, hostBits, n);
      b := b[i := SetLow(b[i], n)];
      hostBits := hostBits - n;
      i := i - 1;
    }
    assert b == b[..i + 1] + b[i + 1..];
  }

  lemma HighBits(m: nat, l: Byte, p: nat)
    requires p >= 1
    ensures (m - m % p + p - 1) * 256 + 255 == m * 256 + l - (m * 256 + l) % (p * 256) + p * 256 - 1
  {
    ModBytes(m, l, p);
  }

  lemma LastByteValue(m: nat, m': nat, l: Byte, h: nat)
    requires 0 < h
    requires h > 8 ==> m' == m - m % Pow2(h - 8) + Pow2(h - 8) - 1
    requires h <= 8 ==> m' == m
    ensures m' * 256 + SetLow(l, if h > 8 then 8 else h) == m * 256 + l - (m * 256 + l) % Pow2(h) + Pow2(h) - 1
  {
    if h > 8 {
      SetLowValue(l, 8);
      SetLowRange(l, 8);
      Pow2Byte(h);
      HighBits(m, l, Pow2(h - 8));
    } else {
      SetLowValue(l, h);
      LowBits(m, l, h);
    }
  }

  /** Its value is that of the address with all host bits set (networks as in section 3.1 of RFC 4632). */
  lemma {:induction false} LastBytesValue(a: Addr, h: nat)
    requires h <= 8 * |a|
    ensures |LastBytes(a, h)| == |a|
    ensures Num(LastBytes(a, h)) == Num(a) - Num(a) % Pow2(h) + Pow2(h) - 1
  {
    if h == 0 {
      assert Num(a) % 1 == 0;
    } else {
      var init, l := a[..|a| - 1], a[|a| - 1];
      var n := if h > 8 then 8 else h;
      LastBytesValue(init, h - n);
      assert LastBytes(a, h)[..|a| - 1] == LastBytes(init, h - n);
      if h <= 8 {
        assert Num(init) % Pow2(0) == 0;
      }
      LastByteValue(Num(init), Num(LastBytes(init, h - n)), l, h);
    }
  }

  lemma Complement(h: nat)
    requires h <= 8
    ensures Pow2(h) * Pow2(8 - h) == 256
  {
    assert Pow2(8) == 256 && Pow2(7) == 128 && Pow2(6) == 64 && Pow2(5) == 32 && Pow2(4) == 16 && Pow2(3) == 8;
  }

  lemma LowBits(m: nat, l: Byte, h: nat)
    requires h <= 8
    ensures (m * 256 + l) % Pow2(h) == l % Pow2(h)
  {
    Complement(h);
    ModTail(m, l, Pow2(h), Pow2(8 - h));
  }

  lemma ModTail(m: nat, l: nat, p: nat, k: nat)
    requires p >= 1 && p * k == 256
    ensures (m * 256 + l) % p == l % p
  {
    assert l == (l / p) * p + l % p;
    assert m * 256 == (m * k) * p;
    assert m * 256 + l == (m * k + l / p) * p + l % p;
    ModUnique(m * 256 + l, p, m * k + l / p, l % p);
  }

  // ---------------------------------------------------------------------------
  // The index

  datatype Entry = Entry(start: Addr, end: Addr, country: string)

  predicate Contains(e: Entry, a: Addr) {
    AtMost(e.start, a) && AtMost(a, e.end)
  }

  /** A row of the file: a network with its masked address, a span of addresses that may not parse, or neither. */
  datatype Row =
    | Network(addr: Addr, bits: nat, country: string)
    | BadNetwork
    | Span(start: Option<Addr>, end: Option<Addr>, country: string)
    | Short

  predicate WellFormed(r: Row) {
    r.Network? ==> r.bits <= 8 * |r.addr|
  }

  function EntryOf(r: Row): Option<Entry>
    requires WellFormed(r)
  {
    match r
    case Network(a, bits, c) => if |c| != 2 then None else Some(Entry(a, LastBytes(a, 8 * |a| - bits), c))
    case Span(Some(s), Some(e), c) => if |c| != 2 then None else Some(Entry(s, e, c))
    case _ => None
  }

  /** The entries of the usable rows, in order. */
  function Entries(rows: seq<Row>): seq<Entry>
    requires forall i :: 0 <= i < |rows| ==> WellFormed(rows[i])
  {
    if rows == [] then []
    else
      var rest, e := Entries(rows[..|rows| - 1]), EntryOf(rows[|rows| - 1]);
      if e == None then rest else rest + [e.value]
  }

  function Family(es: seq<Entry>, narrow: bool): seq<Entry> {
    if es == [] then []
    else
      var rest, e := Family(es[..|es| - 1], narrow), es[|es| - 1];
      if (|e.start| == 4) == narrow then rest + [e] else rest
  }

  /** A usable row gives the entry: a network's range or the span as it stands, with a country of two letters. */
  predicate Yields(r: Row, e: Entry) {
    && |e.country| == 2
    && (|| (r.Span? && r == Span(Some(e.start), Some(e.end), e.country))
        || (r.Network? && r.bits <= 8 * |r.addr| && e == Entry(r.addr, LastBytes(r.addr, 8 * |r.addr| - r.bits), r.country)))
  }

  lemma EntryYields(r: Row, e: Entry)
    requires WellFormed(r)
    ensures EntryOf(r) == Some(e) <==> Yields(r, e)
  {
  }

  ghost function UsableAs(rows: seq<Row>, e: Entry): set<nat> {
    set i: nat | i < |rows| && Yields(rows[i], e)
  }

  lemma UsableLast(rows: seq<Row>, e: Entry, m: nat)
    requires |rows| == m + 1
    ensures m !in UsableAs(rows[..m], e) && UsableAs(rows, e) == UsableAs(rows[..m], e) + if Yields(rows[m], e) then {m} else {}
  {
  }

  lemma OneMore(es: seq<Entry>, row: Option<Entry>, fs: seq<Entry>, e: Entry)
    requires fs == if row == None then es else es + [row.value]
    ensures multiset(fs)[e] == multiset(es)[e] + if row == Some(e) then 1 else 0
  {
  }

  /** The entries are those of the usable rows, one for each. */
  lemma {:induction false} EntriesExactly(rows: seq<Row>, e: Entry)
    requires forall i :: 0 <= i < |rows| ==> WellFormed(rows[i])
    ensures multiset(Entries(rows))[e] == |UsableAs(rows, e)|
  {
    if rows != [] {
      var init, last := rows[..|rows| - 1], rows[|rows| - 1];
      EntriesExactly(init, e);
      OneMore(Entries(init), EntryOf(last), Entries(rows), e);
      EntryYields(last, e);
      UsableLast(rows, e, |rows| - 1);
    }
  }

  predicate Ascending(list: seq<Entry>) {
    forall i, j :: 0 <= i <= j < |list| ==> AtMost(list[i].start, list[j].start)
  }

  /** `idx` is `es` in ascending order of start, in some order among equal starts. */
  predicate IndexOf(idx: seq<Entry>, es: seq<Entry>) {
    multiset(idx) == multiset(es) && Ascending(idx)
  }

  datatype Database = Database(v4: seq<Entry>, v6: seq<Entry>)

  function Insert(e: Entry, s: seq<Entry>): seq<Entry> {
    if s == [] || !AtMost(e.start, s[|s| - 1].start) then s + [e] else Insert(e, s[..|s| - 1]) + [s[|s| - 1]]
  }

  lemma {:induction false} InsertMembers(e: Entry, s: seq<Entry>)
    ensures multiset(Insert(e, s)) == multiset(s) + multiset{e}
  {
    if s != [] && AtMost(e.start, s[|s| - 1].start) {
      InsertMembers(e, s[..|s| - 1]);
      assert s == s[..|s| - 1] + [s[|s| - 1]];
    }
  }

  lemma {:induction false} InsertAscends(e: Entry, s: seq<Entry>)
    requires Ascending(s)
    ensures Ascending(Insert(e, s))
  {
    if s != [] && AtMost(e.start, s[|s| - 1].start) {
      var init, last := s[..|s| - 1], s[|s| - 1];
      InsertAscends(e, init);
      var r := Insert(e, init);
      InsertMembers(e, init);
      forall i | 0 <= i < |r| ensures AtMost(r[i].start, last.start) {
        assert r[i] in multiset(r);
        assert r[i] == e || r[i] in init;
      }
    }
  }

  method SortByStart(es: seq<Entry>) returns (idx: seq<Entry>)
    ensures IndexOf(idx, es)
  {
    idx := [];
    for i := 0 to |es|
      invariant IndexOf(idx, es[..i])
    {
      InsertMembers(es[i], idx);
      InsertAscends(es[i], idx);
      idx := Insert(es[i], idx);
      assert es[..i + 1] == es[..i] + [es[i]];
    }
    assert es[..|es|] == es;
  }

  method Parse(rows: seq<Row>) returns (db: Option<Database>)
    requires forall i :: 0 <= i < |rows| ==> WellFormed(rows[i])
    ensures db == None <==> BadNetwork in rows || Entries(rows) == []
    ensures db.Some? ==> IndexOf(db.value.v4, Family(Entries(rows), true)) && IndexOf(db.value.v6, Family(Entries(rows), false))
  {
    var v4, v6 := [], [];
    for i := 0 to |rows|
      invariant BadNetwork !in rows[..i]
      invariant v4 == Family(Entries(rows[..i]), true) && v6 == Family(Entries(rows[..i]), false)
      invariant |v4| + |v6| == |Entries(rows[..i])|
    {
      assert rows[..i + 1][..i] == rows[..i];
      if rows[i] == BadNetwork {
        return None;
      }
      var e := EntryOf(rows[i]);
      if e.Some? {
        var es := Entries(rows[..i]);
        assert (es + [e.value])[..|es|] == es;
        if |e.value.start| == 4 {
          v4 := v4 + [e.value];
        } else {
          v6 := v6 + [e.value];
        }
      }
    }
    assert rows[..|rows|] == rows;
    if |v4| + |v6| == 0 {
      return None;
    }
    v4 := SortByStart(v4);
    v6 := SortByStart(v6);
    return Some(Database(v4, v6));
  }

  /** The country of the last entry that starts at or before the address, if it reaches the address. */
  function Latest(list: seq<Entry>, a: Addr): Option<string> {
    if list == [] then None
    else
      var e := list[|list| - 1];
      if !AtMost(e.start, a) then Latest(list[..|list| - 1], a)
      else if AtMost(a, e.end) then Some(e.country) else None
  }

  lemma {:induction false} LatestAt(list: seq<Entry>, a: Addr, i: nat)
    requires i <= |list|
    requires forall j :: i <= j < |list| ==> !AtMost(list[j].start, a)
    requires i > 0 ==> AtMost(list[i - 1].start, a)
    ensures Latest(list, a) == if i > 0 && AtMost(a, list[i - 1].end) then Some(list[i - 1].country) else None
    decreases |list|
  {
    if i < |list| {
      LatestAt(list[..|list| - 1], a, i);
    }
  }

  /** Binary search for the first entry that starts after the address. */
  method Search(list: seq<Entry>, a: Addr) returns (r: Option<string>)
    requires Ascending(list)
    ensures r == Latest(list, a)
  {
    var i, j := 0, |list|;
    while i < j
      invariant 0 <= i <= j <= |list|
      invariant forall k :: 0 <= k < i ==> AtMost(list[k].start, a)
      invariant forall k :: j <= k < |list| ==> !AtMost(list[k].start, a)
    {
      var h := (i + j) / 2;
      if AtMost(list[h].start, a) {
        i := h + 1;
      } else {
        j := h;
      }
    }
    LatestAt(list, a, i);
    if i == 0 || !AtMost(a, list[i - 1].end) {
      return None;
    }
    return Some(list[i - 1].country);
  }

  method Lookup(db: Database, a: Addr) returns (r: Option<string>)
    requires Ascending(db.v4) && Ascending(db.v6)
    ensures r == Latest(if |a| == 4 then db.v4 else db.v6, a)
  {
    var list := if |a| == 4 then db.v4 else db.v6;
    r := Search(list, a);
  }

  // ---------------------------------------------------------------------------
  // Agreement with a scan of all entries

  /** Ranges of one family with at least one address, no two different ones sharing an address. */
  predicate Disjoint(es: seq<Entry>) {
    && (forall i :: 0 <= i < |es| ==> |es[i].start| == |es[i].end| && AtMost(es[i].start, es[i].end))
    && (forall i, j :: 0 <= i < j < |es| && es[i] != es[j] ==> !AtMost(es[i].start, es[j].end) || !AtMost(es[j].start, es[i].end))
  }

  function Scan(es: seq<Entry>, a: Addr): Option<string> {
    if es == [] then None
    else if Contains(es[|es| - 1], a) then Some(es[|es| - 1].country)
    else Scan(es[..|es| - 1], a)
  }

  lemma {:induction false} ScanFinds(es: seq<Entry>, a: Addr)
    ensures Scan(es, a) == None <==> forall i :: 0 <= i < |es| ==> !Contains(es[i], a)
    ensures Scan(es, a).Some? ==> exists i :: 0 <= i < |es| && Contains(es[i], a) && es[i].country == Scan(es, a).value
  {
    if es != [] && !Contains(es[|es| - 1], a) {
      ScanFinds(es[..|es| - 1], a);
    }
  }

  /** In a disjoint list, the scan finds the one range that contains the address. */
  lemma ScanExact(es: seq<Entry>, a: Addr, i: nat)
    requires Disjoint(es) && i < |es| && Contains(es[i], a)
    ensures Scan(es, a) == Some(es[i].country)
  {
    ScanFinds(es, a);
    var j :| 0 <= j < |es| && Contains(es[j], a) && es[j].country == Scan(es, a).value;
  }

  lemma {:induction false} LatestExact(list: seq<Entry>, a: Addr)
    requires Ascending(list) && Disjoint(list)
    ensures Latest(list, a) == Scan(list, a)
  {
    if list != [] {
      var e := list[|list| - 1];
      if !AtMost(e.start, a) {
        LatestExact(list[..|list| - 1], a);
      } else if !AtMost(a, e.end) {
        forall i | 0 <= i < |list| ensures !Contains(list[i], a) {
          assert AtMost(list[i].start, e.start);
          assert list[i] == e || !AtMost(list[i].start, e.end) || !AtMost(e.start, list[i].end);
        }
        ScanFinds(list, a);
      }
    }
  }

  lemma {:induction false} FamilyMembers(es: seq<Entry>, narrow: bool, e: Entry)
    ensures e in Family(es, narrow) <==> e in es && (|e.start| == 4) == narrow
  {
    if es != [] {
      FamilyMembers(es[..|es| - 1], narrow, e);
      assert es == es[..|es| - 1] + [es[|es| - 1]];
    }
  }

  /** A family has the entries of its width, as often as they are there. */
  lemma {:induction false} FamilyExactly(es: seq<Entry>, narrow: bool, e: Entry)
    ensures multiset(Family(es, narrow))[e] == if (|e.start| == 4) == narrow then multiset(es)[e] else 0
  {
    if es != [] {
      FamilyExactly(es[..|es| - 1], narrow, e);
      assert es == es[..|es| - 1] + [es[|es| - 1]];
    }
  }

  /** Addresses of one width are ordered by the first byte in which they differ. */
  lemma {:induction false} AtMostExactly(a: Addr, b: Addr)
    requires |a| == |b|
    ensures AtMost(a, b) <==> a == b || exists k :: 0 <= k < |a| && a[..k] == b[..k] && a[k] < b[k]
    ensures Num(a) == Num(b) ==> a == b
  {
    if a != [] {
      var m := |a| - 1;
      AtMostExactly(a[..m], b[..m]);
      assert a == a[..m] + [a[m]] && b == b[..m] + [b[m]];
      if a[..m] == b[..m] {
        assert AtMost(a, b) <==> a[m] <= b[m];
      } else {
        assert AtMost(a, b) <==> AtMost(a[..m], b[..m]);
        if k :| 0 <= k < m && a[..m][..k] == b[..m][..k] && a[..m][k] < b[..m][k] {
          assert a[..k] == a[..m][..k] && b[..k] == b[..m][..k];
        }
        if k :| 0 <= k < |a| && a[..k] == b[..k] && a[k] < b[k] {
          assert k < m;
          assert a[..k] == a[..m][..k] && b[..k] == b[..m][..k];
        }
      }
    }
  }

  /** Only which entries there are matters for a scan of disjoint ranges. */
  lemma SameEntries(es: seq<Entry>, fs: seq<Entry>, a: Addr)
    requires Disjoint(es) && (forall f :: f in fs ==> f in es)
    requires forall e :: e in es && Contains(e, a) ==> e in fs
    ensures Disjoint(fs) && Scan(fs, a) == Scan(es, a)
  {
    forall i, j | 0 <= i < j < |fs| && fs[i] != fs[j] ensures !AtMost(fs[i].start, fs[j].end) || !AtMost(fs[j].start, fs[i].end) {
      assert fs[i] in es && fs[j] in es;
      var k :| 0 <= k < |es| && es[k] == fs[i];
      var l :| 0 <= l < |es| && es[l] == fs[j];
      assert k < l || l < k;
    }
    forall i | 0 <= i < |fs| ensures |fs[i].start| == |fs[i].end| && AtMost(fs[i].start, fs[i].end) {
      assert fs[i] in es;
    }
    ScanFinds(es, a);
    if Scan(es, a).Some? {
      var i :| 0 <= i < |es| && Contains(es[i], a) && es[i].country == Scan(es, a).value;
      assert es[i] in fs;
      var j :| 0 <= j < |fs| && fs[j] == es[i];
      ScanExact(fs, a, j);
    } else {
      forall j | 0 <= j < |fs| ensures !Contains(fs[j], a) {
        assert fs[j] in es;
      }
      ScanFinds(fs, a);
    }
  }

  /** For disjoint ranges, however equal starts were ordered, a lookup answers as a scan of all rows does. */
  lemma LookupIsScan(es: seq<Entry>, db: Database, a: Addr)
    requires Disjoint(es) && IndexOf(db.v4, Family(es, true)) && IndexOf(db.v6, Family(es, false))
    ensures Latest(if |a| == 4 then db.v4 else db.v6, a) == Scan(es, a)
  {
    var narrow := |a| == 4;
    var list := if narrow then db.v4 else db.v6;
    forall e ensures e in list <==> e in es && (|e.start| == 4) == narrow {
      FamilyMembers(es, narrow, e);
      assert e in list <==> e in multiset(list);
      assert e in Family(es, narrow) <==> e in multiset(Family(es, narrow));
    }
    SameEntries(es, list, a);
    LatestExact(list, a);
  }

  /** A network row contains exactly the addresses that share its network bits. */
  lemma NetworkContains(a: Addr, bits: nat, c: string, x: Addr)
    requires bits <= 8 * |a| && |c| == 2 && |x| == |a| && Num(a) % Pow2(8 * |a| - bits) == 0
    ensures var h := Pow2(8 * |a| - bits);
            Contains(EntryOf(Network(a, bits, c)).value, x) <==> Num(x) / h == Num(a) / h
  {
    LastBytesValue(a, 8 * |a| - bits);
    SameBlock(Num(a), Num(x), Pow2(8 * |a| - bits));
  }

  lemma SameBlock(a: nat, x: nat, h: nat)
    requires h >= 1 && a % h == 0
    ensures a <= x <= a + h - 1 <==> x / h == a / h
  {
    var q := a / h;
    assert a == q * h;
    if a <= x <= a + h - 1 {
      ModUnique(x, h, q, x - a);
    }
    assert x == (x / h) * h + x % h;
  }

  /** A range that ends before it starts, or lies inside another, hides addresses of that other range. */
  lemma HiddenRanges()
    ensures var wide := Entry([0, 0, 0, 0], [0, 0, 0, 9], "AA");
            var inverted, inner := Entry([0, 0, 0, 4], [0, 0, 0, 2], "BB"), Entry([0, 0, 0, 4], [0, 0, 0, 5], "BB");
            Latest([wide, inverted], [0, 0, 0, 7]) == None && Scan([wide, inverted], [0, 0, 0, 7]) == Some("AA")
            && Latest([wide, inner], [0, 0, 0, 7]) == None && Scan([wide, inner], [0, 0, 0, 7]) == Some("AA")
  {
    forall b: Byte ensures Num([0, 0, 0, b]) == b {
      assert [0, 0, 0, b][..3] == [0, 0, 0] && [0, 0, 0][..2] == [0, 0] && [0, 0][..1] == [0] && [0][..0] == [];
    }
    var wide := Entry([0, 0, 0, 0], [0, 0, 0, 9], "AA");
    assert [wide, Entry([0, 0, 0, 4], [0, 0, 0, 2], "BB")][..1] == [wide];
    assert [wide, Entry([0, 0, 0, 4], [0, 0, 0, 5], "BB")][..1] == [wide];
  }
}
