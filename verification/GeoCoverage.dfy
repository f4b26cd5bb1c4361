/**
 Exactly when the binary-search lookup answers as a scan of all ranges does, for indexes
 with overlapping, nested and inverted ranges as the parser lets them through.
 */
module GeoCoverage {
  import opened Basics
  import opened Geo

  // ---------------------------------------------------------------------------
  // Addresses of one family as numbers

  lemma {:induction false} NumBound(a: Addr)
    ensures Num(a) < Pow2(8 * |a|)
  {
    if a != [] {
      NumBound(a[..|a| - 1]);
      Pow2Byte(8 * |a|);
    }
  }

  /** The address of a family of `w` bytes with the given value. */
  function AddrOf(n: nat, w: nat): Addr {
    if w == 0 then [] else AddrOf(n / 256, w - 1) + [n % 256]
  }

  lemma {:induction false} AddrOfNum(n: nat, w: nat)
    requires n < Pow2(8 * w)
    ensures |AddrOf(n, w)| == w && Num(AddrOf(n, w)) == n
  {
    if w > 0 {
      Pow2Byte(8 * w);
      AddrOfNum(n / 256, w - 1);
      assert AddrOf(n, w)[..w - 1] == AddrOf(n / 256, w - 1);
    }
  }

  /** The last value of a family of `w` bytes that a range reaches; an end of the other family is above or below all. */
  function End(e: Entry, w: nat): int {
    if |e.end| == w then Num(e.end) else if |e.end| > w then Pow2(8 * w) - 1 else -1
  }

  predicate OfWidth(list: seq<Entry>, w: nat) {
    forall i :: 0 <= i < |list| ==> |list[i].start| == w
  }

  lemma ContainsValue(e: Entry, a: Addr, w: nat)
    requires |e.start| == w && |a| == w
    ensures Contains(e, a) <==> Num(e.start) <= Num(a) <= End(e, w)
    ensures AtMost(e.start, a) <==> Num(e.start) <= Num(a)
    ensures AtMost(a, e.end) <==> Num(a) <= End(e, w)
  {
    NumBound(a);
  }

  lemma EndBound(e: Entry, w: nat)
    ensures End(e, w) < Pow2(8 * w)
  {
    NumBound(e.end);
  }

  // ---------------------------------------------------------------------------
  // One address

  /** Entry `j` is the last that starts at or before the value. */
  predicate LastStart(list: seq<Entry>, j: nat, x: int) {
    j < |list| && Num(list[j].start) <= x && (j + 1 < |list| ==> x < Num(list[j + 1].start))
  }

  lemma AscendingValues(list: seq<Entry>, w: nat, i: nat, j: nat)
    requires Ascending(list) && OfWidth(list, w) && i <= j < |list|
    ensures Num(list[i].start) <= Num(list[j].start)
  {
    assert AtMost(list[i].start, list[j].start);
  }

  lemma {:induction false} LastStartExists(list: seq<Entry>, w: nat, x: int, i: nat) returns (j: nat)
    requires Ascending(list) && OfWidth(list, w) && i < |list| && Num(list[i].start) <= x
    ensures LastStart(list, j, x) && i <= j
    decreases |list| - i
  {
    if i + 1 < |list| && Num(list[i + 1].start) <= x {
      j := LastStartExists(list, w, x, i + 1);
    } else {
      j := i;
    }
  }

  /** The last entry that starts at or before an address decides the lookup. */
  lemma LatestDecides(list: seq<Entry>, w: nat, a: Addr, j: nat)
    requires Ascending(list) && OfWidth(list, w) && |a| == w && LastStart(list, j, Num(a))
    ensures Latest(list, a) == if Num(a) <= End(list[j], w) then Some(list[j].country) else None
  {
    forall k | j + 1 <= k < |list| ensures !AtMost(list[k].start, a) {
      AscendingValues(list, w, j + 1, k);
      ContainsValue(list[k], a, w);
    }
    ContainsValue(list[j], a, w);
    LatestAt(list, a, j + 1);
  }

  lemma {:induction false} LatestNone(list: seq<Entry>, a: Addr)
    requires forall i :: 0 <= i < |list| ==> !Contains(list[i], a)
    ensures Latest(list, a) == None
  {
    if list != [] {
      var e := list[|list| - 1];
      if !AtMost(e.start, a) {
        LatestNone(list[..|list| - 1], a);
      } else {
        assert !Contains(e, a);
      }
    }
  }

  /** A found country is always that of a range that contains the address. */
  lemma {:induction false} LatestSound(list: seq<Entry>, a: Addr) returns (i: nat)
    requires Latest(list, a).Some?
    ensures i < |list| && Contains(list[i], a) && Latest(list, a) == Some(list[i].country)
  {
    var e := list[|list| - 1];
    if AtMost(e.start, a) {
      i := |list| - 1;
    } else {
      i := LatestSound(list[..|list| - 1], a);
    }
  }

  /** The value lies in range `i`, but beyond the end of the later entry `j` that decides it. */
  predicate HiddenAt(list: seq<Entry>, w: nat, i: nat, j: nat, x: int) {
    i < j < |list| && LastStart(list, j, x) && End(list[j], w) < x <= End(list[i], w)
  }

  /** A contained address is missed if and only if the last entry starting at or before it ends before it. */
  lemma MissedExactly(list: seq<Entry>, w: nat, a: Addr)
    requires Ascending(list) && OfWidth(list, w) && |a| == w
    ensures Latest(list, a) == None && (exists i :: 0 <= i < |list| && Contains(list[i], a)) <==>
            exists i: nat, j: nat :: HiddenAt(list, w, i, j, Num(a))
  {
    var x := Num(a);
    if i :| 0 <= i < |list| && Latest(list, a) == None && Contains(list[i], a) {
      ContainsValue(list[i], a, w);
      var j := LastStartExists(list, w, x, i);
      LatestDecides(list, w, a, j);
      assert HiddenAt(list, w, i, j, x);
    }
    if i: nat, j: nat :| HiddenAt(list, w, i, j, x) {
      LatestDecides(list, w, a, j);
      AscendingValues(list, w, i, j);
      ContainsValue(list[i], a, w);
    }
  }

  // ---------------------------------------------------------------------------
  // All addresses, decided from the rows alone

  /** The least value that starts entry `j` and lies beyond its end. */
  function Beyond(list: seq<Entry>, w: nat, j: nat): int
    requires j < |list|
  {
    Max(Num(list[j].start), End(list[j], w) + 1)
  }

  /** Entry `j` hides a part of entry `i`: before the next entry starts there is room beyond `j` that `i` covers. */
  predicate Hides(list: seq<Entry>, w: nat, i: nat, j: nat) {
    && i < j < |list| && Beyond(list, w, j) <= End(list[i], w)
    && (j + 1 < |list| ==> Beyond(list, w, j) < Num(list[j + 1].start))
  }

  ghost predicate FindsAll(list: seq<Entry>, w: nat) {
    forall a: Addr :: |a| == w && Latest(list, a) == None ==> forall i :: 0 <= i < |list| ==> !Contains(list[i], a)
  }

  /** The lookup finds every contained address if and only if no entry hides a part of an earlier one. */
  lemma FindsExactly(list: seq<Entry>, w: nat)
    requires Ascending(list) && OfWidth(list, w)
    ensures FindsAll(list, w) <==> forall i: nat, j: nat :: !Hides(list, w, i, j)
  {
    if i: nat, j: nat :| Hides(list, w, i, j) {
      var x := Beyond(list, w, j);
      EndBound(list[i], w);
      var a := AddrOf(x, w);
      AddrOfNum(x, w);
      assert HiddenAt(list, w, i, j, Num(a));
      MissedExactly(list, w, a);
    }
    if a: Addr :| |a| == w && Latest(list, a) == None && exists i :: 0 <= i < |list| && Contains(list[i], a) {
      MissedExactly(list, w, a);
      var i: nat, j: nat :| HiddenAt(list, w, i, j, Num(a));
      assert Hides(list, w, i, j);
    }
  }

  /** Entry `j` answers for an address of entry `i` with another country. */
  predicate Clashes(list: seq<Entry>, w: nat, i: nat, j: nat) {
    && i < j < |list| && list[i].country != list[j].country
    && Num(list[j].start) <= End(list[i], w) && Num(list[j].start) <= End(list[j], w)
    && (j + 1 < |list| ==> Num(list[j].start) < Num(list[j + 1].start))
  }

  ghost predicate AnswersAll(list: seq<Entry>, w: nat) {
    forall a: Addr, i :: |a| == w && 0 <= i < |list| && Contains(list[i], a) ==> Latest(list, a) == Some(list[i].country)
  }

  /**
   The lookup gives, for every address, the country of every range that contains it, if and
   only if no entry hides a part of an earlier one or answers for it with another country.
   */
  lemma AnswersExactly(list: seq<Entry>, w: nat)
    requires Ascending(list) && OfWidth(list, w)
    ensures AnswersAll(list, w) <==> forall i: nat, j: nat :: !Hides(list, w, i, j) && !Clashes(list, w, i, j)
  {
    FindsExactly(list, w);
    if AnswersAll(list, w) {
      assert FindsAll(list, w);
      forall i: nat, j: nat ensures !Clashes(list, w, i, j) {
        if Clashes(list, w, i, j) {
          ClashShows(list, w, i, j);
        }
      }
    }
    if forall i: nat, j: nat :: !Hides(list, w, i, j) && !Clashes(list, w, i, j) {
      forall a: Addr, i | |a| == w && 0 <= i < |list| && Contains(list[i], a)
        ensures Latest(list, a) == Some(list[i].country)
      {
        ContainsValue(list[i], a, w);
        var j := LastStartExists(list, w, Num(a), i);
        LatestDecides(list, w, a, j);
        assert !Hides(list, w, i, j) && !Clashes(list, w, i, j);
        assert Latest(list, a).Some?;
      }
    }
  }

  lemma ClashShows(list: seq<Entry>, w: nat, i: nat, j: nat)
    requires Ascending(list) && OfWidth(list, w) && Clashes(list, w, i, j)
    ensures !AnswersAll(list, w)
  {
    var a := list[j].start;
    LatestDecides(list, w, a, j);
    AscendingValues(list, w, i, j);
    ContainsValue(list[i], a, w);
  }

  // ---------------------------------------------------------------------------
  // Scans in any order

  ghost predicate AsScanned(list: seq<Entry>, w: nat) {
    forall es: seq<Entry>, a: Addr :: multiset(es) == multiset(list) && |a| == w ==> Scan(es, a) == Latest(list, a)
  }

  lemma ScanAgrees(list: seq<Entry>, w: nat, es: seq<Entry>, a: Addr)
    requires AnswersAll(list, w) && multiset(es) == multiset(list) && |a| == w
    ensures Scan(es, a) == Latest(list, a)
  {
    ScanFinds(es, a);
    if Scan(es, a).Some? {
      var k :| 0 <= k < |es| && Contains(es[k], a) && es[k].country == Scan(es, a).value;
      assert es[k] in multiset(es);
      assert es[k] in list;
      var i :| 0 <= i < |list| && list[i] == es[k];
    } else {
      forall i | 0 <= i < |list| ensures !Contains(list[i], a) {
        assert list[i] in multiset(list);
        assert list[i] in es;
      }
      LatestNone(list, a);
    }
  }

  /** Moving an entry to the end of the scan makes it the one that is found. */
  lemma ScanLast(list: seq<Entry>, i: nat, a: Addr) returns (es: seq<Entry>)
    requires i < |list| && Contains(list[i], a)
    ensures multiset(es) == multiset(list) && Scan(es, a) == Some(list[i].country)
  {
    es := list[..i] + list[i + 1..] + [list[i]];
    assert list == list[..i] + [list[i]] + list[i + 1..];
  }

  /**
   The lookup answers as a scan of the entries does, in whatever order they are scanned, if
   and only if no entry hides a part of an earlier one or answers for it with another country.
   */
  lemma LookupAsScanExactly(list: seq<Entry>, w: nat)
    requires Ascending(list) && OfWidth(list, w)
    ensures AsScanned(list, w) <==> forall i: nat, j: nat :: !Hides(list, w, i, j) && !Clashes(list, w, i, j)
  {
    AnswersExactly(list, w);
    if AnswersAll(list, w) {
      forall es: seq<Entry>, a: Addr | multiset(es) == multiset(list) && |a| == w ensures Scan(es, a) == Latest(list, a) {
        ScanAgrees(list, w, es, a);
      }
    }
    if AsScanned(list, w) {
      forall a: Addr, i | |a| == w && 0 <= i < |list| && Contains(list[i], a)
        ensures Latest(list, a) == Some(list[i].country)
      {
        var es := ScanLast(list, i, a);
      }
    }
  }

  /** An entry that ends before it starts hides every earlier range that reaches its start, unless another starts there too. */
  lemma InvertedHides(list: seq<Entry>, w: nat, i: nat, j: nat)
    requires Ascending(list) && OfWidth(list, w) && i < j < |list| && End(list[j], w) < Num(list[j].start) <= End(list[i], w)
    requires j + 1 < |list| ==> Num(list[j].start) < Num(list[j + 1].start)
    ensures Hides(list, w, i, j) && !FindsAll(list, w)
  {
    assert Hides(list, w, i, j);
    FindsExactly(list, w);
  }

  /** An entry strictly inside an earlier range hides that range's rest, unless a later one starts at once. */
  lemma NestedHides(list: seq<Entry>, w: nat, i: nat, j: nat)
    requires Ascending(list) && OfWidth(list, w) && i < j < |list| && Num(list[j].start) <= End(list[j], w) < End(list[i], w)
    requires j + 1 < |list| ==> End(list[j], w) + 1 < Num(list[j + 1].start)
    ensures Hides(list, w, i, j) && !FindsAll(list, w)
  {
    assert Hides(list, w, i, j);
    FindsExactly(list, w);
  }
}
