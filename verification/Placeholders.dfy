/**
 Rewriting positional SQL placeholders into numbered ones, and exactly when the rewritten
 query, read back, has the same placeholders at the same places.
 */
module Placeholders {
  import opened Basics

  predicate Digit(c: char) {
    '0' <= c <= '9'
  }

  function Decimal(n: nat): string {
    if n < 10 then ['0' + n as char] else Decimal(n / 10) + ['0' + (n % 10) as char]
  }

  predicate AllDigits(s: string) {
    forall i :: 0 <= i < |s| ==> Digit(s[i])
  }

  function Value(s: string): nat
    requires AllDigits(s)
  {
    if s == "" then 0
    else
      var c := s[|s| - 1];
      assert Digit(c);
      Value(s[..|s| - 1]) * 10 + (c as int - '0' as int)
  }

  lemma {:induction false} ValueOfDecimal(n: nat)
    ensures Decimal(n) != "" && AllDigits(Decimal(n))
    ensures Value(Decimal(n)) == n
  {
    if n >= 10 {
      ValueOfDecimal(n / 10);
      assert Decimal(n)[..|Decimal(n)| - 1] == Decimal(n / 10);
    } else {
      assert Decimal(n)[..0] == "";
    }
  }

  /** The rewritten rest of a query, from a place inside or outside single quotes, with the next number. */
  function Rewritten(q: string, quoted: bool, n: nat): string {
    if q == "" then ""
    else if q[0] == '\'' then [q[0]] + Rewritten(q[1..], !quoted, n)
    else if q[0] == '?' && !quoted then "$" + Decimal(n) + Rewritten(q[1..], quoted, n + 1)
    else [q[0]] + Rewritten(q[1..], quoted, n)
  }

  lemma RewrittenNext(q: string, i: nat, quoted: bool, n: nat)
    requires i < |q|
    ensures Rewritten(q[i..], quoted, n) ==
            if q[i] == '\'' then [q[i]] + Rewritten(q[i + 1..], !quoted, n)
            else if q[i] == '?' && !quoted then ("$" + Decimal(n)) + Rewritten(q[i + 1..], quoted, n + 1)
            else [q[i]] + Rewritten(q[i + 1..], quoted, n)
  {
    assert q[i..][1..] == q[i + 1..] && q[i..][0] == q[i];
  }

  lemma Associative(a: string, b: string, c: string)
    ensures a + (b + c) == (a + b) + c
  {
  }

  method Rebind(q: string) returns (out: string)
    ensures out == Rewritten(q, false, 1)
  {
    out := "";
    var n := 1;
    var inSingle := false;
    assert q[0..] == q;
    for i := 0 to |q|
      invariant n >= 1
      invariant Rewritten(q, false, 1) == out + Rewritten(q[i..], inSingle, n)
    {
      var c, piece := q[i], [q[i]];
      RewrittenNext(q, i, inSingle, n);
      if c == '\'' {
        inSingle := !inSingle;
      } else if c == '?' && !inSingle {
        piece := "$" + Decimal(n);
        n := n + 1;
      }
      Associative(out, piece, Rewritten(q[i + 1..], inSingle, n));
      out := out + piece;
    }
    assert q[|q|..] == "";
    assert out + "" == out;
  }

  // ---------------------------------------------------------------------------
  // Reading numbered placeholders

  datatype Piece = Char(c: char) | Param(number: nat)

  /** The length of the digits a text starts with. */
  function Digits(s: string): (k: nat)
    ensures k <= |s| && (forall i :: 0 <= i < k ==> Digit(s[i])) && (k < |s| ==> !Digit(s[k]))
  {
    if s == "" || !Digit(s[0]) then 0 else 1 + Digits(s[1..])
  }

  /** A dollar sign and the longest run of digits after it, outside single quotes, is a placeholder. */
  function Pieces(s: string, quoted: bool): seq<Piece>
    decreases |s|
  {
    if s == "" then []
    else if s[0] == '\'' then [Char(s[0])] + Pieces(s[1..], !quoted)
    else if s[0] == '$' && !quoted && Digits(s[1..]) > 0 then
      var k := Digits(s[1..]);
      [Param(Value(s[1..1 + k]))] + Pieces(s[1 + k..], quoted)
    else [Char(s[0])] + Pieces(s[1..], quoted)
  }

  /** What is meant: each unquoted question mark is the next placeholder, everything else itself. */
  function Meant(q: string, quoted: bool, n: nat): (r: seq<Piece>)
    ensures |r| == |q|
  {
    if q == "" then []
    else if q[0] == '\'' then [Char(q[0])] + Meant(q[1..], !quoted, n)
    else if q[0] == '?' && !quoted then [Param(n)] + Meant(q[1..], quoted, n + 1)
    else [Char(q[0])] + Meant(q[1..], quoted, n)
  }

  /** Whether place `i` is inside single quotes. */
  function Inside(q: string, quoted: bool, i: nat): bool
    requires i <= |q|
  {
    if i == 0 then quoted else Inside(q[1..], if q[0] == '\'' then !quoted else quoted, i - 1)
  }

  /** No digit directly follows an unquoted question mark or dollar sign. */
  predicate Separate(q: string, quoted: bool) {
    forall i :: 0 <= i && i + 1 < |q| && (q[i] == '?' || q[i] == '$') && Digit(q[i + 1]) ==> Inside(q, quoted, i)
  }

  // ---------------------------------------------------------------------------
  // The same, place by place: a place is quoted when the number of quotes before it is odd

  /** The question marks before a place that are not quoted. */
  ghost function Asked(q: string, i: nat): set<nat> {
    set k: nat | k < i && k < |q| && q[k] == '?' && multiset(q[..k])['\''] % 2 == 0
  }

  lemma QuotesNext(q: string, i: nat)
    requires i < |q|
    ensures multiset(q[..i + 1])['\''] == multiset(q[..i])['\''] + if q[i] == '\'' then 1 else 0
  {
    assert q[..i + 1] == q[..i] + [q[i]];
  }

  lemma AskedNext(q: string, i: nat)
    requires i < |q|
    ensures |Asked(q, i + 1)| == |Asked(q, i)| + if q[i] == '?' && multiset(q[..i])['\''] % 2 == 0 then 1 else 0
  {
    assert Asked(q, i + 1) == Asked(q, i) + if q[i] == '?' && multiset(q[..i])['\''] % 2 == 0 then {i} else {};
    assert i !in Asked(q, i);
  }

  lemma {:induction false} InsideFrom(q: string, i: nat, j: nat)
    requires i <= j <= |q|
    ensures Inside(q[i..], multiset(q[..i])['\''] % 2 == 1, j - i) <==> multiset(q[..j])['\''] % 2 == 1
    decreases j - i
  {
    if i < j {
      QuotesNext(q, i);
      assert q[i..][1..] == q[i + 1..];
      InsideFrom(q, i + 1, j);
    }
  }

  ghost function MeantAt(q: string, j: nat): Piece
    requires j < |q|
  {
    if q[j] == '?' && multiset(q[..j])['\''] % 2 == 0 then Param(1 + |Asked(q, j)|) else Char(q[j])
  }

  lemma MeantHead(r: string, quoted: bool, n: nat, k: nat) returns (quoted': bool, n': nat)
    requires 0 < k < |r|
    ensures quoted' == if r[0] == '\'' then !quoted else quoted
    ensures n' == if r[0] == '?' && !quoted then n + 1 else n
    ensures Meant(r, quoted, n)[k] == Meant(r[1..], quoted', n')[k - 1]
  {
    quoted' := if r[0] == '\'' then !quoted else quoted;
    n' := if r[0] == '?' && !quoted then n + 1 else n;
  }

  lemma {:induction false} MeantFrom(q: string, i: nat, j: nat, r: string, quoted: bool, n: nat)
    requires i <= j < |q| && r == q[i..]
    requires quoted == (multiset(q[..i])['\''] % 2 == 1) && n == 1 + |Asked(q, i)|
    ensures Meant(r, quoted, n)[j - i] == MeantAt(q, j)
    decreases j - i
  {
    if i < j {
      QuotesNext(q, i);
      AskedNext(q, i);
      var quoted', n' := MeantHead(r, quoted, n, j - i);
      assert r[1..] == q[i + 1..] && r[0] == q[i];
      MeantFrom(q, i + 1, j, r[1..], quoted', n');
    }
  }

  /** The k-th unquoted question mark stands for placeholder k, and every other character for itself. */
  lemma MeantExactly(q: string, j: nat)
    requires j < |q|
    ensures Meant(q, false, 1)[j] ==
            if q[j] == '?' && multiset(q[..j])['\''] % 2 == 0 then Param(1 + |Asked(q, j)|) else Char(q[j])
  {
    assert q[0..] == q && q[..0] == "" && Asked(q, 0) == {};
    MeantFrom(q, 0, j, q, false, 1);
  }

  /** Digits are kept apart when none directly follows an unquoted question mark or dollar sign. */
  lemma SeparateExactly(q: string)
    ensures Separate(q, false) <==>
            forall i :: 0 <= i && i + 1 < |q| && (q[i] == '?' || q[i] == '$') && '0' <= q[i + 1] <= '9' ==> multiset(q[..i])['\''] % 2 == 1
  {
    assert q[0..] == q && q[..0] == "";
    forall i | 0 <= i <= |q| ensures Inside(q, false, i) <==> multiset(q[..i])['\''] % 2 == 1 {
      InsideFrom(q, 0, i);
    }
  }

  // ---------------------------------------------------------------------------
  // The exact condition

  lemma {:induction false} DigitsPass(q: string, quoted: bool, n: nat)
    ensures Digits(Rewritten(q, quoted, n)) == Digits(q)
    ensures Rewritten(q, quoted, n)[Digits(q)..] == Rewritten(q[Digits(q)..], quoted, n)
  {
    if q != "" && Digit(q[0]) {
      DigitsPass(q[1..], quoted, n);
      var k := Digits(q[1..]);
      assert Rewritten(q, quoted, n)[1..] == Rewritten(q[1..], quoted, n);
      assert q[1..][k..] == q[1 + k..];
      assert Rewritten(q, quoted, n)[1 + k..] == Rewritten(q[1..], quoted, n)[k..];
    } else {
      assert q[0..] == q;
    }
  }

  lemma {:induction false} DigitsAppend(d: string, s: string)
    requires AllDigits(d)
    ensures Digits(d + s) == |d| + Digits(s)
    decreases |d|
  {
    if d == "" {
      assert d + s == s;
    } else {
      assert (d + s)[1..] == d[1..] + s;
      DigitsAppend(d[1..], s);
    }
  }

  lemma PiecesParam(t: string, d: string)
    requires t != "" && t[0] == '$' && Digits(t[1..]) == |d| > 0 && t[1..1 + |d|] == d
    ensures AllDigits(d) && Pieces(t, false) == [Param(Value(d))] + Pieces(t[1 + |d|..], false)
  {
  }

  lemma DollarSlices(t: string, d: string, s: string, k: nat)
    requires t == "$" + d + s && k <= |s|
    ensures t != "" && t[0] == '$' && t[1..] == d + s
    ensures |d + s[..k]| == |d| + k && t[1..1 + |d + s[..k]|] == d + s[..k] && t[1 + |d + s[..k]|..] == s[k..]
  {
  }

  /** Reading a dollar sign with digits after it. */
  lemma PiecesDollar(d: string, s: string, k: nat)
    requires AllDigits(d) && k == Digits(s) && |d| + k > 0
    ensures AllDigits(d + s[..k]) && Pieces("$" + d + s, false) == [Param(Value(d + s[..k]))] + Pieces(s[k..], false)
  {
    DigitsAppend(d, s);
    DollarSlices("$" + d + s, d, s, k);
    PiecesParam("$" + d + s, d + s[..k]);
  }

  lemma {:induction false} SeparateRest(q: string, quoted: bool)
    requires q != ""
    ensures Separate(q, quoted) <==>
            Separate(q[1..], if q[0] == '\'' then !quoted else quoted)
            && (|q| > 1 && (q[0] == '?' || q[0] == '$') && Digit(q[1]) ==> quoted)
  {
    var rest, inner := q[1..], if q[0] == '\'' then !quoted else quoted;
    assert forall i :: 0 <= i < |rest| ==> rest[i] == q[i + 1] && Inside(rest, inner, i) == Inside(q, quoted, i + 1);
    if Separate(q, quoted) {
      forall i | 0 <= i && i + 1 < |rest| && (rest[i] == '?' || rest[i] == '$') && Digit(rest[i + 1]) ensures Inside(rest, inner, i) {
        assert q[i + 1] == rest[i] && Digit(q[i + 1 + 1]);
      }
    }
    if Separate(rest, inner) && (|q| > 1 && (q[0] == '?' || q[0] == '$') && Digit(q[1]) ==> quoted) {
      forall i | 0 <= i && i + 1 < |q| && (q[i] == '?' || q[i] == '$') && Digit(q[i + 1]) ensures Inside(q, quoted, i) {
        if i > 0 {
          assert rest[i - 1] == q[i] && Digit(rest[i - 1 + 1]);
        }
      }
    }
  }

  /** A query that keeps its digits apart reads back as meant; any other one reads back shorter. */
  lemma {:induction false} ReadsBack(q: string, quoted: bool, n: nat)
    ensures Separate(q, quoted) ==> Pieces(Rewritten(q, quoted, n), quoted) == Meant(q, quoted, n)
    ensures |Pieces(Rewritten(q, quoted, n), quoted)| <= |q|
    ensures !Separate(q, quoted) ==> |Pieces(Rewritten(q, quoted, n), quoted)| < |q|
    decreases |q|
  {
    if q != "" {
      var rest := q[1..];
      SeparateRest(q, quoted);
      if !quoted && (q[0] == '?' || q[0] == '$') {
        var mark := q[0] == '?';
        var m := if mark then n + 1 else n;
        var d := if mark then Decimal(n) else "";
        var s := Rewritten(rest, false, m);
        ValueOfDecimal(n);
        assert Rewritten(q, quoted, n) == "$" + d + s;
        DigitsPass(rest, false, m);
        var k := Digits(rest);
        if |d| + k > 0 {
          PiecesDollar(d, s, k);
          ReadsBack(rest[k..], false, m);
          if k == 0 {
            assert rest[0..] == rest && d + s[..0] == d;
          }
        } else {
          assert ("$" + d + s)[1..] == s;
          ReadsBack(rest, false, m);
        }
      } else {
        var inner := if q[0] == '\'' then !quoted else quoted;
        ReadsBack(rest, inner, n);
        assert Rewritten(q, quoted, n)[1..] == Rewritten(rest, inner, n);
      }
    }
  }

  /**
   The rewritten query has placeholders 1, 2, ... exactly where the unquoted question marks
   were, and every other character unchanged, if and only if no digit directly follows an
   unquoted question mark or dollar sign.
   */
  lemma RebindExact(q: string)
    ensures Pieces(Rewritten(q, false, 1), false) == Meant(q, false, 1) <==> Separate(q, false)
  {
    ReadsBack(q, false, 1);
  }

  /** A digit after a placeholder becomes part of its number. */
  lemma DigitSwallowed()
    ensures Rewritten("?1", false, 1) == "$11" && Pieces("$11", false) == [Param(11)]
    ensures Meant("?1", false, 1) == [Param(1), Char('1')]
  {
    assert "?1"[1..] == "1" && "1"[1..] == "";
    assert Rewritten("1", false, 2) == "1";
    assert Decimal(1) == "1";
    PiecesDollar("11", "", 0);
    assert "$" + "11" + "" == "$11" && "11" + ""[..0] == "11";
    assert "11"[..1] == "1" && "1"[..0] == "";
    assert Value("11") == 11;
  }

  // ---------------------------------------------------------------------------
  // Binding

  datatype Item = Text(c: char) | Bound(arg: Option<string>)

  /** Positional binding: each question mark takes the next argument. */
  function BindNext(q: string, quoted: bool, args: seq<string>): seq<Item> {
    if q == "" then []
    else if q[0] == '\'' then [Text(q[0])] + BindNext(q[1..], !quoted, args)
    else if q[0] == '?' && !quoted then
      [Bound(if args == [] then None else Some(args[0]))] + BindNext(q[1..], quoted, if args == [] then [] else args[1..])
    else [Text(q[0])] + BindNext(q[1..], quoted, args)
  }

  /** Numbered binding: placeholder k takes argument k. */
  function BindNumbered(ps: seq<Piece>, args: seq<string>): seq<Item> {
    if ps == [] then []
    else
      [match ps[0]
       case Char(c) => Text(c)
       case Param(k) => Bound(if 1 <= k <= |args| then Some(args[k - 1]) else None)]
      + BindNumbered(ps[1..], args)
  }

  /** Each placeholder takes the argument of its number, if there is one. */
  lemma {:induction false} NumberedAt(ps: seq<Piece>, args: seq<string>, i: nat)
    requires i < |ps|
    ensures |BindNumbered(ps, args)| == |ps|
    ensures BindNumbered(ps, args)[i] == if ps[i].Char? then Text(ps[i].c)
                                         else if 1 <= ps[i].number <= |args| then Bound(Some(args[ps[i].number - 1])) else Bound(None)
  {
    NumberedLength(ps, args);
    if i > 0 {
      NumberedAt(ps[1..], args, i - 1);
    }
  }

  lemma {:induction false} BindingsAgree(q: string, quoted: bool, n: nat, args: seq<string>)
    requires n >= 1
    ensures BindNumbered(Meant(q, quoted, n), args) ==
            BindNext(q, quoted, if n - 1 <= |args| then args[n - 1..] else [])
  {
    if q != "" {
      if q[0] == '\'' {
        BindingsAgree(q[1..], !quoted, n, args);
      } else if q[0] == '?' && !quoted {
        BindingsAgree(q[1..], quoted, n + 1, args);
        if n - 1 < |args| {
          assert args[n - 1..][1..] == args[n..] && args[n - 1..][0] == args[n - 1];
        }
      } else {
        BindingsAgree(q[1..], quoted, n, args);
      }
    }
  }

  lemma {:induction false} NumberedLength(ps: seq<Piece>, args: seq<string>)
    ensures |BindNumbered(ps, args)| == |ps|
  {
    if ps != [] {
      NumberedLength(ps[1..], args);
    }
  }

  lemma {:induction false} NextLength(q: string, quoted: bool, args: seq<string>)
    ensures |BindNext(q, quoted, args)| == |q|
  {
    if q != "" {
      if q[0] == '\'' {
        NextLength(q[1..], !quoted, args);
      } else if q[0] == '?' && !quoted {
        NextLength(q[1..], quoted, if args == [] then [] else args[1..]);
      } else {
        NextLength(q[1..], quoted, args);
      }
    }
  }

  /**
   So the rewritten query with numbered binding is the original with positional binding if and
   only if no digit directly follows an unquoted question mark or dollar sign, whatever the
   arguments.
   */
  lemma RebindPreservesBinding(q: string, args: seq<string>)
    ensures BindNumbered(Pieces(Rewritten(q, false, 1), false), args) == BindNext(q, false, args) <==> Separate(q, false)
  {
    ReadsBack(q, false, 1);
    BindingsAgree(q, false, 1, args);
    assert args[0..] == args;
    NumberedLength(Pieces(Rewritten(q, false, 1), false), args);
    NextLength(q, false, args);
  }
}
