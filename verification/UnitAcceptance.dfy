/**
 When the reader accepts a unit that the printer wrote, for every environment file: the
 installer checks data directory and address for control characters, but not this value.
 */
module UnitAcceptance {
  import opened ManagedUnit

  // ---------------------------------------------------------------------------
  // Texts with newlines inside

  lemma {:induction false} LinesConcat(a: string, b: string)
    ensures Lines(a + "\n" + b) == Lines(a) + Lines(b)
    decreases |a|
  {
    var s := a + "\n" + b;
    if a == "" {
      assert s[1..] == b;
      assert Lines(s) == [""] + Lines(b);
    } else {
      assert s[1..] == a[1..] + "\n" + b && s[0] == a[0];
      LinesConcat(a[1..], b);
    }
  }

  /** The lines of a list of texts that may themselves hold newlines. */
  function Spread(ls: seq<string>): seq<string> {
    if ls == [] then [] else Lines(ls[0]) + Spread(ls[1..])
  }

  lemma {:induction false} LinesOfText(ls: seq<string>)
    ensures Lines(Text(ls)) == Spread(ls) + [""]
  {
    if ls != [] {
      LinesConcat(ls[0], Text(ls[1..]));
      LinesOfText(ls[1..]);
    }
  }

  lemma {:induction false} SpreadAppend(a: seq<string>, b: seq<string>)
    ensures Spread(a + b) == Spread(a) + Spread(b)
  {
    if a == [] {
      assert a + b == b;
    } else {
      assert (a + b)[1..] == a[1..] + b;
      SpreadAppend(a[1..], b);
    }
  }

  lemma {:induction false} LinesSingle(s: string)
    ensures '\n' !in s ==> Lines(s) == [s]
    ensures '\n' in s ==> |Lines(s)| > 1
  {
    if s != "" {
      LinesSingle(s[1..]);
      assert s == [s[0]] + s[1..];
    }
  }

  lemma {:induction false} SpreadSingle(ls: seq<string>)
    ensures |Spread(ls)| >= |ls|
    ensures OneLine(ls) ==> Spread(ls) == ls
    ensures !OneLine(ls) ==> |Spread(ls)| > |ls|
  {
    if ls != [] {
      LinesSingle(ls[0]);
      SpreadSingle(ls[1..]);
      assert ls == [ls[0]] + ls[1..];
      assert OneLine(ls) <==> '\n' !in ls[0] && OneLine(ls[1..]);
    }
  }

  lemma {:induction false} LinesBehind(p: string, v: string)
    requires '\n' !in p
    ensures Lines(p + v) == [p + Lines(v)[0]] + Lines(v)[1..]
    decreases |p|
  {
    if p == "" {
      assert p + v == v && p + Lines(v)[0] == Lines(v)[0];
      assert Lines(v) == [Lines(v)[0]] + Lines(v)[1..];
    } else {
      assert (p + v)[1..] == p[1..] + v && (p + v)[0] == p[0] && p[0] in p;
      LinesBehind(p[1..], v);
      assert [p[0]] + (p[1..] + Lines(v)[0]) == p + Lines(v)[0];
    }
  }

  /** The lines of a text with one more character in front. */
  function Pushed(c: char, ls: seq<string>): seq<string>
    requires |ls| >= 1
  {
    if c == '\n' then [""] + ls else [[c] + ls[0]] + ls[1..]
  }

  lemma LinesPushed(s: string)
    requires s != ""
    ensures Lines(s) == Pushed(s[0], Lines(s[1..]))
  {
  }

  /** The lines of a text with a suffix. */
  function Suffixed(ls: seq<string>, q: string): seq<string>
    requires |ls| >= 1
  {
    ls[..|ls| - 1] + [ls[|ls| - 1] + q]
  }

  lemma PushedSuffixed(c: char, ls: seq<string>, q: string)
    requires |ls| >= 1
    ensures |Pushed(c, ls)| >= 1 && |Suffixed(ls, q)| >= 1
    ensures Suffixed(Pushed(c, ls), q) == Pushed(c, Suffixed(ls, q))
  {
    var n := |ls| - 1;
    if c == '\n' {
      assert ([""] + ls)[..n + 1] == [""] + ls[..n];
    } else if n == 0 {
      assert ([c] + ls[0]) + q == [c] + (ls[0] + q);
    } else {
      assert Suffixed(ls, q)[0] == ls[0];
      assert Suffixed(ls, q)[1..] == ls[1..n] + [ls[n] + q];
      assert ([[c] + ls[0]] + ls[1..])[..n] == [[c] + ls[0]] + ls[1..n];
    }
  }

  lemma {:induction false} LinesBefore(v: string, q: string)
    requires '\n' !in q
    ensures Lines(v + q) == Suffixed(Lines(v), q)
    decreases |v|
  {
    if v == "" {
      assert v + q == q;
      LinesSingle(q);
    } else {
      assert (v + q)[1..] == v[1..] + q && (v + q)[0] == v[0];
      LinesBefore(v[1..], q);
      LinesPushed(v);
      LinesPushed(v + q);
      PushedSuffixed(v[0], Lines(v[1..]), q);
    }
  }

  // ---------------------------------------------------------------------------
  // Escaping line by line

  lemma LinesNext(s: string, c: char)
    ensures var ls := Lines(s);
            Lines(s + [c]) == if c == '\n' then ls + [""] else ls[..|ls| - 1] + [ls[|ls| - 1] + [c]]
  {
    if c == '\n' {
      LinesConcat(s, "");
      assert s + "\n" + "" == s + [c];
    } else {
      LinesBefore(s, [c]);
    }
  }

  function EscapedAll(ls: seq<string>): seq<string> {
    seq(|ls|, k requires 0 <= k < |ls| => Escaped(ls[k]))
  }

  lemma EscapedSnoc(s: string, c: char)
    ensures Escaped(s + [c]) == Escaped(s) + EscapedChar(c)
  {
    assert (s + [c])[..|s|] == s;
  }

  lemma EscapedAllSnoc(ls: seq<string>, x: string)
    ensures EscapedAll(ls + [x]) == EscapedAll(ls) + [Escaped(x)]
  {
  }

  lemma LastLineGrows(t: string, q: string, pre: seq<string>, last: string)
    requires '\n' !in q && Lines(t) == pre + [last]
    ensures Lines(t + q) == pre + [last + q]
  {
    LinesBefore(t, q);
    assert (pre + [last])[..|pre|] == pre;
  }

  lemma EscapedLineGrows(init: string, c: char, pre: seq<string>, last: string)
    requires c != '\n' && Lines(init) == pre + [last] && Lines(Escaped(init)) == EscapedAll(pre + [last])
    ensures Lines(Escaped(init + [c])) == EscapedAll(Lines(init + [c]))
  {
    LastLineGrows(init, [c], pre, last);
    EscapedAllSnoc(pre, last);
    EscapedCharLine(c);
    LastLineGrows(Escaped(init), EscapedChar(c), EscapedAll(pre), Escaped(last));
    EscapedSnoc(init, c);
    EscapedSnoc(last, c);
    EscapedAllSnoc(pre, last + [c]);
  }

  lemma LineStarts(t: string)
    ensures Lines(t + "\n") == Lines(t) + [""]
  {
    LinesNext(t, '\n');
  }

  lemma EscapedNewline(init: string)
    ensures Escaped(init + "\n") == Escaped(init) + "\n"
  {
    EscapedSnoc(init, '\n');
  }

  lemma EscapedLineStarts(init: string)
    requires Lines(Escaped(init)) == EscapedAll(Lines(init))
    ensures Lines(Escaped(init + "\n")) == EscapedAll(Lines(init + "\n"))
  {
    EscapedNewline(init);
    LineStarts(init);
    LineStarts(Escaped(init));
    EscapedAllSnoc(Lines(init), "");
  }

  lemma EscapedLinesNext(init: string, c: char, ls: seq<string>)
    requires ls == Lines(init) && Lines(Escaped(init)) == EscapedAll(ls)
    ensures Lines(Escaped(init + [c])) == EscapedAll(Lines(init + [c]))
  {
    if c == '\n' {
      EscapedLineStarts(init);
    } else {
      assert ls == ls[..|ls| - 1] + [ls[|ls| - 1]];
      EscapedLineGrows(init, c, ls[..|ls| - 1], ls[|ls| - 1]);
    }
  }

  /** The lines of an escaped text are the escaped lines. */
  lemma {:induction false} EscapedLines(s: string)
    ensures Lines(Escaped(s)) == EscapedAll(Lines(s))
    decreases |s|
  {
    if s != "" {
      EscapedLines(s[..|s| - 1]);
      Snoc(s);
      EscapedLinesNext(s[..|s| - 1], s[|s| - 1], Lines(s[..|s| - 1]));
    }
  }

  lemma {:induction false} EscapedAppend(a: string, b: string)
    ensures Escaped(a + b) == Escaped(a) + Escaped(b)
    decreases |b|
  {
    if b == "" {
      assert a + b == a;
    } else {
      var init, c := b[..|b| - 1], b[|b| - 1];
      EscapedAppend(a, init);
      Snoc(b);
      Associative(a, init, [c]);
      EscapedSnoc(a + init, c);
      EscapedSnoc(init, c);
      Associative(Escaped(a), Escaped(init), EscapedChar(c));
    }
  }

  /** No character that escaping changes or adds. */
  predicate Plain(p: string) {
    forall i :: 0 <= i < |p| ==> p[i] != '%' && p[i] != '"' && p[i] != '\\' && p[i] != '$' && p[i] != '`'
  }

  lemma EscapedFirst(x: string)
    requires x != ""
    ensures Escaped(x) == EscapedChar(x[0]) + Escaped(x[1..])
  {
    assert x == [x[0]] + x[1..];
    EscapedAppend([x[0]], x[1..]);
    EscapedOne(x[0]);
  }

  lemma EscapedOne(c: char)
    ensures Escaped([c]) == EscapedChar(c)
  {
    assert [c][..0] == "";
    assert Escaped("") == "";
    assert "" + EscapedChar(c) == EscapedChar(c);
  }

  lemma {:induction false} EscapedPrefix(x: string, p: string)
    requires Plain(p)
    ensures HasPrefix(Escaped(x), p) <==> HasPrefix(x, p)
    decreases |p|
  {
    if p != "" && x != "" {
      EscapedFirst(x);
      PrefixFirst(x, p);
      if x[0] == p[0] {
        EscapedPrefix(x[1..], p[1..]);
        PrefixFirst(Escaped(x), p);
        assert Escaped(x)[1..] == Escaped(x[1..]);
      } else {
        assert EscapedChar(x[0])[0] != p[0];
      }
    }
  }

  lemma PrefixFirst(x: string, p: string)
    requires x != "" && p != ""
    ensures HasPrefix(x, p) <==> x[0] == p[0] && HasPrefix(x[1..], p[1..])
  {
    if HasPrefix(x, p) {
      assert x[1..][..|p| - 1] == x[..|p|][1..];
    }
    if x[0] == p[0] && HasPrefix(x[1..], p[1..]) {
      assert x[..|p|] == [x[0]] + x[1..][..|p| - 1];
      assert p == [p[0]] + p[1..];
    }
  }

  /** A closing quote makes no prefix out of what was none. */
  lemma ClosedPrefix(x: string, p: string)
    requires Plain(p)
    ensures HasPrefix(x + "\"", p) <==> HasPrefix(x, p)
  {
    if |p| <= |x| {
      assert (x + "\"")[..|p|] == x[..|p|];
    } else if |p| == |x| + 1 {
      assert (x + "\"")[..|p|][|x|] == '"' != p[|x|];
    }
  }

  // ---------------------------------------------------------------------------
  // Records among the lines

  /** A line the reader takes for a record or a header. */
  predicate IsRecord(line: string) {
    || HasPrefix(line, DataPrefix) || HasPrefix(line, ListenPrefix) || HasPrefix(line, ModePrefix)
    || HasPrefix(line, EnvPrefix) || HasPrefix(line, ManagedPrefix)
  }

  predicate NoRecord(ls: seq<string>) {
    forall k :: 0 <= k < |ls| ==> !IsRecord(ls[k])
  }

  lemma {:induction false} ValuesNone(prefix: string, ls: seq<string>)
    ensures Values(prefix, ls) == [] <==> forall k :: 0 <= k < |ls| ==> !HasPrefix(ls[k], prefix)
  {
    if ls != [] {
      var init, last := ls[..|ls| - 1], ls[|ls| - 1];
      ValuesNone(prefix, init);
      assert Values(prefix, ls) == [] <==> Values(prefix, init) == [] && !HasPrefix(last, prefix);
      assert forall k :: 0 <= k < |init| ==> init[k] == ls[k];
    }
  }

  lemma RecordsNone(ls: seq<string>)
    ensures NoRecord(ls) <==>
            RecordsOf(ls) == Records([], [], [], []) && Values(ManagedPrefix, ls) == []
  {
    ValuesNone(DataPrefix, ls);
    ValuesNone(ListenPrefix, ls);
    ValuesNone(ModePrefix, ls);
    ValuesNone(EnvPrefix, ls);
    ValuesNone(ManagedPrefix, ls);
  }

  lemma RecordsJoin(a: seq<string>, b: seq<string>)
    ensures RecordsOf(a + b) == Records(RecordsOf(a).data + RecordsOf(b).data, RecordsOf(a).listen + RecordsOf(b).listen,
                                        RecordsOf(a).mode + RecordsOf(b).mode, RecordsOf(a).envFile + RecordsOf(b).envFile)
    ensures Values(ManagedPrefix, a + b) == Values(ManagedPrefix, a) + Values(ManagedPrefix, b)
  {
    ValuesAppend(DataPrefix, a, b);
    ValuesAppend(ListenPrefix, a, b);
    ValuesAppend(ModePrefix, a, b);
    ValuesAppend(EnvPrefix, a, b);
    ValuesAppend(ManagedPrefix, a, b);
  }

  lemma RecordPrefixesPlain()
    ensures Plain(DataPrefix) && Plain(ListenPrefix) && Plain(EnvPrefix)
  {
  }

  lemma PrefixesPlain()
    ensures Plain(DataPrefix) && Plain(ListenPrefix) && Plain(ModePrefix) && Plain(EnvPrefix) && Plain(ManagedPrefix)
  {
    RecordPrefixesPlain();
  }

  /** Quoting changes nothing about what a line looks like to the reader. */
  lemma EscapedRecord(x: string)
    ensures IsRecord(Escaped(x)) <==> IsRecord(x)
    ensures IsRecord(Escaped(x) + "\"") <==> IsRecord(x)
  {
    PrefixesPlain();
    forall p | p in [DataPrefix, ListenPrefix, ModePrefix, EnvPrefix, ManagedPrefix]
      ensures (HasPrefix(Escaped(x), p) <==> HasPrefix(x, p)) && (HasPrefix(Escaped(x) + "\"", p) <==> HasPrefix(x, p))
    {
      EscapedPrefix(x, p);
      ClosedPrefix(Escaped(x), p);
    }
  }

  lemma FitNoRecord(line: string)
    requires line == "" || line[0] != '#'
    ensures !IsRecord(line)
  {
  }

  lemma AllFitNoRecord(ls: seq<string>)
    requires AllFit(ls)
    ensures NoRecord(ls) == true && OneLine(ls) == true
  {
    forall k | 0 <= k < |ls| ensures !IsRecord(ls[k]) {
      FitNoRecord(ls[k]);
    }
  }

  // ---------------------------------------------------------------------------
  // Reading what was sealed, whatever is inside

  /** Behind the two header lines the reader sees the lines of the content, and its checksum fits. */
  lemma SealedReads(digest: Digest, m: Meta, body: seq<string>, c: seq<string>)
    requires Hex(digest) && c == Lines(Text(MetaLines(m) + body))
    ensures Read(digest, Sealed(digest, m, body)) ==
            if Values(ManagedPrefix, c) == [] && AtMostOnce(RecordsOf(c)) && Acceptable(MetaOf(RecordsOf(c)))
            then Ok(MetaOf(RecordsOf(c))) else Err(Malformed)
    ensures Lines(Sealed(digest, m, body)) == [Marker, HeaderPrefix + digest(Text(MetaLines(m) + body))] + c
  {
    var content := MetaLines(m) + body;
    var sum := digest(Text(content));
    var header := HeaderPrefix + sum;
    var text := Sealed(digest, m, body);
    assert IsDigest(sum);
    HeaderLine(sum);
    MarkerIsNoHeader();
    HeaderOneLine(sum);
    TwoHeads(Marker, header, content);
    JoinLines(Text(content));
    CountHeaders(header, c);
    assert ([Marker, header] + c)[2..] == c;
    assert |c| >= 1;
  }

  lemma TextCons(a: string, ls: seq<string>)
    ensures Text([a] + ls) == a + "\n" + Text(ls)
  {
    assert ([a] + ls)[1..] == ls;
  }

  lemma OneHead(a: string, ls: seq<string>)
    requires '\n' !in a
    ensures Lines(Text([a] + ls)) == [a] + Lines(Text(ls))
  {
    TextCons(a, ls);
    LinesHead(a, Text(ls));
  }

  lemma Pair(a: string, b: string, ls: seq<string>)
    ensures [a] + ([b] + ls) == [a, b] + ls
  {
  }

  lemma TwoHeads(a: string, b: string, content: seq<string>)
    requires '\n' !in a && '\n' !in b
    ensures Lines(Text([a, b] + content)) == [a, b] + Lines(Text(content))
  {
    Pair(a, b, content);
    OneHead(a, [b] + content);
    OneHead(b, content);
    Pair(a, b, Lines(Text(content)));
  }

  lemma HeaderOneLine(sum: string)
    requires IsDigest(sum)
    ensures '\n' !in Marker && '\n' !in HeaderPrefix + sum
  {
    assert '\n' !in HeaderPrefix;
  }

  lemma CountHeaders(header: string, c: seq<string>)
    requires HasPrefix(header, ManagedPrefix) && !HasPrefix(Marker, ManagedPrefix)
    ensures |Values(ManagedPrefix, [Marker, header] + c)| == 1 <==> Values(ManagedPrefix, c) == []
  {
    ValuesAppend(ManagedPrefix, [Marker, header], c);
    assert [Marker, header] == [Marker] + [header];
    ValuesAppend(ManagedPrefix, [Marker], [header]);
    ValuesOne(ManagedPrefix, Marker);
    ValuesOne(ManagedPrefix, header);
  }

  // ---------------------------------------------------------------------------
  // The environment file among the lines

  /** The lines of the quoted environment file directive. */
  function DirectiveLines(e: string): seq<string> {
    Lines("EnvironmentFile=" + Quoted(e))
  }

  /** A text between a prefix and a suffix, line by line. */
  function Wrapped(p: string, ls: seq<string>, q: string): seq<string>
    requires |ls| >= 1
  {
    var v := ls[..|ls| - 1] + [ls[|ls| - 1] + q];
    [p + v[0]] + v[1..]
  }

  lemma WrappedLines(p: string, x: string, q: string)
    requires '\n' !in p && '\n' !in q
    ensures Lines(p + (x + q)) == Wrapped(p, Lines(x), q)
  {
    LinesBefore(x, q);
    LinesBehind(p, x + q);
  }

  lemma QuoteInside(a: string, b: string, x: string, q: string)
    ensures a + (b + x + q) == (a + b) + (x + q)
  {
  }

  lemma DirectiveSplit(e: string)
    ensures |EscapedAll(Lines(e))| >= 1
    ensures DirectiveLines(e) == Wrapped("EnvironmentFile=" + "\"", EscapedAll(Lines(e)), "\"")
  {
    QuoteInside("EnvironmentFile=", "\"", Escaped(e), "\"");
    WrappedLines("EnvironmentFile=" + "\"", Escaped(e), "\"");
    EscapedLines(e);
  }

  lemma SameRecords(mid: seq<string>, ls: seq<string>)
    requires |mid| == |ls| >= 1 && !IsRecord(mid[0])
    requires forall k :: 1 <= k < |ls| ==> (IsRecord(mid[k]) <==> IsRecord(ls[k]))
    ensures NoRecord(mid) <==> NoRecord(ls[1..])
  {
    if NoRecord(mid) {
      forall k | 0 <= k < |ls| - 1 ensures !IsRecord(ls[1..][k]) {
        assert ls[1..][k] == ls[k + 1] && !IsRecord(mid[k + 1]);
      }
    }
    if NoRecord(ls[1..]) {
      forall k | 0 <= k < |mid| ensures !IsRecord(mid[k]) {
        if k > 0 {
          assert ls[1..][k - 1] == ls[k];
        }
      }
    }
  }

  lemma WrappedAt(p: string, ls: seq<string>, q: string, k: nat)
    requires 1 <= k < |ls|
    ensures |Wrapped(p, ls, q)| == |ls| && Wrapped(p, ls, q)[k] == if k == |ls| - 1 then ls[k] + q else ls[k]
  {
  }

  lemma WrappedFirst(p: string, ls: seq<string>, q: string)
    requires |ls| >= 1 && p != ""
    ensures |Wrapped(p, ls, q)| == |ls| && Wrapped(p, ls, q)[0] != "" && Wrapped(p, ls, q)[0][0] == p[0]
  {
  }

  /** The directive holds a record exactly where the value has one after its first line. */
  lemma DirectiveRecords(e: string)
    ensures NoRecord(DirectiveLines(e)) <==> NoRecord(Lines(e)[1..])
  {
    var p, ls := "EnvironmentFile=" + "\"", Lines(e);
    var mid := DirectiveLines(e);
    DirectiveSplit(e);
    WrappedFirst(p, EscapedAll(ls), "\"");
    FitNoRecord(mid[0]);
    forall k | 1 <= k < |ls| ensures IsRecord(mid[k]) <==> IsRecord(ls[k]) {
      WrappedAt(p, EscapedAll(ls), "\"", k);
      EscapedRecord(ls[k]);
    }
    SameRecords(mid, ls);
  }

  /** What the reader accepts of an environment file: its first line, trimmed, and no record on any further line. */
  predicate EnvAccepted(e: string) {
    var ls := Lines(e);
    NoControl(Trim(ls[0])) && '%' !in Trim(ls[0]) && NoRecord(ls[1..])
  }

  /** The recorded values as they are read. */
  function ReadValues(m: Meta): Meta {
    Meta(Trim(m.data), Trim(m.listen), Trim(m.mode), Trim(Lines(m.envFile)[0]))
  }

  lemma HeadRecords(m: Meta, first: string)
    ensures var head := Three(m) + [EnvPrefix + first];
            RecordsOf(head) == Records([Trim(m.data)], [Trim(m.listen)], [Trim(m.mode)], [Trim(first)])
            && Values(ManagedPrefix, head) == []
  {
    var a, b, c := DataPrefix + m.data, ListenPrefix + m.listen, ModePrefix + m.mode;
    RecordData(Records([], [], [], []), m.data);
    RecordListen(Records([Trim(m.data)], [], [], []), m.listen);
    RecordMode(Records([Trim(m.data)], [Trim(m.listen)], [], []), m.mode);
    ThreeRecords(a, b, c);
    RecordEnv(Records([Trim(m.data)], [Trim(m.listen)], [Trim(m.mode)], []), first);
    RecordsSnoc([a, b, c], EnvPrefix + first, [a, b, c] + [EnvPrefix + first]);
    ManagedSnoc([a, b, c], EnvPrefix + first, [a, b, c] + [EnvPrefix + first]);
  }

  /** Any record behind the head repeats one, or is a second header. */
  lemma RestDecides(m: Meta, first: string, head: seq<string>, rest: seq<string>)
    requires head == Three(m) + [EnvPrefix + first]
    ensures NoRecord(rest) <==> Values(ManagedPrefix, head + rest) == [] && AtMostOnce(RecordsOf(head + rest))
    ensures NoRecord(rest) ==> MetaOf(RecordsOf(head + rest)) == Meta(Trim(m.data), Trim(m.listen), Trim(m.mode), Trim(first))
  {
    HeadRecords(m, first);
    RecordsJoin(head, rest);
    RecordsNone(rest);
  }

  lemma NoRecordAppend(a: seq<string>, b: seq<string>)
    ensures NoRecord(a + b) <==> NoRecord(a) && NoRecord(b)
  {
    assert forall k :: 0 <= k < |a| ==> (a + b)[k] == a[k];
    assert forall k :: 0 <= k < |b| ==> (a + b)[|a| + k] == b[k];
  }

  function Three(m: Meta): seq<string> {
    [DataPrefix + m.data, ListenPrefix + m.listen, ModePrefix + m.mode]
  }

  lemma MetaSpread(m: Meta)
    requires m.envFile != "" && '\n' !in m.data && '\n' !in m.listen && '\n' !in m.mode
    ensures Spread(MetaLines(m)) == Three(m) + [EnvPrefix + Lines(m.envFile)[0]] + Lines(m.envFile)[1..]
  {
    SpreadAppend(Three(m), [EnvPrefix + m.envFile]);
    MetaOneLine(Meta(m.data, m.listen, m.mode, ""));
    assert MetaLines(Meta(m.data, m.listen, m.mode, "")) == Three(m);
    SpreadSingle(Three(m));
    SpreadOne(EnvPrefix + m.envFile);
    assert '\n' !in EnvPrefix;
    LinesBehind(EnvPrefix, m.envFile);
    assert Three(m) + ([EnvPrefix + Lines(m.envFile)[0]] + Lines(m.envFile)[1..])
           == Three(m) + [EnvPrefix + Lines(m.envFile)[0]] + Lines(m.envFile)[1..];
  }

  lemma BodySpread(pre: seq<string>, e: string, post: seq<string>)
    requires e != "" && OneLine(pre) && OneLine(post)
    ensures Spread(pre + EnvironmentFile(e) + post) == pre + DirectiveLines(e) + post
  {
    SpreadAppend(pre + EnvironmentFile(e), post);
    SpreadAppend(pre, EnvironmentFile(e));
    SpreadSingle(pre);
    SpreadSingle(post);
    SpreadOne("EnvironmentFile=" + Quoted(e));
  }

  lemma Regroup(head: seq<string>, tail: seq<string>, pre: seq<string>, mid: seq<string>, post: seq<string>)
    ensures (head + tail) + (pre + mid + post) + [""] == head + (tail + (pre + (mid + (post + [""]))))
  {
  }

  /** Where the lines of the content come from. */
  lemma ContentLines(m: Meta, pre: seq<string>, post: seq<string>, head: seq<string>, rest: seq<string>)
    requires m.envFile != "" && '\n' !in m.data && '\n' !in m.listen && '\n' !in m.mode && OneLine(pre) && OneLine(post)
    requires head == Three(m) + [EnvPrefix + Lines(m.envFile)[0]]
    requires rest == Lines(m.envFile)[1..] + (pre + (DirectiveLines(m.envFile) + (post + [""])))
    ensures Lines(Text(MetaLines(m) + (pre + EnvironmentFile(m.envFile) + post))) == head + rest
  {
    var body := pre + EnvironmentFile(m.envFile) + post;
    LinesOfText(MetaLines(m) + body);
    SpreadAppend(MetaLines(m), body);
    MetaSpread(m);
    BodySpread(pre, m.envFile, post);
    Regroup(head, Lines(m.envFile)[1..], pre, DirectiveLines(m.envFile), post);
  }

  lemma SpreadOne(x: string)
    ensures Spread([x]) == Lines(x)
  {
    assert [x][1..] == [];
    assert Lines(x) + [] == Lines(x);
  }

  /** Reading back any sealed unit whose data directory and address hold no newline. */
  lemma SealedAccepted(digest: Digest, m: Meta, pre: seq<string>, post: seq<string>)
    requires Hex(digest) && '\n' !in m.data && '\n' !in m.listen && '\n' !in m.mode && AllFit(pre) && AllFit(post)
    ensures Read(digest, Sealed(digest, m, pre + EnvironmentFile(m.envFile) + post)) ==
            if Acceptable(ReadValues(m)) && NoRecord(Lines(m.envFile)[1..]) then Ok(ReadValues(m)) else Err(Malformed)
  {
    var body := pre + EnvironmentFile(m.envFile) + post;
    AllFitNoRecord(pre);
    AllFitNoRecord(post);
    if m.envFile == "" {
      assert body == pre + post;
      FitAppend(pre, post);
      MetaOneLine(m);
      ReadSealed(digest, m, body);
      assert Lines("") == [""];
    } else {
      var head := Three(m) + [EnvPrefix + Lines(m.envFile)[0]];
      var tail := Lines(m.envFile)[1..];
      var rest := tail + (pre + (DirectiveLines(m.envFile) + (post + [""])));
      ContentLines(m, pre, post, head, rest);
      SealedReads(digest, m, body, head + rest);
      RestDecides(m, Lines(m.envFile)[0], head, rest);
      NoRecordAppend(tail, pre + (DirectiveLines(m.envFile) + (post + [""])));
      NoRecordAppend(pre, DirectiveLines(m.envFile) + (post + [""]));
      NoRecordAppend(DirectiveLines(m.envFile), post + [""]);
      NoRecordAppend(post, [""]);
      FitNoRecord("");
      DirectiveRecords(m.envFile);
    }
  }

  // ---------------------------------------------------------------------------
  // The two forms of a unit

  function Before(dataDir: string, listenEnv: seq<string>): seq<string> {
    UnitSection() + Account() + (["Environment=WEBFLEET_DATA_DIR=" + Quoted(dataDir)] + listenEnv)
  }

  function Behind(dataDir: string, exec: string): seq<string> {
    (["ExecStart=/usr/local/bin/webfleet" + exec] + Hardening() + ["ReadWritePaths=" + Quoted(dataDir), ""]) + InstallSection()
  }

  lemma Sections(u: seq<string>, a: seq<string>, b: seq<string>, e: seq<string>, x: seq<string>, i: seq<string>)
    ensures u + (a + (b + e) + x) + i == (u + a + b) + e + (x + i)
  {
  }

  lemma BeforeFits(dataDir: string, listenEnv: seq<string>)
    requires '\n' !in dataDir && AllFit(listenEnv)
    ensures AllFit(Before(dataDir, listenEnv)) == true
  {
    var settings := ["Environment=WEBFLEET_DATA_DIR=" + Quoted(dataDir)] + listenEnv;
    UnitSectionFits();
    ServiceLinesFit();
    FitQuoted("Environment=WEBFLEET_DATA_DIR=", dataDir);
    FitAppend(["Environment=WEBFLEET_DATA_DIR=" + Quoted(dataDir)], listenEnv);
    FitAppend(UnitSection(), Account());
    FitAppend(UnitSection() + Account(), settings);
  }

  lemma BehindFits(dataDir: string, exec: string)
    requires '\n' !in dataDir && '\n' !in exec
    ensures AllFit(Behind(dataDir, exec)) == true
  {
    ExecutionFits(dataDir, exec);
    InstallSectionFits();
    FitAppend(["ExecStart=/usr/local/bin/webfleet" + exec] + Hardening() + ["ReadWritePaths=" + Quoted(dataDir), ""], InstallSection());
  }

  lemma SectionLines(dataDir: string, listenEnv: seq<string>, envFile: string, exec: string)
    ensures UnitSection() + ServiceSection(dataDir, listenEnv, envFile, exec) + InstallSection()
            == Before(dataDir, listenEnv) + EnvironmentFile(envFile) + Behind(dataDir, exec)
  {
    Sections(UnitSection(), Account(), ["Environment=WEBFLEET_DATA_DIR=" + Quoted(dataDir)] + listenEnv, EnvironmentFile(envFile),
             ["ExecStart=/usr/local/bin/webfleet" + exec] + Hardening() + ["ReadWritePaths=" + Quoted(dataDir), ""], InstallSection());
  }

  lemma TrimKeeps(s: string)
    requires NoControl(s)
    ensures NoControl(Trim(s))
  {
    TrimLeftKeeps(s);
    TrimRightEnds(TrimLeft(s));
  }

  lemma {:induction false} TrimLeftKeeps(s: string)
    requires NoControl(s)
    ensures NoControl(TrimLeft(s))
  {
    if s != "" && Space(s[0]) {
      TrimLeftKeeps(s[1..]);
    }
  }

  function BootstrapListen(listen: string): seq<string> {
    ["Environment=WEBFLEET_LISTEN=" + Quoted(OrDefault(listen, DefaultListen))]
  }

  lemma BootstrapParts(d: string, l: string, e: string)
    requires NoControl(d) && NoControl(l)
    ensures var pre, post := Before(OrDefault(d, DefaultDataDir), BootstrapListen(l)), Behind(OrDefault(d, DefaultDataDir), "");
            Body(d, l, e) == pre + EnvironmentFile(e) + post && AllFit(pre) == true && AllFit(post) == true
  {
    var dir := OrDefault(d, DefaultDataDir);
    CleanLine(d);
    CleanLine(l);
    FitQuoted("Environment=WEBFLEET_LISTEN=", OrDefault(l, DefaultListen));
    BeforeFits(dir, BootstrapListen(l));
    BehindFits(dir, "");
    SectionLines(dir, BootstrapListen(l), e, "");
  }

  function ExplicitExec(host: string, port: string): string {
    " " + Quoted("--host") + " " + Quoted(Trim(host)) + " " + Quoted("--port") + " " + Quoted(Trim(port))
  }

  lemma ExplicitParts(d: string, host: string, port: string, e: string)
    requires NoControl(d) && NoControl(Trim(host)) && NoControl(Trim(port))
    ensures var pre, post := Before(OrDefault(d, DefaultDataDir), []), Behind(OrDefault(d, DefaultDataDir), ExplicitExec(host, port));
            BodyExplicit(d, host, port, e) == pre + EnvironmentFile(e) + post && AllFit(pre) == true && AllFit(post) == true
  {
    var dir := OrDefault(d, DefaultDataDir);
    CleanLine(d);
    CleanLine(Trim(host));
    CleanLine(Trim(port));
    EscapedLine("--host");
    EscapedLine("--port");
    EscapedLine(Trim(host));
    EscapedLine(Trim(port));
    BeforeFits(dir, []);
    BehindFits(dir, ExplicitExec(host, port));
    SectionLines(dir, [], e, ExplicitExec(host, port));
  }

  /**
   A bootstrap unit with the values that install lets through is accepted exactly when data
   directory and address are not blank and the environment file is accepted; it is then read
   back trimmed, the environment file up to its first line.
   */
  lemma BootstrapAccepted(digest: Digest, d: string, l: string, e: string)
    requires Hex(digest) && NoControl(d) && NoControl(l)
    ensures Read(digest, Build(digest, d, l, e)) ==
            if Trim(d) != "" && Trim(l) != "" && EnvAccepted(e) then Ok(ReadValues(Meta(d, l, Bootstrap, e))) else Err(Malformed)
  {
    CleanLine(d);
    CleanLine(l);
    ModeClean(Bootstrap);
    TrimKeeps(d);
    TrimKeeps(l);
    BootstrapParts(d, l, e);
    SealedAccepted(digest, Meta(d, l, Bootstrap, e),
                   Before(OrDefault(d, DefaultDataDir), BootstrapListen(l)), Behind(OrDefault(d, DefaultDataDir), ""));
  }

  /** Likewise for an explicit unit, whose address is never blank. */
  lemma ExplicitAccepted(digest: Digest, d: string, host: string, port: string, e: string)
    requires Hex(digest) && NoControl(d) && NoControl(JoinHostPort(Trim(host), Trim(port)))
    ensures Read(digest, BuildExplicit(digest, d, host, port, e)) ==
            if Trim(d) != "" && EnvAccepted(e)
            then Ok(ReadValues(Meta(d, JoinHostPort(Trim(host), Trim(port)), Explicit, e))) else Err(Malformed)
  {
    var l := JoinHostPort(Trim(host), Trim(port));
    CleanLine(d);
    CleanLine(l);
    ModeClean(Explicit);
    TrimKeeps(d);
    JoinedTrimmed(host, port);
    JoinedControl(Trim(host), Trim(port));
    ExplicitParts(d, host, port, e);
    SealedAccepted(digest, Meta(d, l, Explicit, e),
                   Before(OrDefault(d, DefaultDataDir), []), Behind(OrDefault(d, DefaultDataDir), ExplicitExec(host, port)));
  }

  /** In particular a percent sign or a control character on the first line makes a unit that the reader refuses. */
  lemma FirstLineRefused(digest: Digest, d: string, l: string, e: string)
    requires Hex(digest) && NoControl(d) && NoControl(l)
    requires '%' in Trim(Lines(e)[0]) || !NoControl(Trim(Lines(e)[0]))
    ensures Read(digest, Build(digest, d, l, e)) == Err(Malformed)
  {
    BootstrapAccepted(digest, d, l, e);
  }

  lemma FirstLineRefusedExplicit(digest: Digest, d: string, host: string, port: string, e: string)
    requires Hex(digest) && NoControl(d) && NoControl(JoinHostPort(Trim(host), Trim(port)))
    requires '%' in Trim(Lines(e)[0]) || !NoControl(Trim(Lines(e)[0]))
    ensures Read(digest, BuildExplicit(digest, d, host, port, e)) == Err(Malformed)
  {
    ExplicitAccepted(digest, d, host, port, e);
  }

  // ---------------------------------------------------------------------------
  // Lines that come from the value

  /** The lines a unit is meant to have. */
  function Template(digest: Digest, m: Meta, body: seq<string>): seq<string> {
    [Marker, HeaderPrefix + digest(Text(MetaLines(m) + body))] + (MetaLines(m) + body + [""])
  }

  lemma ContentOneLine(m: Meta, pre: seq<string>, post: seq<string>)
    requires '\n' !in m.data && '\n' !in m.listen && '\n' !in m.mode && OneLine(pre) && OneLine(post)
    ensures OneLine(MetaLines(m) + (pre + EnvironmentFile(m.envFile) + post)) <==> '\n' !in m.envFile
  {
    var body := pre + EnvironmentFile(m.envFile) + post;
    if '\n' in m.envFile {
      var all := MetaLines(m) + body;
      assert all[3] == EnvPrefix + m.envFile;
      assert '\n' in all[3];
    } else {
      MetaOneLine(m);
      EscapedLine(m.envFile);
      assert '\n' !in "EnvironmentFile=";
      assert OneLine(EnvironmentFile(m.envFile));
    }
  }

  lemma SealedTemplate(digest: Digest, m: Meta, pre: seq<string>, post: seq<string>)
    requires Hex(digest) && '\n' !in m.data && '\n' !in m.listen && '\n' !in m.mode && AllFit(pre) && AllFit(post)
    ensures var body := pre + EnvironmentFile(m.envFile) + post;
            Lines(Sealed(digest, m, body)) == Template(digest, m, body) <==> '\n' !in m.envFile
  {
    var body := pre + EnvironmentFile(m.envFile) + post;
    var content := MetaLines(m) + body;
    AllFitNoRecord(pre);
    AllFitNoRecord(post);
    LinesOfText(content);
    SealedReads(digest, m, body, Lines(Text(content)));
    SpreadSingle(content);
    ContentOneLine(m, pre, post);
    if '\n' in m.envFile {
      assert |Lines(Sealed(digest, m, body))| != |Template(digest, m, body)|;
    }
  }

  /** The lines of a built unit are exactly those of its template if and only if the environment file has no newline. */
  lemma TemplateExactly(digest: Digest, d: string, l: string, e: string)
    requires Hex(digest) && NoControl(d) && NoControl(l)
    ensures Lines(Build(digest, d, l, e)) == Template(digest, Meta(d, l, Bootstrap, e), Body(d, l, e)) <==> '\n' !in e
  {
    CleanLine(d);
    CleanLine(l);
    ModeClean(Bootstrap);
    BootstrapParts(d, l, e);
    SealedTemplate(digest, Meta(d, l, Bootstrap, e),
                   Before(OrDefault(d, DefaultDataDir), BootstrapListen(l)), Behind(OrDefault(d, DefaultDataDir), ""));
  }

  lemma TemplateExactlyExplicit(digest: Digest, d: string, host: string, port: string, e: string)
    requires Hex(digest) && NoControl(d) && NoControl(JoinHostPort(Trim(host), Trim(port)))
    ensures var m := Meta(d, JoinHostPort(Trim(host), Trim(port)), Explicit, e);
            Lines(BuildExplicit(digest, d, host, port, e)) == Template(digest, m, BodyExplicit(d, host, port, e)) <==> '\n' !in e
  {
    CleanLine(d);
    CleanLine(JoinHostPort(Trim(host), Trim(port)));
    ModeClean(Explicit);
    JoinedControl(Trim(host), Trim(port));
    ExplicitParts(d, host, port, e);
    SealedTemplate(digest, Meta(d, JoinHostPort(Trim(host), Trim(port)), Explicit, e),
                   Before(OrDefault(d, DefaultDataDir), []), Behind(OrDefault(d, DefaultDataDir), ExplicitExec(host, port)));
  }

  lemma SealedInjects(digest: Digest, m: Meta, pre: seq<string>, post: seq<string>, k: nat)
    requires Hex(digest) && '\n' !in m.data && '\n' !in m.listen && '\n' !in m.mode && AllFit(pre) && AllFit(post)
    requires 1 <= k < |Lines(m.envFile)|
    ensures Lines(m.envFile)[k] in Lines(Sealed(digest, m, pre + EnvironmentFile(m.envFile) + post))
  {
    var e := m.envFile;
    AllFitNoRecord(pre);
    AllFitNoRecord(post);
    var head := Three(m) + [EnvPrefix + Lines(e)[0]];
    var rest := Lines(e)[1..] + (pre + (DirectiveLines(e) + (post + [""])));
    assert Lines("") == [""];
    ContentLines(m, pre, post, head, rest);
    SealedReads(digest, m, pre + EnvironmentFile(e) + post, head + rest);
    assert Lines(e)[k] == Lines(e)[1..][k - 1];
    assert Lines(e)[k] in rest;
  }

  /** Every further line of the environment file is a line of its own in the unit. */
  lemma FurtherLinesInjected(digest: Digest, d: string, l: string, e: string, k: nat)
    requires Hex(digest) && NoControl(d) && NoControl(l) && 1 <= k < |Lines(e)|
    ensures Lines(e)[k] in Lines(Build(digest, d, l, e))
  {
    CleanLine(d);
    CleanLine(l);
    ModeClean(Bootstrap);
    BootstrapParts(d, l, e);
    SealedInjects(digest, Meta(d, l, Bootstrap, e),
                  Before(OrDefault(d, DefaultDataDir), BootstrapListen(l)), Behind(OrDefault(d, DefaultDataDir), ""), k);
  }

  lemma FurtherLinesInjectedExplicit(digest: Digest, d: string, host: string, port: string, e: string, k: nat)
    requires Hex(digest) && NoControl(d) && NoControl(JoinHostPort(Trim(host), Trim(port))) && 1 <= k < |Lines(e)|
    ensures Lines(e)[k] in Lines(BuildExplicit(digest, d, host, port, e))
  {
    CleanLine(d);
    CleanLine(JoinHostPort(Trim(host), Trim(port)));
    ModeClean(Explicit);
    JoinedControl(Trim(host), Trim(port));
    ExplicitParts(d, host, port, e);
    SealedInjects(digest, Meta(d, JoinHostPort(Trim(host), Trim(port)), Explicit, e),
                  Before(OrDefault(d, DefaultDataDir), []), Behind(OrDefault(d, DefaultDataDir), ExplicitExec(host, port)), k);
  }
}
