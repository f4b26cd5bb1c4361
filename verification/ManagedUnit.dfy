/**
 The managed unit file: its printer, its checksummed header, and the reader that refuses
 foreign, malformed and modified units. Texts are sequences of Unicode characters.
 */
module ManagedUnit {

  datatype Error = NotManaged | Malformed | Modified

  datatype Result<+T> = Ok(value: T) | Err(error: Error)

  datatype Meta = Meta(data: string, listen: string, mode: string, envFile: string)

  /** The checksum of a text, as 64 lower-case hexadecimal digits. */
  type Digest = string -> string

  const Marker := "# Managed by webfleet. Do not edit manually."
  const ManagedPrefix := "# webfleet-managed: "
  const DataPrefix := "# webfleet-data: "
  const ListenPrefix := "# webfleet-listen: "
  const ModePrefix := "# webfleet-listen-mode: "
  const EnvPrefix := "# webfleet-envfile: "
  const HeaderPrefix := ManagedPrefix + "v1 sha256="
  const Explicit := "explicit"
  const Bootstrap := "bootstrap"
  const DefaultDataDir := "/var/lib/webfleet"
  const DefaultListen := "127.0.0.1:7336"

  // ---------------------------------------------------------------------------
  // Text

  predicate Space(c: char) {
    || '\t' <= c <= '\r' || c == ' ' || c == '\U{0085}' || c == '\U{00A0}' || c == '\U{1680}'
    || '\U{2000}' <= c <= '\U{200a}' || c == '\U{2028}' || c == '\U{2029}' || c == '\U{202f}' || c == '\U{205f}' || c == '\U{3000}'
  }

  function TrimLeft(s: string): string {
    if s != "" && Space(s[0]) then TrimLeft(s[1..]) else s
  }

  function TrimRight(s: string): string {
    if s != "" && Space(s[|s| - 1]) then TrimRight(s[..|s| - 1]) else s
  }

  function Trim(s: string): string {
    TrimRight(TrimLeft(s))
  }

  lemma {:induction false} TrimLeftEnds(s: string)
    ensures TrimLeft(s) == "" || !Space(TrimLeft(s)[0])
  {
    if s != "" && Space(s[0]) {
      TrimLeftEnds(s[1..]);
    }
  }

  lemma {:induction false} TrimRightEnds(s: string)
    ensures TrimRight(s) == "" || !Space(TrimRight(s)[|TrimRight(s)| - 1])
    ensures |TrimRight(s)| <= |s| && TrimRight(s) == s[..|TrimRight(s)|]
  {
    if s != "" && Space(s[|s| - 1]) {
      TrimRightEnds(s[..|s| - 1]);
    }
  }

  /** A trimmed text has no space at either end. */
  lemma TrimEnds(s: string)
    ensures Trim(s) == "" || (!Space(Trim(s)[0]) && !Space(Trim(s)[|Trim(s)| - 1]))
    ensures Trim(Trim(s)) == Trim(s)
  {
    TrimLeftEnds(s);
    TrimRightEnds(TrimLeft(s));
  }

  /** The white space of Unicode, by code points. */
  lemma SpaceExactly(c: char)
    ensures Space(c) <==> c as int in [9, 10, 11, 12, 13, 32, 0x85, 0xA0, 0x1680, 0x2000, 0x2001, 0x2002, 0x2003, 0x2004, 0x2005,
                                       0x2006, 0x2007, 0x2008, 0x2009, 0x200A, 0x2028, 0x2029, 0x202F, 0x205F, 0x3000]
  {
  }

  lemma {:induction false} TrimLeftCut(s: string) returns (i: nat)
    ensures i <= |s| && TrimLeft(s) == s[i..] && forall k :: 0 <= k < i ==> Space(s[k])
  {
    i := 0;
    if s != "" && Space(s[0]) {
      i := TrimLeftCut(s[1..]);
      i := i + 1;
    }
  }

  lemma {:induction false} TrimRightCut(s: string) returns (j: nat)
    ensures j <= |s| && TrimRight(s) == s[..j] && forall k :: j <= k < |s| ==> Space(s[k])
  {
    j := |s|;
    if s != "" && Space(s[|s| - 1]) {
      j := TrimRightCut(s[..|s| - 1]);
    }
  }

  /** Trimming takes away nothing but space at the two ends. */
  lemma TrimCut(s: string) returns (i: nat, j: nat)
    ensures i <= j <= |s| && Trim(s) == s[i..j]
    ensures forall k :: 0 <= k < i || j <= k < |s| ==> Space(s[k])
  {
    i := TrimLeftCut(s);
    var n := TrimRightCut(s[i..]);
    j := i + n;
    forall k | j <= k < |s| ensures Space(s[k]) {
      assert s[k] == s[i..][k - i];
    }
  }

  /** The trimmed text is the part between the space at the ends: nothing less is taken away either. */
  lemma TrimExactly(s: string, t: string)
    ensures Trim(s) == t <==>
            && (t == "" || (!Space(t[0]) && !Space(t[|t| - 1])))
            && exists i, j :: 0 <= i <= j <= |s| && s[i..j] == t && forall k :: 0 <= k < i || j <= k < |s| ==> Space(s[k])
  {
    TrimEnds(s);
    var a, b := TrimCut(s);
    if t == "" || (!Space(t[0]) && !Space(t[|t| - 1])) {
      if i, j :| 0 <= i <= j <= |s| && s[i..j] == t && forall k :: 0 <= k < i || j <= k < |s| ==> Space(s[k]) {
        if t != "" {
          assert t[0] == s[i] && t[|t| - 1] == s[j - 1];
          assert a <= i && j <= b;
          assert Trim(s)[0] == s[a] && Trim(s)[|Trim(s)| - 1] == s[b - 1];
          assert a == i && b == j;
        } else if Trim(s) != "" {
          assert false;
        }
      }
    }
  }

  predicate HasPrefix(s: string, p: string) {
    |p| <= |s| && s[..|p|] == p
  }

  predicate NoControl(s: string) {
    forall i :: 0 <= i < |s| ==> ' ' <= s[i] && s[i] != '\U{007f}'
  }

  /** The pieces between newlines; never empty. */
  function Lines(s: string): (ls: seq<string>)
    ensures |ls| >= 1
  {
    if s == "" then [""]
    else
      var rest := Lines(s[1..]);
      if s[0] == '\n' then [""] + rest else [[s[0]] + rest[0]] + rest[1..]
  }

  function Join(ls: seq<string>): string
    requires |ls| >= 1
  {
    if |ls| == 1 then ls[0] else ls[0] + "\n" + Join(ls[1..])
  }

  function Text(ls: seq<string>): string {
    if ls == [] then "" else ls[0] + "\n" + Text(ls[1..])
  }

  lemma {:induction false} JoinLines(s: string)
    ensures Join(Lines(s)) == s
  {
    if s != "" {
      var rest := Lines(s[1..]);
      JoinLines(s[1..]);
      if s[0] == '\n' {
        assert ([""] + rest)[1..] == rest;
      } else {
        assert ([[s[0]] + rest[0]] + rest[1..])[1..] == rest[1..];
      }
      assert s == [s[0]] + s[1..];
    }
  }

  lemma {:induction false} LinesHead(line: string, rest: string)
    requires '\n' !in line
    ensures Lines(line + "\n" + rest) == [line] + Lines(rest)
    decreases |line|
  {
    var s := line + "\n" + rest;
    if line == "" {
      assert s[1..] == rest;
      assert Lines(s) == [""] + Lines(rest);
    } else {
      assert s[1..] == line[1..] + "\n" + rest;
      LinesHead(line[1..], rest);
      assert s[0] == line[0] && line[0] in line;
      assert [line[0]] + line[1..] == line;
    }
  }

  predicate OneLine(ls: seq<string>) {
    forall i :: 0 <= i < |ls| ==> '\n' !in ls[i]
  }

  lemma {:induction false} LinesText(ls: seq<string>)
    requires OneLine(ls)
    ensures Lines(Text(ls)) == ls + [""]
  {
    if ls != [] {
      LinesHead(ls[0], Text(ls[1..]));
      LinesText(ls[1..]);
    }
  }

  // ---------------------------------------------------------------------------
  // Printing

  /** Escapes a value for a unit directive, between double quotes. */
  function Quoted(s: string): string {
    "\"" + Escaped(s) + "\""
  }

  function Escaped(s: string): string {
    if s == "" then "" else Escaped(s[..|s| - 1]) + EscapedChar(s[|s| - 1])
  }

  function EscapedChar(c: char): string {
    match c
    case '%' => "%%"
    case '"' => "\\\""
    case '\\' => "\\\\"
    case '$' => "\\$"
    case '`' => "\\`"
    case _ => [c]
  }

  /** Reads an escaped text: a doubled percent sign stands for one, a backslash for the character after it. */
  function Unescaped(s: string): string {
    if |s| >= 2 && (s[0] == '%' || s[0] == '\\') then [s[1]] + Unescaped(s[2..])
    else if s == "" then ""
    else [s[0]] + Unescaped(s[1..])
  }

  function EscapedBefore(c: char, t: string): string {
    EscapedChar(c) + t
  }

  lemma UnescapedChar(c: char, t: string)
    ensures Unescaped(EscapedBefore(c, t)) == [c] + Unescaped(t)
  {
    var e := EscapedChar(c) + t;
    if |EscapedChar(c)| == 2 {
      assert e[2..] == t;
    } else {
      assert e[1..] == t;
    }
  }

  lemma Snoc(s: string)
    requires s != ""
    ensures s == s[..|s| - 1] + [s[|s| - 1]]
  {
  }

  lemma Associative(a: string, b: string, c: string)
    ensures (a + b) + c == a + (b + c)
  {
  }

  lemma EscapedLast(s: string, t: string)
    requires s != ""
    ensures Escaped(s) + t == Escaped(s[..|s| - 1]) + EscapedBefore(s[|s| - 1], t)
  {
    Associative(Escaped(s[..|s| - 1]), EscapedChar(s[|s| - 1]), t);
  }

  lemma Rejoin(s: string, u: string)
    requires s != ""
    ensures s[..|s| - 1] + ([s[|s| - 1]] + u) == s + u
  {
  }

  /** Every value can be read back from its quoted form. */
  lemma {:induction false} UnescapedEscaped(s: string, t: string)
    ensures Unescaped(Escaped(s) + t) == s + Unescaped(t)
    decreases |s|
  {
    if s == "" {
      assert Escaped(s) + t == t;
    } else {
      EscapedLast(s, t);
      UnescapedEscaped(s[..|s| - 1], EscapedBefore(s[|s| - 1], t));
      UnescapedChar(s[|s| - 1], t);
      Rejoin(s, Unescaped(t));
    }
  }

  lemma EscapedCharLine(c: char)
    ensures '\n' in EscapedChar(c) <==> c == '\n'
  {
  }

  lemma {:induction false} EscapedLine(s: string)
    ensures '\n' in Escaped(s) <==> '\n' in s
  {
    if s != "" {
      var init, c := s[..|s| - 1], s[|s| - 1];
      EscapedLine(init);
      Snoc(s);
      EscapedCharLine(c);
      assert '\n' in init + [c] <==> '\n' in init || c == '\n';
    }
  }

  lemma EscapedNext(s: string, i: nat)
    requires i < |s|
    ensures Escaped(s[..i + 1]) == Escaped(s[..i]) + EscapedChar(s[i])
  {
    assert s[..i + 1][..i] == s[..i];
  }

  method SystemdQuote(s: string) returns (q: string)
    ensures q == Quoted(s)
  {
    q := "\"";
    for i := 0 to |s|
      invariant q == "\"" + Escaped(s[..i])
    {
      var c := s[i];
      EscapedNext(s, i);
      var piece := [c];
      if c == '%' {
        piece := "%%";
      } else if c == '"' || c == '\\' || c == '$' || c == '`' {
        piece := "\\" + [c];
      }
      assert piece == EscapedChar(c);
      q := q + piece;
    }
    assert s[..|s|] == s;
    q := q + "\"";
  }

  function OrDefault(s: string, default: string): string {
    if s == "" then default else s
  }

  function Ordering(): seq<string> {
    ["[Unit]", "Description=Web Fleet website monitoring", "After=network-online.target"]
  }

  function StartLimit(): seq<string> {
    ["Wants=network-online.target", "StartLimitIntervalSec=60", "StartLimitBurst=5", ""]
  }

  function UnitSection(): seq<string> {
    Ordering() + StartLimit()
  }

  function Account(): seq<string> {
    ["[Service]", "Type=simple", "User=webfleet", "Group=webfleet"]
  }

  function Hardening(): seq<string> {
    ["Restart=on-failure", "RestartSec=3", "NoNewPrivileges=true", "PrivateTmp=true", "ProtectSystem=strict", "ProtectHome=true"]
  }

  function ServiceSection(dataDir: string, listenEnv: seq<string>, envFile: string, exec: string): seq<string> {
    Account()
    + (["Environment=WEBFLEET_DATA_DIR=" + Quoted(dataDir)] + listenEnv + EnvironmentFile(envFile))
    + (["ExecStart=/usr/local/bin/webfleet" + exec] + Hardening() + ["ReadWritePaths=" + Quoted(dataDir), ""])
  }

  function EnvironmentFile(envFile: string): seq<string> {
    if envFile == "" then [] else ["EnvironmentFile=" + Quoted(envFile)]
  }

  function InstallSection(): seq<string> {
    ["[Install]", "WantedBy=multi-user.target"]
  }

  function Body(dataDir: string, listen: string, envFile: string): seq<string> {
    UnitSection()
    + ServiceSection(OrDefault(dataDir, DefaultDataDir),
                     ["Environment=WEBFLEET_LISTEN=" + Quoted(OrDefault(listen, DefaultListen))], envFile, "")
    + InstallSection()
  }

  function BodyExplicit(dataDir: string, host: string, port: string, envFile: string): seq<string> {
    UnitSection()
    + ServiceSection(OrDefault(dataDir, DefaultDataDir), [], envFile,
                     " " + Quoted("--host") + " " + Quoted(Trim(host)) + " " + Quoted("--port") + " " + Quoted(Trim(port)))
    + InstallSection()
  }

  function MetaLines(m: Meta): seq<string> {
    [DataPrefix + m.data, ListenPrefix + m.listen, ModePrefix + m.mode]
    + if m.envFile == "" then [] else [EnvPrefix + m.envFile]
  }

  /** A unit file: marker, checksum header, recorded values, directives. */
  function Sealed(digest: Digest, m: Meta, body: seq<string>): string {
    var content := MetaLines(m) + body;
    Text([Marker, HeaderPrefix + digest(Text(content))] + content)
  }

  function Build(digest: Digest, dataDir: string, listen: string, envFile: string): string {
    Sealed(digest, Meta(dataDir, listen, Bootstrap, envFile), Body(dataDir, listen, envFile))
  }

  /** Host and port as one address; a host with a colon goes between brackets. */
  function JoinHostPort(host: string, port: string): string {
    if ':' in host then "[" + host + "]:" + port else host + ":" + port
  }

  function BuildExplicit(digest: Digest, dataDir: string, host: string, port: string, envFile: string): string {
    Sealed(digest, Meta(dataDir, JoinHostPort(Trim(host), Trim(port)), Explicit, envFile),
           BodyExplicit(dataDir, host, port, envFile))
  }

  // ---------------------------------------------------------------------------
  // Reading

  predicate IsDigest(s: string) {
    |s| == 64 && forall i :: 0 <= i < |s| ==> '0' <= s[i] <= '9' || 'a' <= s[i] <= 'f'
  }

  predicate Header(line: string) {
    HasPrefix(line, HeaderPrefix) && IsDigest(line[|HeaderPrefix|..])
  }

  /** The trimmed values recorded behind a prefix, in order. */
  function Values(prefix: string, ls: seq<string>): seq<string> {
    if ls == [] then []
    else
      var last := ls[|ls| - 1];
      Values(prefix, ls[..|ls| - 1]) + if HasPrefix(last, prefix) then [Trim(last[|prefix|..])] else []
  }

  /** The values recorded for each field. */
  datatype Records = Records(data: seq<string>, listen: seq<string>, mode: seq<string>, envFile: seq<string>)

  function RecordsOf(ls: seq<string>): Records {
    Records(Values(DataPrefix, ls), Values(ListenPrefix, ls), Values(ModePrefix, ls), Values(EnvPrefix, ls))
  }

  function LastOr(vs: seq<string>, default: string): string {
    if vs == [] then default else vs[|vs| - 1]
  }

  function MetaOf(r: Records): Meta {
    Meta(LastOr(r.data, ""), LastOr(r.listen, ""), LastOr(r.mode, Bootstrap), LastOr(r.envFile, ""))
  }

  predicate AtMostOnce(r: Records) {
    |r.data| <= 1 && |r.listen| <= 1 && |r.mode| <= 1 && |r.envFile| <= 1
  }

  predicate Acceptable(m: Meta) {
    && m.data != "" && m.listen != "" && (m.mode == Explicit || m.mode == Bootstrap)
    && NoControl(m.listen) && NoControl(m.data) && NoControl(m.envFile) && '%' !in m.envFile
  }

  function Read(digest: Digest, content: string): Result<Meta> {
    var ls := Lines(content);
    if |ls| < 3 || ls[0] != Marker then Err(NotManaged)
    else if |Values(ManagedPrefix, ls)| != 1 || !Header(ls[1]) then Err(Malformed)
    else if digest(Join(ls[2..])) != ls[1][|HeaderPrefix|..] then Err(Modified)
    else if !AtMostOnce(RecordsOf(ls[2..])) || !Acceptable(MetaOf(RecordsOf(ls[2..]))) then Err(Malformed)
    else Ok(MetaOf(RecordsOf(ls[2..])))
  }

  method HasControl(v: string) returns (bad: bool)
    ensures bad <==> !NoControl(v)
  {
    for i := 0 to |v|
      invariant NoControl(v[..i])
    {
      if v[i] < ' ' || v[i] == '\U{007f}' {
        return true;
      }
    }
    assert v[..|v|] == v;
    return false;
  }

  method CountPrefix(ls: seq<string>, prefix: string) returns (count: nat)
    ensures count == |Values(prefix, ls)|
  {
    count := 0;
    for i := 0 to |ls|
      invariant count == |Values(prefix, ls[..i])|
    {
      assert ls[..i + 1][..i] == ls[..i];
      if HasPrefix(ls[i], prefix) {
        count := count + 1;
      }
    }
    assert ls[..|ls|] == ls;
  }

  /** The reader as it scans a file: one pass over the lines, counting each kind of record. */
  method ReadManagedUnit(digest: Digest, content: string) returns (r: Result<Meta>)
    ensures r == Read(digest, content)
  {
    var lines := Lines(content);
    if |lines| < 3 || lines[0] != Marker {
      return Err(NotManaged);
    }
    var count := CountPrefix(lines, ManagedPrefix);
    if count != 1 || !Header(lines[1]) {
      return Err(Malformed);
    }
    if digest(Join(lines[2..])) != lines[1][|HeaderPrefix|..] {
      return Err(Modified);
    }
    var body := lines[2..];
    var scanned := Scan(body);
    if scanned.Err? || scanned.value.data == "" || scanned.value.listen == "" {
      return Err(Malformed);
    }
    var m := scanned.value;
    if m.mode != Explicit && m.mode != Bootstrap {
      return Err(Malformed);
    }
    var badListen := HasControl(m.listen);
    var badData := HasControl(m.data);
    var badEnv := HasControl(m.envFile);
    if badListen || badData || badEnv || '%' in m.envFile {
      return Err(Malformed);
    }
    return Ok(m);
  }

  /** At most one prefix fits a line. */
  lemma PrefixesDiffer(line: string)
    ensures HasPrefix(line, DataPrefix) ==> !HasPrefix(line, ListenPrefix) && !HasPrefix(line, ModePrefix) && !HasPrefix(line, EnvPrefix) && !HasPrefix(line, ManagedPrefix)
    ensures HasPrefix(line, ListenPrefix) ==> !HasPrefix(line, ModePrefix) && !HasPrefix(line, EnvPrefix) && !HasPrefix(line, ManagedPrefix)
    ensures HasPrefix(line, ModePrefix) ==> !HasPrefix(line, EnvPrefix) && !HasPrefix(line, ManagedPrefix)
    ensures HasPrefix(line, EnvPrefix) ==> !HasPrefix(line, ManagedPrefix)
  {
    assert DataPrefix[11] == 'd' && ListenPrefix[11] == 'l' && ModePrefix[11] == 'l' && EnvPrefix[11] == 'e' && ManagedPrefix[11] == 'm';
    assert ListenPrefix[17] == ':' && ModePrefix[17] == '-';
    assert forall p | p in [DataPrefix, ListenPrefix, ModePrefix, EnvPrefix, ManagedPrefix] :: HasPrefix(line, p) ==> line[11] == p[11];
  }

  /** The records after one more line. */
  function Record(r: Records, line: string): Records {
    if HasPrefix(line, DataPrefix) then r.(data := r.data + [Trim(line[|DataPrefix|..])])
    else if HasPrefix(line, ListenPrefix) then r.(listen := r.listen + [Trim(line[|ListenPrefix|..])])
    else if HasPrefix(line, ModePrefix) then r.(mode := r.mode + [Trim(line[|ModePrefix|..])])
    else if HasPrefix(line, EnvPrefix) then r.(envFile := r.envFile + [Trim(line[|EnvPrefix|..])])
    else r
  }

  lemma RecordsStep(ls: seq<string>, i: nat)
    requires i < |ls|
    ensures RecordsOf(ls[..i + 1]) == Record(RecordsOf(ls[..i]), ls[i])
  {
    assert ls[..i + 1][..i] == ls[..i];
    PrefixesDiffer(ls[i]);
  }

  /** What one more line does to the last values and to the counts. */
  lemma RecordMeta(r: Records, line: string)
    ensures MetaOf(Record(r, line)) ==
            if HasPrefix(line, DataPrefix) then MetaOf(r).(data := Trim(line[|DataPrefix|..]))
            else if HasPrefix(line, ListenPrefix) then MetaOf(r).(listen := Trim(line[|ListenPrefix|..]))
            else if HasPrefix(line, ModePrefix) then MetaOf(r).(mode := Trim(line[|ModePrefix|..]))
            else if HasPrefix(line, EnvPrefix) then MetaOf(r).(envFile := Trim(line[|EnvPrefix|..]))
            else MetaOf(r)
  {
  }

  method Scan(body: seq<string>) returns (r: Result<Meta>)
    ensures r == if AtMostOnce(RecordsOf(body)) then Ok(MetaOf(RecordsOf(body))) else Err(Malformed)
  {
    var m := Meta("", "", Bootstrap, "");
    var data, listen, mode, env := 0, 0, 0, 0;
    ghost var records := RecordsOf(body[..0]);
    for i := 0 to |body|
      invariant records == RecordsOf(body[..i]) && AtMostOnce(records)
      invariant m == MetaOf(records)
      invariant data == |records.data| && listen == |records.listen|
      invariant mode == |records.mode| && env == |records.envFile|
    {
      var line := body[i];
      RecordsStep(body, i);
      RecordMeta(records, line);
      records := Record(records, line);
      if HasPrefix(line, DataPrefix) {
        data := data + 1;
        m := m.(data := Trim(line[|DataPrefix|..]));
      } else if HasPrefix(line, ListenPrefix) {
        listen := listen + 1;
        m := m.(listen := Trim(line[|ListenPrefix|..]));
      } else if HasPrefix(line, ModePrefix) {
        mode := mode + 1;
        m := m.(mode := Trim(line[|ModePrefix|..]));
      } else if HasPrefix(line, EnvPrefix) {
        env := env + 1;
        m := m.(envFile := Trim(line[|EnvPrefix|..]));
      }
      if data > 1 || listen > 1 || mode > 1 || env > 1 {
        TooMany(body, i + 1);
        return Err(Malformed);
      }
    }
    assert body[..|body|] == body;
    return Ok(m);
  }

  lemma TooMany(ls: seq<string>, n: nat)
    requires n <= |ls| && !AtMostOnce(RecordsOf(ls[..n]))
    ensures !AtMostOnce(RecordsOf(ls))
  {
    ValuesGrow(DataPrefix, ls, n);
    ValuesGrow(ListenPrefix, ls, n);
    ValuesGrow(ModePrefix, ls, n);
    ValuesGrow(EnvPrefix, ls, n);
  }

  lemma {:induction false} ValuesGrow(prefix: string, ls: seq<string>, n: nat)
    requires n <= |ls|
    ensures |Values(prefix, ls[..n])| <= |Values(prefix, ls)|
    decreases |ls|
  {
    if n == |ls| {
      assert ls[..n] == ls;
    } else {
      var init := ls[..|ls| - 1];
      assert init[..n] == ls[..n];
      ValuesGrow(prefix, init, n);
    }
  }

  // ---------------------------------------------------------------------------
  // What is printed is read back

  ghost predicate Hex(digest: Digest) {
    forall s :: IsDigest(digest(s))
  }

  predicate Directives(ls: seq<string>) {
    forall i :: 0 <= i < |ls| ==> ls[i] == "" || ls[i][0] != '#'
  }

  lemma {:induction false} ValuesAppend(prefix: string, a: seq<string>, b: seq<string>)
    ensures Values(prefix, a + b) == Values(prefix, a) + Values(prefix, b)
    decreases |b|
  {
    if b == [] {
      assert a + b == a;
    } else {
      var init := b[..|b| - 1];
      ValuesAppend(prefix, a, init);
      assert (a + b)[..|a + b| - 1] == a + init;
    }
  }

  lemma {:induction false} NoValues(prefix: string, ls: seq<string>)
    requires prefix != "" && prefix[0] == '#' && Directives(ls)
    ensures Values(prefix, ls) == []
  {
    if ls != [] {
      NoValues(prefix, ls[..|ls| - 1]);
    }
  }

  lemma ValuesOne(prefix: string, line: string)
    ensures Values(prefix, [line]) == if HasPrefix(line, prefix) then [Trim(line[|prefix|..])] else []
  {
    assert [line][..0] == [];
  }

  lemma {:induction false} ValuesTrimmed(prefix: string, ls: seq<string>, i: nat)
    requires i < |Values(prefix, ls)|
    ensures Trim(Values(prefix, ls)[i]) == Values(prefix, ls)[i]
    decreases |ls|
  {
    var last := ls[|ls| - 1];
    if i < |Values(prefix, ls[..|ls| - 1])| {
      ValuesTrimmed(prefix, ls[..|ls| - 1], i);
    } else {
      TrimEnds(last[|prefix|..]);
    }
  }

  lemma LastTrimmed(prefix: string, ls: seq<string>, default: string)
    requires Trim(default) == default
    ensures Trim(LastOr(Values(prefix, ls), default)) == LastOr(Values(prefix, ls), default)
  {
    var vs := Values(prefix, ls);
    if vs != [] {
      ValuesTrimmed(prefix, ls, |vs| - 1);
    }
  }

  /** A text that can be recorded: no control character, and no space at either end. */
  predicate Clean(s: string) {
    NoControl(s) && Trim(s) == s
  }

  /** Whatever is read is a set of values that could be recorded. */
  lemma ReadSound(digest: Digest, content: string)
    requires Read(digest, content).Ok?
    ensures var m := Read(digest, content).value;
            Clean(m.data) && Clean(m.listen) && Clean(m.envFile) && m.data != "" && m.listen != "" && '%' !in m.envFile
  {
    var body := Lines(content)[2..];
    LastTrimmed(DataPrefix, body, "");
    LastTrimmed(ListenPrefix, body, "");
    LastTrimmed(EnvPrefix, body, "");
  }

  lemma PrefixedValue(prefix: string, v: string)
    ensures HasPrefix(prefix + v, prefix) && (prefix + v)[|prefix|..] == v
  {
  }

  lemma RecordData(r: Records, v: string)
    ensures Record(r, DataPrefix + v) == r.(data := r.data + [Trim(v)])
    ensures !HasPrefix(DataPrefix + v, ManagedPrefix)
  {
    PrefixedValue(DataPrefix, v);
    PrefixesDiffer(DataPrefix + v);
  }

  lemma RecordListen(r: Records, v: string)
    ensures Record(r, ListenPrefix + v) == r.(listen := r.listen + [Trim(v)])
    ensures !HasPrefix(ListenPrefix + v, ManagedPrefix)
  {
    PrefixedValue(ListenPrefix, v);
    PrefixesDiffer(ListenPrefix + v);
  }

  lemma RecordMode(r: Records, v: string)
    ensures Record(r, ModePrefix + v) == r.(mode := r.mode + [Trim(v)])
    ensures !HasPrefix(ModePrefix + v, ManagedPrefix)
  {
    PrefixedValue(ModePrefix, v);
    PrefixesDiffer(ModePrefix + v);
  }

  lemma RecordEnv(r: Records, v: string)
    ensures Record(r, EnvPrefix + v) == r.(envFile := r.envFile + [Trim(v)])
    ensures !HasPrefix(EnvPrefix + v, ManagedPrefix)
  {
    PrefixedValue(EnvPrefix, v);
    PrefixesDiffer(EnvPrefix + v);
  }

  lemma RecordsSnoc(ls: seq<string>, line: string, all: seq<string>)
    requires all == ls + [line]
    ensures RecordsOf(all) == Record(RecordsOf(ls), line)
  {
    assert all[..|ls|] == ls && all[..|ls| + 1] == all;
    RecordsStep(all, |ls|);
  }

  lemma ManagedSnoc(ls: seq<string>, line: string, all: seq<string>)
    requires all == ls + [line] && !HasPrefix(line, ManagedPrefix)
    ensures Values(ManagedPrefix, all) == Values(ManagedPrefix, ls)
  {
    assert all[..|ls|] == ls;
  }

  lemma ThreeRecords(a: string, b: string, c: string)
    requires !HasPrefix(a, ManagedPrefix) && !HasPrefix(b, ManagedPrefix) && !HasPrefix(c, ManagedPrefix)
    ensures RecordsOf([a, b, c]) == Record(Record(Record(Records([], [], [], []), a), b), c)
    ensures Values(ManagedPrefix, [a, b, c]) == []
  {
    RecordsSnoc([], a, [a]);
    RecordsSnoc([a], b, [a, b]);
    RecordsSnoc([a, b], c, [a, b, c]);
    ManagedSnoc([], a, [a]);
    ManagedSnoc([a], b, [a, b]);
    ManagedSnoc([a, b], c, [a, b, c]);
  }

  lemma MetaRecords(m: Meta)
    ensures RecordsOf(MetaLines(m)) ==
            Records([Trim(m.data)], [Trim(m.listen)], [Trim(m.mode)], if m.envFile == "" then [] else [Trim(m.envFile)])
    ensures Values(ManagedPrefix, MetaLines(m)) == []
  {
    var a, b, c, e := DataPrefix + m.data, ListenPrefix + m.listen, ModePrefix + m.mode, EnvPrefix + m.envFile;
    RecordData(Records([], [], [], []), m.data);
    RecordListen(Records([Trim(m.data)], [], [], []), m.listen);
    RecordMode(Records([Trim(m.data)], [Trim(m.listen)], [], []), m.mode);
    ThreeRecords(a, b, c);
    if m.envFile == "" {
      assert MetaLines(m) == [a, b, c];
    } else {
      RecordEnv(Records([Trim(m.data)], [Trim(m.listen)], [Trim(m.mode)], []), m.envFile);
      RecordsSnoc([a, b, c], e, [a, b, c] + [e]);
      ManagedSnoc([a, b, c], e, [a, b, c] + [e]);
      assert MetaLines(m) == [a, b, c] + [e];
    }
  }

  lemma RecordsAppend(a: seq<string>, b: seq<string>)
    requires Directives(b)
    ensures RecordsOf(a + b) == RecordsOf(a)
    ensures Values(ManagedPrefix, a + b) == Values(ManagedPrefix, a)
  {
    forall p | p in [DataPrefix, ListenPrefix, ModePrefix, EnvPrefix, ManagedPrefix]
      ensures Values(p, a + b) == Values(p, a)
    {
      ValuesAppend(p, a, b);
      NoValues(p, b);
    }
  }

  function Trimmed(m: Meta): Meta {
    Meta(Trim(m.data), Trim(m.listen), Trim(m.mode), Trim(m.envFile))
  }

  lemma SealedLines(digest: Digest, m: Meta, body: seq<string>)
    requires Hex(digest) && OneLine(MetaLines(m)) && OneLine(body)
    ensures var content := MetaLines(m) + body;
            Lines(Sealed(digest, m, body)) == [Marker, HeaderPrefix + digest(Text(content))] + (content + [""])
            && Join(content + [""]) == Text(content)
  {
    var content := MetaLines(m) + body;
    var sum := digest(Text(content));
    var header := HeaderPrefix + sum;
    assert IsDigest(sum);
    assert '\n' !in header;
    LinesText([Marker, header] + content);
    LinesText(content);
    JoinLines(Text(content));
  }

  lemma OneHeader(marker: string, header: string, c: seq<string>)
    requires !HasPrefix(marker, ManagedPrefix) && HasPrefix(header, ManagedPrefix) && Values(ManagedPrefix, c) == []
    ensures |Values(ManagedPrefix, [marker, header] + c)| == 1
  {
    ValuesAppend(ManagedPrefix, [marker, header], c);
    assert [marker, header] == [marker] + [header];
    ValuesAppend(ManagedPrefix, [marker], [header]);
    ValuesOne(ManagedPrefix, marker);
    ValuesOne(ManagedPrefix, header);
  }

  lemma HeaderLine(sum: string)
    requires IsDigest(sum)
    ensures Header(HeaderPrefix + sum) && HasPrefix(HeaderPrefix + sum, ManagedPrefix)
    ensures (HeaderPrefix + sum)[|HeaderPrefix|..] == sum
  {
    PrefixedValue(HeaderPrefix, sum);
    PrefixOfPrefix(ManagedPrefix, "v1 sha256=", sum);
  }

  lemma PrefixOfPrefix(p: string, q: string, v: string)
    ensures HasPrefix((p + q) + v, p)
  {
    assert (p + q) + v == p + (q + v);
    PrefixedValue(p, q + v);
  }

  lemma MarkerIsNoHeader()
    ensures !HasPrefix(Marker, ManagedPrefix)
  {
    assert Marker[2] == 'M';
    assert ManagedPrefix[2] == 'w';
  }

  lemma ReadLines(digest: Digest, text: string, header: string, c: seq<string>)
    requires Lines(text) == [Marker, header] + c && |c| >= 1
    requires Header(header) && header[|HeaderPrefix|..] == digest(Join(c))
    requires |Values(ManagedPrefix, [Marker, header] + c)| == 1
    ensures Read(digest, text) ==
            if AtMostOnce(RecordsOf(c)) && Acceptable(MetaOf(RecordsOf(c))) then Ok(MetaOf(RecordsOf(c))) else Err(Malformed)
  {
    assert ([Marker, header] + c)[2..] == c;
  }

  lemma TrimmedMeta(m: Meta, r: Records)
    requires r == Records([Trim(m.data)], [Trim(m.listen)], [Trim(m.mode)], if m.envFile == "" then [] else [Trim(m.envFile)])
    ensures AtMostOnce(r) && MetaOf(r) == Trimmed(m)
  {
  }

  lemma ContentRecords(m: Meta, ls: seq<string>, tail: seq<string>)
    requires Directives(tail) && ls == MetaLines(m)
    ensures Values(ManagedPrefix, ls + tail) == []
    ensures AtMostOnce(RecordsOf(ls + tail)) == true && MetaOf(RecordsOf(ls + tail)) == Trimmed(m)
  {
    MetaRecords(m);
    TrimmedMeta(m, RecordsOf(ls));
    RecordsAppend(ls, tail);
  }

  lemma ReadContent(digest: Digest, text: string, sum: string, c: seq<string>)
    requires IsDigest(sum) && |c| >= 1 && Lines(text) == [Marker, HeaderPrefix + sum] + c && sum == digest(Join(c))
    requires Values(ManagedPrefix, c) == [] && AtMostOnce(RecordsOf(c))
    ensures Read(digest, text) == if Acceptable(MetaOf(RecordsOf(c))) then Ok(MetaOf(RecordsOf(c))) else Err(Malformed)
  {
    HeaderLine(sum);
    MarkerIsNoHeader();
    OneHeader(Marker, HeaderPrefix + sum, c);
    ReadLines(digest, text, HeaderPrefix + sum, c);
  }

  /** Reading a sealed unit returns the trimmed values it was sealed with, or refuses them. */
  lemma ReadSealed(digest: Digest, m: Meta, body: seq<string>)
    requires Hex(digest) && OneLine(MetaLines(m)) && OneLine(body) && Directives(body)
    ensures Read(digest, Sealed(digest, m, body)) ==
            if Acceptable(Trimmed(m)) then Ok(Trimmed(m)) else Err(Malformed)
  {
    var content := MetaLines(m) + body;
    var sum := digest(Text(content));
    SealedLines(digest, m, body);
    assert IsDigest(sum);
    ContentRecords(m, MetaLines(m), body + [""]);
    assert content + [""] == MetaLines(m) + (body + [""]);
    ReadContent(digest, Sealed(digest, m, body), sum, content + [""]);
  }

  /** A line that is no record. */
  predicate Fit(line: string) {
    '\n' !in line && (line == "" || line[0] != '#')
  }

  predicate AllFit(ls: seq<string>) {
    forall i :: 0 <= i < |ls| ==> Fit(ls[i])
  }

  lemma FitAppend(a: seq<string>, b: seq<string>)
    requires AllFit(a) && AllFit(b)
    ensures AllFit(a + b) == true
  {
  }

  lemma FitLine(prefix: string, v: string)
    requires Fit(prefix) && prefix != "" && '\n' !in v
    ensures Fit(prefix + v) == true
  {
  }

  lemma FitQuoted(prefix: string, v: string)
    requires Fit(prefix) && prefix != "" && '\n' !in v
    ensures Fit(prefix + Quoted(v)) == true
  {
    EscapedLine(v);
  }

  lemma OrderingFits()
    ensures AllFit(Ordering()) == true
  {
  }

  lemma StartLimitFits()
    ensures AllFit(StartLimit()) == true
  {
  }

  lemma UnitSectionFits()
    ensures AllFit(UnitSection()) == true
  {
    OrderingFits();
    StartLimitFits();
    FitAppend(Ordering(), StartLimit());
  }

  lemma InstallSectionFits()
    ensures AllFit(InstallSection())
  {
  }

  lemma ServiceLinesFit()
    ensures AllFit(Account()) && AllFit(Hardening())
  {
  }

  lemma SettingsFit(dataDir: string, listenEnv: seq<string>, envFile: string)
    requires '\n' !in dataDir && '\n' !in envFile && AllFit(listenEnv)
    ensures AllFit(["Environment=WEBFLEET_DATA_DIR=" + Quoted(dataDir)] + listenEnv + EnvironmentFile(envFile)) == true
  {
    FitQuoted("Environment=WEBFLEET_DATA_DIR=", dataDir);
    FitQuoted("EnvironmentFile=", envFile);
    FitAppend(["Environment=WEBFLEET_DATA_DIR=" + Quoted(dataDir)], listenEnv);
    FitAppend(["Environment=WEBFLEET_DATA_DIR=" + Quoted(dataDir)] + listenEnv, EnvironmentFile(envFile));
  }

  lemma ExecutionFits(dataDir: string, exec: string)
    requires '\n' !in dataDir && '\n' !in exec
    ensures AllFit(["ExecStart=/usr/local/bin/webfleet" + exec] + Hardening() + ["ReadWritePaths=" + Quoted(dataDir), ""]) == true
  {
    ServiceLinesFit();
    FitLine("ExecStart=/usr/local/bin/webfleet", exec);
    FitQuoted("ReadWritePaths=", dataDir);
    FitAppend(["ExecStart=/usr/local/bin/webfleet" + exec], Hardening());
    FitAppend(["ExecStart=/usr/local/bin/webfleet" + exec] + Hardening(), ["ReadWritePaths=" + Quoted(dataDir), ""]);
  }

  lemma ServiceSectionFits(dataDir: string, listenEnv: seq<string>, envFile: string, exec: string)
    requires '\n' !in dataDir && '\n' !in envFile && '\n' !in exec && AllFit(listenEnv)
    ensures AllFit(ServiceSection(dataDir, listenEnv, envFile, exec)) == true
  {
    ServiceLinesFit();
    SettingsFit(dataDir, listenEnv, envFile);
    ExecutionFits(dataDir, exec);
    var settings := ["Environment=WEBFLEET_DATA_DIR=" + Quoted(dataDir)] + listenEnv + EnvironmentFile(envFile);
    FitAppend(Account(), settings);
    FitAppend(Account() + settings,
              ["ExecStart=/usr/local/bin/webfleet" + exec] + Hardening() + ["ReadWritePaths=" + Quoted(dataDir), ""]);
  }

  lemma BodyFits(service: seq<string>)
    requires AllFit(service)
    ensures OneLine(UnitSection() + service + InstallSection()) && Directives(UnitSection() + service + InstallSection())
  {
    UnitSectionFits();
    InstallSectionFits();
    FitAppend(UnitSection(), service);
    FitAppend(UnitSection() + service, InstallSection());
  }

  lemma BodyLines(dataDir: string, listen: string, envFile: string)
    requires '\n' !in dataDir && '\n' !in listen && '\n' !in envFile
    ensures OneLine(Body(dataDir, listen, envFile)) && Directives(Body(dataDir, listen, envFile))
  {
    var d, l := OrDefault(dataDir, DefaultDataDir), OrDefault(listen, DefaultListen);
    FitQuoted("Environment=WEBFLEET_LISTEN=", l);
    ServiceSectionFits(d, ["Environment=WEBFLEET_LISTEN=" + Quoted(l)], envFile, "");
    BodyFits(ServiceSection(d, ["Environment=WEBFLEET_LISTEN=" + Quoted(l)], envFile, ""));
  }

  predicate Recordable(m: Meta) {
    && m.data != "" && m.listen != "" && Clean(m.data) && Clean(m.listen) && Clean(m.envFile) && '%' !in m.envFile
  }

  lemma CleanLine(s: string)
    requires NoControl(s)
    ensures '\n' !in s
  {
  }

  lemma MetaOneLine(m: Meta)
    requires '\n' !in m.data && '\n' !in m.listen && '\n' !in m.mode && '\n' !in m.envFile
    ensures OneLine(MetaLines(m))
  {
    assert '\n' !in DataPrefix && '\n' !in ListenPrefix && '\n' !in ModePrefix && '\n' !in EnvPrefix;
  }

  lemma ModeClean(mode: string)
    requires mode == Bootstrap || mode == Explicit
    ensures Trim(mode) == mode && '\n' !in mode
  {
  }

  lemma SealedRoundTrip(digest: Digest, m: Meta, body: seq<string>)
    requires Hex(digest) && (m.mode == Bootstrap || m.mode == Explicit)
    requires Recordable(m) ==> OneLine(body) && Directives(body)
    ensures Read(digest, Sealed(digest, m, body)) == Ok(m) <==> Recordable(m)
  {
    if Read(digest, Sealed(digest, m, body)) == Ok(m) {
      ReadSound(digest, Sealed(digest, m, body));
    }
    if Recordable(m) {
      CleanLine(m.data);
      CleanLine(m.listen);
      CleanLine(m.envFile);
      ModeClean(m.mode);
      MetaOneLine(m);
      ReadSealed(digest, m, body);
      assert Trimmed(m) == m;
    }
  }

  /**
   The values recorded by a bootstrap unit are read back exactly if and only if they have no
   control character and no space at either end, the data directory and the address are not
   empty, and the environment file has no percent sign.
   */
  lemma BootstrapRoundTrip(digest: Digest, d: string, l: string, e: string)
    requires Hex(digest)
    ensures Read(digest, Build(digest, d, l, e)) == Ok(Meta(d, l, Bootstrap, e)) <==>
            d != "" && l != "" && Clean(d) && Clean(l) && Clean(e) && '%' !in e
  {
    if Recordable(Meta(d, l, Bootstrap, e)) {
      CleanLine(d);
      CleanLine(l);
      CleanLine(e);
      BodyLines(d, l, e);
    }
    SealedRoundTrip(digest, Meta(d, l, Bootstrap, e), Body(d, l, e));
  }

  lemma EndsTrimmed(s: string)
    requires s != "" && !Space(s[0]) && !Space(s[|s| - 1])
    ensures Trim(s) == s
  {
  }

  /** A joined address never has a space at either end. */
  lemma JoinedTrimmed(host: string, port: string)
    ensures Trim(JoinHostPort(Trim(host), Trim(port))) == JoinHostPort(Trim(host), Trim(port)) != ""
  {
    TrimEnds(host);
    TrimEnds(port);
    EndsTrimmed(JoinHostPort(Trim(host), Trim(port)));
  }

  lemma JoinedControl(h: string, p: string)
    ensures NoControl(JoinHostPort(h, p)) <==> NoControl(h) && NoControl(p)
  {
    var j := JoinHostPort(h, p);
    var off := if ':' in h then 1 else 0;
    assert forall i :: 0 <= i < |h| ==> j[i + off] == h[i];
    assert forall i :: 0 <= i < |p| ==> j[|j| - |p| + i] == p[i];
  }

  lemma BodyExplicitLines(dataDir: string, host: string, port: string, envFile: string)
    requires '\n' !in dataDir && '\n' !in Trim(host) && '\n' !in Trim(port) && '\n' !in envFile
    ensures OneLine(BodyExplicit(dataDir, host, port, envFile)) && Directives(BodyExplicit(dataDir, host, port, envFile))
  {
    var d := OrDefault(dataDir, DefaultDataDir);
    var exec := " " + Quoted("--host") + " " + Quoted(Trim(host)) + " " + Quoted("--port") + " " + Quoted(Trim(port));
    EscapedLine("--host");
    EscapedLine("--port");
    EscapedLine(Trim(host));
    EscapedLine(Trim(port));
    ServiceSectionFits(d, [], envFile, exec);
    BodyFits(ServiceSection(d, [], envFile, exec));
  }

  /**
   An explicit unit always records a non-empty trimmed address, so it is read back exactly
   if and only if data directory, trimmed host and port and environment file are acceptable.
   */
  lemma ExplicitRoundTrip(digest: Digest, d: string, host: string, port: string, e: string)
    requires Hex(digest)
    ensures Read(digest, BuildExplicit(digest, d, host, port, e))
              == Ok(Meta(d, JoinHostPort(Trim(host), Trim(port)), Explicit, e)) <==>
            d != "" && Clean(d) && NoControl(Trim(host)) && NoControl(Trim(port)) && Clean(e) && '%' !in e
  {
    var m := Meta(d, JoinHostPort(Trim(host), Trim(port)), Explicit, e);
    JoinedTrimmed(host, port);
    JoinedControl(Trim(host), Trim(port));
    if Recordable(m) {
      CleanLine(d);
      CleanLine(e);
      CleanLine(Trim(host));
      CleanLine(Trim(port));
      BodyExplicitLines(d, host, port, e);
    }
    SealedRoundTrip(digest, m, BodyExplicit(d, host, port, e));
  }

  /** A file whose content below the header has another checksum is never accepted. */
  lemma ChangedBodyRefused(digest: Digest, before: string, after: string)
    requires Read(digest, before).Ok?
    requires Lines(after)[0] == Lines(before)[0] && |Lines(after)| >= 3 && Lines(after)[1] == Lines(before)[1]
    requires digest(Join(Lines(after)[2..])) != digest(Join(Lines(before)[2..]))
    ensures Read(digest, after) == Err(Modified) || Read(digest, after) == Err(Malformed)
    ensures |Values(ManagedPrefix, Lines(after))| == 1 ==> Read(digest, after) == Err(Modified)
  {
  }
}
