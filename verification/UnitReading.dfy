/**
 What the reader of the unit file accepts and what the printer writes, said on the lines
 and with the texts themselves.
 */
module UnitReading {
  import opened ManagedUnit

  // ---------------------------------------------------------------------------
  // The reader

  /** Exactly one line begins with the prefix, and what follows it there is the value, with space around it. */
  ghost predicate RecordedOnce(ls: seq<string>, prefix: string, v: string) {
    exists i :: (
      && 0 <= i < |ls| && prefix <= ls[i] && v == Trim(ls[i][|prefix|..])
      && forall j :: 0 <= j < |ls| && j != i ==> !(prefix <= ls[j]))
  }

  ghost predicate NotRecorded(ls: seq<string>, prefix: string) {
    forall i :: 0 <= i < |ls| ==> !(prefix <= ls[i])
  }

  lemma {:induction false} NoneRecorded(ls: seq<string>, prefix: string)
    ensures Values(prefix, ls) == [] <==> NotRecorded(ls, prefix)
  {
    if ls != [] {
      var init := ls[..|ls| - 1];
      NoneRecorded(init, prefix);
      assert forall i :: 0 <= i < |init| ==> init[i] == ls[i];
    }
  }

  lemma RecordedLast(ls: seq<string>, init: seq<string>, last: string, prefix: string, v: string)
    requires ls == init + [last]
    ensures RecordedOnce(ls, prefix, v) <==>
            if prefix <= last then NotRecorded(init, prefix) && v == Trim(last[|prefix|..]) else RecordedOnce(init, prefix, v)
  {
    var n := |init|;
    assert ls[n] == last && forall i :: 0 <= i < n ==> init[i] == ls[i];
    if prefix <= last && NotRecorded(init, prefix) && v == Trim(last[|prefix|..]) {
      assert forall j :: 0 <= j < |ls| && j != n ==> !(prefix <= ls[j]);
    }
    if !(prefix <= last) && RecordedOnce(init, prefix, v) {
      var i :| 0 <= i < n && prefix <= init[i] && v == Trim(init[i][|prefix|..])
        && forall j :: 0 <= j < n && j != i ==> !(prefix <= init[j]);
      assert forall j :: 0 <= j < |ls| && j != i ==> !(prefix <= ls[j]);
    }
    if RecordedOnce(ls, prefix, v) {
      var i :| 0 <= i < |ls| && prefix <= ls[i] && v == Trim(ls[i][|prefix|..])
        && forall j :: 0 <= j < |ls| && j != i ==> !(prefix <= ls[j]);
      if i < n {
        assert !(prefix <= ls[n]);
      }
    }
  }

  lemma SnocSingle(vs: seq<string>, t: string, v: string)
    ensures vs + [t] == [v] <==> vs == [] && t == v
  {
    if vs != [] {
      assert |vs + [t]| > 1;
    } else {
      assert vs + [t] == [t] && [t][0] == t && [v][0] == v;
    }
  }

  lemma {:induction false} OneRecorded(ls: seq<string>, prefix: string, v: string)
    ensures Values(prefix, ls) == [v] <==> RecordedOnce(ls, prefix, v)
  {
    if ls != [] {
      var init, last := ls[..|ls| - 1], ls[|ls| - 1];
      NoneRecorded(init, prefix);
      OneRecorded(init, prefix, v);
      RecordedLast(ls, init, last, prefix, v);
      if prefix <= last {
        assert HasPrefix(last, prefix);
        SnocSingle(Values(prefix, init), Trim(last[|prefix|..]), v);
      }
    }
  }

  lemma OnlySecond(ls: seq<string>, prefix: string)
    requires |ls| >= 2 && prefix <= ls[1]
    ensures |Values(prefix, ls)| == 1 <==> forall i :: 0 <= i < |ls| && i != 1 ==> !(prefix <= ls[i])
  {
    var v := Trim(ls[1][|prefix|..]);
    OneRecorded(ls, prefix, v);
    if |Values(prefix, ls)| == 1 {
      OneRecorded(ls, prefix, Values(prefix, ls)[0]);
    }
  }

  /** The value recorded behind a prefix, or the default where nothing is. */
  ghost predicate Recorded(ls: seq<string>, prefix: string, default: string, v: string) {
    if NotRecorded(ls, prefix) then v == default else RecordedOnce(ls, prefix, v)
  }

  lemma RecordedExactly(ls: seq<string>, prefix: string, default: string, v: string)
    ensures Recorded(ls, prefix, default, v) <==> |Values(prefix, ls)| <= 1 && LastOr(Values(prefix, ls), default) == v
  {
    NoneRecorded(ls, prefix);
    OneRecorded(ls, prefix, v);
  }

  /** The word, the version, and 64 hexadecimal digits. */
  ghost predicate Heads(line: string) {
    && "# webfleet-managed: v1 sha256=" <= line && |line| == 94
    && (forall i :: 30 <= i < 94 ==> '0' <= line[i] <= '9' || 'a' <= line[i] <= 'f')
  }

  lemma HeadsExactly(line: string)
    ensures Heads(line) <==> Header(line)
    ensures Heads(line) ==> ManagedPrefix <= line && line[|HeaderPrefix|..] == line[30..]
  {
    assert HeaderPrefix == "# webfleet-managed: v1 sha256=" && |HeaderPrefix| == 30;
    if HeaderPrefix <= line {
      assert line[..20] == HeaderPrefix[..20];
      assert forall i :: 0 <= i < |line[30..]| ==> line[30..][i] == line[30 + i];
      assert forall i :: 30 <= i < |line| ==> line[i] == line[30..][i - 30];
    }
  }

  /** The second line is a header, and no other line looks like one. */
  ghost predicate HeaderLine(ls: seq<string>) {
    |ls| >= 3 && Heads(ls[1]) && forall i :: 0 <= i < |ls| && i != 1 ==> !("# webfleet-managed: " <= ls[i])
  }

  lemma HeaderExactly(ls: seq<string>)
    requires |ls| >= 3
    ensures HeaderLine(ls) <==> |Values(ManagedPrefix, ls)| == 1 && Header(ls[1])
    ensures HeaderLine(ls) ==> ls[1][|HeaderPrefix|..] == ls[1][30..]
  {
    HeadsExactly(ls[1]);
    if Heads(ls[1]) {
      OnlySecond(ls, ManagedPrefix);
    }
  }

  lemma RecordsExactly(ls: seq<string>, m: Meta)
    ensures AtMostOnce(RecordsOf(ls)) && MetaOf(RecordsOf(ls)) == m <==>
            && Recorded(ls, "# webfleet-data: ", "", m.data) && Recorded(ls, "# webfleet-listen: ", "", m.listen)
            && Recorded(ls, "# webfleet-listen-mode: ", "bootstrap", m.mode) && Recorded(ls, "# webfleet-envfile: ", "", m.envFile)
  {
    RecordedExactly(ls, DataPrefix, "", m.data);
    RecordedExactly(ls, ListenPrefix, "", m.listen);
    RecordedExactly(ls, ModePrefix, "bootstrap", m.mode);
    RecordedExactly(ls, EnvPrefix, "", m.envFile);
  }

  lemma AcceptableExactly(m: Meta)
    ensures Acceptable(m) <==>
            && m.data != "" && m.listen != "" && (m.mode == "bootstrap" || m.mode == "explicit") && '%' !in m.envFile
            && (forall c :: c in m.data || c in m.listen || c in m.envFile ==> ' ' <= c && c != '\U{007f}')
  {
    NoControlExactly(m.data);
    NoControlExactly(m.listen);
    NoControlExactly(m.envFile);
  }

  /**
   A unit is accepted exactly when it has the marker and one header, the header's checksum is that of
   everything below it, and every record stands there at most once, with data directory and address.
   */
  lemma ReadExactly(digest: Digest, content: string, m: Meta)
    ensures Read(digest, content) == Ok(m) <==>
            var ls := Lines(content);
            && HeaderLine(ls) && ls[0] == "# Managed by webfleet. Do not edit manually."
            && digest(Join(ls[2..])) == ls[1][30..]
            && Recorded(ls[2..], "# webfleet-data: ", "", m.data) && m.data != ""
            && Recorded(ls[2..], "# webfleet-listen: ", "", m.listen) && m.listen != ""
            && Recorded(ls[2..], "# webfleet-listen-mode: ", "bootstrap", m.mode) && (m.mode == "bootstrap" || m.mode == "explicit")
            && Recorded(ls[2..], "# webfleet-envfile: ", "", m.envFile) && '%' !in m.envFile
            && (forall c :: c in m.data || c in m.listen || c in m.envFile ==> ' ' <= c && c != '\U{007f}')
  {
    var ls := Lines(content);
    if |ls| >= 3 {
      HeaderExactly(ls);
      RecordsExactly(ls[2..], m);
      AcceptableExactly(m);
    }
  }

  lemma NoControlExactly(s: string)
    ensures NoControl(s) <==> forall c :: c in s ==> ' ' <= c && c != '\U{007f}'
  {
    if forall c :: c in s ==> ' ' <= c && c != '\U{007f}' {
      assert forall i :: 0 <= i < |s| ==> s[i] in s;
    }
  }

  /** The other answers: not managed without the marker, modified when only the checksum is wrong. */
  lemma RefusedExactly(digest: Digest, content: string)
    ensures var ls := Lines(content);
            var marked := |ls| >= 3 && ls[0] == "# Managed by webfleet. Do not edit manually.";
            && (Read(digest, content) == Err(NotManaged) <==> !marked)
            && (Read(digest, content) == Err(Modified) <==> marked && HeaderLine(ls) && digest(Join(ls[2..])) != ls[1][30..])
  {
    if |Lines(content)| >= 3 {
      HeaderExactly(Lines(content));
    }
  }

  lemma {:induction false} PiecesOneLine(s: string)
    ensures OneLine(Lines(s))
  {
    if s != "" {
      PiecesOneLine(s[1..]);
      var rest := Lines(s[1..]);
      forall i | 0 <= i < |Lines(s)| ensures '\n' !in Lines(s)[i] {
        if s[0] == '\n' {
          assert i > 0 ==> Lines(s)[i] == rest[i - 1];
        } else {
          assert i > 0 ==> Lines(s)[i] == rest[i];
        }
      }
    }
  }

  lemma {:induction false} LinesOfJoin(ls: seq<string>)
    requires |ls| >= 1 && OneLine(ls)
    ensures Lines(Join(ls)) == ls
  {
    if |ls| == 1 {
      OnlyLine(ls[0]);
    } else {
      LinesHead(ls[0], Join(ls[1..]));
      LinesOfJoin(ls[1..]);
      assert [ls[0]] + ls[1..] == ls;
    }
  }

  lemma {:induction false} OnlyLine(line: string)
    requires '\n' !in line
    ensures Lines(line) == [line]
  {
    if line != "" {
      OnlyLine(line[1..]);
      assert [line[0]] + line[1..] == line;
    }
  }

  /** The lines of a text are the pieces without a newline that joined by newlines give it. */
  lemma LinesExactly(s: string, ls: seq<string>)
    requires |ls| >= 1
    ensures Lines(s) == ls <==> Join(ls) == s && forall i :: 0 <= i < |ls| ==> '\n' !in ls[i]
  {
    JoinLines(s);
    PiecesOneLine(s);
    if OneLine(ls) {
      LinesOfJoin(ls);
    }
  }

  // ---------------------------------------------------------------------------
  // The printer

  /** Nothing the shell or systemd would act on stands without a backslash before it. */
  ghost predicate Guarded(t: string) {
    forall i :: 0 <= i < |t| && t[i] in ['"', '$', '`'] ==> i > 0 && t[i - 1] == '\\'
  }

  lemma GuardedChar(c: char)
    ensures Guarded(EscapedChar(c)) && (c !in ['"', '$', '`', '%', '\\'] ==> EscapedChar(c) == [c])
  {
  }

  lemma GuardedJoin(a: string, b: string)
    requires Guarded(a) && Guarded(b)
    ensures Guarded(a + b)
  {
    var t := a + b;
    forall i | 0 <= i < |t| && t[i] in ['"', '$', '`'] ensures i > 0 && t[i - 1] == '\\' {
      if i >= |a| {
        assert t[i] == b[i - |a|];
        assert t[i - 1] == b[i - |a| - 1];
      } else {
        assert t[i] == a[i];
      }
    }
  }

  /** Every character of a quoted value that would be acted on is guarded, and plain text is left as it is. */
  lemma {:induction false} EscapedGuarded(s: string)
    ensures Guarded(Escaped(s))
    ensures (forall i :: 0 <= i < |s| ==> s[i] !in ['"', '$', '`', '%', '\\']) ==> Escaped(s) == s
  {
    if s != "" {
      var init, c := s[..|s| - 1], s[|s| - 1];
      EscapedGuarded(init);
      GuardedChar(c);
      GuardedJoin(Escaped(init), EscapedChar(c));
      assert s == init + [c];
    }
  }

  lemma ServiceLines(d: string, env: string, e: string, f: seq<string>)
    requires f == EnvironmentFile(e)
    ensures ServiceSection(d, [env], e, "") ==
            ["[Service]", "Type=simple", "User=webfleet", "Group=webfleet", "Environment=WEBFLEET_DATA_DIR=" + Quoted(d), env] + f
            + ["ExecStart=/usr/local/bin/webfleet", "Restart=on-failure", "RestartSec=3", "NoNewPrivileges=true", "PrivateTmp=true",
               "ProtectSystem=strict", "ProtectHome=true", "ReadWritePaths=" + Quoted(d), ""]
  {
    var data := "Environment=WEBFLEET_DATA_DIR=" + Quoted(d);
    assert Account() + ([data] + [env] + f) == ["[Service]", "Type=simple", "User=webfleet", "Group=webfleet", data, env] + f;
    assert "ExecStart=/usr/local/bin/webfleet" + "" == "ExecStart=/usr/local/bin/webfleet";
  }

  /** The directives of a unit in the bootstrap form. */
  lemma BootstrapDirectives(d: string, l: string, e: string)
    ensures Body(d, l, e) ==
            ["[Unit]", "Description=Web Fleet website monitoring", "After=network-online.target", "Wants=network-online.target",
             "StartLimitIntervalSec=60", "StartLimitBurst=5", ""]
            + (["[Service]", "Type=simple", "User=webfleet", "Group=webfleet",
                "Environment=WEBFLEET_DATA_DIR=" + Quoted(if d == "" then "/var/lib/webfleet" else d),
                "Environment=WEBFLEET_LISTEN=" + Quoted(if l == "" then "127.0.0.1:7336" else l)]
               + (if e == "" then [] else ["EnvironmentFile=" + Quoted(e)])
               + ["ExecStart=/usr/local/bin/webfleet", "Restart=on-failure", "RestartSec=3", "NoNewPrivileges=true", "PrivateTmp=true",
                  "ProtectSystem=strict", "ProtectHome=true", "ReadWritePaths=" + Quoted(if d == "" then "/var/lib/webfleet" else d), ""])
            + ["[Install]", "WantedBy=multi-user.target"]
  {
    var dir, listen := if d == "" then "/var/lib/webfleet" else d, if l == "" then "127.0.0.1:7336" else l;
    assert dir == OrDefault(d, DefaultDataDir) && listen == OrDefault(l, DefaultListen);
    ServiceLines(dir, "Environment=WEBFLEET_LISTEN=" + Quoted(listen), e, if e == "" then [] else ["EnvironmentFile=" + Quoted(e)]);
    assert UnitSection() == ["[Unit]", "Description=Web Fleet website monitoring", "After=network-online.target",
                             "Wants=network-online.target", "StartLimitIntervalSec=60", "StartLimitBurst=5", ""];
  }

  lemma ExplicitServiceLines(d: string, e: string, exec: string, f: seq<string>)
    requires f == EnvironmentFile(e)
    ensures ServiceSection(d, [], e, exec) ==
            ["[Service]", "Type=simple", "User=webfleet", "Group=webfleet", "Environment=WEBFLEET_DATA_DIR=" + Quoted(d)] + f
            + ["ExecStart=/usr/local/bin/webfleet" + exec, "Restart=on-failure", "RestartSec=3", "NoNewPrivileges=true", "PrivateTmp=true",
               "ProtectSystem=strict", "ProtectHome=true", "ReadWritePaths=" + Quoted(d), ""]
  {
  }

  /** Likewise in the explicit form: the address is in the command line, not in the environment. */
  lemma ExplicitDirectives(d: string, host: string, port: string, e: string)
    ensures BodyExplicit(d, host, port, e) ==
            ["[Unit]", "Description=Web Fleet website monitoring", "After=network-online.target", "Wants=network-online.target",
             "StartLimitIntervalSec=60", "StartLimitBurst=5", ""]
            + (["[Service]", "Type=simple", "User=webfleet", "Group=webfleet",
                "Environment=WEBFLEET_DATA_DIR=" + Quoted(if d == "" then "/var/lib/webfleet" else d)]
               + (if e == "" then [] else ["EnvironmentFile=" + Quoted(e)])
               + ["ExecStart=/usr/local/bin/webfleet"
                  + (" " + Quoted("--host") + " " + Quoted(Trim(host)) + " " + Quoted("--port") + " " + Quoted(Trim(port))),
                  "Restart=on-failure", "RestartSec=3", "NoNewPrivileges=true", "PrivateTmp=true",
                  "ProtectSystem=strict", "ProtectHome=true", "ReadWritePaths=" + Quoted(if d == "" then "/var/lib/webfleet" else d), ""])
            + ["[Install]", "WantedBy=multi-user.target"]
  {
    ExplicitServiceLines(if d == "" then "/var/lib/webfleet" else d, e,
                         " " + Quoted("--host") + " " + Quoted(Trim(host)) + " " + Quoted("--port") + " " + Quoted(Trim(port)),
                         if e == "" then [] else ["EnvironmentFile=" + Quoted(e)]);
    assert UnitSection() == ["[Unit]", "Description=Web Fleet website monitoring", "After=network-online.target",
                             "Wants=network-online.target", "StartLimitIntervalSec=60", "StartLimitBurst=5", ""];
  }
}
