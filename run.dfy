/**
 * run.py: `get_creds_from_config`, the row building of `container_info`, and the table `main`
 * assembles from the per-host rows.
 */
module Run {
  import opened Wrappers
  import opened PyStr
  import opened ConfigLines

  // ---------------------------------------------------------------------------------------
  // get_creds_from_config

  /**
   * One pass of the loop body of `get_creds_from_config`, on a line classified as `k`. Only a
   * `User root` line can add a pair, the current `host` paired with `root`, and only it or a
   * malformed line can raise.
   */
  function Step(st: State, k: LineKind): (r: Result<State, ParseError>)
    ensures k.Blank? || k.Ignored? ==> r == Ok(st)
    ensures k.Malformed? ==> r == Err(ValueError(k.found))
    ensures r.Ok? ==>
      && r.value.pass == (if k.HostLine? then Some(EndsWith(k.alias, "_")) else st.pass)
      && r.value.host == (if k.HostNameLine? then Some(k.name) else st.host)
      && r.value.user == (if k.UserLine? then Some(k.user) else st.user)
    ensures k == UserLine("root") && st.pass == Some(false) && st.host.Some? ==>
      r == Ok(st.(user := Some("root"), pairs := st.pairs + [(st.host.value, "root")]))
    ensures k == UserLine("root") && st.pass == Some(false) && st.host.None? ==> r == Err(UnboundLocalError("host"))
    ensures r.Ok? && !(k == UserLine("root") && st.pass == Some(false)) ==> r.value.pairs == st.pairs
    ensures r.Err? ==> k.Malformed? || (k == UserLine("root") && (st.pass.None? || (st.pass == Some(false) && st.host.None?)))
    ensures k == UserLine("root") && st.pass.None? ==> r == Err(UnboundLocalError("pass_"))
  {
    match k
    case Blank => Ok(st)
    case Ignored => Ok(st)
    case Malformed(n) => Err(ValueError(n))
    case HostLine(alias) => Ok(st.(pass := Some(EndsWith(alias, "_"))))
    case HostNameLine(h) => Ok(st.(host := Some(h)))
    case UserLine(u) =>
      var st' := st.(user := Some(u));
      // `user == 'root' and not pass_`: `pass_` is read only for root
      if u != "root" then Ok(st')
      else if st.pass.None? then Err(UnboundLocalError("pass_"))
      else if st.pass.value then Ok(st')
      else if st.host.None? then Err(UnboundLocalError("host"))
      else Ok(st'.(pairs := st.pairs + [(st.host.value, u)]))
  }

  /** The pairs the loop over the classified lines `ks` collects, or the exception it raises. */
  function CredsOf(ks: seq<LineKind>): Result<seq<Pair>, ParseError>
  {
    match Scan(Step, Init, ks)
    case Ok(st) => Ok(st.pairs)
    case Err(e) => Err(e)
  }

  /** What `get_creds_from_config` returns, or raises, on a file made of `lines`. */
  function Creds(lines: seq<string>): Result<seq<Pair>, ParseError>
  {
    CredsOf(Kinds(lines))
  }

  /** `get_creds_from_config` on the lines `readlines()` gave. */
  method GetCredsFromConfig(lines: seq<string>) returns (r: Result<seq<Pair>, ParseError>)
    ensures r == Creds(lines)
  {
    var creds: seq<Pair> := [];
    var pass: Option<bool> := None;
    var host: Option<string> := None;
    var user: Option<string> := None;
    var i := 0;
    assert lines[0..] == lines;
    while i < |lines|
      invariant 0 <= i <= |lines|
      invariant Scan(Step, Init, Kinds(lines)) == Scan(Step, State(pass, host, user, creds), Kinds(lines[i..]))
    {
      var line := lines[i];
      ghost var st := State(pass, host, user, creds);
      ghost var k := Classify(line);
      assert Scan(Step, st, Kinds(lines[i..])) == match Step(st, k) case Err(e) => Err(e) case Ok(next) => Scan(Step, next, Kinds(lines[i + 1..])) by {
        assert lines[i..][0] == line;
        assert lines[i..][1..] == lines[i + 1..];
      }
      if Strip(line) == [] {
        assert k == Blank;
        i := i + 1;
        continue;
      }
      var tokens := SplitWs(line);
      if |tokens| != 2 {
        assert k == Malformed(|tokens|);
        return Err(ValueError(|tokens|));
      }
      var stmnt, value := tokens[0], tokens[1];
      if stmnt == "Host" {
        assert k == HostLine(value);
        pass := Some(EndsWith(value, "_"));
      } else if StartsWith(line, "HostName") {
        assert k == HostNameLine(value);
        host := Some(SplitWs(line)[1]);
      } else if StartsWith(line, "User") {
        assert k == UserLine(value);
        user := Some(SplitWs(line)[1]);
        if user.value == "root" {
          if pass.None? {
            return Err(UnboundLocalError("pass_"));
          }
          if !pass.value {
            if host.None? {
              return Err(UnboundLocalError("host"));
            }
            creds := creds + [(host.value, user.value)];
          }
        }
      } else {
        assert k == Ignored;
      }
      i := i + 1;
    }
    assert Kinds(lines[i..]) == [];
    return Ok(creds);
  }

  /** `pass_` as a `Host` line sets it: true when the alias ends with `_`. */
  predicate SkipsAlias(alias: string)
  {
    EndsWith(alias, "_")
  }

  /** `Step` skips blank lines, rejects malformed ones, and sets the three variables from their lines. */
  lemma StepIsLoopBody()
    ensures SkipsBlank(Step) && RejectsMalformed(Step) && Tracks(Step, SkipsAlias)
  {
  }

  /**
   * The effect of one more line of kind `k` after the lines `ks`, stated with the file's history
   * in place of the loop's variables: a pair is added only on a `User root` line whose last
   * `Host` alias does not end with `_`, and its host is the last `HostName` seen anywhere
   * before, even in an earlier `Host` block.
   */
  function Extend(sofar: Result<seq<Pair>, ParseError>, ks: seq<LineKind>, k: LineKind): Result<seq<Pair>, ParseError>
  {
    match sofar
    case Err(e) => Err(e)
    case Ok(ps) =>
      match k
      case Malformed(n) => Err(ValueError(n))
      case UserLine(u) =>
        if u != "root" then Ok(ps)
        else if LastAlias(ks).None? then Err(UnboundLocalError("pass_"))
        else if EndsWith(LastAlias(ks).value, "_") then Ok(ps)
        else if LastHostName(ks).None? then Err(UnboundLocalError("host"))
        else Ok(ps + [(LastHostName(ks).value, "root")])
      case _ => Ok(ps)
  }

  /** A reference definition of the parse that keeps no state: `Extend` applied line by line. */
  function Expected(ks: seq<LineKind>): Result<seq<Pair>, ParseError>
  {
    if ks == [] then Ok([]) else Extend(Expected(ks[..|ks| - 1]), ks[..|ks| - 1], ks[|ks| - 1])
  }

  lemma CredsOfAppend(ks: seq<LineKind>, k: LineKind)
    ensures CredsOf(ks + [k]) == Extend(CredsOf(ks), ks, k)
  {
    ScanAppend(Step, Init, ks, [k]);
    StepIsLoopBody();
    ScanTracksHistory(Step, SkipsAlias, ks);
  }

  /** The loop and its three variables compute exactly the stateless reference. */
  lemma {:induction false} CredsOfIsExpected(ks: seq<LineKind>)
    ensures CredsOf(ks) == Expected(ks)
    decreases |ks|
  {
    if ks != [] {
      var prefix, k := ks[..|ks| - 1], ks[|ks| - 1];
      assert ks == prefix + [k];
      CredsOfIsExpected(prefix);
      CredsOfAppend(prefix, k);
    }
  }

  /** The same step on lines: the new line is classified on its own. */
  lemma CredsAppend(lines: seq<string>, line: string)
    ensures Creds(lines + [line]) == Extend(Creds(lines), Kinds(lines), Classify(line))
  {
    var ks, k := Kinds(lines), Classify(line);
    calc {
      Creds(lines + [line]);
      CredsOf(Kinds(lines + [line]));
      { KindsAppend(lines, [line]); assert Kinds([line]) == [k]; }
      CredsOf(ks + [k]);
      { CredsOfAppend(ks, k); }
      Extend(CredsOf(ks), ks, k);
    }
  }

  /** A whitespace-only line, wherever it stands, changes nothing. */
  lemma BlankLineIgnored(a: seq<string>, line: string, b: seq<string>)
    requires AllSpace(line)
    ensures Creds(a + [line] + b) == Creds(a + b)
  {
    StepIsLoopBody();
    ScanBlankIgnored(Step, a, line, b);
  }

  /** Once the parse has raised, no later line recovers it. */
  lemma FailureIsFinal(a: seq<string>, b: seq<string>)
    requires Creds(a).Err?
    ensures Creds(a + b) == Creds(a)
  {
    ScanFailureIsFinal(Step, a, b);
  }

  /** A non-blank line that is not two tokens makes the whole parse fail, with `ValueError` unless an earlier line already raised. */
  lemma MalformedLineFails(a: seq<string>, line: string, b: seq<string>)
    requires |SplitWs(line)| != 0 && |SplitWs(line)| != 2
    ensures Creds(a + [line] + b).Err?
    ensures Creds(a).Ok? ==> Creds(a + [line] + b) == Err(ValueError(|SplitWs(line)|))
  {
    StepIsLoopBody();
    ScanMalformedFails(Step, a, line, b);
  }

  /** A `User root` line before any `Host` line raises `NameError` for `pass_`. */
  lemma RootUserBeforeHostFails(lines: seq<string>, line: string)
    requires Creds(lines).Ok? && LastAlias(Kinds(lines)).None?
    requires Classify(line) == UserLine("root")
    ensures Creds(lines + [line]) == Err(UnboundLocalError("pass_"))
  {
    CredsAppend(lines, line);
  }

  /** Any other `User` line never raises: the `and` stops before reading `pass_`. */
  lemma OtherUserLineIgnored(lines: seq<string>, line: string)
    requires Classify(line).UserLine? && Classify(line).user != "root"
    ensures Creds(lines + [line]) == Creds(lines)
  {
    CredsAppend(lines, line);
  }

  /** Every emitted user is `root`, and there is at most one pair per `User` line. */
  lemma {:induction false} CredsAreRoot(lines: seq<string>)
    ensures Creds(lines).Ok? ==>
      && |Creds(lines).value| <= UserLineCount(Kinds(lines))
      && forall i :: 0 <= i < |Creds(lines).value| ==> Creds(lines).value[i].1 == "root"
    decreases |lines|
  {
    if lines != [] {
      var prefix, line := lines[..|lines| - 1], lines[|lines| - 1];
      assert lines == prefix + [line];
      CredsAreRoot(prefix);
      CredsAppend(prefix, line);
      KindsAppend(prefix, [line]);
      assert Kinds([line]) == [Classify(line)];
      LastAppend(Kinds(prefix), Classify(line));
    }
  }

  /** A `backup_` block is skipped, and a last block without `HostName` reuses the first block's host. */
  lemma SkippedBlockKinds(web: string, ip: string, backup: string, db: string)
    requires !EndsWith(web, "_") && EndsWith(backup, "_") && !EndsWith(db, "_")
    ensures CredsOf([HostLine(web), HostNameLine(ip), UserLine("root"), HostLine(backup),
                     UserLine("root"), HostLine(db), UserLine("root")])
      == Ok([(ip, "root"), (ip, "root")])
  {
    var root := UserLine("root");
    var s1 := State(Some(false), None, None, []);
    var s2 := s1.(host := Some(ip));
    var s3 := s2.(user := Some("root"), pairs := [(ip, "root")]);
    var s4 := s3.(pass := Some(true));
    var s6 := s4.(pass := Some(false));
    var s7 := s6.(pairs := [(ip, "root"), (ip, "root")]);
    assert [] + [(ip, "root")] == s3.pairs;
    assert s6.pairs + [(ip, "root")] == s7.pairs;
    assert Step(s6, root) == Ok(s7);
    assert Step(s4, root) == Ok(s4);
    assert Step(s2, root) == Ok(s3);
    assert Scan(Step, s7, []) == Ok(s7);
    assert Scan(Step, s6, [root]) == Ok(s7);
    assert Scan(Step, s4, [HostLine(db), root]) == Ok(s7);
    assert Scan(Step, s4, [root, HostLine(db), root]) == Ok(s7);
    assert Scan(Step, s3, [HostLine(backup), root, HostLine(db), root]) == Ok(s7);
    assert Scan(Step, s2, [root, HostLine(backup), root, HostLine(db), root]) == Ok(s7);
    assert Scan(Step, s1, [HostNameLine(ip), root, HostLine(backup), root, HostLine(db), root]) == Ok(s7);
  }

  /** Without the skipped block: the `db` block, which has no `HostName`, reuses the `web` block's host. */
  lemma StaleHostNameKinds(web: string, ip: string, db: string)
    requires !EndsWith(web, "_") && !EndsWith(db, "_")
    ensures CredsOf([HostLine(web), HostNameLine(ip), UserLine("root"), HostLine(db), UserLine("root")])
      == Ok([(ip, "root"), (ip, "root")])
  {
    var root := UserLine("root");
    var s1 := State(Some(false), None, None, []);
    var s2 := s1.(host := Some(ip));
    var s3 := s2.(user := Some("root"), pairs := [(ip, "root")]);
    var s5 := s3.(pairs := [(ip, "root"), (ip, "root")]);
    assert [] + [(ip, "root")] == s3.pairs;
    assert s3.pairs + [(ip, "root")] == s5.pairs;
    assert Step(s3, root) == Ok(s5);
    assert Step(s2, root) == Ok(s3);
    assert Scan(Step, s5, []) == Ok(s5);
    assert Scan(Step, s3, [root]) == Ok(s5);
    assert Scan(Step, s3, [HostLine(db), root]) == Ok(s5);
    assert Scan(Step, s2, [root, HostLine(db), root]) == Ok(s5);
    assert Scan(Step, s1, [HostNameLine(ip), root, HostLine(db), root]) == Ok(s5);
  }

  /** The lines of that file as `readlines()` gives them, newline included, for any single-word aliases and address. */
  lemma StaleHostNameLines(web: string, ip: string, db: string)
    requires web != [] && NoSpace(web) && ip != [] && NoSpace(ip) && db != [] && NoSpace(db)
    ensures Kinds(["Host " + web + "\n", "HostName " + ip + "\n", "User root\n", "Host " + db + "\n", "User root\n"])
      == [HostLine(web), HostNameLine(ip), UserLine("root"), HostLine(db), UserLine("root")]
  {
    var ls, keys, values := ["Host " + web + "\n", "HostName " + ip + "\n", "User root\n", "Host " + db + "\n", "User root\n"],
      ["Host", "HostName", "User", "Host", "User"], [web, ip, "root", db, "root"];
    var target := [HostLine(web), HostNameLine(ip), UserLine("root"), HostLine(db), UserLine("root")];
    assert forall i :: 0 <= i < 5 ==> ls[i] == keys[i] + " " + values[i] + "\n" by {
      assert "Host " == "Host" + " " && "HostName " == "HostName" + " " && "User root\n" == "User" + " " + "root" + "\n";
    }
    assert forall i :: 0 <= i < 5 ==> WordsKind(keys[i], values[i]) == target[i] by {
      assert "HostName" != "Host" && "User" != "Host";
      assert StartsWith("HostName", "HostName") && !StartsWith("User", "HostName") && StartsWith("User", "User");
    }
    assert forall i :: 0 <= i < 5 ==> Kinds(ls)[i] == WordsKind(keys[i], values[i]) by {
      assert NoSpace("Host") && NoSpace("HostName") && NoSpace("User") && NoSpace("root");
      KindsOfWordLines(ls, keys, values);
    }
  }

  /** The same file as text. */
  lemma StaleHostNameExample(web: string, ip: string, db: string)
    requires web != [] && NoSpace(web) && ip != [] && NoSpace(ip) && db != [] && NoSpace(db)
    requires !EndsWith(web, "_") && !EndsWith(db, "_")
    ensures Creds(["Host " + web + "\n", "HostName " + ip + "\n", "User root\n", "Host " + db + "\n", "User root\n"])
      == Ok([(ip, "root"), (ip, "root")])
  {
    StaleHostNameLines(web, ip, db);
    StaleHostNameKinds(web, ip, db);
  }

  // ---------------------------------------------------------------------------------------
  // container_info: the remote command and the rows made from its output

  const SEPARATOR := "<|>"
  const STS_RUNNING := " -f \"status=running\""
  const STS_OTHERS := " -f \"status=created\" -f \"status=restarting\" -f \"status=removing\""
    + " -f \"status=paused\" -f \"status=exited\" -f \"status=dead\""
  /** `docker ps` printing four fields per container, `SEPARATOR` between them. */
  const CMD := "docker ps --format=\"{{.Names}}" + SEPARATOR + "{{.Ports}}" + SEPARATOR
    + "{{.Status}}" + SEPARATOR + "{{.Image}}\""

  /** The command `container_info` runs: running containers, or with `others` every other state. */
  function Command(others: bool): (cmd: string)
    ensures StartsWith(cmd, CMD)
    ensures cmd[|CMD|..] == if others then STS_OTHERS else STS_RUNNING
  {
    if others then CMD + STS_OTHERS else CMD + STS_RUNNING
  }

  /** No proper prefix of `'<|>'` is also a suffix, so `split` and `join` on it undo each other. */
  lemma SeparatorBorderFree()
    ensures SEPARATOR != [] && BorderFree(SEPARATOR)
  {
    assert SEPARATOR[..1][0] == '<' && SEPARATOR[2..][0] == '>';
    assert SEPARATOR[..2][0] == '<' && SEPARATOR[1..][0] == '|';
  }

  /** One table row: the host cell then the fields of one output line. */
  type Row = seq<string>

  /**
   * The SSH round trip `container_info` makes: from host, user and command to the lines of the
   * command's standard output, or `None` when connecting, running or a timeout raised.
   */
  type Remote = (string, string, string) -> Option<seq<string>>

  /** The rows made from the output `lines` of `host`: its name on the first row only. */
  function OutputRows(host: string, lines: seq<string>): (rows: seq<Row>)
    ensures |rows| == |lines|
  {
    seq(|lines|, i requires 0 <= i < |lines| => [if i == 0 then host else ""] + Split(lines[i], SEPARATOR))
  }

  /** What `container_info` returns for `out`; the blanket `except` turns any failure into no rows. */
  function InfoRows(host: string, out: Option<seq<string>>): (rows: seq<Row>)
    ensures out.None? ==> rows == []
    ensures out.Some? ==> |rows| == |out.value|
  {
    match out
    case None => []
    case Some(lines) => OutputRows(host, lines)
  }

  /** `container_info(host, user, others)` with the SSH round trip given as `remote`. */
  method ContainerInfo(host: string, user: string, others: bool, remote: Remote) returns (rows: seq<Row>)
    ensures rows == InfoRows(host, remote(host, user, Command(others)))
  {
    rows := [];
    var cmd := CMD + STS_RUNNING;
    if others {
      cmd := CMD + STS_OTHERS;
    }
    var out := remote(host, user, cmd);
    if out.None? {
      return [];
    }
    var lines := out.value;
    if lines == [] {
      return rows;
    }
    rows := rows + [[host] + Split(lines[0], SEPARATOR)];
    var i := 1;
    while i < |lines|
      invariant 1 <= i <= |lines|
      invariant rows == OutputRows(host, lines)[..i]
    {
      rows := rows + [[""] + Split(lines[i], SEPARATOR)];
      i := i + 1;
    }
  }

  /**
   * Each output line gives one row; the first names the host and the others start empty, and
   * the rest of the row is the line cut at every `SEPARATOR`, so joining it gives the line back.
   */
  lemma RowsShape(host: string, lines: seq<string>)
    ensures |OutputRows(host, lines)| == |lines|
    ensures forall i :: 0 <= i < |lines| ==>
      var row := OutputRows(host, lines)[i];
      && |row| >= 2
      && row[0] == (if i == 0 then host else "")
      && Join(row[1..], SEPARATOR) == lines[i]
      && forall j :: 1 <= j < |row| ==> !Contains(row[j], SEPARATOR)
  {
    forall i | 0 <= i < |lines| ensures Join(OutputRows(host, lines)[i][1..], SEPARATOR) == lines[i] {
      assert OutputRows(host, lines)[i][1..] == Split(lines[i], SEPARATOR);
      JoinSplit(lines[i], SEPARATOR);
    }
  }

  /** A line in the `--format` layout, four fields without `SEPARATOR`, gives exactly those four cells. */
  lemma FormattedLineRow(host: string, lines: seq<string>, i: nat, names: string, ports: string, status: string, image: string)
    requires i < |lines|
    requires lines[i] == names + SEPARATOR + ports + SEPARATOR + status + SEPARATOR + image
    requires !Contains(names, SEPARATOR) && !Contains(ports, SEPARATOR)
    requires !Contains(status, SEPARATOR) && !Contains(image, SEPARATOR)
    ensures OutputRows(host, lines)[i] == [if i == 0 then host else "", names, ports, status, image]
  {
    var fields := [names, ports, status, image];
    assert Join(fields, SEPARATOR) == lines[i] by {
      assert fields[1..][1..][1..] == [image];
      assert Join(fields[1..][1..], SEPARATOR) == status + SEPARATOR + image;
      assert Join(fields[1..], SEPARATOR) == ports + SEPARATOR + (status + SEPARATOR + image);
      assert Join(fields, SEPARATOR) == names + SEPARATOR + (ports + SEPARATOR + (status + SEPARATOR + image));
    }
    SeparatorBorderFree();
    SplitJoin(fields, SEPARATOR);
  }

  // ---------------------------------------------------------------------------------------
  // main: the table

  const HEADER: Row := ["Host", "Status", "Names", "Ports", "Image"]
  const DIVIDER: Row := ["", "", "", "", ""]

  /** The rows of every block, block after block, as `extend` appends them. */
  function Concat(blocks: seq<seq<Row>>): seq<Row>
  {
    if blocks == [] then [] else Concat(blocks[..|blocks| - 1]) + blocks[|blocks| - 1]
  }

  /** The number of rows the blocks hold together. */
  function TotalRows(blocks: seq<seq<Row>>): nat
  {
    if blocks == [] then 0 else TotalRows(blocks[..|blocks| - 1]) + |blocks[|blocks| - 1]|
  }

  lemma ConcatAppend(blocks: seq<seq<Row>>, b: seq<Row>)
    ensures Concat(blocks + [b]) == Concat(blocks) + b
    ensures TotalRows(blocks + [b]) == TotalRows(blocks) + |b|
  {
    assert (blocks + [b])[..|blocks|] == blocks;
  }

  lemma {:induction false} ConcatLength(blocks: seq<seq<Row>>)
    ensures |Concat(blocks)| == TotalRows(blocks)
    decreases |blocks|
  {
    if blocks != [] {
      ConcatLength(blocks[..|blocks| - 1]);
    }
  }

  /** The blocks before `k` hold no more rows than all of them. */
  lemma {:induction false} ConcatPrefix(blocks: seq<seq<Row>>, k: nat)
    requires k <= |blocks|
    ensures TotalRows(blocks[..k]) <= TotalRows(blocks)
    decreases |blocks|
  {
    if k < |blocks| {
      var n := |blocks| - 1;
      assert blocks[..n][..k] == blocks[..k];
      ConcatPrefix(blocks[..n], k);
    } else {
      assert blocks[..k] == blocks;
    }
  }

  /** Row `j` of `blocks[k]` stands after the rows of the blocks before it. */
  lemma {:induction false} ConcatAt(blocks: seq<seq<Row>>, k: nat, j: nat)
    requires k < |blocks| && j < |blocks[k]|
    ensures TotalRows(blocks[..k]) + j < TotalRows(blocks) == |Concat(blocks)|
    ensures Concat(blocks)[TotalRows(blocks[..k]) + j] == blocks[k][j]
    decreases |blocks|
  {
    var n := |blocks| - 1;
    var prev, last := blocks[..n], blocks[n];
    assert blocks == prev + [last];
    ConcatAppend(prev, last);
    ConcatLength(prev);
    ConcatLength(blocks);
    if k < n {
      ConcatAt(prev, k, j);
      assert blocks[..k] == prev[..k];
    } else {
      assert blocks[..k] == prev;
    }
  }

  /** Where block `k` starts among the rows of `blocks`: after the rows of the blocks before it. */
  function Start(blocks: seq<seq<Row>>, k: nat): nat
    requires k <= |blocks|
  {
    TotalRows(blocks[..k])
  }

  /** The rows of `blocks[k]` are, in order, the rows from `Start(blocks, k)` to `Start(blocks, k + 1)`. */
  lemma ConcatSlice(blocks: seq<seq<Row>>, k: nat)
    requires k < |blocks|
    ensures Start(blocks, k) + |blocks[k]| == Start(blocks, k + 1) <= TotalRows(blocks) == |Concat(blocks)|
    ensures Concat(blocks)[Start(blocks, k)..Start(blocks, k + 1)] == blocks[k]
  {
    assert blocks[..k + 1] == blocks[..k] + [blocks[k]];
    ConcatAppend(blocks[..k], blocks[k]);
    ConcatLength(blocks);
    if |blocks[k]| == 0 {
      ConcatPrefix(blocks, k + 1);
    } else {
      ConcatAt(blocks, k, |blocks[k]| - 1);
    }
    var c := Concat(blocks);
    forall j | 0 <= j < |blocks[k]| ensures c[Start(blocks, k)..Start(blocks, k + 1)][j] == blocks[k][j] {
      ConcatAt(blocks, k, j);
    }
  }

  /** The rows of one listing: one block per `(host, user)` pair, in the order of `creds`. */
  function Blocks(creds: seq<Pair>, others: bool, remote: Remote): (blocks: seq<seq<Row>>)
    ensures |blocks| == |creds|
  {
    seq(|creds|, i requires 0 <= i < |creds| => InfoRows(creds[i].0, remote(creds[i].0, creds[i].1, Command(others))))
  }

  /** The header, the first listing's blocks and, with `all`, two dividers and the second listing's blocks. */
  function Assemble(first: seq<seq<Row>>, second: seq<seq<Row>>, all: bool): seq<Row>
  {
    [HEADER] + Concat(first) + if all then [DIVIDER, DIVIDER] + Concat(second) else []
  }

  /** The table `main` hands to `AsciiTable`, for credentials `creds`. */
  function Table(creds: seq<Pair>, all: bool, remote: Remote): seq<Row>
  {
    Assemble(Blocks(creds, false, remote), Blocks(creds, true, remote), all)
  }

  /** The header comes first; with `all`, the two empty rows follow the first listing. */
  lemma AssembleLayout(first: seq<seq<Row>>, second: seq<seq<Row>>, all: bool)
    ensures |Assemble(first, second, all)| == 1 + TotalRows(first) + (if all then 2 + TotalRows(second) else 0)
    ensures Assemble(first, second, all)[0] == HEADER
    ensures all ==> Assemble(first, second, all)[1 + TotalRows(first)] == DIVIDER
    ensures all ==> Assemble(first, second, all)[2 + TotalRows(first)] == DIVIDER
  {
    ConcatLength(first);
    ConcatLength(second);
  }

  /** A slice of the middle part of `x + y + z`. */
  lemma SliceOfMiddle(x: seq<Row>, y: seq<Row>, z: seq<Row>, a: nat, b: nat)
    requires a <= b <= |y|
    ensures (x + y + z)[|x| + a..|x| + b] == y[a..b]
  {
    var l, r := (x + y + z)[|x| + a..|x| + b], y[a..b];
    forall i | 0 <= i < b - a ensures l[i] == r[i] {
      assert l[i] == (x + y + z)[|x| + a + i];
    }
  }

  /** After the header, the blocks of the first listing follow each other in order. */
  lemma AssembleFirst(first: seq<seq<Row>>, second: seq<seq<Row>>, all: bool, k: nat)
    requires k < |first|
    ensures Start(first, k) + |first[k]| == Start(first, k + 1) <= TotalRows(first)
    ensures 1 + TotalRows(first) <= |Assemble(first, second, all)|
    ensures Assemble(first, second, all)[1 + Start(first, k)..1 + Start(first, k + 1)] == first[k]
  {
    ConcatSlice(first, k);
    var tail := if all then [DIVIDER, DIVIDER] + Concat(second) else [];
    SliceOfMiddle([HEADER], Concat(first), tail, Start(first, k), Start(first, k + 1));
  }

  /** With `all`, the blocks of the second listing follow the two empty rows, in the same order. */
  lemma AssembleSecond(first: seq<seq<Row>>, second: seq<seq<Row>>, k: nat)
    requires k < |second|
    ensures Start(second, k) + |second[k]| == Start(second, k + 1) <= TotalRows(second)
    ensures 3 + TotalRows(first) + TotalRows(second) == |Assemble(first, second, true)|
    ensures var base := 3 + TotalRows(first);
      Assemble(first, second, true)[base + Start(second, k)..base + Start(second, k + 1)] == second[k]
  {
    ConcatSlice(second, k);
    ConcatLength(first);
    var front := [HEADER] + Concat(first) + [DIVIDER, DIVIDER];
    assert Assemble(first, second, true) == front + Concat(second) + [];
    SliceOfMiddle(front, Concat(second), [], Start(second, k), Start(second, k + 1));
  }

  /**
   * Where the rows of pair `k` land in the table: its host's answer to the running-containers
   * command follows the header and the rows of the pairs before it.
   */
  lemma TableRunningRows(creds: seq<Pair>, all: bool, remote: Remote, k: nat)
    requires k < |creds|
    ensures var first := Blocks(creds, false, remote);
      Start(first, k) <= Start(first, k + 1) <= TotalRows(first) && 1 + TotalRows(first) <= |Table(creds, all, remote)|
    ensures var first, host, user := Blocks(creds, false, remote), creds[k].0, creds[k].1;
      Table(creds, all, remote)[1 + Start(first, k)..1 + Start(first, k + 1)] == InfoRows(host, remote(host, user, Command(false)))
  {
    AssembleFirst(Blocks(creds, false, remote), Blocks(creds, true, remote), all, k);
  }

  /**
   * With `all`, the same host's answer to the other-states command follows the two empty rows and
   * the second-pass rows of the pairs before it.
   */
  lemma TableOtherRows(creds: seq<Pair>, remote: Remote, k: nat)
    requires k < |creds|
    ensures var first, second := Blocks(creds, false, remote), Blocks(creds, true, remote);
      Start(second, k) <= Start(second, k + 1) <= TotalRows(second) && 3 + TotalRows(first) + TotalRows(second) == |Table(creds, true, remote)|
    ensures var first, second, host, user := Blocks(creds, false, remote), Blocks(creds, true, remote), creds[k].0, creds[k].1;
      var base := 3 + TotalRows(first);
      Table(creds, true, remote)[base + Start(second, k)..base + Start(second, k + 1)] == InfoRows(host, remote(host, user, Command(true)))
  {
    AssembleSecond(Blocks(creds, false, remote), Blocks(creds, true, remote), k);
  }

  /** The `gather` of `container_info` over `creds`, awaited one pair after the other. */
  method Gather(creds: seq<Pair>, others: bool, remote: Remote) returns (results: seq<seq<Row>>)
    ensures results == Blocks(creds, others, remote)
  {
    results := [];
    var i := 0;
    while i < |creds|
      invariant 0 <= i <= |creds|
      invariant results == Blocks(creds, others, remote)[..i]
    {
      var host, user := creds[i].0, creds[i].1;
      var rows := ContainerInfo(host, user, others, remote);
      results := results + [rows];
      i := i + 1;
    }
  }

  /** Appends the rows of every result, in order, to the table built so far. */
  method ExtendAll(table: seq<Row>, results: seq<seq<Row>>) returns (t: seq<Row>)
    ensures t == table + Concat(results)
  {
    t := table;
    var i := 0;
    while i < |results|
      invariant 0 <= i <= |results|
      invariant t == table + Concat(results[..i])
    {
      assert results[..i + 1][..i] == results[..i];
      t := t + results[i];
      i := i + 1;
    }
    assert results[..i] == results;
  }

  /** `main(all_)` up to the rendering: the table, or the exception the config parse raised. */
  method MainTable(config: seq<string>, all: bool, remote: Remote) returns (r: Result<seq<Row>, ParseError>)
    ensures r == match Creds(config) case Err(e) => Err(e) case Ok(creds) => Ok(Table(creds, all, remote))
  {
    var parsed := GetCredsFromConfig(config);
    if parsed.Err? {
      return Err(parsed.error);
    }
    var creds := parsed.value;
    var tableData := [HEADER];
    var results := Gather(creds, false, remote);
    tableData := ExtendAll(tableData, results);
    if all {
      tableData := tableData + [DIVIDER];
      tableData := tableData + [DIVIDER];
      results := Gather(creds, true, remote);
      tableData := ExtendAll(tableData, results);
    }
    assert tableData == Assemble(Blocks(creds, false, remote), Blocks(creds, true, remote), all);
    return Ok(tableData);
  }
}
