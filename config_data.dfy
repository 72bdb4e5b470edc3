/**
 * utils/config_data.py: `get_host_user_pairs`, the second SSH-config parser. It classifies lines
 * as `get_creds_from_config` does, but inverts the `_` rule and accepts two users.
 */
module ConfigData {
  import opened Wrappers
  import opened PyStr
  import opened ConfigLines
  import Run

  /** The users whose pairs are kept. */
  const ALLOWED_USERS: set<string> := {"root", "dkrasnov"}

  /**
   * One pass of the loop body of `get_host_user_pairs`, on a line classified as `k`. Only a
   * `User` line of an allowed user can add a pair, the current `host` with that user; only it, a
   * `User` line read while `pass_` is unbound, or a malformed line can raise.
   */
  function Step(st: State, k: LineKind): (r: Result<State, ParseError>)
    ensures k.Blank? || k.Ignored? ==> r == Ok(st)
    ensures k.Malformed? ==> r == Err(ValueError(k.found))
    ensures r.Ok? ==>
      && r.value.pass == (if k.HostLine? then Some(!EndsWith(k.alias, "_")) else st.pass)
      && r.value.host == (if k.HostNameLine? then Some(k.name) else st.host)
      && r.value.user == (if k.UserLine? then Some(k.user) else st.user)
    ensures k.UserLine? && k.user in ALLOWED_USERS && st.pass == Some(false) && st.host.Some? ==>
      r == Ok(st.(user := Some(k.user), pairs := st.pairs + [(st.host.value, k.user)]))
    ensures k.UserLine? && k.user in ALLOWED_USERS && st.pass == Some(false) && st.host.None? ==>
      r == Err(UnboundLocalError("host"))
    ensures r.Ok? && !(k.UserLine? && k.user in ALLOWED_USERS && st.pass == Some(false)) ==> r.value.pairs == st.pairs
    ensures r.Err? ==> (k.Malformed? ||
      (k.UserLine? && (st.pass.None? || (st.pass == Some(false) && k.user in ALLOWED_USERS && st.host.None?))))
    ensures k.UserLine? && st.pass.None? ==> r == Err(UnboundLocalError("pass_"))
  {
    match k
    case Blank => Ok(st)
    case Ignored => Ok(st)
    case Malformed(n) => Err(ValueError(n))
    case HostLine(alias) => Ok(st.(pass := Some(!EndsWith(alias, "_"))))
    case HostNameLine(h) => Ok(st.(host := Some(h)))
    case UserLine(u) =>
      var st' := st.(user := Some(u));
      // `not pass_ and user in (...)`: `pass_` is read first, on every `User` line
      if st.pass.None? then Err(UnboundLocalError("pass_"))
      else if st.pass.value then Ok(st')
      else if u !in ALLOWED_USERS then Ok(st')
      else if st.host.None? then Err(UnboundLocalError("host"))
      else Ok(st'.(pairs := st.pairs + [(st.host.value, u)]))
  }

  /** The pairs the loop over the classified lines `ks` collects, or the exception it raises. */
  function PairsOf(ks: seq<LineKind>): Result<seq<Pair>, ParseError>
  {
    match Scan(Step, Init, ks)
    case Ok(st) => Ok(st.pairs)
    case Err(e) => Err(e)
  }

  /** What `get_host_user_pairs` returns, or raises, on a file made of `lines`. */
  function HostUserPairs(lines: seq<string>): Result<seq<Pair>, ParseError>
  {
    PairsOf(Kinds(lines))
  }

  /** `get_host_user_pairs` on the lines `readlines()` gave. */
  method GetHostUserPairs(lines: seq<string>) returns (r: Result<seq<Pair>, ParseError>)
    ensures r == HostUserPairs(lines)
  {
    var hostUserPairs: seq<Pair> := [];
    var pass: Option<bool> := None;
    var host: Option<string> := None;
    var user: Option<string> := None;
    var i := 0;
    assert lines[0..] == lines;
    while i < |lines|
      invariant 0 <= i <= |lines|
      invariant Scan(Step, Init, Kinds(lines)) == Scan(Step, State(pass, host, user, hostUserPairs), Kinds(lines[i..]))
    {
      var line := lines[i];
      ghost var st := State(pass, host, user, hostUserPairs);
      ghost var k := Classify(line);
      assert Scan(Step, st, Kinds(lines[i..])) == match Step(st, k) case Err(e) => Err(e) case Ok(next) => Scan(Step, next, Kinds(lines[i + 1..])) by {
        assert lines[i..][0] == line;
        assert lines[i..][1..] == lines[i + 1..];
      }
      if Strip(line) == [] {
        assert k == Blank;
        i := i + 1;
        continue;
      }
      var tokens := SplitWs(line);
      if |tokens| != 2 {
        assert k == Malformed(|tokens|);
        return Err(ValueError(|tokens|));
      }
      var stmnt, value := tokens[0], tokens[1];
      if stmnt == "Host" {
        assert k == HostLine(value);
        pass := Some(!EndsWith(value, "_"));
      } else if StartsWith(line, "HostName") {
        assert k == HostNameLine(value);
        host := Some(SplitWs(line)[1]);
      } else if StartsWith(line, "User") {
        assert k == UserLine(value);
        user := Some(SplitWs(line)[1]);
        if pass.None? {
          return Err(UnboundLocalError("pass_"));
        }
        if !pass.value && user.value in ALLOWED_USERS {
          if host.None? {
            return Err(UnboundLocalError("host"));
          }
          hostUserPairs := hostUserPairs + [(host.value, user.value)];
        }
      } else {
        assert k == Ignored;
      }
      i := i + 1;
    }
    assert Kinds(lines[i..]) == [];
    return Ok(hostUserPairs);
  }

  /** `pass_` as a `Host` line sets it: true when the alias does not end with `_`. */
  predicate KeepsPassing(alias: string)
  {
    !EndsWith(alias, "_")
  }

  /** `Step` skips blank lines, rejects malformed ones, and sets the three variables from their lines. */
  lemma StepIsLoopBody()
    ensures SkipsBlank(Step) && RejectsMalformed(Step) && Tracks(Step, KeepsPassing)
  {
  }

  /**
   * The effect of one more line of kind `k` after the lines `ks`, stated with the file's history:
   * every `User` line before the first `Host` line raises; otherwise a pair is added only when
   * the last `Host` alias ends with `_` and the user is allowed, and its host is the last
   * `HostName` seen anywhere before.
   */
  function Extend(sofar: Result<seq<Pair>, ParseError>, ks: seq<LineKind>, k: LineKind): Result<seq<Pair>, ParseError>
  {
    match sofar
    case Err(e) => Err(e)
    case Ok(ps) =>
      match k
      case Malformed(n) => Err(ValueError(n))
      case UserLine(u) =>
        if LastAlias(ks).None? then Err(UnboundLocalError("pass_"))
        else if !EndsWith(LastAlias(ks).value, "_") || u !in ALLOWED_USERS then Ok(ps)
        else if LastHostName(ks).None? then Err(UnboundLocalError("host"))
        else Ok(ps + [(LastHostName(ks).value, u)])
      case _ => Ok(ps)
  }

  /** A reference definition of the parse that keeps no state: `Extend` applied line by line. */
  function Expected(ks: seq<LineKind>): Result<seq<Pair>, ParseError>
  {
    if ks == [] then Ok([]) else Extend(Expected(ks[..|ks| - 1]), ks[..|ks| - 1], ks[|ks| - 1])
  }

  lemma PairsOfAppend(ks: seq<LineKind>, k: LineKind)
    ensures PairsOf(ks + [k]) == Extend(PairsOf(ks), ks, k)
  {
    ScanAppend(Step, Init, ks, [k]);
    StepIsLoopBody();
    ScanTracksHistory(Step, KeepsPassing, ks);
  }

  /** The loop and its three variables compute exactly the stateless reference. */
  lemma {:induction false} PairsOfIsExpected(ks: seq<LineKind>)
    ensures PairsOf(ks) == Expected(ks)
    decreases |ks|
  {
    if ks != [] {
      var prefix, k := ks[..|ks| - 1], ks[|ks| - 1];
      assert ks == prefix + [k];
      PairsOfIsExpected(prefix);
      PairsOfAppend(prefix, k);
    }
  }

  /** The same step on lines: the new line is classified on its own. */
  lemma PairsAppend(lines: seq<string>, line: string)
    ensures HostUserPairs(lines + [line]) == Extend(HostUserPairs(lines), Kinds(lines), Classify(line))
  {
    var ks, k := Kinds(lines), Classify(line);
    calc {
      HostUserPairs(lines + [line]);
      PairsOf(Kinds(lines + [line]));
      { KindsAppend(lines, [line]); assert Kinds([line]) == [k]; }
      PairsOf(ks + [k]);
      { PairsOfAppend(ks, k); }
      Extend(PairsOf(ks), ks, k);
    }
  }

  /** A whitespace-only line, wherever it stands, changes nothing. */
  lemma BlankLineIgnored(a: seq<string>, line: string, b: seq<string>)
    requires AllSpace(line)
    ensures HostUserPairs(a + [line] + b) == HostUserPairs(a + b)
  {
    StepIsLoopBody();
    ScanBlankIgnored(Step, a, line, b);
  }

  /** Once the parse has raised, no later line recovers it. */
  lemma FailureIsFinal(a: seq<string>, b: seq<string>)
    requires HostUserPairs(a).Err?
    ensures HostUserPairs(a + b) == HostUserPairs(a)
  {
    ScanFailureIsFinal(Step, a, b);
  }

  /** A non-blank line that is not two tokens makes the whole parse fail, with `ValueError` unless an earlier line already raised. */
  lemma MalformedLineFails(a: seq<string>, line: string, b: seq<string>)
    requires |SplitWs(line)| != 0 && |SplitWs(line)| != 2
    ensures HostUserPairs(a + [line] + b).Err?
    ensures HostUserPairs(a).Ok? ==> HostUserPairs(a + [line] + b) == Err(ValueError(|SplitWs(line)|))
  {
    StepIsLoopBody();
    ScanMalformedFails(Step, a, line, b);
  }

  /** Any `User` line before the first `Host` line raises `NameError` for `pass_`, whoever the user is. */
  lemma UserBeforeHostFails(lines: seq<string>, line: string)
    requires HostUserPairs(lines).Ok? && LastAlias(Kinds(lines)).None?
    requires Classify(line).UserLine?
    ensures HostUserPairs(lines + [line]) == Err(UnboundLocalError("pass_"))
  {
    PairsAppend(lines, line);
  }

  /** Every emitted user is `root` or `dkrasnov`, and there is at most one pair per `User` line. */
  lemma {:induction false} UsersAllowed(lines: seq<string>)
    ensures HostUserPairs(lines).Ok? ==>
      && |HostUserPairs(lines).value| <= UserLineCount(Kinds(lines))
      && forall i :: 0 <= i < |HostUserPairs(lines).value| ==> HostUserPairs(lines).value[i].1 in ALLOWED_USERS
    decreases |lines|
  {
    if lines != [] {
      var prefix, line := lines[..|lines| - 1], lines[|lines| - 1];
      assert lines == prefix + [line];
      UsersAllowed(prefix);
      PairsAppend(prefix, line);
      KindsAppend(prefix, [line]);
      assert Kinds([line]) == [Classify(line)];
      LastAppend(Kinds(prefix), Classify(line));
    }
  }

  /**
   * The two parsers apply opposite rules to a `Host` alias: given one root block, `run.py` keeps it
   * exactly when the alias does not end with `_`, and `utils/config_data.py` exactly when it does.
   */
  lemma OppositeAliasRules(alias: string, h: string)
    ensures EndsWith(alias, "_") ==>
      && Run.CredsOf([HostLine(alias), HostNameLine(h), UserLine("root")]) == Ok([])
      && PairsOf([HostLine(alias), HostNameLine(h), UserLine("root")]) == Ok([(h, "root")])
    ensures !EndsWith(alias, "_") ==>
      && Run.CredsOf([HostLine(alias), HostNameLine(h), UserLine("root")]) == Ok([(h, "root")])
      && PairsOf([HostLine(alias), HostNameLine(h), UserLine("root")]) == Ok([])
  {
    var ks := [HostLine(alias), HostNameLine(h), UserLine("root")];
    var e := EndsWith(alias, "_");
    var s1 := Init.(pass := Some(e));
    var s2 := s1.(host := Some(h));
    var s3 := s2.(user := Some("root"));
    assert s2.pairs + [(h, "root")] == [(h, "root")];
    assert Run.Step(Init, ks[0]) == Ok(s1) && Run.Step(s1, ks[1]) == Ok(s2);
    assert Run.Step(s2, ks[2]) == if e then Ok(s3) else Ok(s3.(pairs := [(h, "root")]));
    assert Scan(Run.Step, Init, ks) == Scan(Run.Step, s2, ks[2..]) by {
      assert ks[1..][1..] == ks[2..];
    }
    var t1 := Init.(pass := Some(!e));
    var t2 := t1.(host := Some(h));
    var t3 := t2.(user := Some("root"));
    assert t2.pairs + [(h, "root")] == [(h, "root")];
    assert "root" in ALLOWED_USERS;
    assert Step(Init, ks[0]) == Ok(t1) && Step(t1, ks[1]) == Ok(t2);
    assert Step(t2, ks[2]) == if !e then Ok(t3) else Ok(t3.(pairs := [(h, "root")]));
    assert Scan(Step, Init, ks) == Scan(Step, t2, ks[2..]) by {
      assert ks[1..][1..] == ks[2..];
    }
    assert ks[2..][1..] == [];
    assert Scan(Run.Step, s2, ks[2..]) == Run.Step(s2, ks[2]);
    assert Scan(Step, t2, ks[2..]) == Step(t2, ks[2]);
  }

  /**
   * Two skipped-by-`run.py` blocks: the `db_` block, which has no `HostName`, reuses the address of
   * the block before it, and both allowed users are kept in the order of their lines.
   */
  lemma StaleHostNameKinds(web: string, ip: string, db: string)
    requires EndsWith(web, "_") && EndsWith(db, "_")
    ensures PairsOf([HostLine(web), HostNameLine(ip), UserLine("dkrasnov"), HostLine(db), UserLine("root")])
      == Ok([(ip, "dkrasnov"), (ip, "root")])
  {
    var root, dk := UserLine("root"), UserLine("dkrasnov");
    var s1 := State(Some(false), None, None, []);
    var s2 := s1.(host := Some(ip));
    var s3 := s2.(user := Some("dkrasnov"), pairs := [(ip, "dkrasnov")]);
    var s5 := s3.(user := Some("root"), pairs := [(ip, "dkrasnov"), (ip, "root")]);
    assert "root" in ALLOWED_USERS && "dkrasnov" in ALLOWED_USERS;
    assert [] + [(ip, "dkrasnov")] == s3.pairs;
    assert s3.pairs + [(ip, "root")] == s5.pairs;
    assert Step(s3, root) == Ok(s5);
    assert Step(s2, dk) == Ok(s3);
    assert Scan(Step, s5, []) == Ok(s5);
    assert Scan(Step, s3, [root]) == Ok(s5);
    assert Scan(Step, s3, [HostLine(db), root]) == Ok(s5);
    assert Scan(Step, s2, [dk, HostLine(db), root]) == Ok(s5);
    assert Scan(Step, s1, [HostNameLine(ip), dk, HostLine(db), root]) == Ok(s5);
  }
}
