/**
 * What the two SSH-config parsers (`get_creds_from_config` in run.py and
 * `get_host_user_pairs` in utils/config_data.py) have in common: how one line of the file is
 * classified, the variables the loop carries from line to line, and the exceptions that end it.
 */
module ConfigLines {
  import opened Wrappers
  import opened PyStr

  /** An emitted `(host, user)` tuple. */
  type Pair = (string, string)

  /** The exceptions that stop a parse; the loop does not catch them. */
  datatype ParseError =
    | ValueError(found: nat)           // `stmnt, value = line.split()` found `found` tokens, not 2
    | UnboundLocalError(name: string)  // a read of `pass_` or `host` before any assignment

  /** How the loop body treats one line. */
  datatype LineKind =
    | Blank                        // `not line.strip()`: skipped
    | Malformed(found: nat)        // non-blank, but not exactly two tokens
    | HostLine(alias: string)      // first token is exactly `Host`
    | HostNameLine(name: string)   // the raw line starts with `HostName`
    | UserLine(user: string)       // the raw line starts with `User`
    | Ignored                      // any other two-token line

  function Classify(line: string): (k: LineKind)
    ensures k.Malformed? ==> k.found == |SplitWs(line)| && k.found != 2
    ensures k.HostLine? ==> SplitWs(line) == ["Host", k.alias]
    ensures k.HostNameLine? ==> |SplitWs(line)| == 2 && SplitWs(line)[1] == k.name && StartsWith(line, "HostName")
    ensures k.UserLine? ==> |SplitWs(line)| == 2 && SplitWs(line)[1] == k.user && StartsWith(line, "User")
  {
    if Strip(line) == [] then Blank
    else
      var tokens := SplitWs(line);
      if |tokens| != 2 then Malformed(|tokens|)
      else if tokens[0] == "Host" then HostLine(tokens[1])
      else if StartsWith(line, "HostName") then HostNameLine(tokens[1])
      else if StartsWith(line, "User") then UserLine(tokens[1])
      else Ignored
  }

  /** The loop's variables: `pass_`, `host` and `user` may still be unbound, `pairs` is the list built so far. */
  datatype State = State(pass: Option<bool>, host: Option<string>, user: Option<string>, pairs: seq<Pair>)

  const Init := State(None, None, None, [])

  /** A line is skipped exactly when it is whitespace only. */
  lemma BlankIffWhitespace(line: string)
    ensures Classify(line) == Blank <==> AllSpace(line)
  {
    StripEmptyIff(line);
  }

  /** A line fails the two-name unpacking exactly when `split()` gives one token or more than two. */
  lemma MalformedIffTokenCount(line: string)
    ensures Classify(line).Malformed? <==> |SplitWs(line)| != 0 && |SplitWs(line)| != 2
  {
    StripEmptyIffSplitWsEmpty(line);
  }

  /** A line is a `Host` line exactly when it splits into two tokens, the first being `Host`; the alias is the second. */
  lemma HostLineIff(line: string)
    ensures Classify(line).HostLine? <==> |SplitWs(line)| == 2 && SplitWs(line)[0] == "Host"
    ensures Classify(line).HostLine? ==> Classify(line).alias == SplitWs(line)[1]
  {
    StripEmptyIffSplitWsEmpty(line);
  }

  /**
   * How a line of two words is classified: `Host` is recognised by the first word alone, while
   * `HostName` and `User` are prefix tests on the line.
   */
  function WordsKind(key: string, value: string): LineKind
  {
    if key == "Host" then HostLine(value)
    else if StartsWith(key, "HostName") then HostNameLine(value)
    else if StartsWith(key, "User") then UserLine(value)
    else Ignored
  }

  /**
   * A line `key value` of two single words, followed by any whitespace such as the newline
   * `readlines()` keeps, is classified by its words alone.
   */
  lemma ClassifyTwoWords(key: string, value: string, eol: string)
    requires key != [] && NoSpace(key) && value != [] && NoSpace(value) && AllSpace(eol)
    ensures Classify(key + " " + value + eol) == WordsKind(key, value)
  {
    var line := key + " " + value + eol;
    assert line == key + " " + (value + eol);
    assert StartsWith(line, "HostName") <==> StartsWith(key, "HostName") by {
      StartsWithFirstWord(key, value + eol, "HostName");
    }
    assert StartsWith(line, "User") <==> StartsWith(key, "User") by {
      StartsWithFirstWord(key, value + eol, "User");
    }
    SplitTwoWords(key, value);
    SplitWsTrailingSpace(key + " " + value, eol);
    StripEmptyIffSplitWsEmpty(line);
  }

  lemma SplitTwoWords(key: string, value: string)
    requires key != [] && NoSpace(key) && value != [] && NoSpace(value)
    ensures SplitWs(key + " " + value) == [key, value]
  {
    assert Join([key, value], " ") == key + " " + value;
    SplitWsJoin([key, value]);
  }

  /** The prefix tests accept longer keywords: `UserKnownHostsFile` counts as `User`, `HostNameAlias` as `HostName`. */
  lemma PrefixKeywords()
    ensures forall v :: WordsKind("UserKnownHostsFile", v) == UserLine(v)
    ensures forall v :: WordsKind("HostNameAlias", v) == HostNameLine(v)
  {
    assert StartsWith("UserKnownHostsFile", "User");
    assert "UserKnownHostsFile"[..8][0] == 'U';
    assert !StartsWith("UserKnownHostsFile", "HostName");
    assert StartsWith("HostNameAlias", "HostName");
  }

  /** An indented line is never a `HostName` or `User` line: those tests look at the raw line. */
  lemma IndentedNeverHostNameOrUser(line: string)
    requires line != [] && IsSpace(line[0])
    ensures !Classify(line).HostNameLine? && !Classify(line).UserLine?
  {
    assert !StartsWith(line, "HostName") && !StartsWith(line, "User") by {
      if |line| >= 4 { assert line[..4][0] == line[0]; }
    }
  }

  /** The classification of every line of the file, in order. */
  function Kinds(lines: seq<string>): (ks: seq<LineKind>)
    ensures |ks| == |lines|
  {
    if lines == [] then [] else [Classify(lines[0])] + Kinds(lines[1..])
  }

  /** Line `i` of the file is classified on its own, whatever surrounds it. */
  lemma {:induction false} KindsAt(lines: seq<string>, i: nat)
    requires i < |lines|
    ensures Kinds(lines)[i] == Classify(lines[i])
  {
    if i > 0 {
      KindsAt(lines[1..], i - 1);
      assert lines[1..][i - 1] == lines[i];
    }
  }

  /** A file whose every line is two single words and a newline is classified word by word. */
  lemma KindsOfWordLines(lines: seq<string>, keys: seq<string>, values: seq<string>)
    requires |keys| == |lines| && |values| == |lines|
    requires forall i :: 0 <= i < |lines| ==> keys[i] != [] && NoSpace(keys[i]) && values[i] != [] && NoSpace(values[i])
    requires forall i :: 0 <= i < |lines| ==> lines[i] == keys[i] + " " + values[i] + "\n"
    ensures forall i :: 0 <= i < |lines| ==> Kinds(lines)[i] == WordsKind(keys[i], values[i])
  {
    forall i | 0 <= i < |lines| ensures Kinds(lines)[i] == WordsKind(keys[i], values[i]) {
      KindsAt(lines, i);
      assert AllSpace("\n") by { assert IsSpace("\n"[0]); }
      ClassifyTwoWords(keys[i], values[i], "\n");
    }
  }

  lemma {:induction false} KindsAppend(a: seq<string>, b: seq<string>)
    ensures Kinds(a + b) == Kinds(a) + Kinds(b)
  {
    if a == [] {
      assert a + b == b;
    } else {
      assert (a + b)[0] == a[0];
      assert (a + b)[1..] == a[1..] + b;
      KindsAppend(a[1..], b);
    }
  }

  /** One pass of a parser's loop body, on a line classified as the given kind. */
  type Stepper = (State, LineKind) -> Result<State, ParseError>

  /** A parser's loop over the classified lines `ks` from state `st`; the first exception ends it. */
  function Scan(step: Stepper, st: State, ks: seq<LineKind>): Result<State, ParseError>
    decreases |ks|
  {
    if ks == [] then Ok(st)
    else match step(st, ks[0])
      case Err(e) => Err(e)
      case Ok(next) => Scan(step, next, ks[1..])
  }

  /** Scanning `a + b` is scanning `a`, then `b` from where `a` left off, unless `a` raised. */
  lemma {:induction false} ScanAppend(step: Stepper, st: State, a: seq<LineKind>, b: seq<LineKind>)
    ensures Scan(step, st, a + b) == match Scan(step, st, a) case Err(e) => Err(e) case Ok(s) => Scan(step, s, b)
    decreases |a|
  {
    if a == [] {
      assert a + b == b;
    } else {
      assert (a + b)[0] == a[0];
      assert (a + b)[1..] == a[1..] + b;
      match step(st, a[0])
      case Err(e) =>
      case Ok(next) => ScanAppend(step, next, a[1..], b);
    }
  }

  /** The alias of the last `Host` line, if any. */
  function LastAlias(ks: seq<LineKind>): Option<string>
  {
    if ks == [] then None
    else match ks[|ks| - 1]
      case HostLine(a) => Some(a)
      case _ => LastAlias(ks[..|ks| - 1])
  }

  /** The value of the last `HostName` line, whatever `Host` block it belongs to. */
  function LastHostName(ks: seq<LineKind>): Option<string>
  {
    if ks == [] then None
    else match ks[|ks| - 1]
      case HostNameLine(h) => Some(h)
      case _ => LastHostName(ks[..|ks| - 1])
  }

  /** The value of the last `User` line. */
  function LastUser(ks: seq<LineKind>): Option<string>
  {
    if ks == [] then None
    else match ks[|ks| - 1]
      case UserLine(u) => Some(u)
      case _ => LastUser(ks[..|ks| - 1])
  }

  /** How many of the lines are `User` lines. */
  function UserLineCount(ks: seq<LineKind>): nat
  {
    if ks == [] then 0
    else UserLineCount(ks[..|ks| - 1]) + (if ks[|ks| - 1].UserLine? then 1 else 0)
  }

  lemma LastAppend(ks: seq<LineKind>, k: LineKind)
    ensures LastAlias(ks + [k]) == if k.HostLine? then Some(k.alias) else LastAlias(ks)
    ensures LastHostName(ks + [k]) == if k.HostNameLine? then Some(k.name) else LastHostName(ks)
    ensures LastUser(ks + [k]) == if k.UserLine? then Some(k.user) else LastUser(ks)
    ensures UserLineCount(ks + [k]) == UserLineCount(ks) + if k.UserLine? then 1 else 0
  {
    assert (ks + [k])[..|ks|] == ks;
  }

  // ---------------------------------------------------------------------------------------
  // What both parsers' loop bodies have in common, and what follows from it

  /** The loop body skips a blank line, whatever the state. */
  ghost predicate SkipsBlank(step: Stepper)
  {
    forall st :: step(st, Blank) == Ok(st)
  }

  /** The loop body raises `ValueError` on a line that does not unpack into two names, whatever the state. */
  ghost predicate RejectsMalformed(step: Stepper)
  {
    forall st, n :: step(st, Malformed(n)) == Err(ValueError(n))
  }

  /**
   * Whenever the loop body does not raise, `Host` sets `pass_` to `passOf` of the alias, `HostName`
   * sets `host` and `User` sets `user`; no other line touches them.
   */
  ghost predicate Tracks(step: Stepper, passOf: string -> bool)
  {
    forall st, k :: step(st, k).Ok? ==>
      && step(st, k).value.pass == (if k.HostLine? then Some(passOf(k.alias)) else st.pass)
      && step(st, k).value.host == (if k.HostNameLine? then Some(k.name) else st.host)
      && step(st, k).value.user == (if k.UserLine? then Some(k.user) else st.user)
  }

  /** `pass_` as the last `Host` alias leaves it, or unbound before any `Host` line. */
  function PassAfter(passOf: string -> bool, alias: Option<string>): Option<bool>
  {
    match alias
    case None => None
    case Some(a) => Some(passOf(a))
  }

  /** After any prefix that did not raise, the three variables hold the last values the lines gave them. */
  lemma {:induction false} ScanTracksHistory(step: Stepper, passOf: string -> bool, ks: seq<LineKind>)
    requires Tracks(step, passOf)
    ensures Scan(step, Init, ks).Ok? ==>
      && Scan(step, Init, ks).value.pass == PassAfter(passOf, LastAlias(ks))
      && Scan(step, Init, ks).value.host == LastHostName(ks)
      && Scan(step, Init, ks).value.user == LastUser(ks)
    decreases |ks|
  {
    if ks != [] {
      var prefix, k := ks[..|ks| - 1], ks[|ks| - 1];
      assert ks == prefix + [k];
      ScanTracksHistory(step, passOf, prefix);
      ScanAppend(step, Init, prefix, [k]);
      LastAppend(prefix, k);
    }
  }

  /** A whitespace-only line, wherever it stands in the file, changes neither the outcome nor the exception. */
  lemma ScanBlankIgnored(step: Stepper, a: seq<string>, line: string, b: seq<string>)
    requires SkipsBlank(step) && AllSpace(line)
    ensures Scan(step, Init, Kinds(a + [line] + b)) == Scan(step, Init, Kinds(a + b))
  {
    BlankIffWhitespace(line);
    assert Kinds([line]) == [Blank];
    KindsAppend(a + [line], b);
    KindsAppend(a, [line]);
    KindsAppend(a, b);
    var ka, kb := Kinds(a), Kinds(b);
    ScanAppend(step, Init, ka + [Blank], kb);
    ScanAppend(step, Init, ka, [Blank]);
    ScanAppend(step, Init, ka, kb);
  }

  /** Once the loop has raised, no later line changes the outcome. */
  lemma ScanFailureIsFinal(step: Stepper, a: seq<string>, b: seq<string>)
    requires Scan(step, Init, Kinds(a)).Err?
    ensures Scan(step, Init, Kinds(a + b)) == Scan(step, Init, Kinds(a))
  {
    KindsAppend(a, b);
    ScanAppend(step, Init, Kinds(a), Kinds(b));
  }

  /** A non-blank line that is not two tokens makes the loop raise, with `ValueError` unless an earlier line already raised. */
  lemma ScanMalformedFails(step: Stepper, a: seq<string>, line: string, b: seq<string>)
    requires RejectsMalformed(step)
    requires |SplitWs(line)| != 0 && |SplitWs(line)| != 2
    ensures Scan(step, Init, Kinds(a + [line] + b)).Err?
    ensures Scan(step, Init, Kinds(a)).Ok? ==>
      Scan(step, Init, Kinds(a + [line] + b)) == Err(ValueError(|SplitWs(line)|))
  {
    MalformedIffTokenCount(line);
    StripEmptyIffSplitWsEmpty(line);
    assert Kinds([line]) == [Classify(line)];
    KindsAppend(a, [line]);
    ScanAppend(step, Init, Kinds(a), [Classify(line)]);
    ScanFailureIsFinal(step, a + [line], b);
  }
}
