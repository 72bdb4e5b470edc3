/**
 * The Python `str` operations the monitor relies on, on `string` (a sequence of code points):
 * `isspace`, `strip`, `split()` on whitespace, `split(sep)`, `sep.join`, `startswith`,
 * `endswith`, `find` and `str(n)` for a non-negative integer.
 */
module PyStr {
  import opened Wrappers

  /** `c.isspace()`: the code points Python treats as whitespace in `strip()` and `split()`. */
  predicate IsSpace(c: char)
  {
    var n := c as int;
    (9 <= n <= 13) || (28 <= n <= 32) || n == 0x85 || n == 0xA0 || n == 0x1680
    || (0x2000 <= n <= 0x200A) || n == 0x2028 || n == 0x2029 || n == 0x202F
    || n == 0x205F || n == 0x3000
  }

  predicate AllSpace(s: string)
  {
    forall i :: 0 <= i < |s| ==> IsSpace(s[i])
  }

  predicate NoSpace(s: string)
  {
    forall i :: 0 <= i < |s| ==> !IsSpace(s[i])
  }

  /** `s.lstrip()`: the suffix left after dropping the leading whitespace. */
  function LStrip(s: string): (r: string)
    ensures |r| <= |s|
    ensures r == [] || !IsSpace(r[0])
    decreases |s|
  {
    if s != [] && IsSpace(s[0]) then LStrip(s[1..]) else s
  }

  /** What `lstrip()` keeps is a suffix of its argument. */
  lemma {:induction false} LStripSuffix(s: string)
    ensures LStrip(s) == s[|s| - |LStrip(s)|..]
    decreases |s|
  {
    if s != [] && IsSpace(s[0]) {
      LStripSuffix(s[1..]);
      assert s[1..][|s| - 1 - |LStrip(s)|..] == s[|s| - |LStrip(s)|..];
    }
  }

  /** What `lstrip()` drops is whitespace. */
  lemma {:induction false} LStripDropsSpace(s: string)
    ensures AllSpace(s[..|s| - |LStrip(s)|])
    decreases |s|
  {
    if s != [] && IsSpace(s[0]) {
      var r := LStrip(s[1..]);
      LStripDropsSpace(s[1..]);
      assert s[..|s| - |r|] == [s[0]] + s[1..][..|s| - 1 - |r|];
    }
  }

  /** `s.rstrip()`: the prefix left after dropping the trailing whitespace. */
  function RStrip(s: string): (r: string)
    ensures |r| <= |s|
    ensures r == [] || !IsSpace(r[|r| - 1])
    decreases |s|
  {
    if s != [] && IsSpace(s[|s| - 1]) then RStrip(s[..|s| - 1]) else s
  }

  /** What `rstrip()` keeps is a prefix of its argument. */
  lemma {:induction false} RStripPrefix(s: string)
    ensures RStrip(s) == s[..|RStrip(s)|]
    decreases |s|
  {
    if s != [] && IsSpace(s[|s| - 1]) {
      RStripPrefix(s[..|s| - 1]);
      assert s[..|s| - 1][..|RStrip(s)|] == s[..|RStrip(s)|];
    }
  }

  /** What `rstrip()` drops is whitespace. */
  lemma {:induction false} RStripDropsSpace(s: string)
    ensures AllSpace(s[|RStrip(s)|..])
    decreases |s|
  {
    if s != [] && IsSpace(s[|s| - 1]) {
      var r := RStrip(s[..|s| - 1]);
      RStripDropsSpace(s[..|s| - 1]);
      assert s[|r|..] == s[..|s| - 1][|r|..] + [s[|s| - 1]];
    }
  }

  /** `s.strip()`: what is left neither starts nor ends with whitespace. */
  function Strip(s: string): (r: string)
    ensures |r| <= |s|
    ensures r == [] || (!IsSpace(r[0]) && !IsSpace(r[|r| - 1]))
  {
    var l := LStrip(s);
    RStripPrefix(l);
    RStrip(l)
  }

  /** `not s.strip()` holds exactly of the strings made of whitespace only. */
  lemma StripEmptyIff(s: string)
    ensures Strip(s) == [] <==> AllSpace(s)
  {
    var l := LStrip(s);
    LStripSuffix(s);
    LStripDropsSpace(s);
    RStripDropsSpace(l);
    if Strip(s) == [] {
      assert AllSpace(l[0..]);
      assert l == [];
      assert s[..|s|] == s;
    }
  }

  /** Length of the maximal whitespace-free prefix of `s`. */
  function WordLen(s: string): (n: nat)
    ensures n <= |s|
    ensures n == |s| || IsSpace(s[n])
    decreases |s|
  {
    if s == [] || IsSpace(s[0]) then 0 else WordLen(s[1..]) + 1
  }

  /** The prefix `WordLen` measures holds no whitespace. */
  lemma {:induction false} WordLenNoSpace(s: string)
    ensures NoSpace(s[..WordLen(s)])
    decreases |s|
  {
    if s != [] && !IsSpace(s[0]) {
      var n := WordLen(s[1..]);
      WordLenNoSpace(s[1..]);
      assert s[..n + 1] == [s[0]] + s[1..][..n];
    }
  }

  /** `s.split()`: the maximal whitespace-free runs of `s`, in order. */
  function SplitWs(s: string): seq<string>
    decreases |s|
  {
    if s == [] then
      []
    else if IsSpace(s[0]) then
      SplitWs(s[1..])
    else
      var n := WordLen(s);
      [s[..n]] + SplitWs(s[n..])
  }

  /** Every token of `s.split()` is a non-empty run without whitespace. */
  lemma {:induction false} SplitWsWords(s: string)
    ensures forall i :: 0 <= i < |SplitWs(s)| ==> SplitWs(s)[i] != [] && NoSpace(SplitWs(s)[i])
    decreases |s|
  {
    if s != [] {
      if IsSpace(s[0]) {
        SplitWsWords(s[1..]);
      } else {
        WordLenNoSpace(s);
        SplitWsWords(s[WordLen(s)..]);
      }
    }
  }

  /** `s.split()` is empty exactly when `s.strip()` is. */
  lemma {:induction false} SplitWsEmptyIff(s: string)
    ensures SplitWs(s) == [] <==> AllSpace(s)
    decreases |s|
  {
    if s != [] && IsSpace(s[0]) {
      SplitWsEmptyIff(s[1..]);
      assert forall i :: 1 <= i < |s| ==> s[i] == s[1..][i - 1];
    }
  }

  /** `not s.strip()` exactly when `s.split()` is empty. */
  lemma StripEmptyIffSplitWsEmpty(s: string)
    ensures Strip(s) == [] <==> SplitWs(s) == []
  {
    StripEmptyIff(s);
    SplitWsEmptyIff(s);
  }

  /** `sep.join(ps)`. */
  function Join(ps: seq<string>, sep: string): string
  {
    if ps == [] then [] else if |ps| == 1 then ps[0] else ps[0] + sep + Join(ps[1..], sep)
  }

  lemma {:induction false} WordLenOfWord(w: string, rest: string)
    requires w != [] && NoSpace(w)
    requires rest == [] || IsSpace(rest[0])
    ensures WordLen(w + rest) == |w|
    decreases |w|
  {
    assert (w + rest)[1..] == w[1..] + rest;
    if |w| > 1 {
      WordLenOfWord(w[1..], rest);
    }
  }

  /** Whitespace after the end of a run does not lengthen it. */
  lemma {:induction false} WordLenAppend(s: string, t: string)
    requires WordLen(s) < |s| || t == [] || IsSpace(t[0])
    ensures WordLen(s + t) == WordLen(s)
    decreases |s|
  {
    if s == [] {
      assert s + t == t;
    } else {
      assert (s + t)[0] == s[0];
      if !IsSpace(s[0]) {
        assert (s + t)[1..] == s[1..] + t;
        WordLenAppend(s[1..], t);
      }
    }
  }

  /** Trailing whitespace, such as the newline `readlines()` keeps, adds no token to `split()`. */
  lemma {:induction false} SplitWsTrailingSpace(s: string, t: string)
    requires AllSpace(t)
    ensures SplitWs(s + t) == SplitWs(s)
    decreases |s|
  {
    if s == [] {
      assert s + t == t;
      SplitWsEmptyIff(t);
    } else {
      assert (s + t)[0] == s[0];
      if IsSpace(s[0]) {
        assert (s + t)[1..] == s[1..] + t;
        SplitWsTrailingSpace(s[1..], t);
      } else {
        var n := WordLen(s);
        WordLenAppend(s, t);
        assert (s + t)[..n] == s[..n];
        assert (s + t)[n..] == s[n..] + t;
        SplitWsTrailingSpace(s[n..], t);
      }
    }
  }

  /** Round trip: splitting on whitespace recovers words joined by single spaces. */
  lemma {:induction false} SplitWsJoin(ts: seq<string>)
    requires forall i :: 0 <= i < |ts| ==> ts[i] != [] && NoSpace(ts[i])
    ensures SplitWs(Join(ts, " ")) == ts
  {
    if ts == [] {
    } else if |ts| == 1 {
      var t := ts[0];
      WordLenOfWord(t, []);
      assert t + [] == t;
      assert t[|t|..] == [];
    } else {
      var t, j := ts[0], Join(ts[1..], " ");
      var s := t + " " + j;
      assert s == t + (" " + j);
      WordLenOfWord(t, " " + j);
      assert s[..|t|] == t;
      assert s[|t|..] == " " + j;
      assert (" " + j)[1..] == j;
      SplitWsJoin(ts[1..]);
      assert ts == [t] + ts[1..];
    }
  }

  predicate StartsWith(s: string, prefix: string)
  {
    |prefix| <= |s| && s[..|prefix|] == prefix
  }

  predicate EndsWith(s: string, suffix: string)
  {
    |suffix| <= |s| && s[|s| - |suffix|..] == suffix
  }

  /** A whitespace-free prefix of `w + " " + t` is a prefix of the first word `w`. */
  lemma StartsWithFirstWord(w: string, t: string, prefix: string)
    requires NoSpace(prefix)
    ensures StartsWith(w + " " + t, prefix) <==> StartsWith(w, prefix)
  {
    var line := w + " " + t;
    if |w| >= |prefix| {
      assert line[..|prefix|] == w[..|prefix|];
    } else if |prefix| <= |line| {
      assert line[..|prefix|][|w|] == ' ';
    }
  }

  /** `sub` occurs in `s` starting at index `k`. */
  predicate OccursAt(s: string, sub: string, k: int)
  {
    0 <= k && k + |sub| <= |s| && s[k..k + |sub|] == sub
  }

  predicate Contains(s: string, sub: string)
  {
    exists k :: 0 <= k <= |s| && OccursAt(s, sub, k)
  }

  /** `s.find(sub, start)`, with `None` for Python's -1: the leftmost occurrence at or after `start`. */
  function Find(s: string, sub: string, start: nat): (r: Option<nat>)
    ensures r.Some? ==> start <= r.value && OccursAt(s, sub, r.value)
    ensures r.Some? ==> forall j :: start <= j < r.value ==> !OccursAt(s, sub, j)
    ensures r.None? ==> forall j :: start <= j ==> !OccursAt(s, sub, j)
    decreases |s| + 1 - start
  {
    if start + |sub| > |s| then None
    else if s[start..start + |sub|] == sub then Some(start)
    else Find(s, sub, start + 1)
  }

  /** `s.split(sep)` for a non-empty separator: cut at each leftmost occurrence, left to right. */
  function Split(s: string, sep: string): (r: seq<string>)
    requires sep != []
    ensures |r| >= 1
    ensures forall i :: 0 <= i < |r| ==> !Contains(r[i], sep)
    decreases |s|
  {
    match Find(s, sep, 0)
    case None => [s]
    case Some(k) =>
      var head := s[..k];
      assert !Contains(head, sep) by {
        forall j | 0 <= j <= |head| && OccursAt(head, sep, j) ensures OccursAt(s, sep, j) {
          assert head[j..j + |sep|] == s[j..j + |sep|];
        }
      }
      [head] + Split(s[k + |sep|..], sep)
  }

  /** Round trip: joining the pieces of `s.split(sep)` with `sep` gives back `s`. */
  lemma {:induction false} JoinSplit(s: string, sep: string)
    requires sep != []
    ensures Join(Split(s, sep), sep) == s
    decreases |s|
  {
    match Find(s, sep, 0)
    case None =>
    case Some(k) =>
      var rest := s[k + |sep|..];
      var tail := Split(rest, sep);
      JoinSplit(rest, sep);
      assert Split(s, sep) == [s[..k]] + tail;
      assert Join([s[..k]] + tail, sep) == s[..k] + sep + Join(tail, sep);
      assert s == s[..k] + s[k..k + |sep|] + rest;
  }

  /** No proper prefix of `sep` is also a suffix, so two occurrences of `sep` never overlap. */
  predicate BorderFree(sep: string)
  {
    forall k :: 0 < k < |sep| ==> sep[..k] != sep[|sep| - k..]
  }

  /** In `p + sep + t` with `sep` absent from `p`, the leftmost `sep` is the one after `p`. */
  lemma FirstOccurrence(p: string, sep: string, t: string)
    requires sep != [] && BorderFree(sep) && !Contains(p, sep)
    ensures Find(p + sep + t, sep, 0) == Some(|p|)
  {
    var s := p + sep + t;
    assert s[|p|..|p| + |sep|] == sep;
    assert OccursAt(s, sep, |p|);
    var r := Find(s, sep, 0);
    assert r.Some? && r.value <= |p|;
    forall j | 0 <= j < |p| ensures !OccursAt(s, sep, j) {
      if j + |sep| <= |p| {
        assert s[j..j + |sep|] == p[j..j + |sep|];
        assert !OccursAt(p, sep, j);
      } else {
        var k := j + |sep| - |p|;
        assert s[j..j + |sep|][|sep| - k..] == s[|p|..j + |sep|];
        assert s[|p|..|p| + |sep|][..k] == s[|p|..j + |sep|];
        assert sep[..k] != sep[|sep| - k..];
        assert s[j..j + |sep|][|sep| - k..] == s[|p|..|p| + |sep|][..k];
      }
    }
  }

  /**
   * The converse round trip, for a separator whose occurrences cannot overlap: splitting
   * pieces joined by `sep` gives the pieces back, as long as none of them contains `sep`.
   */
  lemma {:induction false} SplitJoin(ps: seq<string>, sep: string)
    requires sep != [] && BorderFree(sep) && |ps| >= 1
    requires forall i :: 0 <= i < |ps| ==> !Contains(ps[i], sep)
    ensures Split(Join(ps, sep), sep) == ps
  {
    if |ps| == 1 {
    } else {
      var p, j := ps[0], Join(ps[1..], sep);
      FirstOccurrence(p, sep, j);
      var s := p + sep + j;
      assert s[..|p|] == p;
      assert s[|p| + |sep|..] == j;
      SplitJoin(ps[1..], sep);
      assert ps == [p] + ps[1..];
    }
  }

  predicate IsDigit(c: char)
  {
    '0' <= c <= '9'
  }

  predicate AllDigits(s: string)
  {
    forall i :: 0 <= i < |s| ==> IsDigit(s[i])
  }

  function DigitChar(d: nat): (c: char)
    requires d < 10
    ensures IsDigit(c) && c as int - '0' as int == d
  {
    ('0' as int + d) as char
  }

  /** `str(n)` for `n >= 0`: its decimal digits, without leading zeros. */
  function NatToStr(n: nat): (r: string)
    ensures r != [] && AllDigits(r)
    ensures r[0] == '0' ==> r == "0"
    decreases n
  {
    if n < 10 then [DigitChar(n)] else NatToStr(n / 10) + [DigitChar(n % 10)]
  }

  /**
   * The number a string of decimal digits denotes. On a non-empty string this is what `int(s)`
   * gives; `int('')` raises instead, and here the empty string stands for 0.
   */
  function DigitsValue(s: string): nat
    requires AllDigits(s)
  {
    if s == [] then 0 else 10 * DigitsValue(s[..|s| - 1]) + (s[|s| - 1] as int - '0' as int)
  }

  /** Round trip: reading back the digits of `str(n)` gives `n`. */
  lemma {:induction false} NatToStrRoundTrip(n: nat)
    ensures DigitsValue(NatToStr(n)) == n
    decreases n
  {
    var r := NatToStr(n);
    if n >= 10 {
      NatToStrRoundTrip(n / 10);
      assert r[..|r| - 1] == NatToStr(n / 10);
    } else {
      assert r[..0] == [];
    }
  }

  /** Decimal digits never contain the separator `:` . */
  lemma DigitsHaveNoColon(s: string)
    requires AllDigits(s)
    ensures !Contains(s, ":")
  {
    forall k | 0 <= k < |s| ensures !OccursAt(s, ":", k) {
      assert s[k..k + 1][0] == s[k];
    }
  }
}
