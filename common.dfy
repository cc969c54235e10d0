/** Values and Python string/list builtins that the chunkers and the retrieval
    pipeline rely on: Option/Result, "".join and sep.join, str.split,
    str.splitlines, str.strip, str.upper/lower, slicing and str(int). */
module Common {

  datatype Option<+T> = None | Some(value: T)

  /** An operation that either returns a value or raises; `error` names the
      Python exception it would raise. */
  datatype Result<+T> = Ok(value: T) | Err(error: string)

  /** Concatenation of a sequence of sequences: "".join for strings,
      `[x for xs in xss for x in xs]` for lists. */
  function Flatten<T>(xss: seq<seq<T>>): seq<T>
  {
    if xss == [] then [] else xss[0] + Flatten(xss[1..])
  }

  lemma {:induction false} FlattenAppend<T>(a: seq<seq<T>>, b: seq<seq<T>>)
    ensures Flatten(a + b) == Flatten(a) + Flatten(b)
  {
    if a != [] {
      assert (a + b)[1..] == a[1..] + b;
      FlattenAppend(a[1..], b);
    } else {
      assert a + b == b;
    }
  }

  lemma FlattenSnoc<T>(a: seq<seq<T>>, x: seq<T>)
    ensures Flatten(a + [x]) == Flatten(a) + x
  {
    FlattenAppend(a, [x]);
    assert Flatten([x]) == x + Flatten<T>([]);
  }

  /** Element i of block j of a flattened sequence sits after all the
      elements of the earlier blocks. */
  lemma FlattenAt<T>(xss: seq<seq<T>>, j: nat, i: nat)
    requires j < |xss| && i < |xss[j]|
    ensures |Flatten(xss[..j])| + i < |Flatten(xss)|
    ensures Flatten(xss)[|Flatten(xss[..j])| + i] == xss[j][i]
  {
    assert xss == xss[..j] + [xss[j]] + xss[j + 1..];
    FlattenAppend(xss[..j] + [xss[j]], xss[j + 1..]);
    FlattenSnoc(xss[..j], xss[j]);
  }

  /** Blocks of equal lengths flatten to sequences of equal length. */
  lemma {:induction false} FlattenLength<S, T>(xss: seq<seq<S>>, yss: seq<seq<T>>)
    requires |xss| == |yss| && forall j :: 0 <= j < |xss| ==> |xss[j]| == |yss[j]|
    ensures |Flatten(xss)| == |Flatten(yss)|
  {
    if xss != [] {
      FlattenLength(xss[1..], yss[1..]);
    }
  }

  /** The same, with the positions counted in blocks of the same lengths. */
  lemma FlattenAtCounted<S, T>(xss: seq<seq<S>>, yss: seq<seq<T>>, j: nat, i: nat)
    requires |xss| == |yss| && forall k :: 0 <= k < |xss| ==> |xss[k]| == |yss[k]|
    requires j < |xss| && i < |xss[j]|
    ensures |Flatten(xss)| == |Flatten(yss)|
    ensures |Flatten(yss[..j])| + i < |Flatten(xss)|
    ensures Flatten(xss)[|Flatten(yss[..j])| + i] == xss[j][i]
  {
    FlattenLength(xss, yss);
    FlattenLength(xss[..j], yss[..j]);
    FlattenAt(xss, j, i);
  }

  /** sep.join(ss) */
  function Join(ss: seq<string>, sep: string): string
  {
    if |ss| == 0 then "" else if |ss| == 1 then ss[0] else ss[0] + sep + Join(ss[1..], sep)
  }

  lemma {:induction false} JoinSnoc(ss: seq<string>, x: string, sep: string)
    requires |ss| > 0
    ensures Join(ss + [x], sep) == Join(ss, sep) + sep + x
  {
    if |ss| == 1 {
      assert (ss + [x])[1..] == [x];
    } else {
      assert (ss + [x])[1..] == ss[1..] + [x];
      JoinSnoc(ss[1..], x, sep);
    }
  }

  lemma {:induction false} JoinAppend(a: seq<string>, b: seq<string>, sep: string)
    requires |a| > 0 && |b| > 0
    ensures Join(a + b, sep) == Join(a, sep) + sep + Join(b, sep)
  {
    if |a| == 1 {
      assert (a + b)[1..] == b;
    } else {
      assert (a + b)[1..] == a[1..] + b;
      JoinAppend(a[1..], b, sep);
    }
  }

  /** s.split(sep) for a one-character separator: always at least one piece. */
  function Split(s: string, sep: char): (pieces: seq<string>)
    ensures |pieces| >= 1
    ensures forall i, j :: 0 <= i < |pieces| && 0 <= j < |pieces[i]| ==> pieces[i][j] != sep
  {
    if s == [] then [""]
    else
      var rest := Split(s[1..], sep);
      if s[0] == sep then [""] + rest else [[s[0]] + rest[0]] + rest[1..]
  }

  /** Splitting on a character and joining with it again gives back the string. */
  lemma {:induction false} JoinSplit(s: string, sep: char)
    ensures Join(Split(s, sep), [sep]) == s
  {
    if s != [] {
      var rest := Split(s[1..], sep);
      JoinSplit(s[1..], sep);
      if s[0] == sep {
        assert ([""] + rest)[1..] == rest;
      } else if |rest| > 1 {
        assert Join(rest, [sep]) == rest[0] + [sep] + Join(rest[1..], [sep]);
        assert ([[s[0]] + rest[0]] + rest[1..])[1..] == rest[1..];
      }
    }
  }

  /** The characters Python's str.isspace() accepts (the ones str.strip()
      removes and the regular expression class \s matches). */
  predicate IsSpace(c: char)
  {
    c == ' ' || c == '\t' || c == '\n' || c == '\r' || c == '\U{0B}' || c == '\U{0C}'
    || ('\U{1C}' <= c <= '\U{1F}') || c == '\U{85}' || c == '\U{A0}' || c == '\U{1680}'
    || ('\U{2000}' <= c <= '\U{200A}') || c == '\U{2028}' || c == '\U{2029}'
    || c == '\U{202F}' || c == '\U{205F}' || c == '\U{3000}'
  }

  predicate AllSpace(s: string)
  {
    forall i :: 0 <= i < |s| ==> IsSpace(s[i])
  }

  /** s.lstrip() */
  function LStrip(s: string): string
  {
    if s != [] && IsSpace(s[0]) then LStrip(s[1..]) else s
  }

  /** s.rstrip() */
  function RStrip(s: string): string
  {
    if s != [] && IsSpace(s[|s| - 1]) then RStrip(s[..|s| - 1]) else s
  }

  /** s.strip() */
  function Strip(s: string): string
  {
    RStrip(LStrip(s))
  }

  /** lstrip() removes exactly the leading whitespace. */
  lemma {:induction false} LStripSpec(s: string)
    ensures |LStrip(s)| <= |s| && LStrip(s) == s[|s| - |LStrip(s)|..]
    ensures AllSpace(s[..|s| - |LStrip(s)|])
    ensures LStrip(s) == [] || !IsSpace(LStrip(s)[0])
  {
    if s != [] && IsSpace(s[0]) {
      LStripSpec(s[1..]);
      var r := LStrip(s);
      assert s[..|s| - |r|] == [s[0]] + s[1..][..|s| - 1 - |r|];
    }
  }

  /** rstrip() removes exactly the trailing whitespace. */
  lemma {:induction false} RStripSpec(s: string)
    ensures |RStrip(s)| <= |s| && RStrip(s) == s[..|RStrip(s)|]
    ensures AllSpace(s[|RStrip(s)|..])
    ensures RStrip(s) == [] || !IsSpace(RStrip(s)[|RStrip(s)| - 1])
  {
    if s != [] && IsSpace(s[|s| - 1]) {
      RStripSpec(s[..|s| - 1]);
      var r := RStrip(s);
      assert s[|r|..] == s[..|s| - 1][|r|..] + [s[|s| - 1]];
    }
  }

  /** strip() gives s without its leading and trailing whitespace: a
      stretch of s with only whitespace around it, which neither starts nor
      ends with whitespace. */
  lemma StripSpec(s: string)
    ensures var r := Strip(s);
      && (exists i :: 0 <= i <= |s| - |r| && r == s[i..i + |r|] && AllSpace(s[..i]) && AllSpace(s[i + |r|..]))
      && (r == [] || (!IsSpace(r[0]) && !IsSpace(r[|r| - 1])))
  {
    var l := LStrip(s);
    var r := RStrip(l);
    LStripSpec(s);
    RStripSpec(l);
    var i := |s| - |l|;
    assert r == s[i..i + |r|] by {
      assert l == s[i..];
    }
    assert s[i + |r|..] == l[|r|..];
    if r != [] {
      assert r[0] == l[0];
    }
  }

  /** The line boundaries of Python's str.splitlines(). */
  predicate IsLineBoundary(c: char)
  {
    c == '\n' || c == '\r' || c == '\U{0B}' || c == '\U{0C}' || c == '\U{1C}' || c == '\U{1D}'
    || c == '\U{1E}' || c == '\U{85}' || c == '\U{2028}' || c == '\U{2029}'
  }

  /** Index of the first line boundary in s, or |s|. */
  function LineEnd(s: string): (k: nat)
    ensures k <= |s|
    ensures forall i :: 0 <= i < k ==> !IsLineBoundary(s[i])
    ensures k < |s| ==> IsLineBoundary(s[k])
  {
    if s == [] || IsLineBoundary(s[0]) then 0 else 1 + LineEnd(s[1..])
  }

  /** s.splitlines(): the lines of s without their terminators; "\r\n" ends one
      line, and a terminator at the very end does not start an empty line. */
  function SplitLines(s: string): (lines: seq<string>)
    ensures forall i, j :: 0 <= i < |lines| && 0 <= j < |lines[i]| ==> !IsLineBoundary(lines[i][j])
    decreases |s|
  {
    if s == [] then []
    else
      var k := LineEnd(s);
      if k == |s| then [s]
      else
        var skip := if s[k] == '\r' && k + 1 < |s| && s[k + 1] == '\n' then 2 else 1;
        [s[..k]] + SplitLines(s[k + skip..])
  }

  lemma SplitLinesNonEmpty(s: string)
    requires s != []
    ensures |SplitLines(s)| > 0
  {
    if LineEnd(s) == |s| { } else { }
  }

  /** Where "\n" is the only line boundary and the text does not end with one,
      splitlines() is undone by "\n".join. */
  lemma {:induction false} JoinSplitLines(s: string)
    requires forall i :: 0 <= i < |s| && IsLineBoundary(s[i]) ==> s[i] == '\n'
    requires s == [] || s[|s| - 1] != '\n'
    ensures Join(SplitLines(s), "\n") == s
    decreases |s|
  {
    if s != [] && LineEnd(s) < |s| {
      var k := LineEnd(s);
      var rest := s[k + 1..];
      assert s[k] == '\n';
      assert s == s[..k] + "\n" + rest by {
        assert s[..k] + [s[k]] + s[k + 1..] == s;
      }
      assert forall i :: 0 <= i < |rest| && IsLineBoundary(rest[i]) ==> rest[i] == '\n' by {
        forall i | 0 <= i < |rest| && IsLineBoundary(rest[i])
          ensures rest[i] == '\n'
        {
          assert rest[i] == s[k + 1 + i];
        }
      }
      JoinSplitLines(rest);
      SplitLinesNonEmpty(rest);
      JoinAppend([s[..k]], SplitLines(rest), "\n");
    }
  }

  /** A text that neither starts nor ends with whitespace has more than one
      line exactly when it contains a line boundary. */
  lemma {:induction false} MultipleLinesIffBoundary(s: string)
    requires s == [] || (!IsSpace(s[0]) && !IsSpace(s[|s| - 1]))
    ensures |SplitLines(s)| > 1 <==> exists i :: 0 <= i < |s| && IsLineBoundary(s[i])
  {
    if s != [] {
      var k := LineEnd(s);
      if k < |s| {
        assert IsSpace(s[k]);
        assert k < |s| - 1;
        var skip := if s[k] == '\r' && k + 1 < |s| && s[k + 1] == '\n' then 2 else 1;
        if skip == 2 {
          assert IsSpace(s[k + 1]);
        }
        var rest := s[k + skip..];
        assert rest != [];
        assert SplitLines(rest) != [] by {
          if LineEnd(rest) == |rest| { } else { }
        }
      } else {
        assert SplitLines(s) == [s];
      }
    }
  }

  function UpperChar(c: char): char
  {
    if 'a' <= c <= 'z' then (c as int - 'a' as int + 'A' as int) as char else c
  }

  function LowerChar(c: char): char
  {
    if 'A' <= c <= 'Z' then (c as int - 'A' as int + 'a' as int) as char else c
  }

  /** s.upper(), for the ASCII letters. */
  function Upper(s: string): (r: string)
    ensures |r| == |s|
  {
    seq(|s|, i requires 0 <= i < |s| => UpperChar(s[i]))
  }

  /** s.lower(), for the ASCII letters. */
  function Lower(s: string): (r: string)
    ensures |r| == |s|
  {
    seq(|s|, i requires 0 <= i < |s| => LowerChar(s[i]))
  }

  /** s.startswith(p) */
  predicate StartsWith(s: string, p: string)
  {
    |p| <= |s| && s[..|p|] == p
  }

  /** `sub in s` */
  predicate Contains(s: string, sub: string)
    decreases |s|
  {
    StartsWith(s, sub) || (s != [] && Contains(s[1..], sub))
  }

  /** s[:n] with Python's slice rules (a negative n counts from the end). */
  function PrefixSlice<T>(s: seq<T>, n: int): (r: seq<T>)
    ensures |r| <= |s| && r == s[..|r|]
    ensures n >= 0 ==> |r| == if n < |s| then n else |s|
    ensures n < 0 ==> |r| == if |s| + n > 0 then |s| + n else 0
  {
    if n >= 0 then (if n < |s| then s[..n] else s)
    else if |s| + n > 0 then s[..|s| + n] else []
  }

  function DigitChar(d: nat): char
    requires d < 10
  {
    ('0' as int + d) as char
  }

  /** str(n) for a natural number: its decimal digits. */
  function NatToDecimal(n: nat): (r: string)
    ensures |r| >= 1
    ensures forall i :: 0 <= i < |r| ==> '0' <= r[i] <= '9'
  {
    if n < 10 then [DigitChar(n)] else NatToDecimal(n / 10) + [DigitChar(n % 10)]
  }

  /** Different numbers have different decimal representations. */
  lemma {:induction false} NatToDecimalInjective(a: nat, b: nat)
    requires NatToDecimal(a) == NatToDecimal(b)
    ensures a == b
  {
    var s := NatToDecimal(a);
    if a < 10 && b < 10 {
      assert s[0] == DigitChar(a) && s[0] == DigitChar(b);
    } else if a >= 10 && b >= 10 {
      assert s[|s| - 1] == DigitChar(a % 10) && s[|s| - 1] == DigitChar(b % 10);
      assert NatToDecimal(a / 10) == s[..|s| - 1] == NatToDecimal(b / 10);
      NatToDecimalInjective(a / 10, b / 10);
    }
  }

  /** str(i) for an integer. */
  function IntToDecimal(i: int): string
  {
    if i < 0 then "-" + NatToDecimal(-i) else NatToDecimal(i)
  }
}
