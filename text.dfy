/**
  * Character classes, stripping, ordering and joining of strings, written out the way
  * Python's str methods and the re classes \s and \w behave on ASCII text.
  */
module Text {

  /** Python's str.isspace (and the re class \s) on ASCII: space, \t \n \v \f \r and \x1c-\x1f. */
  predicate IsSpace(c: char) {
    c == ' ' || c == '\t' || c == '\n' || c == '\r' || c == '\U{B}' || c == '\U{C}'
    || ('\U{1C}' <= c <= '\U{1F}')
  }

  /** The class [ \t] of the configuration-line pattern. */
  predicate IsSpTab(c: char) {
    c == ' ' || c == '\t'
  }

  /** The re class \w, restricted to ASCII letters, digits and underscore. */
  predicate IsWordChar(c: char) {
    ('a' <= c <= 'z') || ('A' <= c <= 'Z') || ('0' <= c <= '9') || c == '_'
  }

  predicate IsBlank(s: string) {
    forall i :: 0 <= i < |s| ==> IsSpace(s[i])
  }

  predicate IsSpTabs(s: string) {
    forall i :: 0 <= i < |s| ==> IsSpTab(s[i])
  }

  predicate IsWord(s: string) {
    forall i :: 0 <= i < |s| ==> IsWordChar(s[i])
  }

  /** Neither starts nor ends with whitespace: what str.strip() returns. */
  predicate IsStripped(s: string) {
    s == [] || (!IsSpace(s[0]) && !IsSpace(s[|s| - 1]))
  }

  predicate StartsWith(s: string, prefix: string) {
    |prefix| <= |s| && s[..|prefix|] == prefix
  }

  /** str.lstrip() */
  function LStrip(s: string): (r: string)
    ensures |r| <= |s|
  {
    if s != [] && IsSpace(s[0]) then LStrip(s[1..]) else s
  }

  /** What lstrip leaves: the suffix of s after its leading whitespace, not starting with whitespace. */
  lemma LStripShape(s: string)
    ensures LStrip(s) == s[|s| - |LStrip(s)|..]
    ensures forall k :: 0 <= k < |s| - |LStrip(s)| ==> IsSpace(s[k])
    ensures LStrip(s) == [] || !IsSpace(LStrip(s)[0])
  {
    if s != [] && IsSpace(s[0]) {
      var t := s[1..];
      LStripShape(t);
      assert LStrip(s) == LStrip(t);
      var m := |s| - |LStrip(s)|;
      assert t[m - 1..] == s[m..];
      forall k | 1 <= k < m ensures IsSpace(s[k]) {
        assert s[k] == t[k - 1];
      }
    }
  }

  /** str.rstrip() */
  function RStrip(s: string): (r: string)
    ensures |r| <= |s|
  {
    if s != [] && IsSpace(s[|s| - 1]) then RStrip(s[..|s| - 1]) else s
  }

  /** What rstrip leaves: the prefix of s before its trailing whitespace, not ending in whitespace. */
  lemma RStripShape(s: string)
    ensures RStrip(s) == s[..|RStrip(s)|]
    ensures forall k :: |RStrip(s)| <= k < |s| ==> IsSpace(s[k])
    ensures RStrip(s) == [] || !IsSpace(RStrip(s)[|RStrip(s)| - 1])
  {
    if s != [] && IsSpace(s[|s| - 1]) {
      RStripShape(s[..|s| - 1]);
      assert s[..|s| - 1][..|RStrip(s)|] == s[..|RStrip(s)|];
      forall k | |RStrip(s)| <= k < |s| - 1 ensures IsSpace(s[k]) {
        assert s[k] == s[..|s| - 1][k];
      }
    }
  }

  /** str.strip(): the part of s between its leading and its trailing whitespace. */
  function Strip(s: string): (r: string)
    ensures IsStripped(r) && |r| <= |s|
    ensures IsBlank(s) <==> r == []
  {
    LStripShape(s);
    RStripShape(LStrip(s));
    var l := LStrip(s);
    var r := RStrip(l);
    assert s == s[..|s| - |l|] + l;
    assert r == [] ==> l == l[|r|..];
    r
  }

  /** Strips only trailing spaces and tabs: the [ \t]* before $ in the line pattern. */
  function RStripSpTab(s: string): (r: string)
    ensures |r| <= |s| && r == s[..|r|]
    ensures forall k :: |r| <= k < |s| ==> IsSpTab(s[k])
    ensures r == [] || !IsSpTab(r[|r| - 1])
  {
    if s != [] && IsSpTab(s[|s| - 1]) then RStripSpTab(s[..|s| - 1]) else s
  }

  /** The index of the first character at or after i that is not a space or tab. */
  function SkipSpTab(s: string, i: nat): (j: nat)
    requires i <= |s|
    ensures i <= j <= |s|
    ensures forall k :: i <= k < j ==> IsSpTab(s[k])
    ensures j < |s| ==> !IsSpTab(s[j])
    decreases |s| - i
  {
    if i < |s| && IsSpTab(s[i]) then SkipSpTab(s, i + 1) else i
  }

  lemma LStripBlankPrefix(x: string, y: string)
    requires IsBlank(x)
    ensures LStrip(x + y) == LStrip(y)
  {
    if x != [] {
      var xy := x + y;
      assert xy[0] == x[0] && IsSpace(xy[0]);
      assert xy[1..] == x[1..] + y;
      assert LStrip(xy) == LStrip(xy[1..]);
      LStripBlankPrefix(x[1..], y);
    } else {
      assert x + y == y;
    }
  }

  lemma RStripBlankSuffix(y: string, z: string)
    requires IsBlank(z)
    ensures RStrip(y + z) == RStrip(y)
  {
    if z != [] {
      var yz := y + z;
      assert yz[|yz| - 1] == z[|z| - 1] && IsSpace(yz[|yz| - 1]);
      assert yz[..|yz| - 1] == y + z[..|z| - 1];
      assert RStrip(yz) == RStrip(yz[..|yz| - 1]);
      RStripBlankSuffix(y, z[..|z| - 1]);
    } else {
      assert y + z == y;
    }
  }

  lemma LStripKeepsSuffix(y: string, z: string)
    requires !IsBlank(y)
    ensures LStrip(y + z) == LStrip(y) + z
  {
    var j :| 0 <= j < |y| && !IsSpace(y[j]);
    if IsSpace(y[0]) {
      assert y[1..][j - 1] == y[j];
      assert (y + z)[1..] == y[1..] + z;
      LStripKeepsSuffix(y[1..], z);
    } else {
      assert (y + z)[0] == y[0];
    }
  }

  lemma LStripOfBlank(y: string)
    requires IsBlank(y)
    ensures LStrip(y) == []
  {
    if y != [] {
      LStripOfBlank(y[1..]);
    }
  }

  lemma RStripOfBlank(y: string)
    requires IsBlank(y)
    ensures RStrip(y) == []
  {
    if y != [] {
      RStripOfBlank(y[..|y| - 1]);
    }
  }

  lemma StripIdentity(y: string)
    requires IsStripped(y)
    ensures Strip(y) == y
  {
  }

  lemma BlankConcat(a: string, b: string)
    requires IsBlank(a) && IsBlank(b)
    ensures IsBlank(a + b)
  {
    forall i | 0 <= i < |a + b| ensures IsSpace((a + b)[i]) {
      if i < |a| { assert (a + b)[i] == a[i]; } else { assert (a + b)[i] == b[i - |a|]; }
    }
  }

  /** Stripping ignores whitespace padding on either side. */
  lemma StripPadded(x: string, y: string, z: string)
    requires IsBlank(x) && IsBlank(z)
    ensures Strip(x + y + z) == Strip(y)
  {
    var yz := y + z;
    var s := x + y + z;
    assert s == x + yz;
    LStripBlankPrefix(x, yz);
    assert LStrip(s) == LStrip(yz);
    if IsBlank(y) {
      BlankConcat(y, z);
      LStripOfBlank(yz);
      LStripOfBlank(y);
    } else {
      var ly := LStrip(y);
      LStripKeepsSuffix(y, z);
      assert LStrip(yz) == ly + z;
      RStripBlankSuffix(ly, z);
    }
  }

  /** Python's ordering of str: lexicographic by code point, a proper prefix first. */
  predicate StrLe(a: string, b: string) {
    a == [] || (b != [] && (a[0] < b[0] || (a[0] == b[0] && StrLe(a[1..], b[1..]))))
  }

  lemma StrLeTotal(a: string, b: string)
    ensures StrLe(a, b) || StrLe(b, a)
  {
    if a != [] && b != [] && a[0] == b[0] {
      StrLeTotal(a[1..], b[1..]);
    }
  }

  lemma StrLeTrans(a: string, b: string, c: string)
    requires StrLe(a, b) && StrLe(b, c)
    ensures StrLe(a, c)
  {
    if a != [] && b != [] && c != [] && a[0] == b[0] == c[0] {
      StrLeTrans(a[1..], b[1..], c[1..]);
    }
  }

  lemma StrLeAntisym(a: string, b: string)
    requires StrLe(a, b) && StrLe(b, a)
    ensures a == b
  {
    if a != [] && b != [] {
      StrLeAntisym(a[1..], b[1..]);
    }
  }

  function Repeat(c: char, n: nat): (r: string)
    ensures |r| == n && forall i :: 0 <= i < n ==> r[i] == c
  {
    if n == 0 then [] else Repeat(c, n - 1) + [c]
  }

  /** sep.join(xs) */
  function Join(xs: seq<string>, sep: string): string {
    if |xs| == 0 then []
    else if |xs| == 1 then xs[0]
    else Join(xs[..|xs| - 1], sep) + sep + xs[|xs| - 1]
  }

  function Digit(d: nat): (c: char)
    requires d < 10
  {
    ('0' as int + d) as char
  }

  /** str(n) for a non-negative int. */
  function NatToString(n: nat): (r: string)
    ensures |r| >= 1
    ensures forall i :: 0 <= i < |r| ==> '0' <= r[i] <= '9'
  {
    if n < 10 then [Digit(n)] else NatToString(n / 10) + [Digit(n % 10)]
  }

  /** A larger number never has fewer digits. */
  lemma {:induction false} NatToStringMonotone(m: nat, n: nat)
    requires m <= n
    ensures |NatToString(m)| <= |NatToString(n)|
  {
    if n >= 10 && m >= 10 {
      NatToStringMonotone(m / 10, n / 10);
    }
  }

  /** s[:n] in Python: the slice bound is clamped to the length. */
  function Take<T>(s: seq<T>, n: nat): (r: seq<T>)
    ensures |r| == if n <= |s| then n else |s|
    ensures r == s[..|r|]
  {
    if n <= |s| then s[..n] else s
  }

  /** s[n:] in Python. */
  function Drop<T>(s: seq<T>, n: nat): (r: seq<T>)
    ensures |r| == if n <= |s| then |s| - n else 0
    ensures r == s[|s| - |r|..]
  {
    if n <= |s| then s[n..] else []
  }

  /** A line a new block can go in front of: a blank line, or one that is not a "#" comment. */
  predicate Opens(line: string) {
    IsBlank(line) || !StartsWith(Strip(line), "#")
  }

  /** Line l is the first of the lines that starts with prefix. */
  ghost predicate FirstStarting(lines: seq<string>, prefix: string, l: nat)
    requires l < |lines|
  {
    StartsWith(lines[l], prefix) && forall j :: 0 <= j < l ==> !StartsWith(lines[j], prefix)
  }

  /** No line strictly between l and m opens. */
  ghost predicate QuietAfter(lines: seq<string>, l: nat, m: nat)
    requires m <= |lines|
  {
    forall j :: l < j < m ==> !Opens(lines[j])
  }
}
