/** The Python string operations the modelled code relies on: strip, readline,
    lower, int(), str() of a number, join, split, partition, replace and
    os.path.basename, each on Dafny strings (sequences of characters). */
module Text {
  import opened Wrappers

  /** The characters Python's str.isspace accepts, which str.strip() removes: '\t' to
      '\r', the separators U+1C to U+1F, the space, U+85, U+A0, U+1680, U+2000 to U+200A,
      U+2028, U+2029, U+202F, U+205F and U+3000. */
  predicate IsSpace(c: char) {
    || c == ' ' || '\t' <= c <= '\r' || '\U{1C}' <= c <= '\U{1F}' || c == '\U{85}' || c == '\U{A0}'
    || c == '\U{1680}' || '\U{2000}' <= c <= '\U{200A}' || c == '\U{2028}' || c == '\U{2029}'
    || c == '\U{202F}' || c == '\U{205F}' || c == '\U{3000}'
  }

  const Whitespace: set<char> := set c: char | '\t' <= c <= '\U{3000}' && IsSpace(c)

  predicate IsPrefix(p: string, s: string) {
    |p| <= |s| && s[..|p|] == p
  }

  /** Python truthiness of an optional string: present and not empty. */
  predicate Truthy(s: Option<string>) {
    s.Some? && s.value != []
  }

  /** Every character of t is in cs. */
  predicate AllIn(t: string, cs: set<char>) {
    forall j :: 0 <= j < |t| ==> t[j] in cs
  }

  lemma AllInConcat(a: string, b: string, cs: set<char>)
    requires AllIn(a, cs) && AllIn(b, cs)
    ensures AllIn(a + b, cs)
  {
    forall j | 0 <= j < |a + b|
      ensures (a + b)[j] in cs
    {
      if j >= |a| {
        assert (a + b)[j] == b[j - |a|];
      }
    }
  }

  lemma SplitAt(s: string, k: nat)
    requires k <= |s|
    ensures s == s[..k] + s[k..]
  {
  }

  /** s.lstrip(cs): drop the leading characters that are in cs. */
  function LStrip(s: string, cs: set<char>): (r: string)
    ensures |r| <= |s| && r == s[|s| - |r|..]
    ensures r == [] || r[0] !in cs
    ensures forall i :: 0 <= i < |s| - |r| ==> s[i] in cs
  {
    if s == [] || s[0] !in cs then s else LStrip(s[1..], cs)
  }

  /** s.rstrip(cs): drop the trailing characters that are in cs. */
  function RStrip(s: string, cs: set<char>): (r: string)
    ensures |r| <= |s| && r == s[..|r|]
    ensures r == [] || r[|r| - 1] !in cs
    ensures forall i :: |r| <= i < |s| ==> s[i] in cs
  {
    if s == [] || s[|s| - 1] !in cs then s else RStrip(s[..|s| - 1], cs)
  }

  /** What lstrip cuts off is a run of characters of cs. */
  lemma LStripCut(s: string, cs: set<char>)
    ensures var l := LStrip(s, cs);
            s == s[..|s| - |l|] + l && AllIn(s[..|s| - |l|], cs)
  {
    var l := LStrip(s, cs);
    var pre := s[..|s| - |l|];
    forall j | 0 <= j < |pre|
      ensures pre[j] in cs
    {
      assert pre[j] == s[j];
    }
    SplitAt(s, |s| - |l|);
  }

  /** What rstrip cuts off is a run of characters of cs. */
  lemma RStripCut(s: string, cs: set<char>)
    ensures var r := RStrip(s, cs);
            s == r + s[|r|..] && AllIn(s[|r|..], cs)
  {
    var r := RStrip(s, cs);
    var post := s[|r|..];
    forall j | 0 <= j < |post|
      ensures post[j] in cs
    {
      assert post[j] == s[|r| + j];
    }
    SplitAt(s, |r|);
  }

  /** s.strip(cs): lstrip then rstrip; the result neither starts nor ends with a
      character of cs. */
  function StripChars(s: string, cs: set<char>): (r: string)
    ensures r == [] || (r[0] !in cs && r[|r| - 1] !in cs)
  {
    RStrip(LStrip(s, cs), cs)
  }

  /** What strip keeps: a contiguous part of s, at the cut point i, such that whatever
      was cut off on either side consists of characters of cs; it is empty exactly when
      every character of s is in cs. */
  lemma StripCharsSpec(s: string, cs: set<char>)
    ensures var r := StripChars(s, cs);
            var i := |s| - |LStrip(s, cs)|;
            && 0 <= i <= |s| - |r| && s == s[..i] + r + s[i + |r|..]
            && AllIn(s[..i], cs) && AllIn(s[i + |r|..], cs)
            && (r == [] <==> AllIn(s, cs))
  {
    var r := StripChars(s, cs);
    var i := |s| - |LStrip(s, cs)|;
    StripCharsSplit(s, cs);
    if r == [] {
      assert s == s[..i] + s[i..];
      AllInConcat(s[..i], s[i..], cs);
    } else {
      assert s[i] == r[0];
    }
  }

  /** The cut strip makes: s is the kept part between two runs of characters of cs. */
  lemma StripCharsSplit(s: string, cs: set<char>)
    ensures var r := StripChars(s, cs);
            var i := |s| - |LStrip(s, cs)|;
            && 0 <= i <= |s| - |r| && s == s[..i] + r + s[i + |r|..]
            && AllIn(s[..i], cs) && AllIn(s[i + |r|..], cs)
  {
    var l := LStrip(s, cs);
    var r := RStrip(l, cs);
    var i := |s| - |l|;
    LStripCut(s, cs);
    RStripCut(l, cs);
    Recombine(s, i, l, r, l[|r|..]);
    assert StripChars(s, cs) == r;
  }

  /** A sequence cut at i into s[..i] and a rest, with the rest cut into mid and post,
      is s[..i] + mid + post, with post starting at i + |mid|. */
  lemma Recombine(s: string, i: nat, rest: string, mid: string, post: string)
    requires i <= |s| && s == s[..i] + rest && rest == mid + post
    ensures i + |mid| <= |s| && s[i + |mid|..] == post && s == s[..i] + mid + s[i + |mid|..]
  {
    assert s[i + |mid|..] == post;
  }

  /** v is what strip(cs) leaves of s: s is v between two runs of characters of cs, and v
      neither starts nor ends with a character of cs. */
  ghost predicate IsStripOf(s: string, v: string, cs: set<char>) {
    && (v == [] || (v[0] !in cs && v[|v| - 1] !in cs))
    && exists pre, post :: s == pre + v + post && AllIn(pre, cs) && AllIn(post, cs)
  }

  /** strip(cs) gives exactly the text that lies between two runs of characters of cs and
      neither starts nor ends with one. */
  lemma StripCharsIsStripOf(s: string, cs: set<char>, v: string)
    ensures IsStripOf(s, v, cs) <==> v == StripChars(s, cs)
  {
    StripCharsMeetsIsStripOf(s, cs);
    if IsStripOf(s, v, cs) {
      IsStripOfUnique(s, cs, v);
    }
  }

  lemma StripCharsMeetsIsStripOf(s: string, cs: set<char>)
    ensures IsStripOf(s, StripChars(s, cs), cs)
  {
    var r := StripChars(s, cs);
    StripCharsSplit(s, cs);
    var i := |s| - |LStrip(s, cs)|;
    var pre, post := s[..i], s[i + |r|..];
    assert s == pre + r + post && AllIn(pre, cs) && AllIn(post, cs);
  }

  lemma IsStripOfUnique(s: string, cs: set<char>, v: string)
    requires IsStripOf(s, v, cs)
    ensures v == StripChars(s, cs)
  {
    var pre, post :| s == pre + v + post && AllIn(pre, cs) && AllIn(post, cs);
    if v == [] {
      assert s == pre + post;
      AllInConcat(pre, post, cs);
      StripCharsSpec(s, cs);
    } else {
      StripKnown(pre, v, post, cs);
    }
  }

  /** s.strip(): remove surrounding whitespace. */
  function Strip(s: string): string {
    StripChars(s, Whitespace)
  }

  lemma {:induction false} LStripIdentity(s: string, cs: set<char>)
    requires s == [] || s[0] !in cs
    ensures LStrip(s, cs) == s
  {
  }

  /** Leading characters of cs come off, and lstrip stops at the first other one. */
  lemma {:induction false} LStripPrefix(pre: string, t: string, cs: set<char>)
    requires forall i :: 0 <= i < |pre| ==> pre[i] in cs
    requires t == [] || t[0] !in cs
    ensures LStrip(pre + t, cs) == t
  {
    if pre == [] {
      assert pre + t == t;
      LStripIdentity(t, cs);
    } else {
      assert (pre + t)[1..] == pre[1..] + t;
      LStripPrefix(pre[1..], t, cs);
    }
  }

  /** Trailing characters of cs come off, and rstrip stops at the last other one. */
  lemma {:induction false} RStripSuffix(t: string, post: string, cs: set<char>)
    requires forall i :: 0 <= i < |post| ==> post[i] in cs
    requires t == [] || t[|t| - 1] !in cs
    ensures RStrip(t + post, cs) == t
  {
    if post == [] {
      assert t + post == t;
    } else {
      var n := |post|;
      assert (t + post)[..|t + post| - 1] == t + post[..n - 1];
      RStripSuffix(t, post[..n - 1], cs);
    }
  }

  /** Stripping text whose ends are not in cs from between runs of cs gives that text. */
  lemma StripKnown(pre: string, x: string, post: string, cs: set<char>)
    requires forall i :: 0 <= i < |pre| ==> pre[i] in cs
    requires forall i :: 0 <= i < |post| ==> post[i] in cs
    requires x != [] && x[0] !in cs && x[|x| - 1] !in cs
    ensures StripChars(pre + x + post, cs) == x
  {
    assert pre + x + post == pre + (x + post);
    LStripPrefix(pre, x + post, cs);
    RStripSuffix(x, post, cs);
  }

  /** f.readline(): the text up to and including the first newline (all of s if it has none). */
  function FirstLine(s: string): (r: string)
    ensures IsPrefix(r, s)
    ensures r == [] <==> s == []
    ensures forall i :: 0 <= i < |r| - 1 ==> r[i] != '\n'
    ensures r != s ==> r[|r| - 1] == '\n'
  {
    if s == [] then []
    else if s[0] == '\n' then ['\n']
    else [s[0]] + FirstLine(s[1..])
  }

  /** f.readline().strip(): the first line without its surrounding whitespace. */
  function StripLine(content: string): string {
    StripChars(FirstLine(content), Whitespace)
  }

  /** The stripped first line has no newline and no whitespace at either end. */
  lemma StripLineEnds(content: string)
    ensures var r := StripLine(content);
            && '\n' !in r
            && (r == [] || (r[0] !in Whitespace && r[|r| - 1] !in Whitespace))
  {
    StripLineFacts(content, Whitespace);
  }

  /** The stripped first line is what strip() leaves of that line, and it is empty exactly
      when the line is all whitespace. */
  lemma StripLineIsStripOf(content: string)
    ensures IsStripOf(FirstLine(content), StripLine(content), Whitespace)
    ensures StripLine(content) == [] <==> AllIn(FirstLine(content), Whitespace)
  {
    StripCharsSpec(FirstLine(content), Whitespace);
    StripCharsIsStripOf(FirstLine(content), Whitespace, StripLine(content));
  }

  /** readline().strip(cs), for a set cs holding the newline, leaves no newline and no
      character of cs at either end. */
  lemma StripLineFacts(content: string, cs: set<char>)
    requires '\n' in cs
    ensures var r := StripChars(FirstLine(content), cs);
            && '\n' !in r
            && (r == [] || (r[0] !in cs && r[|r| - 1] !in cs))
  {
    var line := FirstLine(content);
    assert forall i :: 0 <= i < |line| - 1 ==> line[i] != '\n';
    StripLineNoNewline(line, cs);
  }

  /** Stripping a set of characters holding the newline from a line that has a newline at
      most at its end leaves no newline, and no character of the set at either end. */
  lemma StripLineNoNewline(line: string, cs: set<char>)
    requires '\n' in cs
    requires forall i :: 0 <= i < |line| - 1 ==> line[i] != '\n'
    ensures var r := StripChars(line, cs);
            && '\n' !in r
            && (r == [] || (r[0] !in cs && r[|r| - 1] !in cs))
  {
    var l := LStrip(line, cs);
    var r := RStrip(l, cs);
    assert r == StripChars(line, cs);
    var off := |line| - |l|;
    forall k | 0 <= k < |r| ensures r[k] != '\n' {
      assert r[k] == l[k] == line[off + k];
      if k < |r| - 1 {
        assert line[off + k] != '\n';
      }
    }
  }

  /** The stripped first line of a file whose first line is m between runs of
      whitespace is m, whether or not a newline ends that line. */
  lemma StripLineOf(ws1: string, m: string, ws2: string, rest: string)
    requires AllIn(ws1, Whitespace) && AllIn(ws2, Whitespace) && '\n' !in ws1 && '\n' !in ws2
    requires m != [] && '\n' !in m && m[0] !in Whitespace && m[|m| - 1] !in Whitespace
    requires rest == [] || rest[0] == '\n'
    ensures StripLine(ws1 + m + ws2 + rest) == m
  {
    var line := ws1 + m + ws2;
    assert '\n' !in line;
    var tail := if rest == [] then [] else ['\n'];
    FirstLineAppend(line, rest);
    assert AllIn(ws2 + tail, Whitespace) by {
      assert '\n' in Whitespace;
      forall j | 0 <= j < |ws2 + tail| ensures (ws2 + tail)[j] in Whitespace {
        if j < |ws2| {
          assert (ws2 + tail)[j] == ws2[j];
        }
      }
    }
    assert line + FirstLine(rest) == ws1 + m + (ws2 + tail);
    StripKnown(ws1, m, ws2 + tail, Whitespace);
  }

  /** readline() of text that starts with a newline-free part reads through that part,
      and then to the end of the line: a newline, or nothing at the end of the text. */
  lemma {:induction false} FirstLineAppend(line: string, rest: string)
    requires '\n' !in line
    requires rest == [] || rest[0] == '\n'
    ensures FirstLine(line + rest) == line + FirstLine(rest)
    ensures FirstLine(rest) == if rest == [] then [] else ['\n']
  {
    if line == [] {
      assert line + rest == rest;
    } else {
      assert (line + rest)[1..] == line[1..] + rest;
      FirstLineAppend(line[1..], rest);
    }
  }

  /** One character of str.lower(), for ASCII letters. */
  function LowerChar(c: char): char {
    if 'A' <= c <= 'Z' then (c as int + 32) as char else c
  }

  /** s.lower(), ASCII letters only. */
  function Lower(s: string): (r: string)
    ensures |r| == |s|
    ensures forall i :: 0 <= i < |s| ==> r[i] == LowerChar(s[i])
  {
    if s == [] then [] else [LowerChar(s[0])] + Lower(s[1..])
  }

  predicate IsDecDigit(c: char) {
    '0' <= c <= '9'
  }

  predicate IsHexDigit(c: char) {
    '0' <= c <= '9' || 'a' <= c <= 'f' || 'A' <= c <= 'F'
  }

  predicate AllDecDigits(s: string) {
    forall i :: 0 <= i < |s| ==> IsDecDigit(s[i])
  }

  predicate AllHexDigits(s: string) {
    forall i :: 0 <= i < |s| ==> IsHexDigit(s[i])
  }

  /** The value of a string of decimal digits, most significant first. */
  function DigitsValue(s: string): nat
    requires AllDecDigits(s)
  {
    if s == [] then 0 else DigitsValue(s[..|s| - 1]) * 10 + (s[|s| - 1] as int - '0' as int)
  }

  /** int(s) for a decimal literal: surrounding whitespace, an optional sign, then at
      least one digit; anything else raises ValueError (None here). */
  function ParseInt(s: string): Option<int> {
    ParseSigned(Strip(s))
  }

  /** int() once the whitespace is gone: an optional sign and at least one digit. */
  function ParseSigned(t: string): Option<int> {
    if t == [] then None
    else
      var neg := t[0] == '-';
      var body := if t[0] == '-' || t[0] == '+' then t[1..] else t;
      if body == [] || !AllDecDigits(body) then None
      else Some(if neg then -(DigitsValue(body) as int) else DigitsValue(body))
  }

  function DigitChar(d: nat): (c: char)
    requires d < 10
    ensures IsDecDigit(c)
  {
    ('0' as int + d) as char
  }

  /** str(n) for a natural number. */
  function NatToString(n: nat): (r: string)
    ensures r != [] && AllDecDigits(r)
  {
    if n < 10 then [DigitChar(n)] else NatToString(n / 10) + [DigitChar(n % 10)]
  }

  /** Reading back str(n) gives n. */
  lemma {:induction false} NatToStringValue(n: nat)
    ensures DigitsValue(NatToString(n)) == n
  {
    var s := NatToString(n);
    if n >= 10 {
      NatToStringValue(n / 10);
      assert s[..|s| - 1] == NatToString(n / 10);
    }
  }

  /** str() is injective on natural numbers. */
  lemma NatToStringInjective(m: nat, n: nat)
    requires NatToString(m) == NatToString(n)
    ensures m == n
  {
    NatToStringValue(m);
    NatToStringValue(n);
  }

  /** int(str(n)) == n. */
  lemma ParseIntOfNat(n: nat)
    ensures ParseInt(NatToString(n)) == Some(n as int)
  {
    DigitsStrip(NatToString(n));
    SignedOfNat(n);
  }

  lemma SignedOfNat(n: nat)
    ensures ParseSigned(NatToString(n)) == Some(n as int)
  {
    var s := NatToString(n);
    assert s[0] != '-' && s[0] != '+' by { assert IsDecDigit(s[0]); }
    NatToStringValue(n);
  }

  /** A string of digits has no whitespace to strip. */
  lemma DigitsStrip(s: string)
    requires s != [] && AllDecDigits(s)
    ensures Strip(s) == s
  {
    DigitNotWhitespace(s[0]);
    DigitNotWhitespace(s[|s| - 1]);
    StripKnown([], s, [], Whitespace);
    assert [] + s + [] == s;
  }

  lemma DigitNotWhitespace(c: char)
    requires IsDecDigit(c)
    ensures c !in Whitespace
  {
  }

  /** sep.join(xs) */
  function Join(xs: seq<string>, sep: char): string {
    if xs == [] then []
    else if |xs| == 1 then xs[0]
    else xs[0] + [sep] + Join(xs[1..], sep)
  }

  /** Index of the first occurrence of c in s at or after position from, or |s|. */
  function IndexFrom(s: string, c: char, from: nat): (k: nat)
    requires from <= |s|
    ensures from <= k <= |s|
    ensures k < |s| ==> s[k] == c
    ensures forall i :: from <= i < k ==> s[i] != c
    decreases |s| - from
  {
    if from == |s| || s[from] == c then from else IndexFrom(s, c, from + 1)
  }

  /** s.split(sep): the pieces between occurrences of sep ("" gives [""]). */
  function Split(s: string, sep: char): (r: seq<string>)
    ensures |r| >= 1
    ensures forall i :: 0 <= i < |r| ==> sep !in r[i]
    decreases |s|
  {
    var k := IndexFrom(s, sep, 0);
    assert sep !in s[..k];
    if k == |s| then [s] else [s[..k]] + Split(s[k + 1..], sep)
  }

  /** Splitting a join gives the parts back when no part contains the separator. */
  lemma {:induction false} SplitJoin(xs: seq<string>, sep: char)
    requires xs != []
    requires forall i :: 0 <= i < |xs| ==> sep !in xs[i]
    ensures Split(Join(xs, sep), sep) == xs
  {
    var s := Join(xs, sep);
    if |xs| == 1 {
      var k := IndexFrom(s, sep, 0);
    } else {
      var head := xs[0];
      assert s == head + [sep] + Join(xs[1..], sep);
      var k := IndexFrom(s, sep, 0);
      assert s[|head|] == sep;
      assert k == |head|;
      assert s[..k] == head;
      assert s[k + 1..] == Join(xs[1..], sep);
      SplitJoin(xs[1..], sep);
    }
  }

  /** s.partition(sep): the text before the first sep, whether sep occurs, and the rest. */
  function Partition(s: string, sep: char): (r: (string, bool, string))
    ensures r.1 ==> s == r.0 + [sep] + r.2
    ensures !r.1 ==> r.0 == s && r.2 == []
    ensures sep !in r.0
  {
    var k := IndexFrom(s, sep, 0);
    assert sep !in s[..k];
    if k == |s| then (s, false, [])
    else
      assert s == s[..k] + [sep] + s[k + 1..];
      (s[..k], true, s[k + 1..])
  }

  /** The first c at or after from is the one at k when none comes before it. */
  lemma {:induction false} IndexFromAt(s: string, c: char, from: nat, k: nat)
    requires from <= k < |s| && s[k] == c
    requires forall i :: from <= i < k ==> s[i] != c
    ensures IndexFrom(s, c, from) == k
    decreases k - from
  {
    if from < k {
      IndexFromAt(s, c, from + 1, k);
    }
  }

  /** Partitioning at the first sep of x + [sep] + y, when x has none, gives x and y. */
  lemma PartitionAt(x: string, sep: char, y: string)
    requires sep !in x
    ensures Partition(x + [sep] + y, sep) == (x, true, y)
  {
    var s := x + [sep] + y;
    assert s[|x|] == sep;
    forall i | 0 <= i < |x| ensures s[i] != sep {
      assert s[i] == x[i];
    }
    IndexFromAt(s, sep, 0, |x|);
    assert s[..|x|] == x && s[|x| + 1..] == y;
  }

  /** os.path.basename(p): the text after the last '/'. */
  function Basename(p: string): (r: string)
    ensures '/' !in r
    ensures IsSuffix(r, p)
    ensures |r| < |p| ==> p[|p| - |r| - 1] == '/'
  {
    if p == [] || p[|p| - 1] == '/' then []
    else Basename(p[..|p| - 1]) + [p[|p| - 1]]
  }

  /** The basename of dir + "/" + name is name when name has no '/'. */
  lemma {:induction false} BasenameOf(dir: string, name: string)
    requires '/' !in name
    ensures Basename(dir + "/" + name) == name
  {
    var p := dir + "/" + name;
    if name != [] {
      var n := |name|;
      assert p[..|p| - 1] == dir + "/" + name[..n - 1];
      assert p[|p| - 1] == name[n - 1];
      BasenameOf(dir, name[..n - 1]);
      assert name == name[..n - 1] + [name[n - 1]];
    }
  }

  predicate IsSuffix(t: string, s: string) {
    |t| <= |s| && s[|s| - |t|..] == t
  }

  /** s.replace(pat, ""): remove the non-overlapping occurrences of pat, left to right. */
  function RemoveAll(s: string, pat: string): (r: string)
    requires pat != []
    ensures |r| <= |s|
    decreases |s|
  {
    if s == [] then []
    else if IsPrefix(pat, s) then RemoveAll(s[|pat|..], pat)
    else [s[0]] + RemoveAll(s[1..], pat)
  }

  /** Removing pat from a string that lacks one of pat's characters changes nothing. */
  lemma {:induction false} RemoveAllAbsent(s: string, pat: string, c: char)
    requires pat != [] && c in pat && c !in s
    ensures RemoveAll(s, pat) == s
    decreases |s|
  {
    if s != [] {
      RemoveAllAbsent(s[1..], pat, c);
      assert s == [s[0]] + s[1..];
    }
  }
}
