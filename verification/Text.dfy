/** The string operations the source relies on: trimming, cutting at a character, upper case, decimal numbers. */
module Text {
  import opened Outcomes

  /** White space and line terminators as `trim` sees them. */
  predicate IsSpace(c: char) {
    || c in "\t\n\r \U{000B}\U{000C}\U{00A0}\U{1680}\U{2028}\U{2029}\U{202F}\U{205F}\U{3000}\U{FEFF}"
    || '\U{2000}' <= c <= '\U{200A}'
  }

  function TrimStart(s: string): string {
    if |s| > 0 && IsSpace(s[0]) then TrimStart(s[1..]) else s
  }

  function TrimEnd(s: string): string {
    if |s| > 0 && IsSpace(s[|s| - 1]) then TrimEnd(s[..|s| - 1]) else s
  }

  function Trim(s: string): string {
    TrimEnd(TrimStart(s))
  }

  /** Neither end is white space. */
  predicate Trimmed(s: string) {
    |s| > 0 ==> !IsSpace(s[0]) && !IsSpace(s[|s| - 1])
  }

  lemma TrimOfTrimmed(s: string)
    requires Trimmed(s)
    ensures Trim(s) == s
  {
  }

  lemma {:induction false} TrimEndKeepsStart(s: string)
    requires |s| > 0 ==> !IsSpace(s[0])
    ensures Trimmed(TrimEnd(s)) && (|TrimEnd(s)| > 0 ==> |s| > 0 && TrimEnd(s)[0] == s[0])
  {
    if |s| > 0 && IsSpace(s[|s| - 1]) {
      TrimEndKeepsStart(s[..|s| - 1]);
    }
  }

  lemma {:induction false} TrimStartWorks(s: string)
    ensures |TrimStart(s)| > 0 ==> !IsSpace(TrimStart(s)[0])
  {
    if |s| > 0 && IsSpace(s[0]) {
      TrimStartWorks(s[1..]);
    }
  }

  lemma TrimTrims(s: string)
    ensures Trimmed(Trim(s)) && Trim(Trim(s)) == Trim(s)
  {
    TrimStartWorks(s);
    TrimEndKeepsStart(TrimStart(s));
  }

  predicate Blank(s: string) { forall k :: 0 <= k < |s| ==> IsSpace(s[k]) }

  /** `piece` stands at position i of s, with nothing but white space around it. */
  predicate StandsAt(piece: string, s: string, i: nat) {
    i + |piece| <= |s| && s[i..i + |piece|] == piece && Blank(s[..i]) && Blank(s[i + |piece|..])
  }

  lemma {:induction false} TrimStartStands(s: string) returns (i: nat)
    ensures i <= |s| && TrimStart(s) == s[i..] && Blank(s[..i])
  {
    i := 0;
    if |s| > 0 && IsSpace(s[0]) {
      var j := TrimStartStands(s[1..]);
      i := j + 1;
      assert s[1..][j..] == s[i..];
      SpaceInFront(s, j);
    }
  }

  lemma {:induction false} TrimEndStands(s: string)
    ensures |TrimEnd(s)| <= |s| && TrimEnd(s) == s[..|TrimEnd(s)|] && Blank(s[|TrimEnd(s)|..])
  {
    if |s| > 0 && IsSpace(s[|s| - 1]) {
      var init := s[..|s| - 1];
      TrimEndStands(init);
      SpaceBehind(s, |TrimEnd(s)|);
    }
  }

  lemma SpaceInFront(s: string, j: nat)
    requires |s| > 0 && j < |s| && IsSpace(s[0]) && Blank(s[1..][..j])
    ensures Blank(s[..j + 1])
  {
    assert s[..j + 1] == [s[0]] + s[1..][..j];
  }

  lemma SpaceBehind(s: string, n: nat)
    requires n < |s| && IsSpace(s[|s| - 1]) && Blank(s[..|s| - 1][n..])
    ensures Blank(s[n..])
  {
    assert s[n..] == s[..|s| - 1][n..] + [s[|s| - 1]];
  }

  /** What trimming leaves stands in the text with only white space around it, and is empty only if all is. */
  lemma TrimStands(s: string) returns (i: nat)
    ensures StandsAt(Trim(s), s, i)
    ensures Trim(s) == "" <==> Blank(s)
  {
    i := TrimStartStands(s);
    var tail := s[i..];
    TrimEndStands(tail);
    var n := |Trim(s)|;
    assert s[i..i + n] == tail[..n] && s[i + n..] == tail[n..];
    TrimTrims(s);
    EmptyOrBlank(s, Trim(s), i);
  }

  lemma EmptyOrBlank(s: string, piece: string, i: nat)
    requires StandsAt(piece, s, i) && Trimmed(piece)
    ensures piece == "" <==> Blank(s)
  {
    assert |piece| > 0 ==> piece[0] == s[i];
    if |piece| == 0 {
      assert s == s[..i] + s[i..];
    }
  }

  /** Only one trimmed, non-empty text stands alone in a text. */
  lemma StandsOnce(a: string, i: nat, b: string, j: nat, s: string)
    requires |a| > 0 && |b| > 0 && Trimmed(a) && Trimmed(b) && StandsAt(a, s, i) && StandsAt(b, s, j)
    ensures a == b && i == j
  {
    assert a[0] == s[i] && b[0] == s[j];
    assert a[|a| - 1] == s[i + |a| - 1] && b[|b| - 1] == s[j + |b| - 1];
    assert forall k :: i + |a| <= k < |s| ==> s[i + |a|..][k - i - |a|] == s[k];
    assert forall k :: j + |b| <= k < |s| ==> s[j + |b|..][k - j - |b|] == s[k];
  }

  /** White space around a trimmed text is all that trimming takes away. */
  lemma TrimOfPadded(before: string, piece: string, behind: string)
    requires Blank(before) && Blank(behind) && Trimmed(piece) && piece != ""
    ensures Trim(before + piece + behind) == piece
  {
    var s := before + piece + behind;
    assert s[..|before|] == before && s[|before| + |piece|..] == behind;
    EmptyOrBlank(s, piece, |before|);
    var i := TrimStands(s);
    TrimTrims(s);
    StandsOnce(Trim(s), i, piece, |before|, s);
  }

  /** What trimming takes away. */
  lemma TrimPads(s: string) returns (before: string, behind: string)
    ensures s == before + Trim(s) + behind && Blank(before) && Blank(behind)
  {
    var i := TrimStands(s);
    before, behind := s[..i], s[i + |Trim(s)|..];
  }

  lemma BlankJoin(a: string, b: string)
    requires Blank(a) && Blank(b)
    ensures Blank(a + b)
  {
  }

  lemma {:induction false} TrimKeepsOut(s: string, c: char)
    requires c !in s
    ensures c !in Trim(s)
  {
    TrimStartKeepsOut(s, c);
    TrimEndKeepsOut(TrimStart(s), c);
  }

  lemma {:induction false} TrimStartKeepsOut(s: string, c: char)
    requires c !in s
    ensures c !in TrimStart(s)
  {
    if |s| > 0 && IsSpace(s[0]) {
      TrimStartKeepsOut(s[1..], c);
    }
  }

  lemma {:induction false} TrimEndKeepsOut(s: string, c: char)
    requires c !in s
    ensures c !in TrimEnd(s)
  {
    if |s| > 0 && IsSpace(s[|s| - 1]) {
      TrimEndKeepsOut(s[..|s| - 1], c);
    }
  }

  /** The part of s before the first c: `s.split(c)[0]`. */
  function Before(s: string, c: char): (r: string)
    ensures c !in r
    ensures |r| <= |s| && r == s[..|r|]
    ensures |r| < |s| ==> s[|r|] == c
  {
    if |s| == 0 || s[0] == c then "" else [s[0]] + Before(s[1..], c)
  }

  /** Cutting at the first separator takes exactly the piece in front of it. */
  lemma {:induction false} BeforeSeparator(s: string, c: char, rest: string)
    requires c !in s
    ensures Before(s + [c] + rest, c) == s
  {
    if |s| > 0 {
      BeforeSeparator(s[1..], c, rest);
      assert (s + [c] + rest)[1..] == s[1..] + [c] + rest;
    }
  }

  /** Cutting off a query leaves the path. */
  lemma BeforeQuery(path: string, query: string)
    requires '?' !in path && (query == "" || query[0] == '?')
    ensures Before(path + query, '?') == path
  {
    if query == "" {
      assert path + query == path;
      BeforeNothing(path, '?');
    } else {
      assert path + query == path + ['?'] + query[1..];
      BeforeSeparator(path, '?', query[1..]);
    }
  }

  lemma {:induction false} BeforeNothing(s: string, c: char)
    requires c !in s
    ensures Before(s, c) == s
  {
    if |s| > 0 {
      BeforeNothing(s[1..], c);
    }
  }

  /** A string splits at its first separator in one way only. */
  lemma SplitUnique(a: string, b: string, c: char, x: string, y: string)
    requires c !in a && c !in b && a + [c] + x == b + [c] + y
    ensures a == b && x == y
  {
    BeforeSeparator(a, c, x);
    BeforeSeparator(b, c, y);
    assert x == (a + [c] + x)[|a| + 1..];
    assert y == (b + [c] + y)[|b| + 1..];
  }

  /** `s.split(c)` */
  function Split(s: string, c: char): (pieces: seq<string>)
    ensures |pieces| >= 1
  {
    if |s| == 0 then [""]
    else if s[0] == c then [""] + Split(s[1..], c)
    else var rest := Split(s[1..], c); [[s[0]] + rest[0]] + rest[1..]
  }

  /** `pieces.join(c)` */
  function Join(pieces: seq<string>, c: char): string {
    if |pieces| == 0 then ""
    else if |pieces| == 1 then pieces[0]
    else pieces[0] + ([c] + Join(pieces[1..], c))
  }

  lemma {:induction false} SplitFirst(piece: string, c: char, rest: string)
    requires c !in piece
    ensures Split(piece + ([c] + rest), c) == [piece] + Split(rest, c)
    ensures Split(piece, c) == [piece]
  {
    if |piece| == 0 {
      assert piece + ([c] + rest) == [c] + rest;
    } else {
      SplitFirst(piece[1..], c, rest);
      assert (piece + ([c] + rest))[1..] == piece[1..] + ([c] + rest);
      assert [piece[0]] + piece[1..] == piece;
    }
  }

  /** Joining and splitting again gives the pieces back, if there are any and none contains the separator. */
  lemma {:induction false} SplitOfJoin(pieces: seq<string>, c: char)
    requires |pieces| > 0 && forall k :: 0 <= k < |pieces| ==> c !in pieces[k]
    ensures Split(Join(pieces, c), c) == pieces
  {
    if |pieces| == 1 {
      SplitFirst(pieces[0], c, "");
    } else {
      SplitOfJoin(pieces[1..], c);
      SplitFirst(pieces[0], c, Join(pieces[1..], c));
    }
  }

  function UpperChar(c: char): char {
    if 'a' <= c <= 'z' then c - 'a' + 'A' else c
  }

  /** Upper case of ASCII letters; other characters are kept. */
  function ToUpper(s: string): (r: string)
    ensures |r| == |s| && forall k :: 0 <= k < |s| ==> r[k] == UpperChar(s[k])
  {
    if |s| == 0 then "" else [UpperChar(s[0])] + ToUpper(s[1..])
  }

  // ---------------------------------------------------------------- decimal numbers

  predicate IsDigit(c: char) { '0' <= c <= '9' }

  function DigitChar(d: nat): char
    requires d < 10
  {
    '0' + d as char
  }

  function DigitValue(c: char): nat
    requires IsDigit(c)
  {
    (c - '0') as nat
  }

  function NatText(n: nat): (s: string)
    ensures |s| > 0 && forall k :: 0 <= k < |s| ==> IsDigit(s[k])
  {
    if n < 10 then [DigitChar(n)] else NatText(n / 10) + [DigitChar(n % 10)]
  }

  function NatValue(s: string): nat
    requires forall k :: 0 <= k < |s| ==> IsDigit(s[k])
  {
    if |s| == 0 then 0 else NatValue(s[..|s| - 1]) * 10 + DigitValue(s[|s| - 1])
  }

  lemma {:induction false} NatRoundTrip(n: nat)
    ensures NatValue(NatText(n)) == n
  {
    if n >= 10 {
      NatRoundTrip(n / 10);
      assert NatText(n)[..|NatText(n)| - 1] == NatText(n / 10);
    } else {
      assert NatText(n)[..0] == [];
    }
  }

  /** Integers as a template literal prints them. */
  function IntText(n: int): string {
    if n < 0 then "-" + NatText(-n) else NatText(n)
  }

  /** Reading an optionally signed decimal integer; anything else is no number here. */
  function ParseInt(s: string): Option<int> {
    if |s| > 0 && forall k :: 0 <= k < |s| ==> IsDigit(s[k]) then Some(NatValue(s))
    else if |s| > 1 && s[0] == '-' && forall k :: 1 <= k < |s| ==> IsDigit(s[k]) then
      assert forall k :: 0 <= k < |s[1..]| ==> s[1..][k] == s[k + 1];
      Some(0 - NatValue(s[1..]))
    else None
  }

  lemma IntRoundTrip(n: int)
    ensures ParseInt(IntText(n)) == Some(n)
    ensures Trimmed(IntText(n)) && |IntText(n)| > 0
  {
    NatRoundTrip(if n < 0 then -n else n);
    if n < 0 {
      assert IntText(n)[1..] == NatText(-n);
      assert !IsDigit(IntText(n)[0]);
    }
  }

  lemma IntTextInjective(a: int, b: int)
    requires IntText(a) == IntText(b)
    ensures a == b
  {
    IntRoundTrip(a);
    IntRoundTrip(b);
  }

  /** A hexadecimal digit; those after 9 are `ten` and the letters behind it. */
  function HexDigit(d: nat, ten: char): char
    requires d < 16 && (ten == 'a' || ten == 'A')
  {
    if d < 10 then '0' + d as char else ten + (d - 10) as char
  }

  // ---------------------------------------------------------------- beginnings and ends

  predicate StartsWith(s: string, prefix: string) {
    |prefix| <= |s| && s[..|prefix|] == prefix
  }

  predicate EndsWith(s: string, suffix: string) {
    |suffix| <= |s| && s[|s| - |suffix|..] == suffix
  }

  lemma Associative(a: string, b: string, c: string)
    ensures a + (b + c) == a + b + c
  {
  }

  // ---------------------------------------------------------------- lists of names

  predicate NoRepeats(names: seq<string>) {
    forall i, j :: 0 <= i < j < |names| ==> names[i] != names[j]
  }

  function TrimAll(names: seq<string>): (r: seq<string>)
    ensures |r| == |names|
  {
    seq(|names|, k requires 0 <= k < |names| => Trim(names[k]))
  }

  /** The names without blanks, each at its first appearance. */
  function Distinct(names: seq<string>): (r: seq<string>)
    ensures NoRepeats(r) && forall name :: name in r <==> name in names && name != ""
  {
    if |names| == 0 then [] else
    var earlier, name := Distinct(names[..|names| - 1]), names[|names| - 1];
    assert names == names[..|names| - 1] + [name];
    if name == "" || name in earlier then earlier else earlier + [name]
  }

  /** Trimmed, without blanks or repetitions. */
  function Unique(names: seq<string>): (r: seq<string>)
    ensures NoRepeats(r) && forall name :: name in r <==> name in TrimAll(names) && name != ""
  {
    Distinct(TrimAll(names))
  }
}
