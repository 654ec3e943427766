/** Asset storage keys: file names made safe, and object keys percent-encoded into URL paths. */
module AssetKeys {
  import opened Outcomes
  import Text

  // ---------------------------------------------------------------- safe file names

  predicate SafeChar(c: char) {
    'a' <= c <= 'z' || 'A' <= c <= 'Z' || '0' <= c <= '9' || c == '.' || c == '_' || c == '-'
  }

  function DropTrailing(s: string, c: char): string {
    if |s| > 0 && s[|s| - 1] == c then DropTrailing(s[..|s| - 1], c) else s
  }

  function DropLeading(s: string, c: char): string {
    if |s| > 0 && s[0] == c then DropLeading(s[1..], c) else s
  }

  function AfterLast(s: string, c: char): string {
    if |s| == 0 || s[|s| - 1] == c then "" else AfterLast(s[..|s| - 1], c) + [s[|s| - 1]]
  }

  /** The last component of a POSIX path. */
  function Basename(path: string): string { AfterLast(DropTrailing(path, '/'), '/') }

  /** Each maximal run of unsafe characters becomes one hyphen. */
  function HyphenateRuns(s: string, inRun: bool): string {
    if |s| == 0 then ""
    else if SafeChar(s[0]) then [s[0]] + HyphenateRuns(s[1..], false)
    else (if inRun then "" else "-") + HyphenateRuns(s[1..], true)
  }

  function SanitizeFilename(filename: string): string {
    var normalized := Text.Trim(Basename(if filename == "" then "asset.bin" else filename));
    var safe := Strip(HyphenateRuns(normalized, false));
    if |safe| > 0 then safe else "asset.bin"
  }

  predicate AllSafe(s: string) { forall k :: 0 <= k < |s| ==> SafeChar(s[k]) }

  lemma {:induction false} HyphenateIsSafe(s: string, inRun: bool)
    ensures AllSafe(HyphenateRuns(s, inRun))
    ensures AllSafe(s) ==> HyphenateRuns(s, inRun) == s
  {
    if |s| > 0 {
      HyphenateIsSafe(s[1..], !SafeChar(s[0]));
      if AllSafe(s) {
        assert SafeChar(s[0]) && forall k :: 0 <= k < |s[1..]| ==> s[1..][k] == s[k + 1];
      }
    }
  }

  lemma {:induction false} DropLeadingIsClean(s: string, c: char)
    ensures |DropLeading(s, c)| > 0 ==> DropLeading(s, c)[0] != c
    ensures AllSafe(s) ==> AllSafe(DropLeading(s, c))
  {
    if |s| > 0 && s[0] == c {
      DropLeadingIsClean(s[1..], c);
      if AllSafe(s) { assert AllSafe(s[1..]); }
    }
  }

  lemma {:induction false} DropTrailingIsClean(s: string, c: char)
    ensures |DropTrailing(s, c)| > 0 ==>
        DropTrailing(s, c)[|DropTrailing(s, c)| - 1] != c && DropTrailing(s, c)[0] == s[0]
    ensures |DropTrailing(s, c)| <= |s|
    ensures AllSafe(s) ==> AllSafe(DropTrailing(s, c))
  {
    if |s| > 0 && s[|s| - 1] == c {
      DropTrailingIsClean(s[..|s| - 1], c);
      if AllSafe(s) { assert AllSafe(s[..|s| - 1]); }
    }
  }

  lemma {:induction false} AfterLastOfNone(s: string, c: char)
    requires c !in s
    ensures AfterLast(s, c) == s
  {
    if |s| > 0 {
      assert s[|s| - 1] in s;
      AfterLastOfNone(s[..|s| - 1], c);
      assert s == s[..|s| - 1] + [s[|s| - 1]];
    }
  }

  /** A name that is already safe: allowed characters only, no hyphen at either end, not empty. */
  predicate CleanName(s: string) {
    |s| > 0 && AllSafe(s) && s[0] != '-' && s[|s| - 1] != '-'
  }

  /** The hyphenated text without the hyphens at its ends. */
  function Strip(hyphenated: string): string {
    DropTrailing(DropLeading(hyphenated, '-'), '-')
  }

  lemma StripIsClean(hyphenated: string)
    requires AllSafe(hyphenated)
    ensures |Strip(hyphenated)| > 0 ==> CleanName(Strip(hyphenated))
    ensures CleanName(hyphenated) ==> Strip(hyphenated) == hyphenated
  {
    DropLeadingIsClean(hyphenated, '-');
    DropTrailingIsClean(DropLeading(hyphenated, '-'), '-');
  }

  lemma SafeHasNoSlash(s: string)
    requires AllSafe(s)
    ensures '/' !in s
  {
  }

  lemma BasenameOfPlain(name: string)
    requires '/' !in name
    ensures Basename(name) == name
  {
    if |name| > 0 { assert name[|name| - 1] in name; }
    AfterLastOfNone(name, '/');
  }

  lemma SafeIsTrimmed(name: string)
    requires AllSafe(name)
    ensures Text.Trimmed(name)
  {
  }

  lemma CleanBasename(name: string)
    requires CleanName(name)
    ensures Text.Trim(Basename(name)) == name
  {
    SafeHasNoSlash(name);
    BasenameOfPlain(name);
    SafeIsTrimmed(name);
    Text.TrimOfTrimmed(name);
  }

  /** Sanitised names are clean, so they have no path separator, and clean names are left as they are. */
  lemma SanitizedNamesAreClean(filename: string)
    ensures CleanName(SanitizeFilename(filename)) && '/' !in SanitizeFilename(filename)
    ensures CleanName(filename) ==> SanitizeFilename(filename) == filename
  {
    var normalized := Text.Trim(Basename(if filename == "" then "asset.bin" else filename));
    HyphenateIsSafe(normalized, false);
    StripIsClean(HyphenateRuns(normalized, false));
    SafeHasNoSlash(SanitizeFilename(filename));
    if CleanName(filename) {
      CleanBasename(filename);
    }
  }

  /** The character's code lies in this range; 48 to 57 are the digits, and 65 and 97 begin the letters. */
  ghost predicate Ascii(c: char, first: int, last: int) { first <= c as int <= last }

  /** The characters a file name may keep. */
  lemma SafeChars(c: char)
    ensures SafeChar(c) <==> Ascii(c, 48, 57) || Ascii(c, 65, 90) || Ascii(c, 97, 122) || c in "._-"
  {
  }

  /** Whether a text read so far, after an unsafe character or not, ends in an unsafe one. */
  function EndsUnsafe(s: string, inRun: bool): bool {
    if |s| == 0 then inRun else !SafeChar(s[|s| - 1])
  }

  lemma {:induction false} HyphenateInTurn(a: string, b: string, inRun: bool)
    ensures HyphenateRuns(a + b, inRun) == HyphenateRuns(a, inRun) + HyphenateRuns(b, EndsUnsafe(a, inRun))
  {
    if |a| == 0 {
      assert a + b == b;
    } else {
      HyphenateInTurn(a[1..], b, !SafeChar(a[0]));
      assert (a + b)[1..] == a[1..] + b;
      Text.Associative(if SafeChar(a[0]) then [a[0]] else if inRun then "" else "-",
                       HyphenateRuns(a[1..], !SafeChar(a[0])), HyphenateRuns(b, EndsUnsafe(a, inRun)));
    }
  }

  predicate NoneSafe(s: string) { forall k :: 0 <= k < |s| ==> !SafeChar(s[k]) }

  lemma {:induction false} RunVanishes(run: string)
    requires NoneSafe(run)
    ensures HyphenateRuns(run, true) == ""
  {
    if |run| > 0 {
      RunVanishes(run[1..]);
    }
  }

  lemma RunInFront(run: string, b: string)
    requires run != "" && NoneSafe(run) && (b == "" || SafeChar(b[0]))
    ensures HyphenateRuns(run + b, false) == "-" + HyphenateRuns(b, false)
  {
    HyphenateInTurn(run, b, false);
    RunVanishes(run[1..]);
    assert HyphenateRuns(run, false) == "-" + HyphenateRuns(run[1..], true);
    assert HyphenateRuns(b, true) == HyphenateRuns(b, false);
  }

  /** Exactly one hyphen stands for each unsafe run, however long, and safe text stays. */
  lemma RunBecomesHyphen(a: string, run: string, b: string)
    requires run != "" && NoneSafe(run)
    requires a == "" || SafeChar(a[|a| - 1])
    requires b == "" || SafeChar(b[0])
    ensures HyphenateRuns(a + (run + b), false) == HyphenateRuns(a, false) + ("-" + HyphenateRuns(b, false))
    ensures AllSafe(a) ==> HyphenateRuns(a, false) == a
  {
    HyphenateInTurn(a, run + b, false);
    RunInFront(run, b);
    HyphenateIsSafe(a, false);
  }

  lemma AfterLastGrows(s: string, c: char, slash: char)
    requires c != slash
    ensures AfterLast(s + [c], slash) == AfterLast(s, slash) + [c]
  {
    assert (s + [c])[..|s|] == s;
  }

  lemma {:induction false} AfterLastSlash(dir: string, name: string)
    requires '/' !in name && (dir == "" || dir[|dir| - 1] == '/')
    ensures AfterLast(dir + name, '/') == name
  {
    if |name| == 0 {
      assert dir + name == dir;
    } else {
      var init, last := name[..|name| - 1], name[|name| - 1];
      assert last in name && name == init + [last];
      AfterLastSlash(dir, init);
      Text.Associative(dir, init, [last]);
      AfterLastGrows(dir + init, last, '/');
    }
  }

  predicate Hyphens(s: string) { forall k :: 0 <= k < |s| ==> s[k] == '-' }

  lemma {:induction false} LeadingDropped(hyphens: string, rest: string)
    requires Hyphens(hyphens) && (rest == "" || rest[0] != '-')
    ensures DropLeading(hyphens + rest, '-') == rest
  {
    if |hyphens| == 0 {
      assert hyphens + rest == rest;
    } else {
      assert (hyphens + rest)[1..] == hyphens[1..] + rest;
      LeadingDropped(hyphens[1..], rest);
    }
  }

  lemma {:induction false} TrailingDropped(rest: string, hyphens: string)
    requires Hyphens(hyphens) && (rest == "" || rest[|rest| - 1] != '-')
    ensures DropTrailing(rest + hyphens, '-') == rest
  {
    if |hyphens| == 0 {
      assert rest + hyphens == rest;
    } else {
      assert (rest + hyphens)[..|rest + hyphens| - 1] == rest + hyphens[..|hyphens| - 1];
      TrailingDropped(rest, hyphens[..|hyphens| - 1]);
    }
  }

  /**
   Of a file name its directories go, then the white space around it, then, once unsafe runs are
   hyphens, the hyphens at its ends; what is left is the name, or a stock name if nothing is.
   */
  lemma SanitizedExactly(
      dir: string, before: string, core: string, behind: string, front: string, kept: string, back: string)
    requires dir == "" || dir[|dir| - 1] == '/'
    requires '/' !in before + core + behind && before + core + behind != ""
    requires Text.Blank(before) && Text.Blank(behind) && Text.Trimmed(core) && core != ""
    requires HyphenateRuns(core, false) == front + kept + back && Hyphens(front) && Hyphens(back)
    requires kept != "" ==> kept[0] != '-' && kept[|kept| - 1] != '-'
    requires kept == "" ==> back == ""
    ensures SanitizeFilename(dir + (before + core + behind)) == if kept == "" then "asset.bin" else kept
  {
    var name := before + core + behind;
    assert name[|name| - 1] in name;
    assert (dir + name)[|dir + name| - 1] == name[|name| - 1];
    AfterLastSlash(dir, name);
    assert Basename(dir + name) == name;
    Text.TrimOfPadded(before, core, behind);
    assert front + kept + back == front + (kept + back);
    LeadingDropped(front, kept + back);
    TrailingDropped(kept, back);
  }

  // ---------------------------------------------------------------- percent encoding

  /** A text as its UTF-8 bytes, one character per byte. */
  predicate Bytes(s: string) { forall k :: 0 <= k < |s| ==> s[k] as int < 256 }

  predicate Alphanumeric(c: char) {
    'a' <= c <= 'z' || 'A' <= c <= 'Z' || '0' <= c <= '9'
  }

  predicate Mark(c: char) { c in "!*'()" }

  /** Characters `encodeURIComponent` keeps. */
  predicate Kept(c: char) {
    Alphanumeric(c) || c in "-_.~" || Mark(c)
  }

  function Percent(c: char): string
    requires c as int < 256
  {
    ['%', Text.HexDigit(c as nat / 16, 'A'), Text.HexDigit(c as nat % 16, 'A')]
  }

  function EncodeComponent(s: string): string
    requires Bytes(s)
  {
    if |s| == 0 then "" else (if Kept(s[0]) then [s[0]] else Percent(s[0])) + EncodeComponent(s[1..])
  }

  /** The second pass: the marks that `encodeURIComponent` leaves are encoded too. */
  function EncodeMarks(s: string): string {
    if |s| == 0 then "" else MarkCode(s[0]) + EncodeMarks(s[1..])
  }

  function MarkCode(c: char): string {
    if Mark(c) then Percent(c) else [c]
  }

  function EncodeSegment(s: string): string
    requires Bytes(s)
  {
    EncodeMarks(EncodeComponent(s))
  }

  function HexValue(c: char): Option<nat> {
    if '0' <= c <= '9' then Some((c - '0') as nat)
    else if 'A' <= c <= 'F' then Some((c - 'A') as nat + 10)
    else None
  }

  /** Percent decoding. */
  function Decode(s: string): string {
    if |s| == 0 then ""
    else if s[0] == '%' && |s| >= 3 && HexValue(s[1]).Some? && HexValue(s[2]).Some? then
      [(HexValue(s[1]).value * 16 + HexValue(s[2]).value) as char] + Decode(s[3..])
    else [s[0]] + Decode(s[1..])
  }

  lemma {:induction false} EncodeMarksConcat(a: string, b: string)
    ensures EncodeMarks(a + b) == EncodeMarks(a) + EncodeMarks(b)
  {
    if |a| == 0 {
      assert a + b == b;
    } else {
      EncodeMarksConcat(a[1..], b);
      assert (a + b)[1..] == a[1..] + b;
      Text.Associative(MarkCode(a[0]), EncodeMarks(a[1..]), EncodeMarks(b));
    }
  }

  lemma HexRoundTrip(d: nat)
    requires d < 16
    ensures var digit := Text.HexDigit(d, 'A');
            HexValue(digit) == Some(d) && !Mark(digit) && digit != '/' && digit != '%'
  {
  }

  /** What one byte becomes: itself if unreserved, otherwise its percent code. */
  function Code(c: char): string
    requires c as int < 256
  {
    if Kept(c) && !Mark(c) then [c] else Percent(c)
  }

  lemma {:induction false} NoMarksKept(s: string)
    requires forall k :: 0 <= k < |s| ==> !Mark(s[k])
    ensures EncodeMarks(s) == s
  {
    if |s| > 0 {
      NoMarksKept(s[1..]);
      assert s == [s[0]] + s[1..];
    }
  }

  lemma SegmentHead(s: string)
    requires Bytes(s) && |s| > 0
    ensures EncodeSegment(s) == Code(s[0]) + EncodeSegment(s[1..])
  {
    var head := if Kept(s[0]) then [s[0]] else Percent(s[0]);
    EncodeMarksConcat(head, EncodeComponent(s[1..]));
    HexRoundTrip(s[0] as nat / 16);
    HexRoundTrip(s[0] as nat % 16);
    if Mark(s[0]) {
      assert [s[0]][1..] == "";
      assert EncodeMarks([s[0]]) == Percent(s[0]) + EncodeMarks("");
    } else {
      NoMarksKept(head);
    }
  }

  lemma DecodeCode(c: char, rest: string)
    requires c as int < 256
    ensures Decode(Code(c) + rest) == [c] + Decode(rest)
  {
    HexRoundTrip(c as nat / 16);
    HexRoundTrip(c as nat % 16);
    var s := Code(c) + rest;
    if Kept(c) && !Mark(c) {
      assert s[0] == c && s[1..] == rest;
    } else {
      assert s[0] == '%' && s[3..] == rest;
      assert s[1] == Text.HexDigit(c as nat / 16, 'A') && s[2] == Text.HexDigit(c as nat % 16, 'A');
      assert (c as nat / 16) * 16 + c as nat % 16 == c as nat;
    }
  }

  /** Decoding an encoded segment gives the segment back, and encoded segments contain no slash. */
  lemma {:induction false} SegmentRoundTrip(s: string)
    requires Bytes(s)
    ensures Decode(EncodeSegment(s)) == s && '/' !in EncodeSegment(s)
    ensures |s| > 0 ==> |EncodeSegment(s)| > 0
  {
    if |s| > 0 {
      SegmentHead(s);
      SegmentRoundTrip(s[1..]);
      DecodeCode(s[0], EncodeSegment(s[1..]));
      HexRoundTrip(s[0] as nat / 16);
      HexRoundTrip(s[0] as nat % 16);
      assert s == [s[0]] + s[1..];
    }
  }

  // ---------------------------------------------------------------- object paths

  function NonEmpty(pieces: seq<string>): seq<string> {
    if |pieces| == 0 then [] else (if |pieces[0]| > 0 then [pieces[0]] else []) + NonEmpty(pieces[1..])
  }

  /** The non-empty segments of a storage key. */
  function Segments(key: string): seq<string> {
    NonEmpty(Text.Split(key, '/'))
  }

  lemma {:induction false} SegmentsAreBytes(pieces: seq<string>)
    requires forall k :: 0 <= k < |pieces| ==> Bytes(pieces[k])
    ensures forall k :: 0 <= k < |NonEmpty(pieces)| ==> Bytes(NonEmpty(pieces)[k]) && |NonEmpty(pieces)[k]| > 0
  {
    if |pieces| > 0 {
      SegmentsAreBytes(pieces[1..]);
    }
  }

  lemma {:induction false} PiecesAreBytes(s: string, c: char)
    requires Bytes(s)
    ensures forall k :: 0 <= k < |Text.Split(s, c)| ==> Bytes(Text.Split(s, c)[k])
  {
    if |s| > 0 {
      assert Bytes(s[1..]);
      PiecesAreBytes(s[1..], c);
    }
  }

  function EncodeAll(segments: seq<string>): (r: seq<string>)
    requires forall k :: 0 <= k < |segments| ==> Bytes(segments[k])
    ensures |r| == |segments| && forall k :: 0 <= k < |r| ==> r[k] == EncodeSegment(segments[k])
  {
    if |segments| == 0 then [] else [EncodeSegment(segments[0])] + EncodeAll(segments[1..])
  }

  function EncodedKey(key: string): string
    requires Bytes(key)
  {
    PiecesAreBytes(key, '/');
    SegmentsAreBytes(Text.Split(key, '/'));
    Text.Join(EncodeAll(Segments(key)), '/')
  }

  /**
   The URL path tells two storage keys apart exactly up to empty segments: the keys encode alike
   if and only if their non-empty segments are equal.
   */
  lemma EncodedKeysAgreeExactly(a: string, b: string)
    requires Bytes(a) && Bytes(b)
    ensures EncodedKey(a) == EncodedKey(b) <==> Segments(a) == Segments(b)
  {
    PiecesAreBytes(a, '/');
    PiecesAreBytes(b, '/');
    SegmentsAreBytes(Text.Split(a, '/'));
    SegmentsAreBytes(Text.Split(b, '/'));
    SegmentsRecovered(Segments(a));
    SegmentsRecovered(Segments(b));
  }

  /** The segments of an encoded path, decoded. */
  function DecodedSegments(path: string): seq<string> {
    var pieces := Text.Split(path, '/');
    if path == "" then [] else seq(|pieces|, k requires 0 <= k < |pieces| => Decode(pieces[k]))
  }

  lemma {:induction false} SegmentsRecovered(segments: seq<string>)
    requires forall k :: 0 <= k < |segments| ==> Bytes(segments[k]) && |segments[k]| > 0
    ensures DecodedSegments(Text.Join(EncodeAll(segments), '/')) == segments
  {
    var encoded := EncodeAll(segments);
    forall k | 0 <= k < |segments| ensures '/' !in encoded[k] && |encoded[k]| > 0 && Decode(encoded[k]) == segments[k] {
      SegmentRoundTrip(segments[k]);
    }
    if |segments| > 0 {
      Text.SplitOfJoin(encoded, '/');
      assert Text.Join(encoded, '/') != "" by {
        assert |encoded[0]| > 0;
      }
    }
  }

  /** The key a new asset is stored under: the domain, and a unique prefix in front of the sanitised name. */
  function StorageKey(domain: nat, unique: string, filename: string): string {
    Text.NatText(domain) + (['/'] + (unique + "-" + SanitizeFilename(filename)))
  }

  /** Such keys have no empty segment, so no two of them share a URL path. */
  lemma StorageKeysAreDistinct(
      domain1: nat, unique1: string, name1: string, domain2: nat, unique2: string, name2: string)
    requires AllSafe(unique1) && AllSafe(unique2)
    ensures var key1, key2 := StorageKey(domain1, unique1, name1), StorageKey(domain2, unique2, name2);
            Bytes(key1) && Bytes(key2) && (EncodedKey(key1) == EncodedKey(key2) <==> key1 == key2)
  {
    SanitizedNamesAreClean(name1);
    SanitizedNamesAreClean(name2);
    TwoSegments(Text.NatText(domain1), unique1 + "-" + SanitizeFilename(name1));
    TwoSegments(Text.NatText(domain2), unique2 + "-" + SanitizeFilename(name2));
    EncodedKeysAgreeExactly(StorageKey(domain1, unique1, name1), StorageKey(domain2, unique2, name2));
  }

  lemma TwoSegments(a: string, b: string)
    requires |a| > 0 && |b| > 0 && AllSafe(a) && AllSafe(b)
    ensures Bytes(a + (['/'] + b)) && Segments(a + (['/'] + b)) == [a, b]
  {
    assert '/' !in a && '/' !in b;
    Text.SplitFirst(a, '/', b);
    Text.SplitFirst(b, '/', "");
    assert [a, b][1..] == [b] && [b][1..] == [];
    assert NonEmpty([b]) == [b] + NonEmpty([]);
    assert forall k :: 0 <= k < |a| ==> SafeChar(a[k]);
  }

  /** The characters that are not percent-encoded: the unreserved ones of section 2.3 of RFC 3986. */
  lemma UnreservedAreKept(c: char)
    requires c as int < 256
    ensures Code(c) == [c] <==> Ascii(c, 48, 57) || Ascii(c, 65, 90) || Ascii(c, 97, 122) || c in "-_.~"
  {
  }
}
