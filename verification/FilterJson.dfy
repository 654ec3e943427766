/**
 Filter records and their canonical serialisation: drop undefined entries, sort by field name,
 print as a JSON object. Two records print alike exactly when their defined fields are equal.
 */
module FilterJson {
  import opened Outcomes
  import Text

  // ---------------------------------------------------------------- records

  datatype Field =
    | Action | ActorId | ActorType | ContentTypeId | Decision
    | EntityId | EntityType | ReviewTaskId | Status | WorkflowTransitionId

  datatype Value = Num(n: int) | Str(s: string)

  /** An entry of a record; None is an entry whose value is undefined. */
  datatype Entry = Entry(field: Field, value: Option<Value>)

  predicate DistinctFields(r: seq<Entry>) {
    forall i, j :: 0 <= i < j < |r| ==> r[i].field != r[j].field
  }

  /** An object: entries in insertion order, one per field. */
  type Record = r: seq<Entry> | DistinctFields(r) witness []

  /** Reading a property. */
  function Get(r: seq<Entry>, f: Field): Option<Value> {
    if |r| == 0 then None
    else if r[0].field == f then r[0].value
    else Get(r[1..], f)
  }

  ghost predicate SameFields(a: seq<Entry>, b: seq<Entry>) {
    forall f :: Get(a, f) == Get(b, f)
  }

  function DropUndefined(r: seq<Entry>): (d: seq<Entry>)
    ensures forall e :: e in d <==> e in r && e.value.Some?
  {
    if |r| == 0 then [] else (if r[0].value.Some? then [r[0]] else []) + DropUndefined(r[1..])
  }

  /** The place of a field in the order of field names. */
  function Rank(f: Field): nat {
    match f
    case Action => 0 case ActorId => 1 case ActorType => 2 case ContentTypeId => 3 case Decision => 4
    case EntityId => 5 case EntityType => 6 case ReviewTaskId => 7 case Status => 8 case WorkflowTransitionId => 9
  }

  function Name(f: Field): string {
    match f
    case Action => "action"
    case ActorId => "actorId"
    case ActorType => "actorType"
    case ContentTypeId => "contentTypeId"
    case Decision => "decision" case EntityId => "entityId" case EntityType => "entityType"
    case ReviewTaskId => "reviewTaskId" case Status => "status" case WorkflowTransitionId => "workflowTransitionId"
  }

  function InsertSorted(e: Entry, r: seq<Entry>): seq<Entry> {
    if |r| == 0 || Rank(e.field) <= Rank(r[0].field) then [e] + r else [r[0]] + InsertSorted(e, r[1..])
  }

  function Sort(r: seq<Entry>): seq<Entry> {
    if |r| == 0 then [] else InsertSorted(r[0], Sort(r[1..]))
  }

  // ---------------------------------------------------------------- JSON text

  /** The letter of a two-character escape (section 7 of RFC 8259), for characters that have one. */
  function ShortEscape(c: char): Option<char> {
    if c == '"' then Some('"') else if c == '\\' then Some('\\')
    else if c == '\U{0008}' then Some('b') else if c == '\U{000C}' then Some('f')
    else if c == '\n' then Some('n') else if c == '\r' then Some('r') else if c == '\t' then Some('t')
    else None
  }

  /** One character inside a JSON string: other control characters become a four-digit code. */
  function JsonChar(c: char): string {
    if ShortEscape(c).Some? then ['\\', ShortEscape(c).value]
    else if c < ' ' then ['\\', 'u', '0', '0', Text.HexDigit(c as nat / 16, 'a'), Text.HexDigit(c as nat % 16, 'a')]
    else [c]
  }

  function JsonChars(s: string): string {
    if |s| == 0 then "" else JsonChar(s[0]) + JsonChars(s[1..])
  }

  function JsonString(s: string): string {
    ['"'] + (JsonChars(s) + ['"'])
  }

  function JsonValue(v: Value): string {
    match v
    case Num(n) => Text.IntText(n)
    case Str(s) => JsonString(s)
  }

  /** The members of an object and its closing brace; undefined members are not printed. */
  function JsonMembers(r: seq<Entry>): string
    requires forall e :: e in r ==> e.value.Some?
    decreases |r|, 0
  {
    if |r| == 0 then "}"
    else JsonMember(r[0], JsonTail(r[1..]))
  }

  /** One member and what follows it. */
  function JsonMember(e: Entry, rest: string): string
    requires e.value.Some?
  {
    JsonString(Name(e.field)) + ([':'] + (JsonValue(e.value.value) + rest))
  }

  function JsonTail(r: seq<Entry>): string
    requires forall e :: e in r ==> e.value.Some?
    decreases |r|, 1
  {
    if |r| == 0 then "}" else [','] + JsonMembers(r)
  }

  lemma SortMembers(r: seq<Entry>)
    ensures forall e :: e in Sort(r) <==> e in r
  {
    if |r| > 0 {
      SortMembers(r[1..]);
      InsertMembers(r[0], Sort(r[1..]));
    }
  }

  lemma InsertMembers(e: Entry, r: seq<Entry>)
    ensures forall x :: x in InsertSorted(e, r) <==> x == e || x in r
  {
  }

  function Serialize(r: Record): string {
    SortMembers(DropUndefined(r));
    ['{'] + JsonMembers(Sort(DropUndefined(r)))
  }

  // ---------------------------------------------------------------- records with equal fields print alike

  predicate Ordered(r: seq<Entry>) {
    forall i, j :: 0 <= i < j < |r| ==> Rank(r[i].field) < Rank(r[j].field)
  }

  lemma {:induction false} InsertOrdered(e: Entry, r: seq<Entry>)
    requires Ordered(r) && forall x :: x in r ==> x.field != e.field
    ensures Ordered(InsertSorted(e, r))
  {
    if |r| == 0 || Rank(e.field) <= Rank(r[0].field) {
      if |r| > 0 { RankInjective(e.field, r[0].field); }
    } else {
      assert forall x :: x in r[1..] ==> x in r;
      InsertOrdered(e, r[1..]);
      InsertMembers(e, r[1..]);
      assert forall x :: x in r[1..] ==> Rank(r[0].field) < Rank(x.field);
      SmallestFirst(r[0], InsertSorted(e, r[1..]));
    }
  }

  lemma SmallestFirst(e: Entry, r: seq<Entry>)
    requires Ordered(r) && forall x :: x in r ==> Rank(e.field) < Rank(x.field)
    ensures Ordered([e] + r)
  {
    var s := [e] + r;
    forall i, j | 0 <= i < j < |s| ensures Rank(s[i].field) < Rank(s[j].field) {
      assert s[j] == r[j - 1] && s[j] in r;
    }
  }

  lemma {:induction false} InsertSets(e: Entry, r: seq<Entry>)
    requires forall x :: x in r ==> x.field != e.field
    ensures forall f :: Get(InsertSorted(e, r), f) == if f == e.field then e.value else Get(r, f)
  {
    var s := InsertSorted(e, r);
    if |r| == 0 || Rank(e.field) <= Rank(r[0].field) {
      assert s[1..] == r;
    } else {
      assert forall x :: x in r[1..] ==> x in r;
      InsertSets(e, r[1..]);
      assert s[1..] == InsertSorted(e, r[1..]);
    }
  }

  lemma RankInjective(f: Field, g: Field)
    ensures Rank(f) == Rank(g) ==> f == g
  {
  }

  lemma {:induction false} SortOrders(r: seq<Entry>)
    requires DistinctFields(r)
    ensures Ordered(Sort(r)) && SameFields(Sort(r), r)
  {
    if |r| > 0 {
      SortOrders(r[1..]);
      SortMembers(r[1..]);
      forall x | x in Sort(r[1..]) ensures x.field != r[0].field {
        var k :| 0 <= k < |r[1..]| && r[1..][k] == x;
        assert r[k + 1] == x;
      }
      InsertOrdered(r[0], Sort(r[1..]));
      InsertSets(r[0], Sort(r[1..]));
    }
  }

  lemma {:induction false} DropUndefinedKeepsFields(r: seq<Entry>)
    requires DistinctFields(r)
    ensures DistinctFields(DropUndefined(r)) && SameFields(DropUndefined(r), r)
  {
    if |r| > 0 {
      DropUndefinedKeepsFields(r[1..]);
      var rest := DropUndefined(r[1..]);
      forall x | x in rest ensures x.field != r[0].field {
        var k :| 0 <= k < |r[1..]| && r[1..][k] == x;
        assert r[k + 1] == x;
      }
      if r[0].value.Some? {
        assert ([r[0]] + rest)[1..] == rest;
      } else {
        assert [] + rest == rest;
        AbsentField(rest, r[0].field);
      }
    }
  }

  lemma {:induction false} AbsentField(r: seq<Entry>, f: Field)
    requires forall x :: x in r ==> x.field != f
    ensures Get(r, f).None?
  {
    if |r| > 0 {
      AbsentField(r[1..], f);
    }
  }

  /** Ordered records without undefined entries are determined by their fields. */
  lemma {:induction false} OrderedUnique(a: seq<Entry>, b: seq<Entry>)
    requires Ordered(a) && Ordered(b) && SameFields(a, b)
    requires forall e :: e in a || e in b ==> e.value.Some?
    ensures a == b
  {
    assert |a| > 0 ==> a[0] in a && Get(a, a[0].field).Some? && Get(b, a[0].field).Some?;
    assert |b| > 0 ==> b[0] in b && Get(b, b[0].field).Some? && Get(a, b[0].field).Some?;
    assert |a| == 0 <==> |b| == 0;
    if |a| > 0 {
      SmallestField(a, b);
      SmallestField(b, a);
      RankInjective(a[0].field, b[0].field);
      assert Get(a, a[0].field) == Get(b, a[0].field);
      forall f ensures Get(a[1..], f) == Get(b[1..], f) {
        if f == a[0].field {
          assert forall x :: x in a[1..] ==> x.field != f by {
            forall x | x in a[1..] ensures x.field != f { var k :| 1 <= k < |a| && a[k] == x; }
          }
          assert forall x :: x in b[1..] ==> x.field != f by {
            forall x | x in b[1..] ensures x.field != f { var k :| 1 <= k < |b| && b[k] == x; }
          }
          AbsentField(a[1..], f);
          AbsentField(b[1..], f);
        } else {
          assert Get(a, f) == Get(b, f);
        }
      }
      OrderedUnique(a[1..], b[1..]);
      assert a == [a[0]] + a[1..] && b == [b[0]] + b[1..];
    }
  }

  /** The first field of an ordered record is no larger than any defined field. */
  lemma SmallestField(a: seq<Entry>, b: seq<Entry>)
    requires |a| > 0 && |b| > 0 && Ordered(a) && SameFields(a, b) && b[0].value.Some?
    ensures Rank(a[0].field) <= Rank(b[0].field)
  {
    assert Get(a, b[0].field) == Get(b, b[0].field);
    FieldIsThere(a, b[0].field);
    var k :| 0 <= k < |a| && a[k].field == b[0].field;
  }

  lemma {:induction false} FieldIsThere(r: seq<Entry>, f: Field)
    requires Get(r, f).Some?
    ensures exists k :: 0 <= k < |r| && r[k].field == f
  {
    if r[0].field != f {
      FieldIsThere(r[1..], f);
      var k :| 0 <= k < |r[1..]| && r[1..][k].field == f;
      assert r[k + 1].field == f;
    }
  }

  // ---------------------------------------------------------------- records that print alike have equal fields

  lemma HexDigitInjective(a: nat, b: nat)
    requires a < 16 && b < 16 && Text.HexDigit(a, 'a') == Text.HexDigit(b, 'a')
    ensures a == b
  {
  }

  /** Characters print to codes none of which begins another. */
  lemma JsonCharPrefixFree(c: char, d: char, x: string, y: string)
    requires JsonChar(c) + x == JsonChar(d) + y
    ensures c == d && x == y
  {
    var s, t := JsonChar(c) + x, JsonChar(d) + y;
    assert s[0] == JsonChar(c)[0] && t[0] == JsonChar(d)[0];
    if s[0] == '\\' {
      assert s[1] == JsonChar(c)[1] && t[1] == JsonChar(d)[1];
      if ShortEscape(c).None? && ShortEscape(d).None? {
        assert s[4] == JsonChar(c)[4] && t[4] == JsonChar(d)[4];
        assert s[5] == JsonChar(c)[5] && t[5] == JsonChar(d)[5];
        HexDigitInjective(c as nat / 16, d as nat / 16);
        HexDigitInjective(c as nat % 16, d as nat % 16);
        assert c as nat == d as nat;
        assert c == d;
      }
    }
    assert x == s[|JsonChar(c)|..] && y == t[|JsonChar(d)|..];
  }

  lemma CharsHead(s: string, rest: string)
    requires |s| > 0
    ensures JsonChars(s) + rest == JsonChar(s[0]) + (JsonChars(s[1..]) + rest)
    ensures |JsonChars(s) + rest| > 0 && (JsonChars(s) + rest)[0] != '"'
  {
  }

  lemma {:induction false} JsonCharsInjective(s: string, t: string, x: string, y: string)
    requires JsonChars(s) + (['"'] + x) == JsonChars(t) + (['"'] + y)
    ensures s == t && x == y
  {
    var restX, restY := ['"'] + x, ['"'] + y;
    assert x == restX[1..] && y == restY[1..];
    if |s| > 0 { CharsHead(s, restX); } else { assert JsonChars(s) + restX == restX; }
    if |t| > 0 { CharsHead(t, restY); } else { assert JsonChars(t) + restY == restY; }
    if |s| > 0 {
      JsonCharPrefixFree(s[0], t[0], JsonChars(s[1..]) + restX, JsonChars(t[1..]) + restY);
      JsonCharsInjective(s[1..], t[1..], x, y);
      assert s == [s[0]] + s[1..] && t == [t[0]] + t[1..];
    }
  }

  lemma JsonStringPrefixFree(s: string, t: string, x: string, y: string)
    requires JsonString(s) + x == JsonString(t) + y
    ensures s == t && x == y
  {
    BehindOpeningQuote(s, x);
    BehindOpeningQuote(t, y);
    JsonCharsInjective(s, t, x, y);
  }

  lemma BehindOpeningQuote(s: string, x: string)
    ensures (JsonString(s) + x)[1..] == JsonChars(s) + (['"'] + x)
  {
  }

  function LeadingDigits(s: string): string {
    if |s| == 0 || !Text.IsDigit(s[0]) then "" else [s[0]] + LeadingDigits(s[1..])
  }

  lemma {:induction false} DigitsLead(digits: string, x: string)
    requires (forall k :: 0 <= k < |digits| ==> Text.IsDigit(digits[k])) && |x| > 0 && !Text.IsDigit(x[0])
    ensures LeadingDigits(digits + x) == digits
  {
    if |digits| == 0 {
      assert digits + x == x;
    } else {
      DigitsLead(digits[1..], x);
      assert (digits + x)[1..] == digits[1..] + x;
    }
  }

  /** A number ends where its digits end. */
  lemma DigitsPrefixFree(a: string, b: string, x: string, y: string)
    requires a + x == b + y
    requires (forall k :: 0 <= k < |a| ==> Text.IsDigit(a[k])) && (forall k :: 0 <= k < |b| ==> Text.IsDigit(b[k]))
    requires |x| > 0 && |y| > 0 && !Text.IsDigit(x[0]) && !Text.IsDigit(y[0])
    ensures a == b && x == y
  {
    DigitsLead(a, x);
    DigitsLead(b, y);
    assert x == (a + x)[|a|..] && y == (b + y)[|b|..];
  }

  lemma SignShows(n: int, x: string)
    ensures var s := Text.IntText(n) + x;
            if n < 0 then s[0] == '-' && s[1..] == Text.NatText(-n) + x else Text.IsDigit(s[0])
  {
  }

  lemma NumberPrefixFree(m: int, n: int, x: string, y: string)
    requires Text.IntText(m) + x == Text.IntText(n) + y
    requires |x| > 0 && |y| > 0 && !Text.IsDigit(x[0]) && !Text.IsDigit(y[0])
    ensures m == n && x == y
  {
    SignShows(m, x);
    SignShows(n, y);
    if m < 0 {
      DigitsPrefixFree(Text.NatText(-m), Text.NatText(-n), x, y);
    } else {
      DigitsPrefixFree(Text.NatText(m), Text.NatText(n), x, y);
    }
    Text.IntTextInjective(m, n);
  }

  lemma ValuePrefixFree(v: Value, w: Value, x: string, y: string)
    requires JsonValue(v) + x == JsonValue(w) + y
    requires |x| > 0 && |y| > 0 && !Text.IsDigit(x[0]) && !Text.IsDigit(y[0])
    ensures v == w && x == y
  {
    var s, t := JsonValue(v) + x, JsonValue(w) + y;
    assert v.Str? ==> s[0] == '"';
    assert w.Str? ==> t[0] == '"';
    assert v.Num? ==> s[0] == Text.IntText(v.n)[0] && s[0] != '"';
    assert w.Num? ==> t[0] == Text.IntText(w.n)[0] && t[0] != '"';
    match v
    case Str(a) => JsonStringPrefixFree(a, w.s, x, y);
    case Num(m) => NumberPrefixFree(m, w.n, x, y);
  }

  lemma NameInjective(f: Field, g: Field)
    requires Name(f) == Name(g)
    ensures f == g
  {
  }

  lemma MemberPrefixFree(e: Entry, f: Entry, x: string, y: string)
    requires e.value.Some? && f.value.Some?
    requires JsonMember(e, x) == JsonMember(f, y)
    requires |x| > 0 && |y| > 0 && !Text.IsDigit(x[0]) && !Text.IsDigit(y[0])
    ensures e == f && x == y
  {
    var restE, restF := JsonValue(e.value.value) + x, JsonValue(f.value.value) + y;
    JsonStringPrefixFree(Name(e.field), Name(f.field), [':'] + restE, [':'] + restF);
    NameInjective(e.field, f.field);
    assert restE == ([':'] + restE)[1..] && restF == ([':'] + restF)[1..];
    ValuePrefixFree(e.value.value, f.value.value, x, y);
  }

  lemma {:induction false} MembersInjective(a: seq<Entry>, b: seq<Entry>)
    requires forall e :: e in a || e in b ==> e.value.Some?
    requires JsonMembers(a) == JsonMembers(b)
    ensures a == b
    decreases |a|, 0
  {
    MembersHead(a);
    MembersHead(b);
    if |a| > 0 && |b| > 0 {
      assert a[0] in a && b[0] in b;
      MemberPrefixFree(a[0], b[0], JsonTail(a[1..]), JsonTail(b[1..]));
      TailsInjective(a[1..], b[1..]);
      HeadAndTail(a, b);
    }
  }

  lemma MembersHead(a: seq<Entry>)
    requires forall e :: e in a ==> e.value.Some?
    ensures |a| == 0 ==> JsonMembers(a) == "}"
    ensures |a| > 0 ==> |JsonMembers(a)| > 0 && JsonMembers(a)[0] == '"'
  {
  }

  lemma HeadAndTail(a: seq<Entry>, b: seq<Entry>)
    requires |a| > 0 && |b| > 0 && a[0] == b[0] && a[1..] == b[1..]
    ensures a == b
  {
    assert a == [a[0]] + a[1..] && b == [b[0]] + b[1..];
  }

  lemma {:induction false} TailsInjective(a: seq<Entry>, b: seq<Entry>)
    requires forall e :: e in a || e in b ==> e.value.Some?
    requires JsonTail(a) == JsonTail(b)
    ensures a == b
    decreases |a|, 1
  {
    assert |a| > 0 ==> JsonTail(a)[0] == ',';
    assert |b| > 0 ==> JsonTail(b)[0] == ',';
    if |a| > 0 && |b| > 0 {
      assert JsonMembers(a) == JsonTail(a)[1..] && JsonMembers(b) == JsonTail(b)[1..];
      MembersInjective(a, b);
    }
  }

  // ---------------------------------------------------------------- the canonical form

  lemma CanonicalEntries(r: Record)
    ensures Ordered(Sort(DropUndefined(r))) && SameFields(Sort(DropUndefined(r)), r)
    ensures forall e :: e in Sort(DropUndefined(r)) ==> e.value.Some?
  {
    DropUndefinedKeepsFields(r);
    SortOrders(DropUndefined(r));
    SortMembers(DropUndefined(r));
  }

  /**
   Two records print alike exactly when their defined fields are equal, whatever their order and
   undefined entries.
   */
  lemma SerializationIsCanonical(a: Record, b: Record)
    ensures Serialize(a) == Serialize(b) <==> SameFields(a, b)
  {
    var x, y := Sort(DropUndefined(a)), Sort(DropUndefined(b));
    CanonicalEntries(a);
    CanonicalEntries(b);
    if Serialize(a) == Serialize(b) {
      assert JsonMembers(x) == Serialize(a)[1..] && JsonMembers(y) == Serialize(b)[1..];
      MembersInjective(x, y);
    }
    if SameFields(a, b) {
      OrderedUnique(x, y);
    }
  }
}
