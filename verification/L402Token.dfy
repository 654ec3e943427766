/**
 L402 tokens: macaroons whose caveats bind a payment hash to one method, path, domain, price
 and expiry, and the headers that carry them.
 */
module L402Token {
  import opened Outcomes
  import Text

  // ---------------------------------------------------------------- macaroons

  /** The keyed hash chain of a macaroon, as a term: equal only if built alike from the same secret. */
  datatype Signature = Root(secret: string, identifier: string) | Chain(previous: Signature, caveat: string)

  datatype Macaroon = Macaroon(identifier: string, caveats: seq<string>, signature: Signature)

  function Sign(secret: string, identifier: string, caveats: seq<string>): Signature {
    if |caveats| == 0 then Root(secret, identifier)
    else Chain(Sign(secret, identifier, caveats[..|caveats| - 1]), caveats[|caveats| - 1])
  }

  function Build(secret: string, identifier: string, caveats: seq<string>): Macaroon {
    Macaroon(identifier, caveats, Sign(secret, identifier, caveats))
  }

  /** Anyone who holds a macaroon can append a caveat to it. */
  function Attenuate(m: Macaroon, caveat: string): Macaroon {
    Macaroon(m.identifier, m.caveats + [caveat], Chain(m.signature, caveat))
  }

  // ---------------------------------------------------------------- requests

  datatype Request = Request(path: Option<string>, rawMethod: Option<string>, domain: Option<int>)

  function RequestPath(r: Request): string {
    var path := Text.Before(r.path.Or("/api"), '?');
    if path == "" then "/api" else path
  }

  function RequestMethod(r: Request): string {
    Text.ToUpper(r.rawMethod.Or("GET"))
  }

  function RequestDomain(r: Request): int {
    r.domain.Or(1)
  }

  /** Prices are rounded up to whole satoshis, one at least. */
  function NormalizePrice(price: real): (amount: int)
    ensures amount >= 1 && price <= amount as real
    ensures amount > 1 ==> amount as real < price + 1.0
  {
    var ceiling := -((-price).Floor);
    if ceiling < 1 then 1 else ceiling
  }

  /** What of a request a token is bound to: the path without its query, the upper-cased method, and the domain. */
  lemma RequestReadExactly(r: Request, path: string, query: string)
    requires '?' !in path && (query == "" || query[0] == '?')
    ensures r.path == Some(path + query) ==> RequestPath(r) == if path == "" then "/api" else path
    ensures r.path == None ==> RequestPath(r) == "/api"
    ensures forall m :: r.rawMethod == Some(m) ==> RequestMethod(r) == Text.ToUpper(m)
    ensures r.rawMethod == None ==> RequestMethod(r) == "GET"
    ensures forall d :: r.domain == Some(d) ==> RequestDomain(r) == d
    ensures r.domain == None ==> RequestDomain(r) == 1
  {
    Text.BeforeQuery(path, query);
    Text.BeforeQuery("/api", "");
    assert Text.ToUpper("GET") == "GET";
  }

  // ---------------------------------------------------------------- minting and verifying

  const EXPIRY_PREFIX := "expires_at <= "

  function Caveats(hash: string, method_: string, path: string, domain: int, amount: int, expiresAt: int): seq<string> {
    ["hash = " + hash, "method = " + method_, "path = " + path, "domain = " + Text.IntText(domain),
     "amount = " + Text.IntText(amount), EXPIRY_PREFIX + Text.IntText(expiresAt)]
  }

  function Mint(hash: string, secret: string, r: Request, amount: int, expiresAt: int): Macaroon {
    Build(secret, hash, Caveats(hash, RequestMethod(r), RequestPath(r), RequestDomain(r), amount, expiresAt))
  }

  /** The exact caveats a verifier accepts. */
  function Expected(hash: string, r: Request, amount: int): seq<string> {
    ["hash = " + hash, "method = " + RequestMethod(r), "path = " + RequestPath(r),
     "domain = " + Text.IntText(RequestDomain(r)), "amount = " + Text.IntText(amount)]
  }

  predicate Unexpired(caveat: string, now: int) {
    Text.StartsWith(caveat, EXPIRY_PREFIX) &&
    var expiry := Text.ParseInt(Text.Trim(caveat[|EXPIRY_PREFIX|..]));
    expiry.Some? && now <= expiry.value
  }

  predicate Satisfied(caveat: string, expected: seq<string>, now: int) {
    caveat in expected || Unexpired(caveat, now)
  }

  /** The payment hash a token stands for, if it is genuine and all its caveats are satisfied. */
  function Verify(m: Macaroon, secret: string, hash: string, r: Request, amount: int, now: int): Option<string> {
    if m.signature == Sign(secret, m.identifier, m.caveats)
       && forall k :: 0 <= k < |m.caveats| ==> Satisfied(m.caveats[k], Expected(hash, r, amount), now)
    then Some(if |m.identifier| > 0 then m.identifier else hash)
    else None
  }

  /** What a minted token says. */
  lemma MintedCaveats(hash: string, secret: string, r: Request, amount: int, expiresAt: int)
    ensures var m := Mint(hash, secret, r, amount, expiresAt);
            && m.identifier == hash && m.signature == Sign(secret, hash, m.caveats)
            && m.caveats == ["hash = " + hash, "method = " + RequestMethod(r), "path = " + RequestPath(r),
                             "domain = " + Text.IntText(RequestDomain(r)), "amount = " + Text.IntText(amount),
                             "expires_at <= " + Text.IntText(expiresAt)]
  {
  }

  /** The caveat is one of the five facts of the request, or an expiry that has not passed. */
  ghost predicate Holds(caveat: string, hash: string, r: Request, amount: int, now: int) {
    || caveat == "hash = " + hash
    || caveat == "method = " + RequestMethod(r)
    || caveat == "path = " + RequestPath(r)
    || caveat == "domain = " + Text.IntText(RequestDomain(r))
    || caveat == "amount = " + Text.IntText(amount)
    || exists text, expiry :: caveat == "expires_at <= " + text && ReadsAs(text, expiry) && now <= expiry
  }

  ghost predicate ReadsAs(text: string, n: int) { Text.ParseInt(Text.Trim(text)) == Some(n) }

  lemma HoldsIfSatisfied(caveat: string, hash: string, r: Request, amount: int, now: int)
    ensures Satisfied(caveat, Expected(hash, r, amount), now) <==> Holds(caveat, hash, r, amount, now)
  {
    if Unexpired(caveat, now) {
      var text := caveat[14..];
      assert caveat == "expires_at <= " + text && ReadsAs(text, Text.ParseInt(Text.Trim(text)).value);
    }
    if text, expiry :| caveat == "expires_at <= " + text && ReadsAs(text, expiry) && now <= expiry {
      assert caveat[14..] == text && Unexpired(caveat, now);
    }
  }

  /** A token is accepted exactly if it is genuine and each of its caveats holds; it then stands for its identifier. */
  lemma AcceptedExactly(m: Macaroon, secret: string, hash: string, r: Request, amount: int, now: int)
    ensures var verdict := Verify(m, secret, hash, r, amount, now);
            && (verdict.Some? <==>
                  && m.signature == Sign(secret, m.identifier, m.caveats)
                  && forall k :: 0 <= k < |m.caveats| ==> Holds(m.caveats[k], hash, r, amount, now))
            && (verdict.Some? ==> verdict == Some(if m.identifier == "" then hash else m.identifier))
  {
    forall k | 0 <= k < |m.caveats|
      ensures Satisfied(m.caveats[k], Expected(hash, r, amount), now) <==> Holds(m.caveats[k], hash, r, amount, now)
    {
      HoldsIfSatisfied(m.caveats[k], hash, r, amount, now);
    }
  }

  lemma SamePrefix(prefix: string, a: string, b: string)
    ensures prefix + a == prefix + b <==> a == b
  {
    assert (prefix + a)[|prefix|..] == a;
    assert (prefix + b)[|prefix|..] == b;
  }

  lemma ExpiryCaveat(expiresAt: int, now: int)
    ensures Unexpired(EXPIRY_PREFIX + Text.IntText(expiresAt), now) <==> now <= expiresAt
  {
    var caveat := EXPIRY_PREFIX + Text.IntText(expiresAt);
    assert caveat[|EXPIRY_PREFIX|..] == Text.IntText(expiresAt);
    Text.IntRoundTrip(expiresAt);
    Text.TrimOfTrimmed(Text.IntText(expiresAt));
  }

  /** First letters of the five exact caveats: they differ, so a caveat can only be matched by its own kind. */
  const KINDS := "hmpda"

  predicate OfKinds(caveats: seq<string>) {
    |caveats| >= 5 && forall k :: 0 <= k < 5 ==> |caveats[k]| > 0 && caveats[k][0] == KINDS[k]
  }

  lemma KindsApart(caveats: seq<string>, expected: seq<string>, now: int)
    requires OfKinds(caveats) && OfKinds(expected) && |expected| == 5
    ensures forall k :: 0 <= k < 5 ==> (Satisfied(caveats[k], expected, now) <==> caveats[k] == expected[k])
    ensures forall c :: |c| > 0 && c[0] == 'e' ==> c !in expected
  {
  }

  lemma CaveatKinds(hash: string, r: Request, amount: int, expiresAt: int, r': Request, amount': int)
    ensures OfKinds(Caveats(hash, RequestMethod(r), RequestPath(r), RequestDomain(r), amount, expiresAt))
    ensures OfKinds(Expected(hash, r', amount')) && |Expected(hash, r', amount')| == 5
  {
  }

  /** Each printed caveat equals the expected one exactly if the bound values are equal. */
  lemma SameCaveats(hash: string, r: Request, amount: int, expiresAt: int, r': Request, amount': int)
    ensures var minted := Caveats(hash, RequestMethod(r), RequestPath(r), RequestDomain(r), amount, expiresAt);
            var expected := Expected(hash, r', amount');
            && minted[0] == expected[0]
            && (minted[1] == expected[1] <==> RequestMethod(r) == RequestMethod(r'))
            && (minted[2] == expected[2] <==> RequestPath(r) == RequestPath(r'))
            && (minted[3] == expected[3] <==> RequestDomain(r) == RequestDomain(r'))
            && (minted[4] == expected[4] <==> amount == amount')
  {
    SamePrefix("method = ", RequestMethod(r), RequestMethod(r'));
    SamePrefix("path = ", RequestPath(r), RequestPath(r'));
    SameNumber("domain = ", RequestDomain(r), RequestDomain(r'));
    SameNumber("amount = ", amount, amount');
  }

  lemma SameNumber(prefix: string, m: int, n: int)
    ensures prefix + Text.IntText(m) == prefix + Text.IntText(n) <==> m == n
  {
    SamePrefix(prefix, Text.IntText(m), Text.IntText(n));
    if Text.IntText(m) == Text.IntText(n) {
      Text.IntTextInjective(m, n);
    }
  }

  lemma AllSixSatisfied(caveats: seq<string>, expected: seq<string>, now: int, expiresAt: int)
    requires |caveats| == 6 && OfKinds(caveats) && OfKinds(expected) && |expected| == 5
    requires caveats[5] == EXPIRY_PREFIX + Text.IntText(expiresAt)
    ensures (forall k :: 0 <= k < 6 ==> Satisfied(caveats[k], expected, now))
       <==> (now <= expiresAt && forall k :: 0 <= k < 5 ==> caveats[k] == expected[k])
  {
    KindsApart(caveats, expected, now);
    ExpiryCaveat(expiresAt, now);
    assert caveats[5][0] == 'e';
    assert Satisfied(caveats[5], expected, now) <==> now <= expiresAt;
  }

  /**
   A minted token verifies exactly when the request's upper-cased method, query-stripped path,
   domain and amount are those it was minted for and it has not expired.
   */
  lemma MintedTokenVerifiesExactly(
      hash: string, secret: string, r: Request, amount: int, expiresAt: int, r': Request, amount': int, now: int)
    requires |hash| > 0
    ensures var verdict := Verify(Mint(hash, secret, r, amount, expiresAt), secret, hash, r', amount', now);
            && (verdict == Some(hash) <==>
                  && RequestMethod(r) == RequestMethod(r') && RequestPath(r) == RequestPath(r')
                  && RequestDomain(r) == RequestDomain(r') && amount == amount' && now <= expiresAt)
            && (verdict.None? || verdict == Some(hash))
  {
    var minted := Caveats(hash, RequestMethod(r), RequestPath(r), RequestDomain(r), amount, expiresAt);
    SameCaveats(hash, r, amount, expiresAt, r', amount');
    CaveatKinds(hash, r, amount, expiresAt, r', amount');
    AllSixSatisfied(minted, Expected(hash, r', amount'), now, expiresAt);
  }

  /** A signature determines the token it signs. */
  lemma {:induction false} SignInjective(
      secret: string, id: string, caveats: seq<string>, id': string, caveats': seq<string>)
    requires Sign(secret, id, caveats) == Sign(secret, id', caveats')
    ensures id == id' && caveats == caveats'
  {
    if |caveats| > 0 && |caveats'| > 0 {
      SignInjective(secret, id, caveats[..|caveats| - 1], id', caveats'[..|caveats'| - 1]);
      assert caveats == caveats[..|caveats| - 1] + [caveats[|caveats| - 1]];
      assert caveats' == caveats'[..|caveats'| - 1] + [caveats'[|caveats'| - 1]];
    }
  }

  /**
   Signatures within reach of someone who does not know the secret: those of tokens handed out,
   those under another secret, and whatever appending caveats makes of either.
   */
  predicate Derivable(signature: Signature, secret: string, handed: seq<Macaroon>) {
    || (exists k :: 0 <= k < |handed| && handed[k].signature == signature)
    || match signature
       case Root(s, _) => s != secret
       case Chain(previous, _) => Derivable(previous, secret, handed)
  }

  /** Callers do reach the tokens handed out, what is appended to a token they reach, and all under other secrets. */
  lemma ReachIsClosed(secret: string, handed: seq<Macaroon>, m: Macaroon, caveat: string, own: string)
    ensures m in handed ==> Derivable(m.signature, secret, handed)
    ensures Derivable(m.signature, secret, handed) ==> Derivable(Attenuate(m, caveat).signature, secret, handed)
    ensures own != secret ==> Derivable(Sign(own, m.identifier, m.caveats), secret, handed)
  {
    if own != secret {
      OwnTokensReached(secret, handed, m.identifier, m.caveats, own);
    }
  }

  lemma {:induction false} OwnTokensReached(
      secret: string, handed: seq<Macaroon>, id: string, caveats: seq<string>, own: string)
    requires own != secret
    ensures Derivable(Sign(own, id, caveats), secret, handed)
  {
    if |caveats| > 0 {
      OwnTokensReached(secret, handed, id, caveats[..|caveats| - 1], own);
    }
  }

  /** Nobody can forge: a genuine token within reach extends a token that was handed out. */
  lemma {:induction false} GenuineIsHanded(secret: string, id: string, caveats: seq<string>, handed: seq<Macaroon>)
    requires Derivable(Sign(secret, id, caveats), secret, handed)
    requires forall k :: 0 <= k < |handed| ==>
      handed[k].signature == Sign(secret, handed[k].identifier, handed[k].caveats)
    ensures exists k :: 0 <= k < |handed| && handed[k].identifier == id && handed[k].caveats <= caveats
  {
    if k :| 0 <= k < |handed| && handed[k].signature == Sign(secret, id, caveats) {
      SignInjective(secret, id, caveats, handed[k].identifier, handed[k].caveats);
    } else {
      assert |caveats| > 0;
      var shorter := caveats[..|caveats| - 1];
      GenuineIsHanded(secret, id, shorter, handed);
      var k :| 0 <= k < |handed| && handed[k].identifier == id && handed[k].caveats <= shorter;
      assert handed[k].caveats <= caveats;
    }
  }

  lemma {:induction false} SignKnowsSecret(secret: string, secret': string, id: string, caveats: seq<string>)
    requires Sign(secret, id, caveats) == Sign(secret', id, caveats)
    ensures secret == secret'
  {
    if |caveats| > 0 {
      SignKnowsSecret(secret, secret', id, caveats[..|caveats| - 1]);
    }
  }

  /** A token minted under another secret never verifies. */
  lemma ForeignTokenRejected(hash: string, secret: string, secret': string, r: Request, amount: int, expiresAt: int,
                             hash': string, r': Request, amount': int, now: int)
    requires secret != secret'
    ensures Verify(Mint(hash, secret, r, amount, expiresAt), secret', hash', r', amount', now).None?
  {
    var m := Mint(hash, secret, r, amount, expiresAt);
    if m.signature == Sign(secret', m.identifier, m.caveats) {
      SignKnowsSecret(secret, secret', m.identifier, m.caveats);
    }
  }

  /** Caveats only ever restrict: a rejected token stays rejected whatever is appended to it. */
  lemma AttenuationOnlyRestricts(
      m: Macaroon, caveat: string, secret: string, hash: string, r: Request, amount: int, now: int)
    requires Verify(m, secret, hash, r, amount, now).None?
    ensures Verify(Attenuate(m, caveat), secret, hash, r, amount, now).None?
  {
  }

  /** Nor does appending a caveat change the payment a token stands for. */
  lemma AttenuationKeepsHash(
      m: Macaroon, caveat: string, secret: string, hash: string, r: Request, amount: int, now: int)
    requires Verify(Attenuate(m, caveat), secret, hash, r, amount, now).Some?
    ensures Verify(m, secret, hash, r, amount, now) == Verify(Attenuate(m, caveat), secret, hash, r, amount, now)
  {
  }

  // ---------------------------------------------------------------- the Authorization header

  datatype Credentials = Credentials(macaroon: string, preimage: string)

  function ParseAuthorization(header: Option<string>): Option<Credentials> {
    if header.None? || !Text.StartsWith(header.value, "L402 ") then None else
    var credential := Text.Trim(header.value[5..]);
    var left := Text.Before(credential, ':');
    if |left| == |credential| || |left| == 0 || |left| == |credential| - 1 then None
    else if ':' in credential[|left| + 1..] then None
    else
      var macaroon, preimage := Text.Trim(left), Text.Trim(credential[|left| + 1..]);
      if macaroon == "" || preimage == "" then None else Some(Credentials(macaroon, preimage))
  }

  function PrintAuthorization(macaroon: string, preimage: string): string {
    "L402 " + macaroon + ":" + preimage
  }

  lemma TrimmedJoin(macaroon: string, preimage: string)
    requires Text.Trimmed(macaroon) && Text.Trimmed(preimage) && macaroon != "" && preimage != ""
    ensures Text.Trimmed(macaroon + ":" + preimage)
  {
  }

  /** "L402 m:p" parses back to exactly (m, p) for trimmed non-empty m and p without colons. */
  lemma AuthorizationRoundTrip(macaroon: string, preimage: string)
    requires Text.Trimmed(macaroon) && Text.Trimmed(preimage) && macaroon != "" && preimage != ""
    requires ':' !in macaroon && ':' !in preimage
    ensures ParseAuthorization(Some(PrintAuthorization(macaroon, preimage))) == Some(Credentials(macaroon, preimage))
  {
    var header := PrintAuthorization(macaroon, preimage);
    var credential := macaroon + ":" + preimage;
    assert header[..5] == "L402 " && header[5..] == credential;
    TrimmedJoin(macaroon, preimage);
    Text.TrimOfTrimmed(credential);
    Text.BeforeSeparator(macaroon, ':', preimage);
    assert credential == macaroon + [':'] + preimage;
    assert credential[|macaroon| + 1..] == preimage;
    Text.TrimOfTrimmed(macaroon);
    Text.TrimOfTrimmed(preimage);
  }

  /** Whatever the header, what it yields is trimmed, non-empty and free of colons. */
  lemma ParsedCredentialsAreClean(header: Option<string>)
    requires ParseAuthorization(header).Some?
    ensures var c := ParseAuthorization(header).value;
            && c.macaroon != "" && c.preimage != "" && ':' !in c.macaroon && ':' !in c.preimage
            && Text.Trimmed(c.macaroon) && Text.Trimmed(c.preimage)
  {
    var credential := Text.Trim(header.value[5..]);
    var left := Text.Before(credential, ':');
    Text.TrimTrims(left);
    Text.TrimTrims(credential[|left| + 1..]);
    Text.TrimKeepsOut(left, ':');
    Text.TrimKeepsOut(credential[|left| + 1..], ':');
  }

  /** Macaroon and preimage are separated by the one colon, and each may have white space around it. */
  ghost predicate Spells(header: string, c: Credentials, a: string, b: string, d: string, e: string) {
    && header == "L402 " + (a + c.macaroon + b) + [':'] + (d + c.preimage + e)
    && Text.Blank(a) && Text.Blank(b) && Text.Blank(d) && Text.Blank(e)
    && c.macaroon != "" && c.preimage != "" && Text.Trimmed(c.macaroon) && Text.Trimmed(c.preimage)
    && ':' !in c.macaroon && ':' !in c.preimage
  }

  /** How a header with one colon is read. */
  lemma OneColonIsRead(header: string, left: string, right: string)
    requires Text.StartsWith(header, "L402 ") && Text.Trim(header[5..]) == left + [':'] + right
    requires ':' !in left && ':' !in right && left != "" && right != ""
    requires Text.Trim(left) != "" && Text.Trim(right) != ""
    ensures ParseAuthorization(Some(header)) == Some(Credentials(Text.Trim(left), Text.Trim(right)))
  {
    var credential := left + [':'] + right;
    Text.BeforeSeparator(left, ':', right);
    assert credential[|left| + 1..] == right;
  }

  lemma NoColonInBlank(s: string)
    requires Text.Blank(s)
    ensures ':' !in s
  {
  }

  lemma SpelledIsParsed(header: string, c: Credentials, a: string, b: string, d: string, e: string)
    requires Spells(header, c, a, b, d, e)
    ensures ParseAuthorization(Some(header)) == Some(c)
  {
    var left, right := c.macaroon + b, d + c.preimage;
    BehindScheme(header, a, left, right, e, c.macaroon, b, d, c.preimage);
    TrimmedEnds(c.macaroon, b, d, c.preimage);
    Text.TrimOfPadded(a, left + [':'] + right, e);
    PaddedBehind(c.macaroon, b);
    PaddedBefore(d, c.preimage);
    OneColonIsRead(header, left, right);
  }

  lemma PaddedBehind(piece: string, blank: string)
    requires Text.Blank(blank) && Text.Trimmed(piece) && piece != "" && ':' !in piece
    ensures Text.Trim(piece + blank) == piece && ':' !in piece + blank
  {
    Text.TrimOfPadded("", piece, blank);
    assert "" + piece + blank == piece + blank;
    NoColonInBlank(blank);
  }

  lemma PaddedBefore(blank: string, piece: string)
    requires Text.Blank(blank) && Text.Trimmed(piece) && piece != "" && ':' !in piece
    ensures Text.Trim(blank + piece) == piece && ':' !in blank + piece
  {
    Text.TrimOfPadded(blank, piece, "");
    assert blank + piece + "" == blank + piece;
    NoColonInBlank(blank);
  }

  lemma BehindScheme(
      header: string, a: string, left: string, right: string, e: string, m: string, b: string, d: string, p: string)
    requires header == "L402 " + (a + m + b) + [':'] + (d + p + e) && left == m + b && right == d + p
    ensures Text.StartsWith(header, "L402 ") && header[5..] == a + (left + [':'] + right) + e
  {
    RegroupHeader("L402 ", a, m, b, d, p, e);
  }

  lemma TrimmedEnds(macaroon: string, b: string, d: string, preimage: string)
    requires Text.Trimmed(macaroon) && Text.Trimmed(preimage) && macaroon != "" && preimage != ""
    ensures Text.Trimmed((macaroon + b) + [':'] + (d + preimage))
  {
    var s := (macaroon + b) + [':'] + (d + preimage);
    assert s[0] == macaroon[0] && s[|s| - 1] == preimage[|preimage| - 1];
  }

  lemma RegroupHeader(lead: string, a: string, m: string, b: string, d: string, p: string, e: string)
    ensures lead + (a + m + b) + [':'] + (d + p + e) == lead + (a + ((m + b) + [':'] + (d + p)) + e)
  {
  }

  lemma RegroupPads(a: string, a': string, m: string, b: string, d: string, p: string, e: string, e': string)
    ensures a + ((a' + m + b) + [':'] + (d + p + e)) + e' == ((a + a') + m + b) + [':'] + (d + p + (e + e'))
  {
  }

  lemma ParsedIsSpelled(header: string) returns (a: string, b: string, d: string, e: string)
    requires ParseAuthorization(Some(header)).Some?
    ensures Spells(header, ParseAuthorization(Some(header)).value, a, b, d, e)
  {
    var c := ParseAuthorization(Some(header)).value;
    var left, right := ReadParts(header);
    ParsedCredentialsAreClean(Some(header));
    var front, back := Text.TrimPads(header[5..]);
    var inFront, behind := Text.TrimPads(left);
    var inFront', behind' := Text.TrimPads(right);
    a, b, d, e := front + inFront, behind, inFront', behind' + back;
    Text.BlankJoin(front, inFront);
    Text.BlankJoin(behind', back);
    RegroupPads(front, inFront, c.macaroon, behind, inFront', c.preimage, behind', back);
    LeadAndRest(header, a + c.macaroon + b, d + c.preimage + e);
  }

  /** What stands on either side of the colon. */
  lemma ReadParts(header: string) returns (left: string, right: string)
    requires ParseAuthorization(Some(header)).Some?
    ensures Text.StartsWith(header, "L402 ") && Text.Trim(header[5..]) == left + [':'] + right
    ensures ParseAuthorization(Some(header)) == Some(Credentials(Text.Trim(left), Text.Trim(right)))
  {
    var credential := Text.Trim(header[5..]);
    left := Text.Before(credential, ':');
    right := credential[|left| + 1..];
    CutAtColon(credential);
  }

  lemma CutAtColon(s: string)
    requires |Text.Before(s, ':')| < |s|
    ensures s == Text.Before(s, ':') + [':'] + s[|Text.Before(s, ':')| + 1..]
  {
  }

  lemma LeadAndRest(header: string, left: string, right: string)
    requires Text.StartsWith(header, "L402 ") && header[5..] == left + [':'] + right
    ensures header == "L402 " + left + [':'] + right
  {
    assert header == header[..5] + header[5..];
    Text.Associative("L402 ", left, [':']);
    Text.Associative("L402 ", left + [':'], right);
  }

  /**
   A header is read as macaroon and preimage exactly if it spells them: the scheme, the two
   separated by its only colon, and nothing but white space around either.
   */
  lemma ParsesExactly(header: string, c: Credentials)
    ensures ParseAuthorization(Some(header)) == Some(c) <==> exists a, b, d, e :: Spells(header, c, a, b, d, e)
  {
    if ParseAuthorization(Some(header)) == Some(c) {
      var a, b, d, e := ParsedIsSpelled(header);
    }
    if a, b, d, e :| Spells(header, c, a, b, d, e) {
      SpelledIsParsed(header, c, a, b, d, e);
    }
  }

  // ---------------------------------------------------------------- the WWW-Authenticate header

  /** `s.replace(/c/g, '\\' + c)` */
  function EscapeChar(s: string, c: char): string {
    if |s| == 0 then "" else EscapeOne(s[0], c) + EscapeChar(s[1..], c)
  }

  function EscapeOne(x: char, c: char): string {
    if x == c then ['\\', c] else [x]
  }

  function EscapeBoth(x: char): string {
    if x == '\\' || x == '"' then ['\\', x] else [x]
  }

  /** Backslashes first and then quotes. */
  function Escape(s: string): string {
    EscapeChar(EscapeChar(s, '\\'), '"')
  }

  const LEAD := "L402 macaroon="
  const MIDDLE := ", invoice="

  function Quote(lead: string, value: string): string {
    lead + ['"'] + value + ['"']
  }

  function FormatChallenge(macaroon: string, invoice: string): string {
    Quote(LEAD, Escape(macaroon)) + Quote(MIDDLE, Escape(invoice))
  }

  /** Reading a quoted-string (section 5.6.4 of RFC 9110) from behind its opening quote: the value and what follows. */
  function ReadQuoted(s: string): Option<(string, string)> {
    if |s| == 0 then None
    else if s[0] == '"' then Some(("", s[1..]))
    else if s[0] == '\\' then
      if |s| == 1 then None else Prepend(s[1], ReadQuoted(s[2..]))
    else Prepend(s[0], ReadQuoted(s[1..]))
  }

  function Prepend(c: char, rest: Option<(string, string)>): Option<(string, string)> {
    match rest
    case None => None
    case Some((value, tail)) => Some(([c] + value, tail))
  }

  lemma {:induction false} EscapeCharConcat(a: string, b: string, c: char)
    ensures EscapeChar(a + b, c) == EscapeChar(a, c) + EscapeChar(b, c)
  {
    if |a| == 0 {
      assert a + b == b;
    } else {
      EscapeCharConcat(a[1..], b, c);
      assert (a + b)[1..] == a[1..] + b;
      Text.Associative(EscapeOne(a[0], c), EscapeChar(a[1..], c), EscapeChar(b, c));
    }
  }

  /** The two passes together put one backslash before each backslash and each quote. */
  lemma EscapeHead(s: string)
    requires |s| > 0
    ensures Escape(s) == EscapeBoth(s[0]) + Escape(s[1..])
  {
    var head := EscapeOne(s[0], '\\');
    EscapeCharConcat(head, EscapeChar(s[1..], '\\'), '"');
    EscapeShort(head, '"');
    EscapedTwice(s[0]);
  }

  lemma EscapedTwice(x: char)
    ensures var head := EscapeOne(x, '\\');
            EscapeBoth(x) == EscapeOne(head[0], '"') + (if |head| == 2 then EscapeOne(head[1], '"') else "")
  {
  }

  lemma EscapeShort(s: string, c: char)
    requires 1 <= |s| <= 2
    ensures EscapeChar(s, c) == EscapeOne(s[0], c) + (if |s| == 2 then EscapeOne(s[1], c) else "")
  {
  }

  lemma ReadEscaped(c: char, tail: string)
    ensures ReadQuoted(EscapeBoth(c) + tail) == Prepend(c, ReadQuoted(tail))
  {
  }

  /** Reading what was quoted gives the value back and stops at the closing quote. */
  lemma {:induction false} QuotedRoundTrip(s: string, rest: string)
    ensures ReadQuoted(Escape(s) + ("\"" + rest)) == Some((s, rest))
  {
    if |s| == 0 {
      assert Escape(s) + ("\"" + rest) == "\"" + rest;
      assert ("\"" + rest)[1..] == rest;
    } else {
      EscapeHead(s);
      QuotedRoundTrip(s[1..], rest);
      Text.Associative(EscapeBoth(s[0]), Escape(s[1..]), "\"" + rest);
      ReadEscaped(s[0], Escape(s[1..]) + ("\"" + rest));
      assert [s[0]] + s[1..] == s;
    }
  }

  /** A client that reads the challenge as the standard prescribes. */
  function ReadChallenge(header: string): Option<(string, string)> {
    if !Text.StartsWith(header, LEAD + ['"']) then None else
    match ReadQuoted(header[|LEAD| + 1..])
    case None => None
    case Some((macaroon, rest)) =>
      if !Text.StartsWith(rest, MIDDLE + ['"']) then None else
      match ReadQuoted(rest[|MIDDLE| + 1..])
      case None => None
      case Some((invoice, end)) => if end == "" then Some((macaroon, invoice)) else None
  }

  lemma ReadAfterLead(lead: string, value: string, rest: string)
    ensures var s := Quote(lead, Escape(value)) + rest;
            Text.StartsWith(s, lead + ['"']) && ReadQuoted(s[|lead| + 1..]) == Some((value, rest))
  {
    var s := Quote(lead, Escape(value)) + rest;
    assert s[|lead| + 1..] == Escape(value) + (['"'] + rest);
    QuotedRoundTrip(value, rest);
  }

  /** Such a client recovers both values, whatever characters they contain. */
  lemma ChallengeRoundTrip(macaroon: string, invoice: string)
    ensures ReadChallenge(FormatChallenge(macaroon, invoice)) == Some((macaroon, invoice))
  {
    var second := Quote(MIDDLE, Escape(invoice));
    ReadAfterLead(LEAD, macaroon, second);
    ReadAfterLead(MIDDLE, invoice, "");
    assert second + "" == second;
  }

  // ---------------------------------------------------------------- the resolver's regular expressions

  /** The run of characters other than quotes at the start of s. */
  function UnquotedRun(s: string): string {
    Text.Before(s, '"')
  }

  /** A match of `name="([^"]+)"` at the start of s. */
  function CaptureHere(name: string, s: string): Option<string> {
    var lead := name + "=\"";
    if !Text.StartsWith(s, lead) then None else
    var value := UnquotedRun(s[|lead|..]);
    if |value| > 0 && |value| < |s[|lead|..]| then Some(value) else None
  }

  /** The leftmost match of `name="([^"]+)"` in s. */
  function Capture(name: string, s: string): Option<string> {
    match CaptureHere(name, s)
    case Some(value) => Some(value)
    case None => if |s| == 0 then None else Capture(name, s[1..])
  }

  predicate Plain(s: string) {
    '"' !in s && '\\' !in s
  }

  lemma {:induction false} EscapeOfOther(s: string, c: char)
    requires c !in s
    ensures EscapeChar(s, c) == s
  {
    if |s| > 0 {
      EscapeOfOther(s[1..], c);
    }
  }

  lemma EscapeOfPlain(s: string)
    requires Plain(s)
    ensures Escape(s) == s
  {
    EscapeOfOther(s, '\\');
    EscapeOfOther(s, '"');
  }

  /** No match starts where the first quote is out of place for it. */
  lemma NoCaptureHere(name: string, s: string, before: string, rest: string)
    requires '"' !in name && '"' !in before && s == before + ['"'] + rest && before != name + "="
    ensures CaptureHere(name, s).None?
  {
    var lead := name + "=\"";
    if Text.StartsWith(s, lead) {
      assert lead == (name + "=") + ['"'];
      assert s == (name + "=") + ['"'] + s[|lead|..];
      Text.SplitUnique(name + "=", before, '"', s[|lead|..], rest);
    }
  }

  lemma SuffixOfJoin(a: string, suffix: string)
    ensures Text.EndsWith(a + suffix, suffix)
  {
  }

  lemma TailEndsWith(s: string, suffix: string)
    requires |s| > 0
    ensures Text.EndsWith(s[1..], suffix) ==> Text.EndsWith(s, suffix)
  {
  }

  /** The search runs past text whose first quote is not preceded by the name. */
  lemma {:induction false} CaptureSkips(name: string, before: string, rest: string)
    requires '"' !in name && '"' !in before && !Text.EndsWith(before, name + "=")
    ensures Capture(name, before + ['"'] + rest) == Capture(name, rest)
  {
    var s := before + ['"'] + rest;
    SuffixOfJoin("", name + "=");
    assert "" + (name + "=") == name + "=";
    NoCaptureHere(name, s, before, rest);
    if |before| == 0 {
      assert s[1..] == rest;
    } else {
      assert s[1..] == before[1..] + ['"'] + rest;
      TailEndsWith(before, name + "=");
      CaptureSkips(name, before[1..], rest);
    }
  }

  /** The search stops where the name precedes the first quote, if there is a value to capture. */
  lemma {:induction false} CaptureStops(name: string, before: string, value: string, rest: string)
    requires '"' !in name && '"' !in before && Text.EndsWith(before, name + "=")
    requires '"' !in value && value != ""
    ensures Capture(name, before + ['"'] + value + ['"'] + rest) == Some(value)
  {
    var s := before + ['"'] + value + ['"'] + rest;
    var after := value + ['"'] + rest;
    assert s == before + ['"'] + after;
    if before == name + "=" {
      var lead := name + "=\"";
      assert s[..|lead|] == lead && s[|lead|..] == after;
      Text.BeforeSeparator(value, '"', rest);
    } else {
      NoCaptureHere(name, s, before, after);
      assert |before| > |name + "="|;
      assert s[1..] == before[1..] + ['"'] + value + ['"'] + rest;
      assert before[1..][|before| - 1 - |name + "="|..] == before[|before| - |name + "="|..];
      CaptureStops(name, before[1..], value, rest);
    }
  }

  /** The macaroon pattern always finds the macaroon of a challenge. */
  lemma MacaroonPatternRecovers(macaroon: string, invoice: string)
    requires Plain(macaroon) && Plain(invoice) && macaroon != ""
    ensures Capture("macaroon", FormatChallenge(macaroon, invoice)) == Some(macaroon)
  {
    EscapeOfPlain(macaroon);
    EscapeOfPlain(invoice);
    assert LEAD[5..] == "macaroon" + "=";
    CaptureStops("macaroon", LEAD, macaroon, Quote(MIDDLE, invoice));
  }

  /** A search whose first quote is out of place goes on behind that quote. */
  lemma CaptureGoesOn(name: string, lead: string, value: string, rest: string)
    requires '"' !in name && '"' !in lead && '"' !in value
    requires !Text.EndsWith(lead, name + "=") && !Text.EndsWith(value, name + "=")
    ensures Capture(name, Quote(lead, value) + rest) == Capture(name, rest)
  {
    QuoteThen(lead, value, rest);
    CaptureSkips(name, lead, value + ['"'] + rest);
    CaptureSkips(name, value, rest);
  }

  lemma QuoteThen(lead: string, value: string, rest: string)
    ensures Quote(lead, value) + rest == lead + ['"'] + (value + ['"'] + rest)
  {
  }

  /** A value that ends with the name is taken for the name: its closing quote opens the capture. */
  lemma CaptureMisled(name: string, lead: string, value: string, next: string, rest: string)
    requires '"' !in name && '"' !in lead && '"' !in value && '"' !in next && next != ""
    requires !Text.EndsWith(lead, name + "=") && Text.EndsWith(value, name + "=")
    ensures Capture(name, Quote(lead, value) + (next + ['"'] + rest)) == Some(next)
  {
    QuoteThen(lead, value, next + ['"'] + rest);
    CaptureSkips(name, lead, value + ['"'] + (next + ['"'] + rest));
    Regroup(value, next, rest);
    CaptureStops(name, value, next, rest);
  }

  lemma Regroup(value: string, next: string, rest: string)
    ensures value + ['"'] + (next + ['"'] + rest) == value + ['"'] + next + ['"'] + rest
  {
  }

  lemma LeadIsNoInvoice()
    ensures !Text.EndsWith(LEAD, "invoice" + "=") && Text.EndsWith(MIDDLE, "invoice" + "=")
  {
    assert LEAD[|LEAD| - 8] == 'a';
    assert LEAD[|LEAD| - 8..][0] == 'a';
    assert MIDDLE[2..] == "invoice" + "=";
  }

  /**
   For non-empty values without quotes and backslashes, the invoice pattern recovers the invoice
   unless the macaroon ends with "invoice="; if it does, the pattern matches at the macaroon's
   closing quote and captures the separator instead.
   */
  lemma InvoicePatternRecoversExactly(macaroon: string, invoice: string)
    requires Plain(macaroon) && Plain(invoice) && macaroon != "" && invoice != ""
    ensures Capture("invoice", FormatChallenge(macaroon, invoice))
         == Some(if Text.EndsWith(macaroon, "invoice" + "=") then MIDDLE else invoice)
  {
    EscapeOfPlain(macaroon);
    EscapeOfPlain(invoice);
    LeadIsNoInvoice();
    if Text.EndsWith(macaroon, "invoice" + "=") {
      CaptureMisled("invoice", LEAD, macaroon, MIDDLE, invoice + ['"']);
      assert MIDDLE + ['"'] + (invoice + ['"']) == Quote(MIDDLE, invoice);
    } else {
      CaptureGoesOn("invoice", LEAD, macaroon, Quote(MIDDLE, invoice));
      CaptureStops("invoice", MIDDLE, invoice, "");
      assert MIDDLE + ['"'] + invoice + ['"'] + "" == Quote(MIDDLE, invoice);
    }
  }

  /** An instance: the pattern captures the separator between the two values. */
  lemma InvoicePatternMisled()
    ensures Capture("invoice", FormatChallenge("invoice=", "lnbc1")) == Some(", invoice=")
  {
    assert "invoice="[0..] == "invoice" + "=";
    InvoicePatternRecoversExactly("invoice=", "lnbc1");
  }
}
