/**
 The L402 payment gate in front of a priced operation: it challenges, verifies, and lets a
 paid request through; a 2xx answer consumes the payment. `Gate` drives the payment ledger
 step by step; the functions below say what it does to the ledger's rows.
 */
module L402Gate {
  import opened Outcomes
  import opened L402Token
  import Text

  // ---------------------------------------------------------------- the payment ledger

  datatype PaymentState = Pending | Paid | Consumed | Expired | Failed

  /** Persisted payment states by payment hash. */
  type Ledger = map<string, PaymentState>

  predicate CanMove(from: PaymentState, to: PaymentState) {
    || from == to
    || (from == Pending && (to == Paid || to == Expired || to == Failed))
    || (from == Paid && to == Consumed)
  }

  /** A forbidden transition throws; a payment without a row is left alone. */
  function Transition(rows: Ledger, hash: string, to: PaymentState): Option<Ledger> {
    if hash !in rows then Some(rows)
    else if CanMove(rows[hash], to) then Some(rows[hash := to])
    else None
  }

  function StateOf(rows: Ledger, hash: string): PaymentState {
    if hash in rows then rows[hash] else Pending
  }

  /** Marking consumed: a payment still pending is settled on the way. On an exception, the rows written so far stay. */
  function MarkConsumed(rows: Ledger, hash: string): Ledger {
    match Transition(rows, hash, Consumed)
    case Some(next) => next
    case None => if rows[hash] == Pending then rows[hash := Consumed] else rows
  }

  // ---------------------------------------------------------------- the outside world

  datatype Invoice = Invoice(hash: string, paymentRequest: string, expiresAt: int)

  datatype InvoiceReply = NoInvoice | Issued(invoice: Invoice)

  datatype VerificationReply = NoVerification | Reports(status: PaymentState)

  /** Token serialisation, the server's secret, and what clock and payment provider say to one request. */
  datatype World = World(
    encode: Macaroon -> string,
    decode: string -> Option<Macaroon>,
    secret: string,
    now: int,
    invoice: InvoiceReply,
    verification: VerificationReply)
  {
    /** The provider never reports a payment as consumed. */
    predicate Sane() { verification.Reports? ==> verification.status != Consumed }
  }

  datatype Reason = Initial | InvalidCredentials | StillPending | InvoiceExpired | PaymentFailed

  datatype Verdict =
    | Pass(paidWith: Option<string>)
    | AlreadyConsumed
    | ProviderUnavailable
    | Challenge(reason: Reason, token: Macaroon, header: string)
    | Fault

  const TOKEN_TTL_MS := 60 * 60 * 1000
  const MAX_TOKEN_TTL_MS := 24 * 60 * 60 * 1000

  function Min(a: int, b: int): int { if a <= b then a else b }

  function TokenExpiry(invoice: Invoice, now: int): int {
    Min(Min(invoice.expiresAt, now + TOKEN_TTL_MS), now + MAX_TOKEN_TTL_MS)
  }

  /** A new invoice gets a pending row, and a row for its hash must not exist yet. */
  function IssueChallenge(rows: Ledger, w: World, r: Request, amount: int, reason: Reason): (Ledger, Verdict) {
    match w.invoice
    case NoInvoice => (rows, ProviderUnavailable)
    case Issued(invoice) =>
      if invoice.hash in rows then (rows, Fault) else
      var token := Mint(invoice.hash, w.secret, r, amount, TokenExpiry(invoice, w.now));
      (rows[invoice.hash := Pending],
          Challenge(reason, token, FormatChallenge(w.encode(token), invoice.paymentRequest)))
  }

  /** The payment hash of a genuine, fitting and unexpired token. */
  function TokenHash(w: World, credentials: Credentials, r: Request, amount: int): Option<string> {
    match w.decode(credentials.macaroon)
    case None => None
    case Some(m) => if m.identifier == "" then None else Verify(m, w.secret, m.identifier, r, amount, w.now)
  }

  /** What the ledger becomes when the provider's report has been observed; None is an exception. */
  function Observe(rows: Ledger, hash: string, status: PaymentState): Option<Ledger> {
    match status
    case Pending => Some(rows)
    case Paid => Transition(rows, hash, Paid)
    case _ => match Transition(rows, hash, status)
      case Some(next) => Some(next)
      case None => Some(rows)
  }

  /** What the Authorization header amounts to. */
  datatype Presented = Nothing | Unfit | Token(hash: string)

  function Present(w: World, header: Option<string>, r: Request, amount: int): Presented {
    match ParseAuthorization(header)
    case None => Nothing
    case Some(credentials) =>
      match TokenHash(w, credentials, r, amount)
      case None => Unfit
      case Some(hash) => Token(hash)
  }

  /** The gate's answer to a priced request, by the state of the payment presented. */
  function Decide(rows: Ledger, w: World, r: Request, amount: int, presented: Presented): (Ledger, Verdict) {
    match presented
    case Nothing => IssueChallenge(rows, w, r, amount, Initial)
    case Unfit => IssueChallenge(rows, w, r, amount, InvalidCredentials)
    case Token(hash) =>
      match StateOf(rows, hash)
      case Consumed => (rows, AlreadyConsumed)
      case Expired => IssueChallenge(rows, w, r, amount, InvoiceExpired)
      case Failed => IssueChallenge(rows, w, r, amount, PaymentFailed)
      case _ =>
        match w.verification
        case NoVerification => (rows, ProviderUnavailable)
        case Reports(status) => Follow(rows, w, r, amount, hash, status)
  }

  /** What follows from the provider's report. */
  function Follow(
      rows: Ledger, w: World, r: Request, amount: int, hash: string, status: PaymentState): (Ledger, Verdict) {
    match Observe(rows, hash, status)
    case None => (rows, Fault)
    case Some(observed) =>
      match status
      case Paid =>
        (match Transition(observed, hash, Paid)
         case None => (observed, Fault)
         case Some(verified) => (verified, Pass(Some(hash))))
      case Expired => IssueChallenge(observed, w, r, amount, InvoiceExpired)
      case Failed => IssueChallenge(observed, w, r, amount, PaymentFailed)
      case _ => IssueChallenge(observed, w, r, amount, StillPending)
  }

  predicate Priced(price: Option<real>) { price.Some? && price.value > 0.0 }

  function Enforce(rows: Ledger, w: World, price: Option<real>, header: Option<string>, r: Request): (Ledger, Verdict) {
    if !Priced(price) then (rows, Pass(None)) else
    var amount := NormalizePrice(price.value);
    Decide(rows, w, r, amount, Present(w, header, r, amount))
  }

  predicate Successful(status: int) { 200 <= status < 300 }

  /** The finish rule: a 2xx answer consumes the payment the request passed with. */
  function Finish(decision: (Ledger, Verdict), status: int): (Ledger, Verdict) {
    if decision.1.Pass? && decision.1.paidWith.Some? && Successful(status)
    then (MarkConsumed(decision.0, decision.1.paidWith.value), decision.1)
    else decision
  }

  /** A request through the gate and its handler, with the status the handler answers with. */
  datatype Call = Call(w: World, price: Option<real>, header: Option<string>, r: Request, handlerStatus: int)

  function Serve(rows: Ledger, c: Call): (Ledger, Verdict) {
    Finish(Enforce(rows, c.w, c.price, c.header, c.r), c.handlerStatus)
  }

  // ---------------------------------------------------------------- the gate itself

  class Gate {
    var rows: Ledger

    constructor ()
      ensures rows == map[]
    {
      rows := map[];
    }

    method TransitionPayment(hash: string, to: PaymentState) returns (ok: bool)
      modifies this
      ensures Transition(old(rows), hash, to) == if ok then Some(rows) else None
      ensures !ok ==> rows == old(rows)
      ensures ok <==> hash !in old(rows) || old(rows)[hash] == to || Moves(old(rows)[hash], to)
    {
      if hash !in rows {
        return true;
      }
      if !CanMove(rows[hash], to) {
        return false;
      }
      rows := rows[hash := to];
      ok := true;
    }

    method ConsumePayment(hash: string)
      modifies this
      ensures rows == MarkConsumed(old(rows), hash)
    {
      var wasPending := hash in rows && rows[hash] == Pending;
      var ok := TransitionPayment(hash, Consumed);
      if !ok && wasPending {
        ok := TransitionPayment(hash, Paid);
        ok := TransitionPayment(hash, Consumed);
      }
    }

    method CreateChallenge(w: World, r: Request, amount: int, reason: Reason) returns (v: Verdict)
      modifies this
      ensures (rows, v) == IssueChallenge(old(rows), w, r, amount, reason)
    {
      if w.invoice.NoInvoice? {
        return ProviderUnavailable;
      }
      var invoice := w.invoice.invoice;
      if invoice.hash in rows {
        return Fault;
      }
      rows := rows[invoice.hash := Pending];
      var token := Mint(invoice.hash, w.secret, r, amount, TokenExpiry(invoice, w.now));
      v := Challenge(reason, token, FormatChallenge(w.encode(token), invoice.paymentRequest));
    }

    /** What the provider reports is observed in the ledger, and decides. */
    method FollowReport(w: World, r: Request, amount: int, hash: string, status: PaymentState) returns (v: Verdict)
      modifies this
      ensures (rows, v) == Follow(old(rows), w, r, amount, hash, status)
    {
      if status == Paid {
        var observed := TransitionPayment(hash, Paid);
        if !observed {
          return Fault;
        }
        var verified := TransitionPayment(hash, Paid);
        return if verified then Pass(Some(hash)) else Fault;
      }
      if status != Pending {
        var ignored := TransitionPayment(hash, status);
      }
      v := CreateChallenge(w, r, amount,
        if status == Expired then InvoiceExpired else if status == Failed then PaymentFailed else StillPending);
    }

    method EnforcePayment(w: World, price: Option<real>, header: Option<string>, r: Request) returns (v: Verdict)
      modifies this
      ensures (rows, v) == Enforce(old(rows), w, price, header, r)
    {
      if !Priced(price) {
        return Pass(None);
      }
      var amount := NormalizePrice(price.value);
      var credentials := ParseAuthorization(header);
      if credentials.None? {
        v := CreateChallenge(w, r, amount, Initial);
        return;
      }
      var hash := TokenHash(w, credentials.value, r, amount);
      if hash.None? {
        v := CreateChallenge(w, r, amount, InvalidCredentials);
        return;
      }
      v := JudgePayment(w, r, amount, hash.value);
    }

    /** The answer to a fitting token, by the state of its payment. */
    method JudgePayment(w: World, r: Request, amount: int, hash: string) returns (v: Verdict)
      modifies this
      ensures (rows, v) == Decide(old(rows), w, r, amount, Token(hash))
    {
      var initial := StateOf(rows, hash);
      if initial == Consumed {
        return AlreadyConsumed;
      }
      if initial == Expired || initial == Failed {
        v := CreateChallenge(w, r, amount, if initial == Expired then InvoiceExpired else PaymentFailed);
        return;
      }
      if w.verification.NoVerification? {
        return ProviderUnavailable;
      }
      v := FollowReport(w, r, amount, hash, w.verification.status);
    }

    /** The middleware: the payment is consumed once the handler's answer turns out to be a 2xx. */
    method Handle(c: Call) returns (v: Verdict)
      modifies this
      ensures (rows, v) == Serve(old(rows), c)
    {
      v := EnforcePayment(c.w, c.price, c.header, c.r);
      if v.Pass? && v.paidWith.Some? && Successful(c.handlerStatus) {
        ConsumePayment(v.paidWith.value);
      }
    }
  }

  // ---------------------------------------------------------------- who gets through

  /** The payment hash a priced request presents a fitting token for. */
  function Presenting(c: Call): Presented {
    if Priced(c.price) then Present(c.w, c.header, c.r, NormalizePrice(c.price.value)) else Nothing
  }

  lemma DecidesToPassExactly(rows: Ledger, w: World, r: Request, amount: int, presented: Presented)
    ensures var (next, verdict) := Decide(rows, w, r, amount, presented);
            && (verdict.Pass? <==>
                presented.Token? && StateOf(rows, presented.hash) in {Pending, Paid} && w.verification == Reports(Paid))
            && (verdict.Pass? ==> verdict == Pass(Some(presented.hash))
                                  && next == if presented.hash in rows then rows[presented.hash := Paid] else rows)
  {
  }

  /**
   The protected handler runs exactly when the operation has no positive price, or the request
   presents a fitting token whose payment is neither consumed, expired nor failed and the
   provider says it is paid.
   */
  lemma PassesExactly(rows: Ledger, c: Call)
    ensures var verdict := Serve(rows, c).1;
            && (verdict == Pass(None) <==> !Priced(c.price))
            && (forall hash :: verdict == Pass(Some(hash)) <==>
                  Priced(c.price) && Presenting(c) == Token(hash) && StateOf(rows, hash) in {Pending, Paid}
                      && c.w.verification == Reports(Paid))
            && (forall hash :: verdict == Pass(Some(hash)) ==>
                  Enforce(rows, c.w, c.price, c.header, c.r).0 == if hash in rows then rows[hash := Paid] else rows)
  {
    if Priced(c.price) {
      DecidesToPassExactly(rows, c.w, c.r, NormalizePrice(c.price.value), Presenting(c));
    }
  }

  // ---------------------------------------------------------------- the gate case by case

  /** The four moves a payment can make. */
  ghost predicate Moves(from: PaymentState, to: PaymentState) {
    (from, to) in {(Pending, Paid), (Pending, Expired), (Pending, Failed), (Paid, Consumed)}
  }

  /** Besides staying, a payment makes one of the four moves, and no other; a payment without a row makes none. */
  lemma PaymentMoves(rows: Ledger, hash: string, to: PaymentState)
    ensures Transition(rows, hash, to)
         == if hash !in rows || rows[hash] == to then Some(rows)
            else if Moves(rows[hash], to) then Some(rows[hash := to])
            else None
    ensures MarkConsumed(rows, hash)
         == if hash in rows && rows[hash] != Expired && rows[hash] != Failed then rows[hash := Consumed] else rows
  {
    assert hash in rows && rows[hash] == to ==> rows[hash := to] == rows;
  }

  /** A token lives as long as its invoice, but at most an hour. */
  function Lifetime(invoice: Invoice, now: int): int {
    if invoice.expiresAt <= now + 3_600_000 then invoice.expiresAt else now + 3_600_000
  }

  /** The answer is a new invoice and its token, on a ledger that gains the invoice's pending row. */
  ghost predicate Challenged(
      rows: Ledger, w: World, r: Request, amount: int, reason: Reason, next: Ledger, verdict: Verdict) {
    match w.invoice
    case NoInvoice => next == rows && verdict == ProviderUnavailable
    case Issued(invoice) =>
      if invoice.hash in rows then next == rows && verdict == Fault
      else
        && next == rows[invoice.hash := Pending]
        && verdict.Challenge? && verdict.reason == reason
        && verdict.token == Mint(invoice.hash, w.secret, r, amount, Lifetime(invoice, w.now))
        && verdict.header == FormatChallenge(w.encode(verdict.token), invoice.paymentRequest)
  }

  /** What the gate does with a fitting token, by the payment's row and the provider's report. */
  ghost predicate Judged(
      rows: Ledger, w: World, r: Request, amount: int, hash: string, next: Ledger, verdict: Verdict) {
    var state := if hash in rows then rows[hash] else Pending;
    if state == Consumed then next == rows && verdict == AlreadyConsumed
    else if state == Expired then Challenged(rows, w, r, amount, InvoiceExpired, next, verdict)
    else if state == Failed then Challenged(rows, w, r, amount, PaymentFailed, next, verdict)
    else if w.verification == NoVerification then next == rows && verdict == ProviderUnavailable
    else if w.verification == Reports(Paid) then
      next == (if hash in rows then rows[hash := Paid] else rows) && verdict == Pass(Some(hash))
    else
      var observed := if hash in rows && state == Pending then rows[hash := w.verification.status] else rows;
      Challenged(observed, w, r, amount,
                 if w.verification == Reports(Expired) then InvoiceExpired
                 else if w.verification == Reports(Failed) then PaymentFailed
                 else StillPending, next, verdict)
  }

  lemma IssuedByCases(rows: Ledger, w: World, r: Request, amount: int, reason: Reason)
    ensures var (next, verdict) := IssueChallenge(rows, w, r, amount, reason);
            Challenged(rows, w, r, amount, reason, next, verdict)
  {
  }

  lemma FollowedByCases(rows: Ledger, w: World, r: Request, amount: int, hash: string)
    requires w.Sane() && w.verification.Reports? && (hash in rows ==> rows[hash] in {Pending, Paid})
    ensures var (next, verdict) := Follow(rows, w, r, amount, hash, w.verification.status);
            Judged(rows, w, r, amount, hash, next, verdict)
  {
    var status := w.verification.status;
    PaymentMoves(rows, hash, status);
    var observed := if hash in rows && rows[hash] == Pending then rows[hash := status] else rows;
    if status != Paid {
      assert Observe(rows, hash, status) == Some(observed);
      IssuedByCases(observed, w, r, amount,
                    if status == Expired then InvoiceExpired else if status == Failed then PaymentFailed
                    else StillPending);
    }
  }

  /** Every decision of the gate on a priced request, and what it leaves in the ledger. */
  lemma DecidedByCases(rows: Ledger, w: World, r: Request, amount: int, presented: Presented)
    requires w.Sane()
    ensures var (next, verdict) := Decide(rows, w, r, amount, presented);
            match presented
            case Nothing => Challenged(rows, w, r, amount, Initial, next, verdict)
            case Unfit => Challenged(rows, w, r, amount, InvalidCredentials, next, verdict)
            case Token(hash) => Judged(rows, w, r, amount, hash, next, verdict)
  {
    IssuedByCases(rows, w, r, amount, Initial);
    IssuedByCases(rows, w, r, amount, InvalidCredentials);
    IssuedByCases(rows, w, r, amount, InvoiceExpired);
    IssuedByCases(rows, w, r, amount, PaymentFailed);
    if presented.Token? && StateOf(rows, presented.hash) in {Pending, Paid} && w.verification.Reports? {
      FollowedByCases(rows, w, r, amount, presented.hash);
    }
  }

  /** A free operation passes; a priced one is decided, and a 2xx answer then consumes the payment it passed with. */
  lemma ServedByCases(rows: Ledger, c: Call)
    ensures var (next, verdict) := Serve(rows, c);
            if c.price == None || c.price.value <= 0.0 then next == rows && verdict == Pass(None)
            else
              var (decided, answer) := Decide(rows, c.w, c.r, NormalizePrice(c.price.value), Presenting(c));
              && verdict == answer
              && next == if answer.Pass? && answer.paidWith.Some? && 200 <= c.handlerStatus < 300
                            && answer.paidWith.value in decided && !Lost(decided[answer.paidWith.value])
                         then decided[answer.paidWith.value := Consumed] else decided
  {
    if Priced(c.price) {
      var (decided, answer) := Decide(rows, c.w, c.r, NormalizePrice(c.price.value), Presenting(c));
      if answer.Pass? && answer.paidWith.Some? {
        PaymentMoves(decided, answer.paidWith.value, Consumed);
      }
    }
  }

  /** One call moves no row but that of the payment presented; new rows are those of new invoices, pending. */
  lemma OnlyPresentedRowMoves(rows: Ledger, c: Call, hash: string)
    requires c.w.Sane()
    ensures var next := Serve(rows, c).0;
            && (hash in rows ==> hash in next)
            && (hash in next && hash !in rows ==>
                  c.w.invoice.Issued? && c.w.invoice.invoice.hash == hash && next[hash] == Pending)
            && (hash in rows && next[hash] != rows[hash] ==>
                  && Priced(c.price) && Presenting(c) == Token(hash) && rows[hash] in {Pending, Paid}
                  && c.w.verification.Reports?
                  && (next[hash] == c.w.verification.status
                      || (next[hash] == Consumed && c.w.verification.status == Paid && Successful(c.handlerStatus))))
  {
    ServedByCases(rows, c);
    if Priced(c.price) {
      DecidedByCases(rows, c.w, c.r, NormalizePrice(c.price.value), Presenting(c));
    }
  }

  // ---------------------------------------------------------------- lost payments

  predicate Lost(state: PaymentState) { state == Expired || state == Failed }

  /** The provider's report of an expired or failed invoice is what a pending row says from then on. */
  lemma ReportIsKept(rows: Ledger, c: Call, hash: string)
    requires Priced(c.price) && Presenting(c) == Token(hash) && hash in rows && rows[hash] == Pending
    requires c.w.verification == Reports(Expired) || c.w.verification == Reports(Failed)
    ensures var (next, verdict) := Serve(rows, c);
            && hash in next && next[hash] == c.w.verification.status
            && !verdict.Pass? && verdict != AlreadyConsumed
  {
    ServedByCases(rows, c);
    DecidedByCases(rows, c.w, c.r, NormalizePrice(c.price.value), Presenting(c));
  }

  lemma LostStays(rows: Ledger, c: Call, hash: string)
    requires c.w.Sane() && hash in rows && Lost(rows[hash])
    ensures var (next, verdict) := Serve(rows, c);
            hash in next && next[hash] == rows[hash] && verdict != Pass(Some(hash))
  {
    PassesExactly(rows, c);
    OnlyPresentedRowMoves(rows, c, hash);
  }

  /** No call of the run passes with the payment. */
  ghost predicate NeverPasses(rows: Ledger, calls: seq<Call>, hash: string) {
    forall k :: 0 <= k < |calls| ==> Serve(RunCalls(rows, calls[..k]), calls[k]).1 != Pass(Some(hash))
  }

  lemma NeverPassesGrows(rows: Ledger, calls: seq<Call>, hash: string)
    requires |calls| > 0 && NeverPasses(rows, calls[..|calls| - 1], hash)
    requires Serve(RunCalls(rows, calls[..|calls| - 1]), calls[|calls| - 1]).1 != Pass(Some(hash))
    ensures NeverPasses(rows, calls, hash)
  {
    var init := calls[..|calls| - 1];
    forall k | 0 <= k < |calls| ensures Serve(RunCalls(rows, calls[..k]), calls[k]).1 != Pass(Some(hash)) {
      if k < |calls| - 1 {
        assert init[..k] == calls[..k] && init[k] == calls[k];
      }
    }
  }

  lemma {:induction false} RunKeepsLost(rows: Ledger, calls: seq<Call>, hash: string)
    requires hash in rows && Lost(rows[hash]) && forall k :: 0 <= k < |calls| ==> calls[k].w.Sane()
    ensures hash in RunCalls(rows, calls) && RunCalls(rows, calls)[hash] == rows[hash]
    ensures NeverPasses(rows, calls, hash)
  {
    if |calls| > 0 {
      var init := calls[..|calls| - 1];
      RunKeepsLost(rows, init, hash);
      LostStays(RunCalls(rows, init), calls[|calls| - 1], hash);
      NeverPassesGrows(rows, calls, hash);
    }
  }

  /**
   Once the provider has reported a pending payment expired or failed, its row says so for good, and
   no later call passes with it, not even if the provider should call it paid.
   */
  lemma LostPaymentNeverPasses(rows: Ledger, c: Call, later: seq<Call>, hash: string)
    requires Priced(c.price) && Presenting(c) == Token(hash) && hash in rows && rows[hash] == Pending
    requires c.w.verification == Reports(Expired) || c.w.verification == Reports(Failed)
    requires forall k :: 0 <= k < |later| ==> later[k].w.Sane()
    ensures var next := Serve(rows, c).0;
            && hash in RunCalls(next, later) && RunCalls(next, later)[hash] == c.w.verification.status
            && NeverPasses(next, later, hash)
  {
    ReportIsKept(rows, c, hash);
    RunKeepsLost(Serve(rows, c).0, later, hash);
  }

  // ---------------------------------------------------------------- one success per payment

  /** A priced request answered 2xx on the strength of `hash`. */
  predicate Redeems(rows: Ledger, c: Call, hash: string) {
    Serve(rows, c).1 == Pass(Some(hash)) && Successful(c.handlerStatus)
  }

  function RunCalls(rows: Ledger, calls: seq<Call>): Ledger {
    if |calls| == 0 then rows else Serve(RunCalls(rows, calls[..|calls| - 1]), calls[|calls| - 1]).0
  }

  function Redemptions(rows: Ledger, calls: seq<Call>, hash: string): nat {
    if |calls| == 0 then 0 else
    var init := calls[..|calls| - 1];
    Redemptions(rows, init, hash) + (if Redeems(RunCalls(rows, init), calls[|calls| - 1], hash) then 1 else 0)
  }

  lemma IssueKeepsRows(rows: Ledger, w: World, r: Request, amount: int, reason: Reason, hash: string)
    requires hash in rows
    ensures var (next, verdict) := IssueChallenge(rows, w, r, amount, reason);
            hash in next && next[hash] == rows[hash] && !verdict.Pass?
  {
  }

  lemma FollowKeepsRows(
      rows: Ledger, w: World, r: Request, amount: int, presented: string, status: PaymentState, hash: string)
    requires hash in rows && status != Consumed && StateOf(rows, presented) in {Pending, Paid}
    ensures var (next, verdict) := Follow(rows, w, r, amount, presented, status);
            && hash in next
            && (rows[hash] == Consumed ==> next[hash] == Consumed && verdict != Pass(Some(hash)))
            && (verdict == Pass(Some(hash)) ==> next[hash] == Paid)
  {
  }

  lemma DecisionKeepsRows(rows: Ledger, w: World, r: Request, amount: int, presented: Presented, hash: string)
    requires w.Sane() && hash in rows
    ensures var (next, verdict) := Decide(rows, w, r, amount, presented);
            && hash in next
            && (rows[hash] == Consumed ==> next[hash] == Consumed && verdict != Pass(Some(hash)))
            && (verdict == Pass(Some(hash)) ==> next[hash] == Paid)
  {
    match presented
    case Nothing => IssueKeepsRows(rows, w, r, amount, Initial, hash);
    case Unfit => IssueKeepsRows(rows, w, r, amount, InvalidCredentials, hash);
    case Token(shown) =>
      match StateOf(rows, shown)
      case Consumed =>
      case Expired => IssueKeepsRows(rows, w, r, amount, InvoiceExpired, hash);
      case Failed => IssueKeepsRows(rows, w, r, amount, PaymentFailed, hash);
      case _ =>
        if w.verification.Reports? {
          FollowKeepsRows(rows, w, r, amount, shown, w.verification.status, hash);
        }
  }

  /** A consumed payment stays consumed and is refused; rows never disappear. */
  lemma ConsumedIsFinal(rows: Ledger, c: Call, hash: string)
    requires c.w.Sane() && hash in rows
    ensures hash in Serve(rows, c).0
    ensures rows[hash] == Consumed ==> Serve(rows, c).0[hash] == Consumed && !Redeems(rows, c, hash)
    ensures Redeems(rows, c, hash) ==> Serve(rows, c).0[hash] == Consumed
  {
    if Priced(c.price) {
      DecisionKeepsRows(rows, c.w, c.r, NormalizePrice(c.price.value), Presenting(c), hash);
    }
  }

  lemma {:induction false} RedeemedAtMostOnce(rows: Ledger, calls: seq<Call>, hash: string)
    requires hash in rows && forall k :: 0 <= k < |calls| ==> calls[k].w.Sane()
    ensures hash in RunCalls(rows, calls)
    ensures Redemptions(rows, calls, hash) + (if rows[hash] == Consumed then 1 else 0) <= 1
    ensures Redemptions(rows, calls, hash) == 1 || rows[hash] == Consumed ==> RunCalls(rows, calls)[hash] == Consumed
  {
    if |calls| > 0 {
      RedeemedAtMostOnce(rows, calls[..|calls| - 1], hash);
      ConsumedIsFinal(RunCalls(rows, calls[..|calls| - 1]), calls[|calls| - 1], hash);
    }
  }

  /** A genuine token presented carries the hash of a payment with a ledger row. */
  predicate Unforged(rows: Ledger, c: Call) {
    ParseAuthorization(c.header).Some? ==>
      match c.w.decode(ParseAuthorization(c.header).value.macaroon)
      case None => true
      case Some(m) => m.signature == Sign(c.w.secret, m.identifier, m.caveats) ==> m.identifier in rows
  }

  /** The tokens handed out in the challenges of a run. */
  function Handed(rows: Ledger, calls: seq<Call>): seq<Macaroon> {
    if |calls| == 0 then [] else
    var init := calls[..|calls| - 1];
    var verdict := Serve(RunCalls(rows, init), calls[|calls| - 1]).1;
    Handed(rows, init) + (if verdict.Challenge? then [verdict.token] else [])
  }

  /** Callers know the tokens handed out to anybody so far, and not the secret. */
  predicate WithinReach(c: Call, secret: string, handed: seq<Macaroon>) {
    ParseAuthorization(c.header).Some? ==>
      match c.w.decode(ParseAuthorization(c.header).value.macaroon)
      case None => true
      case Some(m) => Derivable(m.signature, secret, handed)
  }

  /** Without a header, with one that cannot be read, or with any token handed out, anybody can call. */
  lemma CallersReach(c: Call, secret: string, handed: seq<Macaroon>)
    ensures ParseAuthorization(c.header) == None ==> WithinReach(c, secret, handed)
    ensures forall m :: ParseAuthorization(c.header) == Some(m) && c.w.decode(m.macaroon) == None ==>
              WithinReach(c, secret, handed)
    ensures forall m, t :: ParseAuthorization(c.header) == Some(m) && c.w.decode(m.macaroon) == Some(t)
                           && t in handed ==>
              WithinReach(c, secret, handed)
  {
  }

  /** A run of a gate with one secret, whose callers present what is within their reach. */
  ghost predicate HonestRun(rows: Ledger, secret: string, calls: seq<Call>) {
    |calls| > 0 ==>
      var init, c := calls[..|calls| - 1], calls[|calls| - 1];
      HonestRun(rows, secret, init) && c.w.Sane() && c.w.secret == secret && WithinReach(c, secret, Handed(rows, init))
  }

  /** Every token handed out is genuine, and its payment has a row. */
  lemma {:induction false} HandedHaveRows(rows: Ledger, secret: string, calls: seq<Call>)
    requires HonestRun(rows, secret, calls)
    ensures forall k :: 0 <= k < |Handed(rows, calls)| ==>
      var m := Handed(rows, calls)[k];
      m.signature == Sign(secret, m.identifier, m.caveats) && m.identifier in RunCalls(rows, calls)
  {
    if |calls| > 0 {
      var init, c := calls[..|calls| - 1], calls[|calls| - 1];
      HandedHaveRows(rows, secret, init);
      var before := RunCalls(rows, init);
      forall m | m in Handed(rows, calls)
        ensures m.signature == Sign(secret, m.identifier, m.caveats) && m.identifier in RunCalls(rows, calls)
      {
        if m in Handed(rows, init) {
          ConsumedIsFinal(before, c, m.identifier);
        } else {
          ChallengeIssuesToken(before, c);
        }
      }
    }
  }

  /** So nobody can present a genuine token for a payment without a row. */
  lemma ReachIsUnforged(rows: Ledger, secret: string, calls: seq<Call>, c: Call)
    requires HonestRun(rows, secret, calls) && c.w.secret == secret && WithinReach(c, secret, Handed(rows, calls))
    ensures Unforged(RunCalls(rows, calls), c)
  {
    HandedHaveRows(rows, secret, calls);
    if ParseAuthorization(c.header).Some? {
      var m := c.w.decode(ParseAuthorization(c.header).value.macaroon);
      if m.Some? && m.value.signature == Sign(secret, m.value.identifier, m.value.caveats) {
        GenuineIsHanded(secret, m.value.identifier, m.value.caveats, Handed(rows, calls));
      }
    }
  }

  lemma PresentedHashIsIdentifier(w: World, header: Option<string>, r: Request, amount: int)
    requires Present(w, header, r, amount).Token?
    ensures ParseAuthorization(header).Some?
    ensures var m := w.decode(ParseAuthorization(header).value.macaroon);
            && m.Some? && m.value.signature == Sign(w.secret, m.value.identifier, m.value.caveats)
            && Present(w, header, r, amount).hash == m.value.identifier
  {
  }

  lemma RedeemedHashHasRow(rows: Ledger, c: Call, hash: string)
    requires Unforged(rows, c) && Redeems(rows, c, hash)
    ensures hash in rows
  {
    PassesExactly(rows, c);
    PresentedHashIsIdentifier(c.w, c.header, c.r, NormalizePrice(c.price.value));
  }

  /**
   Over every sequential run of a gate that starts with an empty ledger, each payment hash yields
   at most one 2xx answer to a priced request, whatever callers without the secret make of the
   tokens handed out.
   */
  lemma {:induction false} EachPaymentBuysOneSuccess(secret: string, calls: seq<Call>, hash: string)
    requires HonestRun(map[], secret, calls)
    ensures Redemptions(map[], calls, hash) <= 1
    ensures Redemptions(map[], calls, hash) == 1 ==>
        hash in RunCalls(map[], calls) && RunCalls(map[], calls)[hash] == Consumed
  {
    if |calls| > 0 {
      var init := calls[..|calls| - 1];
      EachPaymentBuysOneSuccess(secret, init, hash);
      var before, c := RunCalls(map[], init), calls[|calls| - 1];
      if Redeems(before, c, hash) {
        ReachIsUnforged(map[], secret, init, c);
        RedeemedHashHasRow(before, c, hash);
      }
      if hash in before {
        ConsumedIsFinal(before, c, hash);
      }
    }
  }

  /**
   The row is what makes a payment single-use: a redeemed hash is consumed exactly if it had one, and
   can be redeemed again otherwise.
   */
  lemma LostRowsAreReplayable(rows: Ledger, c: Call, hash: string)
    requires Redeems(rows, c, hash)
    ensures var next := Serve(rows, c).0;
            && (hash in rows <==> StateOf(next, hash) == Consumed)
            && (hash !in rows <==> Redeems(next, c, hash))
  {
    PassesExactly(rows, c);
    PassesExactly(Serve(rows, c).0, c);
  }

  /** A token that verifies, sent in a well-formed header, is presented. */
  lemma VerifiedIsPresented(w: World, m: Macaroon, text: string, preimage: string, r: Request, amount: int)
    requires text != "" && Text.Trimmed(text) && ':' !in text
    requires preimage != "" && Text.Trimmed(preimage) && ':' !in preimage
    requires w.decode(text) == Some(m) && m.identifier != ""
    requires Verify(m, w.secret, m.identifier, r, amount, w.now) == Some(m.identifier)
    ensures Present(w, Some(PrintAuthorization(text, preimage)), r, amount) == Token(m.identifier)
  {
    AuthorizationRoundTrip(text, preimage);
  }

  lemma MintedIsPresented(c: Call, hash: string, expiresAt: int, text: string, preimage: string)
    requires text != "" && Text.Trimmed(text) && ':' !in text
    requires preimage != "" && Text.Trimmed(preimage) && ':' !in preimage
    requires Priced(c.price) && hash != "" && c.w.now <= expiresAt
    requires c.w.decode(text) == Some(Mint(hash, c.w.secret, c.r, NormalizePrice(c.price.value), expiresAt))
    requires c.header == Some(PrintAuthorization(text, preimage))
    ensures Presenting(c) == Token(hash)
  {
    var amount := NormalizePrice(c.price.value);
    MintedTokenVerifiesExactly(hash, c.w.secret, c.r, amount, expiresAt, c.r, amount, c.w.now);
    VerifiedIsPresented(c.w, Mint(hash, c.w.secret, c.r, amount, expiresAt), text, preimage, c.r, amount);
  }

  /** A request that presents a token minted for it and that the provider calls paid. */
  function PaidCall(text: string, preimage: string, hash: string, secret: string, r: Request): Call {
    var token := Mint(hash, secret, r, NormalizePrice(5.0), 100);
    var w := World(m => "", s => if s == text then Some(token) else None, secret, 7, NoInvoice, Reports(Paid));
    Call(w, Some(5.0), Some(PrintAuthorization(text, preimage)), r, 201)
  }

  /** A fit token for a payment the provider calls paid is redeemed even without a row. */
  lemma TokenRedeems(c: Call, hash: string)
    requires Priced(c.price) && Presenting(c) == Token(hash) && c.w.verification == Reports(Paid)
    requires Successful(c.handlerStatus)
    ensures Redeems(map[], c, hash) && Redeems(Serve(map[], c).0, c, hash)
  {
    PassesExactly(map[], c);
    LostRowsAreReplayable(map[], c, hash);
  }

  lemma PaidCallRedeemsTwice(text: string, preimage: string, hash: string, secret: string, r: Request)
    requires text != "" && Text.Trimmed(text) && ':' !in text && hash != ""
    requires preimage != "" && Text.Trimmed(preimage) && ':' !in preimage
    ensures var c := PaidCall(text, preimage, hash, secret, r);
            hash !in Serve(map[], c).0 && Redeems(map[], c, hash) && Redeems(Serve(map[], c).0, c, hash)
  {
    var c := PaidCall(text, preimage, hash, secret, r);
    MintedIsPresented(c, hash, 100, text, preimage);
    TokenRedeems(c, hash);
    LostRowsAreReplayable(map[], c, hash);
  }

  /** An instance: an empty ledger, and one token redeemed twice. */
  lemma LostRowRedeemedTwice(r: Request) returns (c: Call, hash: string)
    ensures hash !in Serve(map[], c).0 && Redeems(map[], c, hash) && Redeems(Serve(map[], c).0, c, hash)
  {
    var text, preimage := "token", "preimage";
    hash := "payment";
    PaidCallRedeemsTwice(text, preimage, hash, "secret", r);
    c := PaidCall(text, preimage, hash, "secret", r);
  }

  /** An answer that is not 2xx leaves the token usable: the same request passes again. */
  lemma UnsuccessfulAnswerKeepsToken(rows: Ledger, c: Call, hash: string, status: int)
    requires Serve(rows, c).1 == Pass(Some(hash)) && !Successful(c.handlerStatus)
    ensures Serve(Serve(rows, c).0, c.(handlerStatus := status)).1 == Pass(Some(hash))
  {
    PassesExactly(rows, c);
    PassesExactly(Serve(rows, c).0, c.(handlerStatus := status));
  }

  // ---------------------------------------------------------------- pay and retry

  /** Serialised tokens read back, and are fit for an Authorization header. */
  ghost predicate FaithfulCodec(w: World) {
    forall m :: w.decode(w.encode(m)) == Some(m) && w.encode(m) != "" && Text.Trimmed(w.encode(m))
        && ':' !in w.encode(m)
  }

  /** The retry of a challenged request, with the challenge's token and a preimage. */
  function Retry(challenged: Call, token: Macaroon, preimage: string, later: World, status: int): Call {
    Call(later, challenged.price, Some(PrintAuthorization(challenged.w.encode(token), preimage)), challenged.r, status)
  }

  /** Every challenge is a new invoice issued on the ledger as observed. */
  lemma ChallengesAreIssued(rows: Ledger, w: World, r: Request, amount: int, presented: Presented)
    returns (observed: Ledger, reason: Reason)
    requires Decide(rows, w, r, amount, presented).1.Challenge?
    ensures Decide(rows, w, r, amount, presented) == IssueChallenge(observed, w, r, amount, reason)
  {
    observed, reason := rows, Initial;
    match presented
    case Nothing =>
    case Unfit => reason := InvalidCredentials;
    case Token(hash) =>
      var state := StateOf(rows, hash);
      if state == Expired {
        reason := InvoiceExpired;
      } else if state == Failed {
        reason := PaymentFailed;
      } else {
        var status := w.verification.status;
        observed := Observe(rows, hash, status).value;
        reason := if status == Expired then InvoiceExpired else if status == Failed then PaymentFailed
            else StillPending;
      }
  }

  /** A challenge comes with the token of the invoice issued for it, and leaves a pending row. */
  lemma ChallengeIssuesToken(rows: Ledger, c: Call)
    requires Serve(rows, c).1.Challenge?
    ensures c.w.invoice.Issued? && Priced(c.price)
    ensures var (next, verdict) := Serve(rows, c);
            var invoice := c.w.invoice.invoice;
            && verdict.token
                == Mint(invoice.hash, c.w.secret, c.r, NormalizePrice(c.price.value), TokenExpiry(invoice, c.w.now))
            && verdict.header == FormatChallenge(c.w.encode(verdict.token), invoice.paymentRequest)
            && invoice.hash in next && next[invoice.hash] == Pending
  {
    var amount := NormalizePrice(c.price.value);
    assert Serve(rows, c) == Decide(rows, c.w, c.r, amount, Presenting(c));
    var observed, reason := ChallengesAreIssued(rows, c.w, c.r, amount, Presenting(c));
  }

  /** A freshly minted token, sent back for the same operation in time, is fit. */
  lemma MintedTokenIsFit(w: World, hash: string, r: Request, amount: int, expiresAt: int, preimage: string)
    requires FaithfulCodec(w) && hash != "" && w.now <= expiresAt
    requires preimage != "" && Text.Trimmed(preimage) && ':' !in preimage
    ensures var token := Mint(hash, w.secret, r, amount, expiresAt);
            Present(w, Some(PrintAuthorization(w.encode(token), preimage)), r, amount) == Token(hash)
  {
    var token := Mint(hash, w.secret, r, amount, expiresAt);
    AuthorizationRoundTrip(w.encode(token), preimage);
    MintedTokenVerifiesExactly(hash, w.secret, r, amount, expiresAt, r, amount, w.now);
  }

  /**
   Whoever is challenged can pay and retry: presenting the challenge's token for the same
   operation before it expires, with the provider confirming the payment, passes the gate.
   */
  lemma PaidRetryPasses(rows: Ledger, c: Call, invoice: Invoice, preimage: string, later: World, status: int)
    requires Serve(rows, c).1.Challenge? && c.w.invoice == Issued(invoice) && invoice.hash != ""
    requires FaithfulCodec(later) && later.encode == c.w.encode && later.secret == c.w.secret
    requires preimage != "" && Text.Trimmed(preimage) && ':' !in preimage
    requires later.now <= TokenExpiry(invoice, c.w.now) && later.verification == Reports(Paid)
    ensures var (next, verdict) := Serve(rows, c);
            Serve(next, Retry(c, verdict.token, preimage, later, status)).1 == Pass(Some(invoice.hash))
  {
    var (next, verdict) := Serve(rows, c);
    ChallengeIssuesToken(rows, c);
    MintedTokenIsFit(later, invoice.hash, c.r, NormalizePrice(c.price.value), TokenExpiry(invoice, c.w.now), preimage);
    PassesExactly(next, Retry(c, verdict.token, preimage, later, status));
  }

  /** The challenge's header hands that very token to the client, along with the payment request. */
  lemma ChallengeHeaderCarriesToken(rows: Ledger, c: Call)
    requires Serve(rows, c).1.Challenge?
    ensures c.w.invoice.Issued?
    ensures ReadChallenge(Serve(rows, c).1.header)
         == Some((c.w.encode(Serve(rows, c).1.token), c.w.invoice.invoice.paymentRequest))
  {
    ChallengeIssuesToken(rows, c);
    ChallengeRoundTrip(c.w.encode(Serve(rows, c).1.token), c.w.invoice.invoice.paymentRequest);
  }
}
