/**
 * Payme merchant API (JSON-RPC 2.0 methods called by Payme): Basic-auth
 * check, CheckPerformTransaction, CreateTransaction, PerformTransaction,
 * CancelTransaction, CheckTransaction, GetStatement, the error object and the
 * checkout link.
 *
 * Each handler that saves a transaction is a method on the table, specified by
 * a function from the table before the call to the reply and the table after
 * it; the properties of the protocol are lemmas about those functions.
 */
module Payme {
  import opened Strings
  import opened Values
  import opened Ledger

  // Transaction states reported to Payme.
  const STATE_CREATED := 1
  const STATE_COMPLETED := 2
  const STATE_CANCELLED := -1
  const STATE_CANCELLED_AFTER_COMPLETE := -2

  /** Cancellation reason reported for every cancelled transaction. */
  const REASON_UNKNOWN := 10

  // Error codes.
  const INSUFFICIENT_PRIVILEGE := -32504
  const TRANSACTION_NOT_FOUND := -31050
  const INVALID_AMOUNT := -31051
  const ALREADY_PAID := -31052

  /** Payme's default message for an error code (`PaymeError.ERRORS`). */
  function DefaultMessage(code: int): string {
    if code == -32504 then "Недостаточно привилегий для выполнения метода"
    else if code == -31008 then "Неизвестная ошибка"
    else if code == -31050 then "Заказ не найден"
    else if code == -31051 then "Неверная сумма заказа"
    else if code == -31052 then "Заказ уже оплачен"
    else if code == -31099 then "Невозможно выполнить операцию"
    else "Unknown error"
  }

  datatype PaymeError = PaymeError(code: int, message: string, data: Option<string>)

  /** `PaymeError(code, message, data)`: a missing or empty message is replaced by the default for the code. */
  function NewError(code: int, message: Option<string>, data: Option<string>): (e: PaymeError)
    ensures e.code == code && e.data == data
    ensures NonEmpty(message) ==> e.message == message.value
    ensures !NonEmpty(message) ==> e.message == DefaultMessage(code)
  {
    PaymeError(code, if NonEmpty(message) then message.value else DefaultMessage(code), data)
  }

  /** The handlers always raise with an explicit message and no data. */
  function Raise(code: int, message: string): PaymeError {
    NewError(code, Some(message), None)
  }

  /** The JSON-RPC error object `{code, message, data?}`. */
  datatype ErrorObject = ErrorObject(code: int, message: string, data: Option<string>)

  /** `PaymeError.to_dict`: code and message always, `data` only when it is truthy. */
  function ToDict(e: PaymeError): (d: ErrorObject)
    ensures d.code == e.code && d.message == e.message
    ensures d.data.Some? <==> NonEmpty(e.data)
    ensures d.data.Some? ==> d.data == e.data
  {
    ErrorObject(e.code, e.message, if NonEmpty(e.data) then e.data else None)
  }

  /** What a handler does: returns a result, raises a PaymeError, or raises an exception it does not catch. */
  datatype Reply<+T> = Success(result: T) | Failure(error: PaymeError) | Uncaught

  /** A handler's reply together with the table after the call. */
  datatype Step<+T> = Step(reply: Reply<T>, rows: seq<Transaction>)

  /**
   * Merchant settings. `b64decode` stands for `base64.b64decode(s).decode('utf-8')`,
   * `None` where either step raises; `b64encode` for the reverse encoding.
   */
  datatype PaymeConfig = PaymeConfig(
    merchantId: string,
    merchantKey: string,
    testKey: string,
    endpoint: string,
    isTest: bool,
    b64encode: string -> string,
    b64decode: string -> Option<string>)

  /** The key Payme must present: the test key in test mode, the live key otherwise. */
  function ExpectedKey(cfg: PaymeConfig): string {
    if cfg.isTest then cfg.testKey else cfg.merchantKey
  }

  // ---------------------------------------------------------------------------
  // Authorization

  datatype Authorization = Authorized | Unauthorized(error: PaymeError)

  /** `check_authorization`: `Basic base64(merchant_id:key)`; every refusal carries code -32504. */
  function CheckAuthorization(cfg: PaymeConfig, header: Option<string>): (r: Authorization)
    ensures r.Unauthorized? ==> r.error.code == INSUFFICIENT_PRIVILEGE
  {
    if !NonEmpty(header) then Unauthorized(Raise(INSUFFICIENT_PRIVILEGE, "Authorization header missing"))
    else
      var parts := Split(header.value, ' ');
      if |parts| != 2 then Unauthorized(Raise(INSUFFICIENT_PRIVILEGE, "Invalid authorization format"))
      else if AsciiLower(parts[0]) != "basic" then Unauthorized(Raise(INSUFFICIENT_PRIVILEGE, "Invalid authorization type"))
      else match cfg.b64decode(parts[1])
        case None => Unauthorized(Raise(INSUFFICIENT_PRIVILEGE, "Invalid authorization format"))
        case Some(decoded) =>
          var credentials := Split(decoded, ':');
          if |credentials| != 2 then Unauthorized(Raise(INSUFFICIENT_PRIVILEGE, "Invalid authorization format"))
          else if credentials[0] != cfg.merchantId || credentials[1] != ExpectedKey(cfg) then
            Unauthorized(Raise(INSUFFICIENT_PRIVILEGE, "Invalid credentials"))
          else Authorized
  }

  /**
   * An accepted header is a scheme word (any case of "basic"), one space, and a
   * token that decodes to exactly `merchant_id:key`; neither the merchant id
   * nor the key may contain ':'.
   */
  lemma AuthorizedOnlyWithCredentials(cfg: PaymeConfig, header: Option<string>)
    requires CheckAuthorization(cfg, header).Authorized?
    ensures header.Some?
    ensures exists scheme, token ::
              && header.value == scheme + " " + token
              && ' ' !in scheme && ' ' !in token
              && AsciiLower(scheme) == "basic"
              && cfg.b64decode(token) == Some(cfg.merchantId + ":" + ExpectedKey(cfg))
    ensures ':' !in cfg.merchantId && ':' !in ExpectedKey(cfg)
  {
    var parts := Split(header.value, ' ');
    assert Join(parts, ' ') == parts[0] + " " + parts[1];
    var decoded := cfg.b64decode(parts[1]).value;
    var credentials := Split(decoded, ':');
    assert Join(credentials, ':') == credentials[0] + ":" + credentials[1];
  }

  /** Conversely, every such header is accepted. */
  lemma AuthorizedWithCredentials(cfg: PaymeConfig, scheme: string, token: string)
    requires ' ' !in scheme && ' ' !in token && AsciiLower(scheme) == "basic"
    requires ':' !in cfg.merchantId && ':' !in ExpectedKey(cfg)
    requires cfg.b64decode(token) == Some(cfg.merchantId + ":" + ExpectedKey(cfg))
    ensures CheckAuthorization(cfg, Some(scheme + " " + token)).Authorized?
  {
    SplitTwo(scheme, token, ' ');
    SplitTwo(cfg.merchantId, ExpectedKey(cfg), ':');
  }

  // ---------------------------------------------------------------------------
  // Checkout link

  datatype PayLink = PayLink(paymentUrl: string, merchantId: string, amount: int, transactionId: TxId)

  /** The merchant data `m=<merchant>;ac.transaction_id=<id>;a=<tiyin>` carried in the link. */
  function MerchantData(merchantId: string, id: TxId, amount: int): string {
    "m=" + merchantId + ";ac.transaction_id=" + id + ";a=" + IntToDecimal(amount)
  }

  /** `generate_pay_link`: the endpoint, a slash, and the base64 of the merchant data. */
  function GeneratePayLink(cfg: PaymeConfig, t: Transaction): (link: PayLink)
    ensures link.amount == t.amount && link.transactionId == t.id && link.merchantId == cfg.merchantId
    ensures |link.paymentUrl| > |cfg.endpoint| && link.paymentUrl[..|cfg.endpoint| + 1] == cfg.endpoint + "/"
  {
    var url := cfg.endpoint + "/" + cfg.b64encode(MerchantData(cfg.merchantId, t.id, t.amount));
    assert url[..|cfg.endpoint| + 1] == cfg.endpoint + "/";
    PayLink(url, cfg.merchantId, t.amount, t.id)
  }

  ghost predicate Base64RoundTrips(cfg: PaymeConfig) {
    forall s :: cfg.b64decode(cfg.b64encode(s)) == Some(s)
  }

  /**
   * Whoever decodes the link finds the merchant id, the transaction id and the
   * amount in tiyin as the three ';'-separated fields, provided base64 round
   * trips and neither id contains ';'.
   */
  lemma PayLinkDecodes(cfg: PaymeConfig, t: Transaction)
    requires Base64RoundTrips(cfg)
    requires ';' !in cfg.merchantId && ';' !in t.id
    ensures var link := GeneratePayLink(cfg, t);
            var data := cfg.b64decode(link.paymentUrl[|cfg.endpoint| + 1..]);
            && data.Some?
            && Split(data.value, ';') == ["m=" + cfg.merchantId, "ac.transaction_id=" + t.id, "a=" + IntToDecimal(t.amount)]
            && ParseInt(IntToDecimal(t.amount)) == t.amount
  {
    var d := MerchantData(cfg.merchantId, t.id, t.amount);
    var url := cfg.endpoint + "/" + cfg.b64encode(d);
    assert url[|cfg.endpoint| + 1..] == cfg.b64encode(d);
    var a := "m=" + cfg.merchantId;
    var b := "ac.transaction_id=" + t.id;
    var c := "a=" + IntToDecimal(t.amount);
    DecimalHasNo(t.amount, ';');
    assert ';' !in a && ';' !in b && ';' !in c;
    assert d == a + [';'] + b + [';'] + c;
    SplitThree(a, b, c, ';');
    IntToDecimalRoundTrip(t.amount);
  }

  // ---------------------------------------------------------------------------
  // State reported to Payme

  /** Internal status to Payme state: completed 2, cancelled -1, anything else 1. */
  function PaymeState(s: Status): (state: int)
    ensures state == STATE_COMPLETED <==> s == Completed
    ensures state == STATE_CANCELLED <==> s == Cancelled
    ensures state == STATE_CREATED <==> s != Completed && s != Cancelled
    ensures state != STATE_CANCELLED_AFTER_COMPLETE
  {
    match s
    case Completed => STATE_COMPLETED
    case Cancelled => STATE_CANCELLED
    case _ => STATE_CREATED
  }

  // ---------------------------------------------------------------------------
  // CheckPerformTransaction

  datatype CheckPerformParams = CheckPerformParams(accountTransactionId: Wire, amount: Wire)

  /**
   * `check_perform_transaction`: `{allow: true}` exactly when the account names a
   * transaction, the amount equals its amount in tiyin and it is not completed.
   * The amount is compared before the status, and the table is only read.
   */
  function CheckPerformTransaction(rows: seq<Transaction>, p: CheckPerformParams): (r: Reply<bool>)
    ensures !r.Uncaught?
    ensures r.Success? ==> r.result
    ensures r.Success? <==>
              && Truthy(p.accountTransactionId)
              && Locate(rows, p.accountTransactionId).Some?
              && IsInteger(p.amount, rows[Locate(rows, p.accountTransactionId).value].amount)
              && rows[Locate(rows, p.accountTransactionId).value].status != Completed
    ensures r.Failure? && r.error.code == TRANSACTION_NOT_FOUND <==>
              !Truthy(p.accountTransactionId) || Locate(rows, p.accountTransactionId).None?
    ensures r.Failure? && r.error.code == INVALID_AMOUNT <==>
              && Truthy(p.accountTransactionId)
              && Locate(rows, p.accountTransactionId).Some?
              && !IsInteger(p.amount, rows[Locate(rows, p.accountTransactionId).value].amount)
    ensures r.Failure? && r.error.code == ALREADY_PAID <==>
              && Truthy(p.accountTransactionId)
              && Locate(rows, p.accountTransactionId).Some?
              && IsInteger(p.amount, rows[Locate(rows, p.accountTransactionId).value].amount)
              && rows[Locate(rows, p.accountTransactionId).value].status == Completed
  {
    if !Truthy(p.accountTransactionId) then Failure(Raise(TRANSACTION_NOT_FOUND, "Transaction ID not provided"))
    else match Locate(rows, p.accountTransactionId)
      case None => Failure(Raise(TRANSACTION_NOT_FOUND, "Transaction not found"))
      case Some(i) =>
        var expected := rows[i].amount;
        if !IsInteger(p.amount, expected) then
          Failure(Raise(INVALID_AMOUNT, "Invalid amount. Expected: " + IntToDecimal(expected) + ", got: " + Render(p.amount)))
        else if rows[i].status == Completed then Failure(Raise(ALREADY_PAID, "Transaction already completed"))
        else Success(true)
  }

  // ---------------------------------------------------------------------------
  // CreateTransaction

  datatype CreateParams = CreateParams(id: Option<string>, time: Option<int>, accountTransactionId: Wire, amount: Wire)

  datatype CreateResult = CreateResult(createTime: int, transaction: TxId, state: int)

  /**
   * `create_transaction`: refuses with -31050 / -31051 without writing; a
   * transaction that already has a Payme id is reported as created and left
   * alone; otherwise the Payme id and time are recorded and the status becomes
   * pending. The reply always reports state 1 and the creation time.
   */
  function CreateOutcome(rows: seq<Transaction>, p: CreateParams): (s: Step<CreateResult>)
    ensures !s.reply.Uncaught?
    ensures s.reply.Failure? ==> s.rows == rows
    ensures s.reply.Failure? ==> s.reply.error.code == TRANSACTION_NOT_FOUND || s.reply.error.code == INVALID_AMOUNT
    ensures s.reply.Success? <==>
              && Truthy(p.accountTransactionId)
              && Locate(rows, p.accountTransactionId).Some?
              && IsInteger(p.amount, rows[Locate(rows, p.accountTransactionId).value].amount)
    ensures s.reply.Failure? && s.reply.error.code == TRANSACTION_NOT_FOUND <==>
              !Truthy(p.accountTransactionId) || Locate(rows, p.accountTransactionId).None?
    ensures s.reply.Success? && NonEmpty(rows[Locate(rows, p.accountTransactionId).value].paymeTransId) ==> s.rows == rows
    ensures s.reply.Success? ==>
              var i := Locate(rows, p.accountTransactionId);
              && Truthy(p.accountTransactionId) && i.Some?
              && IsInteger(p.amount, rows[i.value].amount)
              && s.reply.result == CreateResult(rows[i.value].createdAt, rows[i.value].id, STATE_CREATED)
              && |s.rows| == |rows|
              && s.rows[i.value].paymeTransId == (if NonEmpty(rows[i.value].paymeTransId) then rows[i.value].paymeTransId else p.id)
              && s.rows[i.value].status == (if NonEmpty(rows[i.value].paymeTransId) then rows[i.value].status else Pending)
              && s.rows[i.value].amount == rows[i.value].amount && s.rows[i.value].id == rows[i.value].id
              && forall k :: 0 <= k < |rows| && k != i.value ==> s.rows[k] == rows[k]
  {
    if !Truthy(p.accountTransactionId) then Step(Failure(Raise(TRANSACTION_NOT_FOUND, "Merchant transaction ID not provided")), rows)
    else match Locate(rows, p.accountTransactionId)
      case None => Step(Failure(Raise(TRANSACTION_NOT_FOUND, "Transaction not found")), rows)
      case Some(i) =>
        var t := rows[i];
        if !IsInteger(p.amount, t.amount) then Step(Failure(Raise(INVALID_AMOUNT, "Invalid amount")), rows)
        else
          var reply := Success(CreateResult(t.createdAt, t.id, STATE_CREATED));
          if NonEmpty(t.paymeTransId) then Step(reply, rows)
          else Step(reply, rows[i := t.(paymeTransId := p.id, paymeTime := p.time, status := Pending)])
  }

  /** The first successful CreateTransaction writes exactly the Payme id, the Payme time and the pending status. */
  lemma CreateWritesPaymeFields(rows: seq<Transaction>, p: CreateParams, i: nat)
    requires Truthy(p.accountTransactionId) && Locate(rows, p.accountTransactionId) == Some(i)
    requires IsInteger(p.amount, rows[i].amount) && !NonEmpty(rows[i].paymeTransId)
    ensures CreateOutcome(rows, p).rows == rows[i := rows[i].(paymeTransId := p.id, paymeTime := p.time, status := Pending)]
  {
  }

  /**
   * CreateTransaction is idempotent: a second identical call returns the same
   * reply and changes nothing, whatever the first call did.
   */
  lemma CreateIdempotent(rows: seq<Transaction>, p: CreateParams)
    ensures var s := CreateOutcome(rows, p); CreateOutcome(s.rows, p) == s
  {
    var s := CreateOutcome(rows, p);
    if s.reply.Success? {
      var i := Locate(rows, p.accountTransactionId).value;
      SameIdsSameFind(rows, s.rows, Render(p.accountTransactionId));
      assert s.rows[i].amount == rows[i].amount;
    }
  }

  method CreateTransaction(db: TransactionTable, p: CreateParams) returns (r: Reply<CreateResult>)
    requires db.Valid()
    modifies db
    ensures db.Valid()
    ensures Step(r, db.rows) == CreateOutcome(old(db.rows), p)
  {
    if !Truthy(p.accountTransactionId) {
      return Failure(Raise(TRANSACTION_NOT_FOUND, "Merchant transaction ID not provided"));
    }
    var found := Locate(db.rows, p.accountTransactionId);
    if found.None? {
      return Failure(Raise(TRANSACTION_NOT_FOUND, "Transaction not found"));
    }
    var i := found.value;
    var t := db.rows[i];
    if !IsInteger(p.amount, t.amount) {
      return Failure(Raise(INVALID_AMOUNT, "Invalid amount"));
    }
    if NonEmpty(t.paymeTransId) {
      return Success(CreateResult(t.createdAt, t.id, STATE_CREATED));
    }
    t := t.(paymeTransId := p.id);
    t := t.(paymeTime := p.time);
    t := t.(status := Pending);
    db.Save(i, t);
    r := Success(CreateResult(t.createdAt, t.id, STATE_CREATED));
  }

  // ---------------------------------------------------------------------------
  // PerformTransaction

  datatype PerformResult = PerformResult(transaction: TxId, performTime: int, state: int)

  /**
   * `perform_transaction`: finds the transaction by its Payme id; a completed
   * one is reported with its stored completion time and left alone, any other
   * becomes completed now. The reply always reports state 2.
   */
  function PerformOutcome(rows: seq<Transaction>, pid: Option<string>, now: int): (s: Step<PerformResult>)
    ensures !s.reply.Success? ==> s.rows == rows
    ensures s.reply.Failure? <==> FindByPaymeId(rows, pid).NoMatch?
    ensures s.reply.Failure? ==> s.reply.error.code == TRANSACTION_NOT_FOUND
    ensures s.reply.Uncaught? <==> FindByPaymeId(rows, pid).ManyMatches?
    ensures s.reply.Success? ==>
              var i := FindByPaymeId(rows, pid).index;
              && s.reply.result.state == STATE_COMPLETED
              && s.reply.result.transaction == rows[i].id
              && |s.rows| == |rows|
              && s.rows[i].status == Completed
              && s.rows[i].completedAt == (if rows[i].status == Completed then rows[i].completedAt else Some(now))
              && s.reply.result.performTime == (if s.rows[i].completedAt.Some? then s.rows[i].completedAt.value else now)
              && (rows[i].status == Completed ==> s.rows == rows)
              && s.rows[i].id == rows[i].id && s.rows[i].paymeTransId == rows[i].paymeTransId
              && forall k :: 0 <= k < |rows| && k != i ==> s.rows[k] == rows[k]
  {
    match FindByPaymeId(rows, pid)
    case NoMatch => Step(Failure(Raise(TRANSACTION_NOT_FOUND, "Transaction not found")), rows)
    case ManyMatches => Step(Uncaught, rows)
    case OneMatch(i) =>
      var t := rows[i];
      if t.status == Completed then
        Step(Success(PerformResult(t.id, if t.completedAt.Some? then t.completedAt.value else now, STATE_COMPLETED)), rows)
      else
        Step(Success(PerformResult(t.id, now, STATE_COMPLETED)), rows[i := t.(status := Completed, completedAt := Some(now))])
  }

  /** Performing a transaction that is not completed sets exactly the status and the completion time. */
  lemma PerformCompletes(rows: seq<Transaction>, pid: Option<string>, now: int, i: nat)
    requires FindByPaymeId(rows, pid) == OneMatch(i) && rows[i].status != Completed
    ensures PerformOutcome(rows, pid, now) ==
              Step(Success(PerformResult(rows[i].id, now, STATE_COMPLETED)),
                   rows[i := rows[i].(status := Completed, completedAt := Some(now))])
  {
  }

  /**
   * A repeated PerformTransaction changes nothing and reports the completion
   * time of the first call, unless the transaction was already completed
   * without a recorded completion time (then each call reports its own clock).
   */
  lemma PerformReplay(rows: seq<Transaction>, pid: Option<string>, now1: int, now2: int)
    requires PerformOutcome(rows, pid, now1).reply.Success?
    ensures var s1 := PerformOutcome(rows, pid, now1);
            var s2 := PerformOutcome(s1.rows, pid, now2);
            var t := rows[FindByPaymeId(rows, pid).index];
            && s2.rows == s1.rows
            && (s2.reply == s1.reply || (t.status == Completed && t.completedAt.None?))
  {
    var s1 := PerformOutcome(rows, pid, now1);
    SamePaymeIdsSameFind(rows, s1.rows, pid);
  }

  method PerformTransaction(db: TransactionTable, pid: Option<string>, now: int) returns (r: Reply<PerformResult>)
    requires db.Valid()
    modifies db
    ensures db.Valid()
    ensures Step(r, db.rows) == PerformOutcome(old(db.rows), pid, now)
  {
    var found := FindByPaymeId(db.rows, pid);
    if found.NoMatch? {
      return Failure(Raise(TRANSACTION_NOT_FOUND, "Transaction not found"));
    }
    if found.ManyMatches? {
      return Uncaught;
    }
    var i := found.index;
    var t := db.rows[i];
    if t.status == Completed {
      var performTime := if t.completedAt.Some? then t.completedAt.value else now;
      return Success(PerformResult(t.id, performTime, STATE_COMPLETED));
    }
    t := t.(status := Completed);
    t := t.(completedAt := Some(now));
    db.Save(i, t);
    r := Success(PerformResult(t.id, now, STATE_COMPLETED));
  }

  // ---------------------------------------------------------------------------
  // CancelTransaction

  datatype CancelResult = CancelResult(transaction: TxId, cancelTime: int, state: int)

  /**
   * `cancel_transaction`: reports -2 exactly when the transaction was completed
   * before the call and -1 otherwise, and in every case leaves it cancelled,
   * with no other field changed.
   */
  function CancelOutcome(rows: seq<Transaction>, pid: Option<string>, now: int): (s: Step<CancelResult>)
    ensures !s.reply.Success? ==> s.rows == rows
    ensures s.reply.Failure? <==> FindByPaymeId(rows, pid).NoMatch?
    ensures s.reply.Failure? ==> s.reply.error.code == TRANSACTION_NOT_FOUND
    ensures s.reply.Uncaught? <==> FindByPaymeId(rows, pid).ManyMatches?
    ensures s.reply.Success? ==>
              var i := FindByPaymeId(rows, pid).index;
              && s.reply.result.state == (if rows[i].status == Completed then STATE_CANCELLED_AFTER_COMPLETE else STATE_CANCELLED)
              && s.reply.result.transaction == rows[i].id
              && s.reply.result.cancelTime == now
              && s.rows == rows[i := rows[i].(status := Cancelled)]
  {
    match FindByPaymeId(rows, pid)
    case NoMatch => Step(Failure(Raise(TRANSACTION_NOT_FOUND, "Transaction not found")), rows)
    case ManyMatches => Step(Uncaught, rows)
    case OneMatch(i) =>
      var t := rows[i];
      var state := if t.status == Completed then STATE_CANCELLED_AFTER_COMPLETE else STATE_CANCELLED;
      Step(Success(CancelResult(t.id, now, state)), rows[i := t.(status := Cancelled)])
  }

  /** Cancelling after a successful PerformTransaction reports "cancelled after complete" (-2). */
  lemma CancelAfterPerform(rows: seq<Transaction>, pid: Option<string>, now1: int, now2: int)
    requires PerformOutcome(rows, pid, now1).reply.Success?
    ensures var s := CancelOutcome(PerformOutcome(rows, pid, now1).rows, pid, now2);
            s.reply.Success? && s.reply.result.state == STATE_CANCELLED_AFTER_COMPLETE
  {
    SamePaymeIdsSameFind(rows, PerformOutcome(rows, pid, now1).rows, pid);
  }

  /**
   * The status kept after a cancellation does not record whether the
   * transaction had been completed: once cancelled, a repeated
   * CancelTransaction reports -1 and CheckTransaction reports -1, even when
   * the first cancellation reported -2.
   */
  lemma CancelForgetsSettlement(rows: seq<Transaction>, pid: Option<string>, now1: int, now2: int)
    requires CancelOutcome(rows, pid, now1).reply.Success?
    ensures var s := CancelOutcome(rows, pid, now1);
            && CancelOutcome(s.rows, pid, now2).reply.Success?
            && CancelOutcome(s.rows, pid, now2).reply.result.state == STATE_CANCELLED
            && CheckTransaction(s.rows, pid, now2).Success?
            && CheckTransaction(s.rows, pid, now2).result.state == STATE_CANCELLED
  {
    SamePaymeIdsSameFind(rows, CancelOutcome(rows, pid, now1).rows, pid);
  }

  /** A cancelled transaction is not final: PerformTransaction completes it again. */
  lemma PerformAfterCancel(rows: seq<Transaction>, pid: Option<string>, now1: int, now2: int)
    requires CancelOutcome(rows, pid, now1).reply.Success?
    ensures var s := CancelOutcome(rows, pid, now1);
            var i := FindByPaymeId(rows, pid).index;
            && PerformOutcome(s.rows, pid, now2).reply.Success?
            && PerformOutcome(s.rows, pid, now2).rows[i].status == Completed
            && PerformOutcome(s.rows, pid, now2).rows[i].completedAt == Some(now2)
  {
    SamePaymeIdsSameFind(rows, CancelOutcome(rows, pid, now1).rows, pid);
  }

  method CancelTransaction(db: TransactionTable, pid: Option<string>, now: int) returns (r: Reply<CancelResult>)
    requires db.Valid()
    modifies db
    ensures db.Valid()
    ensures Step(r, db.rows) == CancelOutcome(old(db.rows), pid, now)
  {
    var found := FindByPaymeId(db.rows, pid);
    if found.NoMatch? {
      return Failure(Raise(TRANSACTION_NOT_FOUND, "Transaction not found"));
    }
    if found.ManyMatches? {
      return Uncaught;
    }
    var i := found.index;
    var t := db.rows[i];
    var state;
    if t.status == Completed {
      state := STATE_CANCELLED_AFTER_COMPLETE;
    } else {
      state := STATE_CANCELLED;
    }
    t := t.(status := Cancelled);
    db.Save(i, t);
    r := Success(CancelResult(t.id, now, state));
  }

  // ---------------------------------------------------------------------------
  // CheckTransaction

  datatype CheckResult = CheckResult(
    createTime: int, transaction: TxId, state: int,
    performTime: Option<int>, cancelTime: Option<int>, reason: Option<int>)

  /**
   * What CheckTransaction and GetStatement report for a transaction: its state,
   * a perform time only when it is completed with a completion time, and a
   * cancel time with reason 10 only when it is cancelled.
   */
  ghost predicate Describes(t: Transaction, state: int, performTime: Option<int>, cancelTime: Option<int>, reason: Option<int>, now: int) {
    && state == PaymeState(t.status)
    && (performTime.Some? <==> t.status == Completed && t.completedAt.Some?)
    && (performTime.Some? ==> performTime == t.completedAt)
    && (cancelTime.Some? <==> t.status == Cancelled)
    && (cancelTime.Some? ==> cancelTime == Some(now))
    && reason == (if t.status == Cancelled then Some(REASON_UNKNOWN) else None)
  }

  /** `check_transaction`: reads the transaction found by its Payme id and reports it; never writes. */
  function CheckTransaction(rows: seq<Transaction>, pid: Option<string>, now: int): (r: Reply<CheckResult>)
    ensures r.Failure? <==> FindByPaymeId(rows, pid).NoMatch?
    ensures r.Failure? ==> r.error.code == TRANSACTION_NOT_FOUND
    ensures r.Uncaught? <==> FindByPaymeId(rows, pid).ManyMatches?
    ensures r.Success? ==>
              var t := rows[FindByPaymeId(rows, pid).index];
              && r.result.createTime == t.createdAt && r.result.transaction == t.id
              && Describes(t, r.result.state, r.result.performTime, r.result.cancelTime, r.result.reason, now)
  {
    match FindByPaymeId(rows, pid)
    case NoMatch => Failure(Raise(TRANSACTION_NOT_FOUND, "Transaction not found"))
    case ManyMatches => Uncaught
    case OneMatch(i) =>
      var t := rows[i];
      Success(CheckResult(
        t.createdAt, t.id, PaymeState(t.status),
        if t.status == Completed && t.completedAt.Some? then t.completedAt else None,
        if t.status == Cancelled then Some(now) else None,
        if t.status == Cancelled then Some(REASON_UNKNOWN) else None))
  }

  // ---------------------------------------------------------------------------
  // GetStatement

  datatype StatementParams = StatementParams(from: Option<int>, to: Option<int>)

  datatype StatementItem = StatementItem(
    id: string, time: int, amount: int, accountTransactionId: TxId,
    createTime: int, transaction: TxId, state: int,
    performTime: Option<int>, cancelTime: Option<int>, reason: Option<int>)

  /** The statement query: created within [from, to] and carrying a Payme id. */
  predicate InStatement(t: Transaction, from: int, to: int) {
    from <= t.createdAt <= to && t.paymeTransId.Some?
  }

  /** The rows the statement query returns, in table order. */
  function Selected(rows: seq<Transaction>, from: int, to: int): (sel: seq<Transaction>)
    ensures |sel| <= |rows|
    ensures forall k :: 0 <= k < |sel| ==> InStatement(sel[k], from, to) && sel[k] in rows
  {
    if rows == [] then []
    else if InStatement(rows[0], from, to) then [rows[0]] + Selected(rows[1..], from, to)
    else Selected(rows[1..], from, to)
  }

  /** Every transaction of the table that satisfies the query is selected. */
  lemma {:induction false} SelectedComplete(rows: seq<Transaction>, from: int, to: int, t: Transaction)
    requires t in rows && InStatement(t, from, to)
    ensures t in Selected(rows, from, to)
  {
    if rows[0] != t {
      SelectedComplete(rows[1..], from, to, t);
    }
  }

  /** The query keeps table order: selecting from two consecutive stretches is selecting from each in turn. */
  lemma {:induction false} SelectedAppend(a: seq<Transaction>, b: seq<Transaction>, from: int, to: int)
    ensures Selected(a + b, from, to) == Selected(a, from, to) + Selected(b, from, to)
  {
    if a == [] {
      assert a + b == b;
    } else {
      var ab := a + b;
      assert ab[0] == a[0];
      assert ab[1..] == a[1..] + b;
      SelectedAppend(a[1..], b, from, to);
      if InStatement(a[0], from, to) {
        calc {
          Selected(ab, from, to);
          [a[0]] + Selected(a[1..] + b, from, to);
          [a[0]] + (Selected(a[1..], from, to) + Selected(b, from, to));
          ([a[0]] + Selected(a[1..], from, to)) + Selected(b, from, to);
          Selected(a, from, to) + Selected(b, from, to);
        }
      } else {
        calc {
          Selected(ab, from, to);
          Selected(a[1..] + b, from, to);
          Selected(a[1..], from, to) + Selected(b, from, to);
          Selected(a, from, to) + Selected(b, from, to);
        }
      }
    }
  }

  /** Each selected transaction appears once: the query returns distinct transactions. */
  lemma {:induction false} SelectedDistinct(rows: seq<Transaction>, from: int, to: int)
    requires DistinctIds(rows)
    ensures DistinctIds(Selected(rows, from, to))
  {
    if rows != [] {
      SelectedDistinct(rows[1..], from, to);
      var rest := Selected(rows[1..], from, to);
      forall k | 0 <= k < |rest|
        ensures rest[k].id != rows[0].id
      {
        assert rest[k] in rows[1..];
      }
    }
  }

  /** One statement entry. */
  function StatementItemOf(t: Transaction, now: int): (item: StatementItem)
    requires t.paymeTransId.Some?
    ensures item.id == t.paymeTransId.value
    ensures item.transaction == t.id && item.accountTransactionId == t.id
    ensures item.time == t.createdAt && item.createTime == t.createdAt && item.amount == t.amount
    ensures Describes(t, item.state, item.performTime, item.cancelTime, item.reason, now)
  {
    StatementItem(
      t.paymeTransId.value, t.createdAt, t.amount, t.id, t.createdAt, t.id, PaymeState(t.status),
      if t.status == Completed && t.completedAt.Some? then t.completedAt else None,
      if t.status == Cancelled then Some(now) else None,
      if t.status == Cancelled then Some(REASON_UNKNOWN) else None)
  }

  /**
   * `get_statement`: one entry per selected transaction, in query order; a
   * missing bound makes the millisecond conversion raise.
   */
  function StatementOutcome(rows: seq<Transaction>, p: StatementParams, now: int): (r: Reply<seq<StatementItem>>)
    ensures !r.Failure?
    ensures r.Uncaught? <==> p.from.None? || p.to.None?
    ensures r.Success? ==>
              var sel := Selected(rows, p.from.value, p.to.value);
              && |r.result| == |sel|
              && forall k :: 0 <= k < |sel| ==> r.result[k] == StatementItemOf(sel[k], now)
  {
    if p.from.None? || p.to.None? then Uncaught
    else
      var sel := Selected(rows, p.from.value, p.to.value);
      Success(seq(|sel|, k requires 0 <= k < |sel| => StatementItemOf(sel[k], now)))
  }

  /** With unique ids, two rows of the table with the same id are the same row. */
  lemma SameIdSameRow(rows: seq<Transaction>, u: Transaction, v: Transaction)
    requires DistinctIds(rows) && u in rows && v in rows
    ensures u.id == v.id ==> u == v
  {
    var i :| 0 <= i < |rows| && rows[i] == u;
    var j :| 0 <= j < |rows| && rows[j] == v;
    if i < j {
      assert rows[i].id != rows[j].id;
    } else if j < i {
      assert rows[j].id != rows[i].id;
    }
  }

  /**
   * Every transaction in the range with a Payme id has exactly one entry, and
   * no other transaction has one.
   */
  lemma StatementCoversRange(rows: seq<Transaction>, from: int, to: int, now: int, t: Transaction)
    requires DistinctIds(rows) && t in rows
    ensures var items := StatementOutcome(rows, StatementParams(Some(from), Some(to)), now).result;
            var entries := set k | 0 <= k < |items| && items[k].transaction == t.id;
            && (InStatement(t, from, to) ==> |entries| == 1)
            && (!InStatement(t, from, to) ==> entries == {})
  {
    var items := StatementOutcome(rows, StatementParams(Some(from), Some(to)), now).result;
    var sel := Selected(rows, from, to);
    assert |items| == |sel|;
    forall k | 0 <= k < |sel|
      ensures items[k].transaction == sel[k].id
      ensures sel[k].id == t.id ==> sel[k] == t
    {
      assert items[k] == StatementItemOf(sel[k], now);
      SameIdSameRow(rows, sel[k], t);
    }
    var entries := set k | 0 <= k < |items| && items[k].transaction == t.id;
    if InStatement(t, from, to) {
      SelectedComplete(rows, from, to, t);
      SelectedDistinct(rows, from, to);
      var j :| 0 <= j < |sel| && sel[j] == t;
      forall k | k in entries
        ensures k == j
      {
        assert sel[k].id == sel[j].id;
      }
      assert j in entries;
      assert entries == {j};
    } else {
      assert forall k :: 0 <= k < |sel| ==> InStatement(sel[k], from, to);
      assert entries == {};
    }
  }

  /** The loop of `get_statement`: builds the entries one selected transaction at a time. */
  method GetStatement(db: TransactionTable, p: StatementParams, now: int) returns (r: Reply<seq<StatementItem>>)
    ensures r == StatementOutcome(db.rows, p, now)
  {
    if p.from.None? || p.to.None? {
      return Uncaught;
    }
    var transactions := Selected(db.rows, p.from.value, p.to.value);
    var result: seq<StatementItem> := [];
    var i := 0;
    while i < |transactions|
      invariant 0 <= i <= |transactions|
      invariant |result| == i
      invariant forall k :: 0 <= k < i ==> result[k] == StatementItemOf(transactions[k], now)
    {
      result := result + [StatementItemOf(transactions[i], now)];
      i := i + 1;
    }
    assert result == StatementOutcome(db.rows, p, now).result;
    r := Success(result);
  }
}
