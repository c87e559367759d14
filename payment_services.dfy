/**
 * The Click callbacks of `apps/payments/services.py`, the revision the
 * payment URLs route to: signatures are the MD5 of the signed fields alone,
 * with the secret key as the third signed field of Prepare; Prepare records
 * only the Click transaction id and the merchant reference; Complete checks
 * no signature. The `Auth` header is the same as in the other revision
 * (`ClickProtocol.AuthHeader`).
 */
module PaymentServices {
  import opened Strings
  import opened Values
  import opened Ledger
  import opened ClickProtocol

  /** `generate_signature(*args)`: MD5 of the arguments' text, in order, with nothing appended. */
  function Signature(cfg: ClickConfig, args: seq<Wire>): string {
    cfg.md5(Concat(args))
  }

  /** The Prepare fields that are signed, in order, with the secret key third. */
  function PrepareSigned(cfg: ClickConfig, d: PreparePayload): (args: seq<Wire>)
    ensures Concat(args) ==
              Render(d.clickTransId) + Render(d.serviceId) + cfg.secretKey
              + Render(d.merchantTransId) + Render(d.amount) + Render(d.action) + Render(d.signTime)
  {
    ConcatSeven(d.clickTransId, d.serviceId, Text(cfg.secretKey), d.merchantTransId, d.amount, d.action, d.signTime);
    [d.clickTransId, d.serviceId, Text(cfg.secretKey), d.merchantTransId, d.amount, d.action, d.signTime]
  }

  /**
   * The Prepare signature is the MD5 of click_trans_id, service_id, the
   * secret key, merchant_trans_id, amount, action and sign_time, written one
   * after the other; the payment document id is never signed.
   */
  lemma PrepareSignedText(cfg: ClickConfig, d: PreparePayload)
    ensures Signature(cfg, PrepareSigned(cfg, d)) ==
              cfg.md5(Render(d.clickTransId) + Render(d.serviceId) + cfg.secretKey
                      + Render(d.merchantTransId) + Render(d.amount) + Render(d.action) + Render(d.signTime))
  {
  }

  predicate PrepareSignatureValid(cfg: ClickConfig, d: PreparePayload) {
    d.signString == Text(Signature(cfg, PrepareSigned(cfg, d)))
  }

  /**
   * `handle_prepare`: signature, then lookup, then amount, then the write.
   * Every refusal leaves the table unchanged; a success writes the Click
   * transaction id and the merchant reference and nothing else.
   */
  function PrepareOutcome(cfg: ClickConfig, rows: seq<Transaction>, d: PreparePayload): (s: ClickStep)
    ensures !s.reply.Prepared? ==> s.rows == rows
    ensures !s.reply.Confirmed?
    ensures s.reply.ErrorCode() == INVALID_SIGNATURE <==> !PrepareSignatureValid(cfg, d)
    ensures s.reply.ErrorCode() == TRANSACTION_NOT_FOUND <==>
              PrepareSignatureValid(cfg, d) && Locate(rows, d.merchantTransId).None?
    ensures s.reply.ErrorCode() == INVALID_AMOUNT <==>
              && PrepareSignatureValid(cfg, d) && Locate(rows, d.merchantTransId).Some?
              && AmountMinor(cfg, d.amount).Some?
              && AmountMinor(cfg, d.amount).value != rows[Locate(rows, d.merchantTransId).value].amount
    ensures s.reply.Crashed? <==>
              PrepareSignatureValid(cfg, d) && Locate(rows, d.merchantTransId).Some? && AmountMinor(cfg, d.amount).None?
    ensures s.reply.Prepared? <==>
              && PrepareSignatureValid(cfg, d) && Locate(rows, d.merchantTransId).Some?
              && AmountMinor(cfg, d.amount) == Some(rows[Locate(rows, d.merchantTransId).value].amount)
    ensures s.reply.Prepared? ==>
              var i := Locate(rows, d.merchantTransId).value;
              && s.reply == Prepared(d.clickTransId, d.merchantTransId, rows[i].id)
              && AmountMinor(cfg, d.amount) == Some(rows[i].amount)
              && |s.rows| == |rows|
              && (forall k :: 0 <= k < |rows| && k != i ==> s.rows[k] == rows[k])
              && SameOutsideClickIds(rows[i], s.rows[i])
              && s.rows[i].clickPaydocId == rows[i].clickPaydocId
              && s.rows[i].clickTransId == Stored(d.clickTransId)
              && s.rows[i].merchantTransId == Stored(d.merchantTransId)
  {
    if !PrepareSignatureValid(cfg, d) then ClickStep(Rejected(INVALID_SIGNATURE, "Invalid signature"), rows)
    else match Locate(rows, d.merchantTransId)
      case None => ClickStep(Rejected(TRANSACTION_NOT_FOUND, "Transaction not found"), rows)
      case Some(i) =>
        match AmountMinor(cfg, d.amount)
        case None => ClickStep(Crashed, rows)
        case Some(amount) =>
          if amount != rows[i].amount then ClickStep(Rejected(INVALID_AMOUNT, "Invalid amount"), rows)
          else
            var t := rows[i].(clickTransId := Stored(d.clickTransId), merchantTransId := Stored(d.merchantTransId));
            ClickStep(Prepared(d.clickTransId, d.merchantTransId, t.id), rows[i := t])
  }

  /** A redelivered Prepare gets the same reply and changes nothing more. */
  lemma PrepareIdempotent(cfg: ClickConfig, rows: seq<Transaction>, d: PreparePayload)
    ensures var s := PrepareOutcome(cfg, rows, d); PrepareOutcome(cfg, s.rows, d) == s
  {
    var s := PrepareOutcome(cfg, rows, d);
    if s.reply.Prepared? {
      SameIdsSameFind(rows, s.rows, Render(d.merchantTransId));
    }
  }

  method HandlePrepare(cfg: ClickConfig, db: TransactionTable, d: PreparePayload) returns (r: ClickReply)
    requires db.Valid()
    modifies db
    ensures db.Valid()
    ensures ClickStep(r, db.rows) == PrepareOutcome(cfg, old(db.rows), d)
  {
    var expected := Signature(cfg, PrepareSigned(cfg, d));
    if d.signString != Text(expected) {
      return Rejected(INVALID_SIGNATURE, "Invalid signature");
    }
    var found := Locate(db.rows, d.merchantTransId);
    if found.None? {
      return Rejected(TRANSACTION_NOT_FOUND, "Transaction not found");
    }
    var i := found.value;
    var t := db.rows[i];
    var amount := AmountMinor(cfg, d.amount);
    if amount.None? {
      return Crashed;
    }
    if amount.value != t.amount {
      return Rejected(INVALID_AMOUNT, "Invalid amount");
    }
    t := t.(clickTransId := Stored(d.clickTransId));
    t := t.(merchantTransId := Stored(d.merchantTransId));
    db.Save(i, t);
    r := Prepared(d.clickTransId, d.merchantTransId, t.id);
  }

  /**
   * `handle_complete`: lookup, then the write; no signature is checked. An
   * unknown transaction leaves the table unchanged; otherwise the transaction
   * is settled by the callback's `error` field, whatever its status was, and
   * the reply reports success in both cases.
   */
  function CompleteOutcome(rows: seq<Transaction>, d: CompletePayload, now: int): (s: ClickStep)
    ensures !s.reply.Confirmed? ==> s.rows == rows
    ensures s.reply.Rejected? || s.reply.Confirmed?
    ensures s.reply.Rejected? <==> Locate(rows, d.merchantTransId).None?
    ensures s.reply.Rejected? ==> s.reply.ErrorCode() == TRANSACTION_NOT_FOUND
    ensures s.reply.Confirmed? ==>
              var i := Locate(rows, d.merchantTransId).value;
              && s.reply == Confirmed(d.clickTransId, d.merchantTransId, rows[i].id)
              && |s.rows| == |rows|
              && (forall k :: 0 <= k < |rows| && k != i ==> s.rows[k] == rows[k])
              && (s.rows[i].status == Completed <==> IsInteger(d.error, 0))
              && (s.rows[i].status == Failed <==> !IsInteger(d.error, 0))
              && s.rows[i] == Settle(rows[i], d.error, d.clickPaydocId, now)
  {
    match Locate(rows, d.merchantTransId)
    case None => ClickStep(Rejected(TRANSACTION_NOT_FOUND, "Transaction not found"), rows)
    case Some(i) =>
      var t := Settle(rows[i], d.error, d.clickPaydocId, now);
      ClickStep(Confirmed(d.clickTransId, d.merchantTransId, t.id), rows[i := t])
  }

  /**
   * Without a signature check, any Complete that names an existing
   * transaction by its id settles it: with `error` other than the integer 0
   * it marks any transaction failed, a completed one included, whatever the
   * other fields say.
   */
  lemma UnsignedCompleteSettles(rows: seq<Transaction>, i: nat, d: CompletePayload, now: int)
    requires DistinctIds(rows) && i < |rows|
    requires d.merchantTransId == Text(rows[i].id)
    ensures var s := CompleteOutcome(rows, d, now);
            && s.reply == Confirmed(d.clickTransId, d.merchantTransId, rows[i].id)
            && s.rows[i].status == (if IsInteger(d.error, 0) then Completed else Failed)
  {
    FindOwnId(rows, i);
  }

  /**
   * A redelivered successful Complete gets the same reply but stamps the
   * completion time again with the clock of the redelivery.
   */
  lemma CompleteReplayRestamps(rows: seq<Transaction>, d: CompletePayload, now1: int, now2: int)
    requires CompleteOutcome(rows, d, now1).reply.Confirmed? && IsInteger(d.error, 0)
    ensures var s1 := CompleteOutcome(rows, d, now1);
            var s2 := CompleteOutcome(s1.rows, d, now2);
            var i := Locate(rows, d.merchantTransId).value;
            && s2.reply == s1.reply
            && s2.rows == s1.rows[i := s1.rows[i].(completedAt := Some(now2))]
  {
    var s1 := CompleteOutcome(rows, d, now1);
    SameIdsSameFind(rows, s1.rows, Render(d.merchantTransId));
  }

  method HandleComplete(db: TransactionTable, d: CompletePayload, now: int) returns (r: ClickReply)
    requires db.Valid()
    modifies db
    ensures db.Valid()
    ensures ClickStep(r, db.rows) == CompleteOutcome(old(db.rows), d, now)
  {
    var found := Locate(db.rows, d.merchantTransId);
    if found.None? {
      return Rejected(TRANSACTION_NOT_FOUND, "Transaction not found");
    }
    var i := found.value;
    var t := db.rows[i];
    if d.error == Int(0) {
      t := t.(status := Completed);
      t := t.(completedAt := Some(now));
      t := t.(clickPaydocId := PaydocOrEmpty(d.clickPaydocId));
    } else {
      t := t.(status := Failed);
    }
    db.Save(i, t);
    r := Confirmed(d.clickTransId, d.merchantTransId, t.id);
  }
}
