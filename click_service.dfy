/**
 * The Click callbacks of `apps/payments/click_service.py`: signatures are the
 * MD5 of the signed fields followed by the secret key; Prepare signs the
 * payment document id only when the payload carries a truthy one; Complete is
 * signature-checked.
 */
module ClickService {
  import opened Strings
  import opened Values
  import opened Ledger
  import opened ClickProtocol

  /** `generate_signature(*args)`: MD5 of the arguments' text, in order, followed by the secret key. */
  function Signature(cfg: ClickConfig, args: seq<Wire>): string {
    cfg.md5(Concat(args) + cfg.secretKey)
  }

  /**
   * The Prepare fields that are signed, in order: the payment document id
   * takes the third place only when it is truthy.
   */
  function PrepareSigned(d: PreparePayload): (args: seq<Wire>)
    ensures |args| == (if Truthy(d.clickPaydocId) then 7 else 6)
    ensures Concat(args) ==
              Render(d.clickTransId) + Render(d.serviceId)
              + (if Truthy(d.clickPaydocId) then Render(d.clickPaydocId) else "")
              + Render(d.merchantTransId) + Render(d.amount) + Render(d.action) + Render(d.signTime)
  {
    if Truthy(d.clickPaydocId) then
      ConcatSeven(d.clickTransId, d.serviceId, d.clickPaydocId, d.merchantTransId, d.amount, d.action, d.signTime);
      [d.clickTransId, d.serviceId, d.clickPaydocId, d.merchantTransId, d.amount, d.action, d.signTime]
    else
      ConcatSix(d.clickTransId, d.serviceId, d.merchantTransId, d.amount, d.action, d.signTime);
      assert Render(d.clickTransId) + Render(d.serviceId) + "" == Render(d.clickTransId) + Render(d.serviceId);
      [d.clickTransId, d.serviceId, d.merchantTransId, d.amount, d.action, d.signTime]
  }

  /**
   * The Prepare signature is the MD5 of click_trans_id, service_id, the
   * payment document id when it is truthy, merchant_trans_id, amount, action,
   * sign_time and the secret key, written one after the other.
   */
  lemma PrepareSignedText(cfg: ClickConfig, d: PreparePayload)
    ensures Signature(cfg, PrepareSigned(d)) ==
              cfg.md5(Render(d.clickTransId) + Render(d.serviceId)
                      + (if Truthy(d.clickPaydocId) then Render(d.clickPaydocId) else "")
                      + Render(d.merchantTransId) + Render(d.amount) + Render(d.action)
                      + Render(d.signTime) + cfg.secretKey)
  {
  }

  predicate PrepareSignatureValid(cfg: ClickConfig, d: PreparePayload) {
    d.signString == Text(Signature(cfg, PrepareSigned(d)))
  }

  /**
   * `handle_prepare`: signature, then lookup, then amount, then the write.
   * Every refusal leaves the table unchanged; a success writes the Click
   * transaction id, the merchant reference and (only when truthy) the payment
   * document id, and keeps the status.
   */
  function PrepareOutcome(cfg: ClickConfig, rows: seq<Transaction>, d: PreparePayload): (s: ClickStep)
    ensures !s.reply.Prepared? ==> s.rows == rows
    ensures !s.reply.Confirmed?
    ensures s.reply.ErrorCode() == INVALID_SIGNATURE <==> !PrepareSignatureValid(cfg, d)
    ensures s.reply.ErrorCode() == TRANSACTION_NOT_FOUND <==>
              PrepareSignatureValid(cfg, d) && Locate(rows, d.merchantTransId).None?
    ensures s.reply.ErrorCode() == INVALID_AMOUNT <==>
              && PrepareSignatureValid(cfg, d) && Locate(rows, d.merchantTransId).Some?
              && AmountMinor(cfg, d.amount).Some?
              && AmountMinor(cfg, d.amount).value != rows[Locate(rows, d.merchantTransId).value].amount
    ensures s.reply.Crashed? <==>
              PrepareSignatureValid(cfg, d) && Locate(rows, d.merchantTransId).Some? && AmountMinor(cfg, d.amount).None?
    ensures s.reply.Prepared? <==>
              && PrepareSignatureValid(cfg, d) && Locate(rows, d.merchantTransId).Some?
              && AmountMinor(cfg, d.amount) == Some(rows[Locate(rows, d.merchantTransId).value].amount)
    ensures s.reply.Prepared? ==>
              var i := Locate(rows, d.merchantTransId).value;
              && s.reply == Prepared(d.clickTransId, d.merchantTransId, rows[i].id)
              && AmountMinor(cfg, d.amount) == Some(rows[i].amount)
              && |s.rows| == |rows|
              && (forall k :: 0 <= k < |rows| && k != i ==> s.rows[k] == rows[k])
              && SameOutsideClickIds(rows[i], s.rows[i])
              && s.rows[i].clickTransId == Stored(d.clickTransId)
              && s.rows[i].merchantTransId == Stored(d.merchantTransId)
              && s.rows[i].clickPaydocId == (if Truthy(d.clickPaydocId) then Some(Render(d.clickPaydocId)) else rows[i].clickPaydocId)
  {
    if !PrepareSignatureValid(cfg, d) then ClickStep(Rejected(INVALID_SIGNATURE, "Invalid signature"), rows)
    else match Locate(rows, d.merchantTransId)
      case None => ClickStep(Rejected(TRANSACTION_NOT_FOUND, "Transaction not found"), rows)
      case Some(i) =>
        match AmountMinor(cfg, d.amount)
        case None => ClickStep(Crashed, rows)
        case Some(amount) =>
          if amount != rows[i].amount then ClickStep(Rejected(INVALID_AMOUNT, "Invalid amount"), rows)
          else
            var t := rows[i].(clickTransId := Stored(d.clickTransId));
            var t' := if Truthy(d.clickPaydocId) then t.(clickPaydocId := Some(Render(d.clickPaydocId))) else t;
            var t'' := t'.(merchantTransId := Stored(d.merchantTransId));
            ClickStep(Prepared(d.clickTransId, d.merchantTransId, t''.id), rows[i := t''])
  }

  /** A redelivered Prepare gets the same reply and changes nothing more. */
  lemma PrepareIdempotent(cfg: ClickConfig, rows: seq<Transaction>, d: PreparePayload)
    ensures var s := PrepareOutcome(cfg, rows, d); PrepareOutcome(cfg, s.rows, d) == s
  {
    var s := PrepareOutcome(cfg, rows, d);
    if s.reply.Prepared? {
      SameIdsSameFind(rows, s.rows, Render(d.merchantTransId));
    }
  }

  method HandlePrepare(cfg: ClickConfig, db: TransactionTable, d: PreparePayload) returns (r: ClickReply)
    requires db.Valid()
    modifies db
    ensures db.Valid()
    ensures ClickStep(r, db.rows) == PrepareOutcome(cfg, old(db.rows), d)
  {
    var expected := Signature(cfg, PrepareSigned(d));
    if d.signString != Text(expected) {
      return Rejected(INVALID_SIGNATURE, "Invalid signature");
    }
    var found := Locate(db.rows, d.merchantTransId);
    if found.None? {
      return Rejected(TRANSACTION_NOT_FOUND, "Transaction not found");
    }
    var i := found.value;
    var t := db.rows[i];
    var amount := AmountMinor(cfg, d.amount);
    if amount.None? {
      return Crashed;
    }
    if amount.value != t.amount {
      return Rejected(INVALID_AMOUNT, "Invalid amount");
    }
    t := t.(clickTransId := Stored(d.clickTransId));
    if Truthy(d.clickPaydocId) {
      t := t.(clickPaydocId := Some(Render(d.clickPaydocId)));
    }
    t := t.(merchantTransId := Stored(d.merchantTransId));
    db.Save(i, t);
    r := Prepared(d.clickTransId, d.merchantTransId, t.id);
  }

  /** The Complete fields that are signed, in order. */
  function CompleteSigned(d: CompletePayload): (args: seq<Wire>)
    ensures Concat(args) ==
              Render(d.clickTransId) + Render(d.merchantTransId) + Render(d.merchantPrepareId)
              + Render(d.error) + Render(d.signTime)
  {
    ConcatFive(d.clickTransId, d.merchantTransId, d.merchantPrepareId, d.error, d.signTime);
    [d.clickTransId, d.merchantTransId, d.merchantPrepareId, d.error, d.signTime]
  }

  /**
   * The Complete signature is the MD5 of click_trans_id, merchant_trans_id,
   * merchant_prepare_id, error, sign_time and the secret key.
   */
  lemma CompleteSignedText(cfg: ClickConfig, d: CompletePayload)
    ensures Signature(cfg, CompleteSigned(d)) ==
              cfg.md5(Render(d.clickTransId) + Render(d.merchantTransId) + Render(d.merchantPrepareId)
                      + Render(d.error) + Render(d.signTime) + cfg.secretKey)
  {
  }

  predicate CompleteSignatureValid(cfg: ClickConfig, d: CompletePayload) {
    d.signString == Text(Signature(cfg, CompleteSigned(d)))
  }

  /**
   * `handle_complete`: signature, then lookup, then the write. A refusal
   * leaves the table unchanged; otherwise the transaction is settled by the
   * callback's `error` field, whatever its status was, and the reply reports
   * success in both cases.
   */
  function CompleteOutcome(cfg: ClickConfig, rows: seq<Transaction>, d: CompletePayload, now: int): (s: ClickStep)
    ensures !s.reply.Confirmed? ==> s.rows == rows
    ensures !s.reply.Prepared? && !s.reply.Crashed?
    ensures s.reply.ErrorCode() == INVALID_SIGNATURE <==> !CompleteSignatureValid(cfg, d)
    ensures s.reply.ErrorCode() == TRANSACTION_NOT_FOUND <==>
              CompleteSignatureValid(cfg, d) && Locate(rows, d.merchantTransId).None?
    ensures s.reply.Confirmed? <==> CompleteSignatureValid(cfg, d) && Locate(rows, d.merchantTransId).Some?
    ensures s.reply.Confirmed? ==>
              var i := Locate(rows, d.merchantTransId).value;
              && s.reply == Confirmed(d.clickTransId, d.merchantTransId, rows[i].id)
              && |s.rows| == |rows|
              && (forall k :: 0 <= k < |rows| && k != i ==> s.rows[k] == rows[k])
              && (s.rows[i].status == Completed <==> IsInteger(d.error, 0))
              && (s.rows[i].status == Failed <==> !IsInteger(d.error, 0))
              && s.rows[i] == Settle(rows[i], d.error, d.clickPaydocId, now)
  {
    if !CompleteSignatureValid(cfg, d) then ClickStep(Rejected(INVALID_SIGNATURE, "Invalid signature"), rows)
    else match Locate(rows, d.merchantTransId)
      case None => ClickStep(Rejected(TRANSACTION_NOT_FOUND, "Transaction not found"), rows)
      case Some(i) =>
        var t := Settle(rows[i], d.error, d.clickPaydocId, now);
        ClickStep(Confirmed(d.clickTransId, d.merchantTransId, t.id), rows[i := t])
  }

  /**
   * A redelivered successful Complete gets the same reply but stamps the
   * completion time again with the clock of the redelivery; nothing else
   * changes.
   */
  lemma CompleteReplayRestamps(cfg: ClickConfig, rows: seq<Transaction>, d: CompletePayload, now1: int, now2: int)
    requires CompleteOutcome(cfg, rows, d, now1).reply.Confirmed? && IsInteger(d.error, 0)
    ensures var s1 := CompleteOutcome(cfg, rows, d, now1);
            var s2 := CompleteOutcome(cfg, s1.rows, d, now2);
            var i := Locate(rows, d.merchantTransId).value;
            && s2.reply == s1.reply
            && s2.rows == s1.rows[i := s1.rows[i].(completedAt := Some(now2))]
  {
    var s1 := CompleteOutcome(cfg, rows, d, now1);
    SameIdsSameFind(rows, s1.rows, Render(d.merchantTransId));
  }

  /**
   * A Complete whose `error` field arrives as the text "0" (as a form-encoded
   * body carries it) marks the transaction failed, and the reply still
   * reports success.
   */
  lemma TextZeroCompleteFails(cfg: ClickConfig, rows: seq<Transaction>, d: CompletePayload, now: int)
    requires d.error == Text("0") && CompleteSignatureValid(cfg, d) && Locate(rows, d.merchantTransId).Some?
    ensures var s := CompleteOutcome(cfg, rows, d, now);
            && s.reply.ErrorCode() == 0
            && s.rows[Locate(rows, d.merchantTransId).value].status == Failed
  {
  }

  method HandleComplete(cfg: ClickConfig, db: TransactionTable, d: CompletePayload, now: int) returns (r: ClickReply)
    requires db.Valid()
    modifies db
    ensures db.Valid()
    ensures ClickStep(r, db.rows) == CompleteOutcome(cfg, old(db.rows), d, now)
  {
    var expected := Signature(cfg, CompleteSigned(d));
    if d.signString != Text(expected) {
      return Rejected(INVALID_SIGNATURE, "Invalid signature");
    }
    var found := Locate(db.rows, d.merchantTransId);
    if found.None? {
      return Rejected(TRANSACTION_NOT_FOUND, "Transaction not found");
    }
    var i := found.value;
    var t := db.rows[i];
    if d.error == Int(0) {
      t := t.(status := Completed);
      t := t.(completedAt := Some(now));
      t := t.(clickPaydocId := PaydocOrEmpty(d.clickPaydocId));
    } else {
      t := t.(status := Failed);
    }
    db.Save(i, t);
    r := Confirmed(d.clickTransId, d.merchantTransId, t.id);
  }
}
