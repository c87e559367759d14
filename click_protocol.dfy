/**
 * What the two revisions of the Click integration share: the merchant
 * settings, the payloads of the Prepare and Complete callbacks, the reply
 * dictionary, the text that is hashed for a signature, and the `Auth` header
 * sent to Click's merchant API.
 */
module ClickProtocol {
  import opened Strings
  import opened Values
  import opened Ledger

  /**
   * Merchant settings. `md5` and `sha1` stand for the hex digests of the UTF-8
   * encoding of their argument; `parseAmount` for Python's `float()` on a text
   * amount, read in minor units, `None` where `float()` raises.
   */
  datatype ClickConfig = ClickConfig(
    merchantUserId: string,
    secretKey: string,
    md5: string -> string,
    sha1: string -> string,
    parseAmount: string -> Option<int>)

  /** The Prepare callback's form fields. */
  datatype PreparePayload = PreparePayload(
    clickTransId: Wire, serviceId: Wire, clickPaydocId: Wire, merchantTransId: Wire,
    amount: Wire, action: Wire, signTime: Wire, signString: Wire)

  /** The Complete callback's form fields. */
  datatype CompletePayload = CompletePayload(
    clickTransId: Wire, merchantTransId: Wire, merchantPrepareId: Wire, error: Wire,
    signTime: Wire, signString: Wire, clickPaydocId: Wire)

  /**
   * The reply dictionary: an `{error, error_note}` refusal, the success replies
   * of Prepare and Complete (`error: 0`), or `-9` for an exception the handler
   * caught (its note is the exception text, which is not modelled).
   */
  datatype ClickReply =
    | Rejected(error: int, note: string)
    | Prepared(clickTransId: Wire, merchantTransId: Wire, merchantPrepareId: TxId)
    | Confirmed(clickTransId: Wire, merchantTransId: Wire, merchantConfirmId: TxId)
    | Crashed
  {
    /** The `error` field of the reply. */
    function ErrorCode(): int {
      match this
      case Rejected(e, _) => e
      case Prepared(_, _, _) => 0
      case Confirmed(_, _, _) => 0
      case Crashed => -9
    }
  }

  const INVALID_SIGNATURE := -1
  const INVALID_AMOUNT := -2
  const TRANSACTION_NOT_FOUND := -5

  /** A handler's reply together with the table after the call. */
  datatype ClickStep = ClickStep(reply: ClickReply, rows: seq<Transaction>)

  /** `''.join(str(arg) for arg in args)`: the text the signature is computed over. */
  function Concat(args: seq<Wire>): string {
    if args == [] then "" else Concat(args[..|args| - 1]) + Render(args[|args| - 1])
  }

  /** The fields so far, then one more. */
  lemma ConcatSnoc(init: seq<Wire>, w: Wire)
    ensures Concat(init + [w]) == Concat(init) + Render(w)
  {
    assert (init + [w])[..|init|] == init;
  }

  lemma ConcatTwo(a: Wire, b: Wire)
    ensures Concat([a, b]) == Render(a) + Render(b)
  {
    assert [a][..0] == [];
    assert Concat([a]) == Render(a);
    assert [a, b][..1] == [a];
    assert Concat([a, b]) == Concat([a]) + Render(b);
  }

  lemma ConcatThree(a: Wire, b: Wire, c: Wire)
    ensures Concat([a, b, c]) == Render(a) + Render(b) + Render(c)
  {
    ConcatTwo(a, b);
    assert [a, b, c] == [a, b] + [c];
    ConcatSnoc([a, b], c);
  }

  lemma ConcatFour(a: Wire, b: Wire, c: Wire, d: Wire)
    ensures Concat([a, b, c, d]) == Render(a) + Render(b) + Render(c) + Render(d)
  {
    ConcatThree(a, b, c);
    assert [a, b, c, d] == [a, b, c] + [d];
    ConcatSnoc([a, b, c], d);
  }

  lemma ConcatFive(a: Wire, b: Wire, c: Wire, d: Wire, e: Wire)
    ensures Concat([a, b, c, d, e]) == Render(a) + Render(b) + Render(c) + Render(d) + Render(e)
  {
    ConcatFour(a, b, c, d);
    assert [a, b, c, d, e] == [a, b, c, d] + [e];
    ConcatSnoc([a, b, c, d], e);
  }

  lemma ConcatSix(a: Wire, b: Wire, c: Wire, d: Wire, e: Wire, f: Wire)
    ensures Concat([a, b, c, d, e, f]) == Render(a) + Render(b) + Render(c) + Render(d) + Render(e) + Render(f)
  {
    ConcatFive(a, b, c, d, e);
    assert [a, b, c, d, e, f] == [a, b, c, d, e] + [f];
    ConcatSnoc([a, b, c, d, e], f);
  }

  lemma ConcatSeven(a: Wire, b: Wire, c: Wire, d: Wire, e: Wire, f: Wire, g: Wire)
    ensures Concat([a, b, c, d, e, f, g]) == Render(a) + Render(b) + Render(c) + Render(d) + Render(e) + Render(f) + Render(g)
  {
    ConcatSix(a, b, c, d, e, f);
    assert [a, b, c, d, e, f, g] == [a, b, c, d, e, f] + [g];
    ConcatSnoc([a, b, c, d, e, f], g);
  }

  /** Concatenation works field by field. */
  lemma {:induction false} ConcatAppend(a: seq<Wire>, b: seq<Wire>)
    ensures Concat(a + b) == Concat(a) + Concat(b)
    decreases |b|
  {
    if b == [] {
      assert a + b == a;
    } else {
      var init, last := b[..|b| - 1], b[|b| - 1];
      assert init + [last] == b;
      calc {
        Concat(a + b);
        { assert a + b == (a + init) + [last]; }
        Concat((a + init) + [last]);
        { ConcatSnoc(a + init, last); }
        Concat(a + init) + Render(last);
        { ConcatAppend(a, init); }
        (Concat(a) + Concat(init)) + Render(last);
        Concat(a) + (Concat(init) + Render(last));
        { ConcatSnoc(init, last); }
        Concat(a) + Concat(init + [last]);
        Concat(a) + Concat(b);
      }
    }
  }

  /** `float(amount)` of a payload field in minor units; `float(None)` raises. */
  function AmountMinor(cfg: ClickConfig, w: Wire): (r: Option<int>)
    ensures (w.Absent? || w.Null?) ==> r.None?
  {
    if w.Absent? || w.Null? then None else cfg.parseAmount(Render(w))
  }

  /** The column value of `data.get('click_paydoc_id', '')`: empty text when the field is missing. */
  function PaydocOrEmpty(w: Wire): (o: Option<string>)
    ensures w.Absent? ==> o == Some("")
    ensures w.Null? ==> o.None?
    ensures !w.Absent? && !w.Null? ==> o == Some(Render(w))
  {
    match w
    case Absent => Some("")
    case Null => None
    case _ => Some(Render(w))
  }

  /** Three ':'-free fields joined by ':' split back into those fields. */
  lemma ColonFields(a: string, b: string, c: string)
    ensures ':' !in a && ':' !in b && ':' !in c ==> Split(a + ":" + b + ":" + c, ':') == [a, b, c]
  {
    if ':' in a || ':' in b || ':' in c {
      return;
    }
    SplitThree(a, b, c, ':');
  }

  /**
   * `f"{merchant_user_id}:{sha1(timestamp + secret_key)}:{timestamp}"`,
   * `timestamp` in whole seconds. Click reads it as three ':'-separated
   * fields: the merchant user id, the digest of the timestamp followed by the
   * secret, and the timestamp, provided neither the user id nor the digest
   * contains ':'.
   */
  function AuthHeader(cfg: ClickConfig, timestamp: nat): (h: string)
    ensures ':' !in cfg.merchantUserId && ':' !in cfg.sha1(IntToDecimal(timestamp) + cfg.secretKey) ==>
              Split(h, ':') == [cfg.merchantUserId, cfg.sha1(IntToDecimal(timestamp) + cfg.secretKey), IntToDecimal(timestamp)]
  {
    var ts := IntToDecimal(timestamp);
    var digest := cfg.sha1(ts + cfg.secretKey);
    DecimalHasNo(timestamp, ':');
    ColonFields(cfg.merchantUserId, digest, ts);
    cfg.merchantUserId + ":" + digest + ":" + ts
  }

  /**
   * The header's fields read back as the merchant user id, the digest and the
   * timestamp, and the timestamp field parses back to the timestamp.
   */
  lemma AuthHeaderFields(cfg: ClickConfig, timestamp: nat)
    requires ':' !in cfg.merchantUserId
    requires ':' !in cfg.sha1(IntToDecimal(timestamp) + cfg.secretKey)
    ensures var ts := IntToDecimal(timestamp);
            && Split(AuthHeader(cfg, timestamp), ':') == [cfg.merchantUserId, cfg.sha1(ts + cfg.secretKey), ts]
            && ParseInt(ts) == timestamp
  {
    IntToDecimalRoundTrip(timestamp);
  }

  /**
   * The fields a Prepare success leaves alone: everything but the Click ids
   * and the merchant reference.
   */
  predicate SameOutsideClickIds(t: Transaction, u: Transaction) {
    && u.id == t.id && u.amount == t.amount && u.status == t.status
    && u.createdAt == t.createdAt && u.completedAt == t.completedAt
    && u.paymeTransId == t.paymeTransId && u.paymeTime == t.paymeTime
  }

  /**
   * What Complete sets: the status by the callback's `error` field (only the
   * integer 0 counts as success), and on success also the completion time and
   * the payment document id, defaulting to empty text. Nothing else changes.
   */
  function Settle(t: Transaction, error: Wire, paydoc: Wire, now: int): (u: Transaction)
    ensures u.status == (if IsInteger(error, 0) then Completed else Failed)
    ensures u.completedAt == (if IsInteger(error, 0) then Some(now) else t.completedAt)
    ensures u.clickPaydocId == (if IsInteger(error, 0) then PaydocOrEmpty(paydoc) else t.clickPaydocId)
    ensures u.id == t.id && u.amount == t.amount && u.createdAt == t.createdAt
    ensures u.paymeTransId == t.paymeTransId && u.paymeTime == t.paymeTime
    ensures u.clickTransId == t.clickTransId && u.merchantTransId == t.merchantTransId
  {
    if IsInteger(error, 0) then t.(status := Completed, completedAt := Some(now), clickPaydocId := PaydocOrEmpty(paydoc))
    else t.(status := Failed)
  }
}
