/**
 * `CreateTransactionSerializer.validate` of `apps/payments/serializers.py`:
 * fills in the default currency in the attributes, in place.
 */
module PaymentSerializers {
  import opened Attrs

  const DEFAULT_CURRENCY := "UZS"

  /**
   * The attributes after validation: a missing or falsy currency becomes
   * "UZS", a truthy one is kept, and no other key changes.
   */
  function WithDefaultCurrency(m: map<string, Value>): (r: map<string, Value>)
    ensures "currency" in r && Truthy(r["currency"])
    ensures "currency" in m && Truthy(m["currency"]) ==> r == m
    ensures !("currency" in m && Truthy(m["currency"])) ==> r["currency"] == Str(DEFAULT_CURRENCY)
    ensures forall k :: k != "currency" ==> (k in r <==> k in m)
    ensures forall k :: k != "currency" && k in m ==> r[k] == m[k]
  {
    if "currency" !in m || !Truthy(m["currency"]) then m["currency" := Str(DEFAULT_CURRENCY)] else m
  }

  /** Validating twice is validating once. */
  lemma WithDefaultCurrencyIdempotent(m: map<string, Value>)
    ensures WithDefaultCurrency(WithDefaultCurrency(m)) == WithDefaultCurrency(m)
  {
  }

  /** `validate(attrs)`: updates the dictionary in place and returns that same dictionary. */
  method ValidateCreateTransaction(attrs: AttrDict) returns (r: AttrDict)
    modifies attrs
    ensures r == attrs
    ensures attrs.data == WithDefaultCurrency(old(attrs.data))
  {
    if "currency" !in attrs.data || !Truthy(attrs.data["currency"]) {
      attrs.Set("currency", Str(DEFAULT_CURRENCY));
    }
    r := attrs;
  }
}
