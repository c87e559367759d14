/**
 * The payments `Transaction` table as the gateway handlers use it. The model
 * file itself is not part of this model; the fields below are the ones the
 * handlers read and write. Amounts are integers in minor units (tiyin), times
 * are integers in milliseconds since the epoch, and a transaction's id is kept
 * in its text form `str(id)`, which is what the handlers report back.
 */
module Ledger {
  import opened Values

  type TxId = string

  /** `Created` stands for the status a transaction has before any gateway touched it. */
  datatype Status = Created | Pending | Completed | Failed | Cancelled

  datatype Transaction = Transaction(
    id: TxId,
    amount: int,
    status: Status,
    createdAt: int,
    completedAt: Option<int>,
    paymeTransId: Option<string>,
    paymeTime: Option<int>,
    clickTransId: Option<string>,
    clickPaydocId: Option<string>,
    merchantTransId: Option<string>)

  /** The primary key is unique. */
  ghost predicate DistinctIds(rows: seq<Transaction>) {
    forall j, k :: 0 <= j < k < |rows| ==> rows[j].id != rows[k].id
  }

  /** `Transaction.objects.get(id=id)`: the index of the row with that id, if any. */
  function FindById(rows: seq<Transaction>, id: TxId): (r: Option<nat>)
    ensures r.Some? ==> r.value < |rows| && rows[r.value].id == id
    ensures r.None? <==> forall k :: 0 <= k < |rows| ==> rows[k].id != id
  {
    if rows == [] then None
    else if rows[0].id == id then Some(0)
    else match FindById(rows[1..], id)
      case None => None
      case Some(k) => Some(k + 1)
  }

  /**
   * `Transaction.objects.get(id=key)` for a payload field: a missing or null
   * key matches no row (Django turns `id=None` into `IS NULL`), any other
   * value is compared in its text form.
   */
  function Locate(rows: seq<Transaction>, key: Wire): (r: Option<nat>)
    ensures r.Some? ==> r.value < |rows| && key != Absent && key != Null && rows[r.value].id == Render(key)
    ensures (key == Absent || key == Null) ==> r.None?
    ensures r.None? <==> key == Absent || key == Null || forall k :: 0 <= k < |rows| ==> rows[k].id != Render(key)
  {
    if key.Absent? || key.Null? then None else FindById(rows, Render(key))
  }

  /** Outcome of a `get()` on a column that is not unique. */
  datatype Match = NoMatch | OneMatch(index: nat) | ManyMatches

  /**
   * `Transaction.objects.get(payme_trans_id=pid)`: no row, exactly one row, or
   * several rows (MultipleObjectsReturned). A `None` id matches the rows whose
   * Payme id is NULL.
   */
  function FindByPaymeId(rows: seq<Transaction>, pid: Option<string>): (r: Match)
    ensures r.NoMatch? <==> forall k :: 0 <= k < |rows| ==> rows[k].paymeTransId != pid
    ensures r.OneMatch? ==> r.index < |rows| && rows[r.index].paymeTransId == pid
    ensures r.OneMatch? ==> forall k :: 0 <= k < |rows| && k != r.index ==> rows[k].paymeTransId != pid
    ensures r.ManyMatches? ==> exists j, k :: 0 <= j < k < |rows| && rows[j].paymeTransId == pid && rows[k].paymeTransId == pid
  {
    if rows == [] then NoMatch
    else
      var rest := FindByPaymeId(rows[1..], pid);
      if rows[0].paymeTransId == pid then
        (match rest
         case NoMatch => OneMatch(0)
         case OneMatch(k) => assert rows[k + 1] == rows[1..][k]; ManyMatches
         case ManyMatches => ManyMatches)
      else
        (match rest
         case NoMatch => NoMatch
         case OneMatch(k) => OneMatch(k + 1)
         case ManyMatches =>
           var j, k :| 0 <= j < k < |rows[1..]| && rows[1..][j].paymeTransId == pid && rows[1..][k].paymeTransId == pid;
           assert rows[j + 1] == rows[1..][j] && rows[k + 1] == rows[1..][k];
           ManyMatches)
  }

  /** A lookup by primary key depends only on the ids, in order. */
  lemma {:induction false} SameIdsSameFind(a: seq<Transaction>, b: seq<Transaction>, id: TxId)
    requires |a| == |b|
    requires forall k :: 0 <= k < |a| ==> a[k].id == b[k].id
    ensures FindById(a, id) == FindById(b, id)
  {
    if a != [] {
      SameIdsSameFind(a[1..], b[1..], id);
    }
  }

  /** A lookup by Payme id depends only on the Payme ids, in order. */
  lemma {:induction false} SamePaymeIdsSameFind(a: seq<Transaction>, b: seq<Transaction>, pid: Option<string>)
    requires |a| == |b|
    requires forall k :: 0 <= k < |a| ==> a[k].paymeTransId == b[k].paymeTransId
    ensures FindByPaymeId(a, pid) == FindByPaymeId(b, pid)
  {
    if a != [] {
      SamePaymeIdsSameFind(a[1..], b[1..], pid);
    }
  }

  /** With unique ids, looking up a row's own id finds that row. */
  lemma FindOwnId(rows: seq<Transaction>, i: nat)
    requires DistinctIds(rows) && i < |rows|
    ensures FindById(rows, rows[i].id) == Some(i)
  {
  }

  /** The table, its rows in query order. `Save` is the ORM's `transaction.save()` on an existing row. */
  class TransactionTable {
    var rows: seq<Transaction>

    ghost predicate Valid()
      reads this
    {
      DistinctIds(rows)
    }

    constructor (initial: seq<Transaction>)
      requires DistinctIds(initial)
      ensures Valid() && rows == initial
    {
      rows := initial;
    }

    method Save(i: nat, t: Transaction)
      requires Valid() && i < |rows| && t.id == rows[i].id
      modifies this
      ensures Valid() && rows == old(rows)[i := t]
    {
      rows := rows[i := t];
    }
  }
}
