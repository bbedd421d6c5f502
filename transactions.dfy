/** The transaction record (src/types/transaction.ts) and the small helpers
    every other module shares. */
module Transactions {

  datatype Option<+T> = None | Some(value: T)

  /** The two literals of `TransactionType`.  The record keeps its type as a
      plain string, because some code compares it against other literals. */
  const Income: string := "income"
  const Expense: string := "expense"

  /** `Omit<Transaction, "id">`: everything a form submits.  `kind` is the
      source's `type` field (a reserved word here); `amount` is in cents. */
  datatype TransactionFields = TransactionFields(
    date: string,
    kind: string,
    category: string,
    description: string,
    amount: int,
    paymentMethod: string,
    reference: Option<string>,
    notes: Option<string>)

  /** A stored record: the fields plus the identifier the store assigned. */
  datatype Transaction = Transaction(
    id: string,
    date: string,
    kind: string,
    category: string,
    description: string,
    amount: int,
    paymentMethod: string,
    reference: Option<string>,
    notes: Option<string>)

  /** The fields of a record, without its id. */
  function Fields(t: Transaction): TransactionFields {
    TransactionFields(t.date, t.kind, t.category, t.description, t.amount,
                      t.paymentMethod, t.reference, t.notes)
  }

  /** `{ ...fields, id }`: a record made of every field plus the given id. */
  function WithId(f: TransactionFields, id: string): (t: Transaction)
    ensures t.id == id && Fields(t) == f
  {
    Transaction(id, f.date, f.kind, f.category, f.description, f.amount,
                f.paymentMethod, f.reference, f.notes)
  }

  /** The type the declared `TransactionType` admits. */
  predicate WellTyped(t: Transaction) {
    t.kind == Income || t.kind == Expense
  }

  predicate AllWellTyped(ts: seq<Transaction>) {
    forall i :: 0 <= i < |ts| ==> WellTyped(ts[i])
  }

  /** Amounts are never negative: the sign is carried by the type. */
  predicate NonNegativeAmounts(ts: seq<Transaction>) {
    forall i :: 0 <= i < |ts| ==> ts[i].amount >= 0
  }

  /** The identifiers held by a list of records. */
  function Ids(ts: seq<Transaction>): set<string> {
    set i | 0 <= i < |ts| :: ts[i].id
  }

  /** No two records of the list share an identifier. */
  predicate UniqueIds(ts: seq<Transaction>) {
    forall i, j :: 0 <= i < j < |ts| ==> ts[i].id != ts[j].id
  }

  /** Sum of all amounts, whatever their type. */
  function TotalAmount(ts: seq<Transaction>): int {
    if |ts| == 0 then 0 else TotalAmount(ts[..|ts| - 1]) + ts[|ts| - 1].amount
  }
}
