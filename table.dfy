/** The controller logic of src/components/TransactionTable.tsx: the sorted
    view of the list, and the component state (`formOpen`,
    `editingTransaction`) that decides where a submitted form goes. */
module TransactionTable {
  import opened Transactions
  import opened Sorting

  /** `[...transactions].sort((a, b) => time(b.date) - time(a.date))`, where
      `timeOf` stands for `new Date(date).getTime()`.  The argument is a value,
      so the copy leaves the caller's list as it was. */
  function SortedTransactions(ts: seq<Transaction>, timeOf: string -> int): (r: seq<Transaction>)
    ensures multiset(r) == multiset(ts) && |r| == |ts|
    ensures forall i, j :: 0 <= i < j < |r| ==> timeOf(r[i].date) >= timeOf(r[j].date)
  {
    var byDate := (t: Transaction) => timeOf(t.date);
    var r := SortByKeyDesc(ts, byDate);
    assert forall i, j :: 0 <= i < j < |r| ==> byDate(r[i]) >= byDate(r[j]);
    r
  }

  /** Which callback prop a handler invokes, if any. */
  datatype Callback =
    | NoCall
    | OnAdd(fields: TransactionFields)
    | OnUpdate(id: string, fields: TransactionFields)
    | OnDelete(id: string)

  /** `handleDelete`: `onDelete(id)` only when the confirmation dialog (an
      input here) is accepted. */
  method HandleDelete(id: string, confirmed: bool) returns (call: Callback)
    ensures confirmed ==> call == OnDelete(id)
    ensures !confirmed ==> call == NoCall
  {
    if confirmed {
      call := OnDelete(id);
    } else {
      call := NoCall;
    }
  }

  class TableController {
    var formOpen: bool
    var editing: Option<Transaction>

    /** The form is open whenever a record is being edited. */
    ghost predicate Valid()
      reads this
    {
      editing.Some? ==> formOpen
    }

    /** `useState(false)` and `useState(undefined)`. */
    constructor ()
      ensures !formOpen && editing == None && Valid()
    {
      formOpen := false;
      editing := None;
    }

    /** `handleEdit`: remember the record and open the form. */
    method HandleEdit(t: Transaction)
      modifies this
      ensures editing == Some(t) && formOpen && Valid()
    {
      editing := Some(t);
      formOpen := true;
    }

    /** The "Nueva Transacción" button: forget any record and open the form. */
    method HandleNew()
      modifies this
      ensures editing == None && formOpen && Valid()
    {
      editing := None;
      formOpen := true;
    }

    /** `handleSubmit`: while editing, `onUpdate` with the edited record's id
        and editing cleared; otherwise `onAdd`.  Either way the form closes. */
    method HandleSubmit(fields: TransactionFields) returns (call: Callback)
      modifies this
      ensures old(editing).Some? ==> call == OnUpdate(old(editing).value.id, fields)
      ensures old(editing).None? ==> call == OnAdd(fields)
      ensures editing == None && !formOpen && Valid()
    {
      if editing.Some? {
        call := OnUpdate(editing.value.id, fields);
        editing := None;
      } else {
        call := OnAdd(fields);
      }
      formOpen := false;
    }

    /** The form's `onOpenChange`: closing it always clears editing. */
    method OnOpenChange(open: bool)
      modifies this
      ensures formOpen == open
      ensures editing == if open then old(editing) else None
      ensures old(Valid()) ==> Valid()
    {
      formOpen := open;
      if !open {
        editing := None;
      }
    }
  }
}
