/**
The toolkit's view of Firefly III transactions, and the partial updates it sends
back: a field left at None is not touched.
*/
module Ledger {
  import opened Wrappers
  import opened Calendar

  const BLIK_DONE := "blik_done"
  const ALLEGRO_DONE := "allegro_done"
  const ACTION_REQ := "action_req"

  datatype Category = Category(id: int, name: string)

  datatype Transaction = Transaction(
    id: int,
    date: Date,
    amount: real,
    description: string,
    tags: set<string>,
    notes: Option<string>,
    category: Option<Category>)

  datatype TransactionUpdate = TransactionUpdate(
    description: Option<string>,
    notes: Option<string>,
    tags: Option<set<string>>)

  /** What a transaction looks like after Firefly accepted the update. */
  function ApplyUpdate(tx: Transaction, update: TransactionUpdate): Transaction {
    tx.(description := if update.description.Some? then update.description.value else tx.description,
        notes := if update.notes.Some? then update.notes else tx.notes,
        tags := if update.tags.Some? then update.tags.value else tx.tags)
  }
}
