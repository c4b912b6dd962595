/** The persisted transaction and the view of it that queries return. */
module Records {
  import opened Wrappers

  /** A stored transaction. `id` and `createdAt` are fixed when it is created;
      `hashKey` is its deduplication key. Amounts are whole numbers here. */
  datatype Transaction = Transaction(
    id: string,
    date: string,
    description: string,
    amount: int,
    currency: string,
    balance: Option<int>,
    createdAt: int,
    hashKey: string)

  /** A transaction as the query returns it: every field but the key. */
  datatype TransactionView = TransactionView(
    id: string,
    date: string,
    description: string,
    amount: int,
    currency: string,
    balance: Option<int>,
    createdAt: int)

  function View(t: Transaction): TransactionView {
    TransactionView(t.id, t.date, t.description, t.amount, t.currency, t.balance, t.createdAt)
  }
}
