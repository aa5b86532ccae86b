/** One row of the `transactions` table, as the finance client sees it. */
module Transactions {

  /** The `type` column. The client compares it with the exact strings "Income" and
      "Expense"; a row carrying any other value belongs to neither partition. */
  datatype Kind = Income | Expense | Other

  /** A transaction row: its kind, its `amount` in cents and its raw `created_at` timestamp. */
  datatype Transaction = Transaction(kind: Kind, amount: int, createdAt: string)

  /** The kind a `type` column value denotes under the strict equality tests
      `t.type === 'Income'` and `t.type === 'Expense'`. */
  function KindOf(column: string): (k: Kind)
    ensures k == Income <==> column == "Income"
    ensures k == Expense <==> column == "Expense"
    ensures k == Other <==> column != "Income" && column != "Expense"
  {
    if column == "Income" then Income
    else if column == "Expense" then Expense
    else Other
  }
}
