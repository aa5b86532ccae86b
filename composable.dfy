/** `useFetchTransactions`: the held transaction list, the `pending` flag, the fetch that
    refreshes the list, and the bundle of derived values handed to the page. */
module Composable {
  import opened Transactions
  import opened Aggregate
  import opened Grouping
  import opened Seqs

  /** What the awaited backend request settles to: the rows of the range query, a query that
      reported an error, or a request that rejected with an exception. */
  datatype Reply = Rows(rows: seq<Transaction>) | QueryError | Rejected

  /** How `fetchTransactions` settles: it returns a row list, or it throws. */
  datatype FetchResult = Returned(rows: seq<Transaction>) | Threw

  /** The object returned to the page: the list, its grouping and the aggregates. */
  datatype TransactionsView = TransactionsView(
    all: seq<Transaction>,
    byDate: map<string, seq<Transaction>>,
    income: seq<Transaction>,
    expense: seq<Transaction>,
    incomeTotal: int,
    expenseTotal: int,
    incomeCount: nat,
    expenseCount: nat)

  /** The derived values of a transaction list, each computed from that list alone. */
  function ViewOf(txs: seq<Transaction>, isoOf: string -> string): TransactionsView
  {
    TransactionsView(txs, Grouped(txs, isoOf), IncomeRows(txs), ExpenseRows(txs),
                     IncomeTotal(txs), ExpenseTotal(txs), IncomeCount(txs), ExpenseCount(txs))
  }

  /** The state of one use of the composable. */
  class TransactionsState {
    var transactions: seq<Transaction>
    var pending: bool

    /** A fresh composable holds no rows and is not fetching. */
    constructor ()
      ensures transactions == [] && !pending
    {
      transactions := [];
      pending := false;
    }

    /** The derived values of the list currently held. */
    function View(isoOf: string -> string): TransactionsView
      reads this
    {
      ViewOf(transactions, isoOf)
    }

    /** `fetchTransactions` up to its await: the flag goes up before the request is made. */
    method BeginFetch()
      modifies this`pending
      ensures pending
      ensures transactions == old(transactions)
    {
      pending := true;
    }

    /** `fetchTransactions` after its await: a query error becomes the empty list, rows are
        returned as they came, a rejection propagates; in every case `finally` lowers the flag. */
    method FinishFetch(reply: Reply) returns (result: FetchResult)
      modifies this`pending
      ensures !pending
      ensures transactions == old(transactions)
      ensures reply.Rows? ==> result == Returned(reply.rows)
      ensures reply.QueryError? ==> result == Returned([])
      ensures reply.Rejected? <==> result == Threw
    {
      match reply {
        case Rows(rows) => result := Returned(rows);
        case QueryError => result := Returned([]);
        case Rejected => result := Threw;
      }
      pending := false;
    }

    /** The whole of `fetchTransactions`: `pending` is up while the request is awaited and down
        once the fetch has settled, whether it returned or threw. It does not touch the list. */
    method FetchTransactions(reply: Reply) returns (result: FetchResult, ghost pendingWhileAwaiting: bool)
      modifies this`pending
      ensures pendingWhileAwaiting
      ensures !pending
      ensures transactions == old(transactions)
      ensures reply.Rows? ==> result == Returned(reply.rows)
      ensures reply.QueryError? ==> result == Returned([])
      ensures reply.Rejected? <==> result == Threw
    {
      BeginFetch();
      pendingWhileAwaiting := pending;
      result := FinishFetch(reply);
    }

    /** `refresh`: the list becomes what the fetch returned; when the fetch throws, the
        assignment is never reached and the list is kept. */
    method Refresh(reply: Reply) returns (result: FetchResult)
      modifies this
      ensures !pending
      ensures reply.Rows? ==> transactions == reply.rows
      ensures reply.QueryError? ==> transactions == []
      ensures reply.Rejected? ==> transactions == old(transactions)
      ensures reply.Rows? ==> result == Returned(reply.rows)
      ensures reply.QueryError? ==> result == Returned([])
      ensures reply.Rejected? <==> result == Threw
      ensures result.Returned? ==> result.rows == transactions
    {
      ghost var pendingWhileAwaiting;
      result, pendingWhileAwaiting := FetchTransactions(reply);
      if result.Returned? {
        transactions := result.rows;
      }
    }
  }

  /** After a refresh whose query failed, the page shows nothing: no rows, no dates, zero
      counts and zero totals. */
  lemma {:induction false} ErrorRefreshShowsEmptyView(isoOf: string -> string)
    ensures ViewOf([], isoOf) == TransactionsView([], map[], [], [], 0, 0, 0, 0)
  {
  }

  /** The two-row example: one Income of 100 and one Expense of 40 on 2024-01-02 give totals
      100 and 40 and a single date bucket holding both rows in fetch order. */
  lemma TwoRowExample(isoOf: string -> string)
    requires isoOf("2024-01-02T10:00:00Z") == "2024-01-02T10:00:00.000Z"
    requires isoOf("2024-01-02T12:00:00Z") == "2024-01-02T12:00:00.000Z"
    ensures var txs := [Transaction(Income, 100, "2024-01-02T10:00:00Z"),
                        Transaction(Expense, 40, "2024-01-02T12:00:00Z")];
            var v := ViewOf(txs, isoOf);
            v.incomeTotal == 100 && v.expenseTotal == 40 &&
            v.incomeCount == 1 && v.expenseCount == 1 &&
            v.byDate == map["2024-01-02" := txs]
  {
    var a := Transaction(Income, 100, "2024-01-02T10:00:00Z");
    var b := Transaction(Expense, 40, "2024-01-02T12:00:00Z");
    var txs := [a, b];
    ExampleDateKeys(isoOf);
    assert Dates(txs, isoOf) == {"2024-01-02"} by {
      assert txs[0] == a && txs[1] == b;
      assert DateKey(isoOf, txs[0].createdAt) in Dates(txs, isoOf);
    }
    var onDay := OnDate(isoOf, "2024-01-02");
    assert onDay(a) && onDay(b);
    assert Bucket(txs, isoOf, "2024-01-02") == txs by {
      assert txs[1..] == [b];
      assert [b][1..] == [];
      assert Filter([b], onDay) == [b];
    }
    assert IncomeRows(txs) == [a] by {
      assert txs[1..] == [b];
      assert [b][1..] == [];
      assert HasKind(Income)(a) && !HasKind(Income)(b);
      assert Filter([b], HasKind(Income)) == [];
    }
    assert ExpenseRows(txs) == [b] by {
      assert txs[1..] == [b];
      assert [b][1..] == [];
      assert !HasKind(Expense)(a) && HasKind(Expense)(b);
      assert Filter([b], HasKind(Expense)) == [b];
    }
    assert SumAmounts([a]) == 100 && SumAmounts([b]) == 40 by {
      assert [a][..0] == [] && [b][..0] == [];
    }
  }

  /** Both rows of the two-row example fall on 2024-01-02. */
  lemma ExampleDateKeys(isoOf: string -> string)
    requires isoOf("2024-01-02T10:00:00Z") == "2024-01-02T10:00:00.000Z"
    requires isoOf("2024-01-02T12:00:00Z") == "2024-01-02T12:00:00.000Z"
    ensures DateKey(isoOf, "2024-01-02T10:00:00Z") == "2024-01-02"
    ensures DateKey(isoOf, "2024-01-02T12:00:00Z") == "2024-01-02"
  {
    DayOfIso("2024-01-02", "10:00:00.000Z");
    ExampleIsoSplit();
    DayOfIso("2024-01-02", "12:00:00.000Z");
  }

  /** The two ISO strings of the example, split at their `T`. This literal fact is kept in a
      lemma of its own so that the solver checks it apart from the rest of the example. */
  lemma ExampleIsoSplit()
    ensures "2024-01-02T10:00:00.000Z" == "2024-01-02" + "T" + "10:00:00.000Z"
    ensures "2024-01-02T12:00:00.000Z" == "2024-01-02" + "T" + "12:00:00.000Z"
  {
  }
}
