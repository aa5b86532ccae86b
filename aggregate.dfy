/** The values the composable derives from its current transaction list: the Income and
    Expense partitions, their sizes and the sums of their amounts. */
module Aggregate {
  import opened Transactions
  import opened Seqs

  /** The test `t.type === k` as a predicate on rows. */
  function HasKind(k: Kind): Transaction -> bool
  {
    (t: Transaction) => t.kind == k
  }

  /** The rows of kind `k`, in list order. */
  function OfKind(txs: seq<Transaction>, k: Kind): seq<Transaction>
  {
    Filter(txs, HasKind(k))
  }

  /** `income`: the Income rows. */
  function IncomeRows(txs: seq<Transaction>): seq<Transaction>
  {
    OfKind(txs, Income)
  }

  /** `expense`: the Expense rows. */
  function ExpenseRows(txs: seq<Transaction>): seq<Transaction>
  {
    OfKind(txs, Expense)
  }

  /** `incomeCount`. */
  function IncomeCount(txs: seq<Transaction>): nat
  {
    |IncomeRows(txs)|
  }

  /** `expenseCount`. */
  function ExpenseCount(txs: seq<Transaction>): nat
  {
    |ExpenseRows(txs)|
  }

  /** `reduce((sum, t) => sum + t.amount, 0)`: a left fold, first row added first. */
  function SumAmounts(txs: seq<Transaction>): int
  {
    if txs == [] then 0
    else SumAmounts(txs[..|txs| - 1]) + txs[|txs| - 1].amount
  }

  /** `incomeTotal`. */
  function IncomeTotal(txs: seq<Transaction>): int
  {
    SumAmounts(IncomeRows(txs))
  }

  /** `expenseTotal`. */
  function ExpenseTotal(txs: seq<Transaction>): int
  {
    SumAmounts(ExpenseRows(txs))
  }

  /** Reference definition of a partition total that does not build the partition:
      every row contributes its amount if it has kind `k` and nothing otherwise. */
  function AmountOfKind(txs: seq<Transaction>, k: Kind): int
  {
    if txs == [] then 0
    else (if txs[0].kind == k then txs[0].amount else 0) + AmountOfKind(txs[1..], k)
  }

  /** The rows of kind `k` form exactly the order-preserving subsequence of the list made of
      rows of that kind: every row of kind `k` is in it, nothing else is, it is a subsequence,
      and every other subsequence of rows of kind `k` is shorter or equal to it. */
  lemma OfKindIsExactSubsequence(txs: seq<Transaction>, k: Kind, r: seq<Transaction>)
    requires IsSubseq(r, txs)
    requires forall i :: 0 <= i < |r| ==> r[i].kind == k
    ensures forall i :: 0 <= i < |OfKind(txs, k)| ==> OfKind(txs, k)[i].kind == k
    ensures forall i :: 0 <= i < |txs| ==> (txs[i] in OfKind(txs, k) <==> txs[i].kind == k)
    ensures IsSubseq(OfKind(txs, k), txs)
    ensures |r| <= |OfKind(txs, k)|
    ensures |r| == |OfKind(txs, k)| ==> r == OfKind(txs, k)
  {
    FilterIsLargest(r, txs, HasKind(k));
  }

  /** Income and Expense never share a row, and a row of any other kind is in neither;
      together with the Other rows they account for every row of the list. */
  lemma {:induction false} PartitionIsDisjointAndComplete(txs: seq<Transaction>)
    ensures forall t: Transaction :: t in IncomeRows(txs) ==> t !in ExpenseRows(txs)
    ensures forall t: Transaction :: t.kind == Other ==> t !in IncomeRows(txs) && t !in ExpenseRows(txs)
    ensures |IncomeRows(txs)| + |ExpenseRows(txs)| + |OfKind(txs, Other)| == |txs|
  {
    if txs != [] {
      PartitionIsDisjointAndComplete(txs[1..]);
    }
  }

  /** `incomeCount` and `expenseCount` are the numbers of rows of the list whose type is
      Income, respectively Expense. */
  lemma CountsAreRowNumbers(txs: seq<Transaction>)
    ensures IncomeCount(txs) == |set i: nat | i < |txs| && txs[i].kind == Income|
    ensures ExpenseCount(txs) == |set i: nat | i < |txs| && txs[i].kind == Expense|
  {
    FilterLength(txs, HasKind(Income));
    FilterLength(txs, HasKind(Expense));
    assert Matching(txs, HasKind(Income)) == set i: nat | i < |txs| && txs[i].kind == Income;
    assert Matching(txs, HasKind(Expense)) == set i: nat | i < |txs| && txs[i].kind == Expense;
  }

  /** The left fold is additive over concatenation. */
  lemma {:induction false} SumAmountsAppend(a: seq<Transaction>, b: seq<Transaction>)
    ensures SumAmounts(a + b) == SumAmounts(a) + SumAmounts(b)
    decreases |b|
  {
    if b == [] {
      assert a + b == a;
    } else {
      var n := |b| - 1;
      assert (a + b)[..|a + b| - 1] == a + b[..n];
      SumAmountsAppend(a, b[..n]);
    }
  }

  /** The total of a partition, built by filtering then folding, equals the reference sum
      over the whole list of the amounts of rows of that kind. */
  lemma {:induction false} TotalIsAmountOfKind(txs: seq<Transaction>, k: Kind)
    ensures SumAmounts(OfKind(txs, k)) == AmountOfKind(txs, k)
  {
    if txs != [] {
      TotalIsAmountOfKind(txs[1..], k);
      if txs[0].kind == k {
        assert OfKind(txs, k) == [txs[0]] + OfKind(txs[1..], k);
        SumAmountsAppend([txs[0]], OfKind(txs[1..], k));
        assert SumAmounts([txs[0]]) == txs[0].amount by {
          assert [txs[0]][..0] == [];
        }
      }
    }
  }

  /** The record holds the decoded `type` column: a row built from a column value passes the
      Income (Expense) test exactly when that value is the string "Income" ("Expense"). */
  lemma KindTestIsStringTest(column: string, amount: int, createdAt: string)
    ensures HasKind(Income)(Transaction(KindOf(column), amount, createdAt)) <==> column == "Income"
    ensures HasKind(Expense)(Transaction(KindOf(column), amount, createdAt)) <==> column == "Expense"
  {
  }

  /** A total is 0 when its partition is empty, in particular for the empty list. */
  lemma EmptyPartitionTotalsZero(txs: seq<Transaction>)
    ensures IncomeRows(txs) == [] ==> IncomeTotal(txs) == 0
    ensures ExpenseRows(txs) == [] ==> ExpenseTotal(txs) == 0
    ensures IncomeTotal([]) == 0 && ExpenseTotal([]) == 0
  {
  }

  /** `incomeTotal` and `expenseTotal` are additive over concatenation of transaction lists. */
  lemma TotalsAreAdditive(a: seq<Transaction>, b: seq<Transaction>)
    ensures IncomeTotal(a + b) == IncomeTotal(a) + IncomeTotal(b)
    ensures ExpenseTotal(a + b) == ExpenseTotal(a) + ExpenseTotal(b)
  {
    FilterAppend(a, b, HasKind(Income));
    FilterAppend(a, b, HasKind(Expense));
    SumAmountsAppend(IncomeRows(a), IncomeRows(b));
    SumAmountsAppend(ExpenseRows(a), ExpenseRows(b));
  }

  /** No double counting: `incomeTotal` is the sum of the amounts of exactly the Income rows,
      `expenseTotal` that of exactly the Expense rows, and together with the Other rows they add
      up to the sum of every amount in the list. */
  lemma {:induction false} TotalsPartitionTheSum(txs: seq<Transaction>)
    ensures IncomeTotal(txs) == AmountOfKind(txs, Income)
    ensures ExpenseTotal(txs) == AmountOfKind(txs, Expense)
    ensures IncomeTotal(txs) + ExpenseTotal(txs) + SumAmounts(OfKind(txs, Other)) == SumAmounts(txs)
  {
    TotalIsAmountOfKind(txs, Income);
    TotalIsAmountOfKind(txs, Expense);
    TotalIsAmountOfKind(txs, Other);
    AmountsSplitByKind(txs);
  }

  /** Helper: the three per-kind reference sums add up to the sum of every amount. */
  lemma {:induction false} AmountsSplitByKind(txs: seq<Transaction>)
    ensures AmountOfKind(txs, Income) + AmountOfKind(txs, Expense) + AmountOfKind(txs, Other)
         == SumAmounts(txs)
  {
    if txs != [] {
      AmountsSplitByKind(txs[1..]);
      assert txs == [txs[0]] + txs[1..];
      SumAmountsAppend([txs[0]], txs[1..]);
      assert SumAmounts([txs[0]]) == txs[0].amount by {
        assert [txs[0]][..0] == [];
      }
    }
  }
}
