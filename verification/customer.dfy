/** A customer and its transaction log: deposits are appended in order,
    negative amounts are refused, and the balance is the sum of the log. */
module Customers {

  /** A point in time. The ledger only stores it, so it is an opaque value
      that the caller supplies in place of reading the clock. */
  datatype Timestamp = Timestamp(ticks: int)

  /** One deposit: an amount and the moment it was recorded. */
  datatype Transaction = Transaction(amount: int, date: Timestamp)

  /** A customer: name, caller-chosen id (not necessarily unique) and the
      transaction log in insertion order. */
  datatype Customer = Customer(name: string, id: int, transactions: seq<Transaction>)

  /** A customer as the constructor creates it: with an empty log. */
  function Fresh(name: string, id: int): Customer {
    Customer(name, id, [])
  }

  /** The amounts of a log, in order. */
  function Amounts(ts: seq<Transaction>): (xs: seq<int>)
    ensures |xs| == |ts|
    ensures forall i :: 0 <= i < |ts| ==> xs[i] == ts[i].amount
  {
    seq(|ts|, i requires 0 <= i < |ts| => ts[i].amount)
  }

  /** Left-to-right sum, starting from 0, as `reduce` computes it. */
  function Total(xs: seq<int>): int {
    if |xs| == 0 then 0 else Total(xs[..|xs| - 1]) + xs[|xs| - 1]
  }

  /** The balance of a customer: the sum of the amounts in its log. */
  function Balance(c: Customer): int {
    Total(Amounts(c.transactions))
  }

  /** Every amount in the log is non-negative; every log the ledger builds
      has this shape. */
  predicate NonNegative(c: Customer) {
    forall i :: 0 <= i < |c.transactions| ==> c.transactions[i].amount >= 0
  }

  lemma AmountsAppend(ts: seq<Transaction>, t: Transaction)
    ensures Amounts(ts + [t]) == Amounts(ts) + [t.amount]
  {
  }

  lemma TotalSnoc(xs: seq<int>, x: int)
    ensures Total(xs + [x]) == Total(xs) + x
  {
    assert (xs + [x])[..|xs|] == xs;
  }

  /** `addTransaction`: a negative amount is refused and the customer is left
      as it was; any other amount is appended, with the given time, as the
      last entry of the log, and the balance rises by exactly that amount. */
  function AddTransaction(c: Customer, amount: int, at: Timestamp): (r: (Customer, bool))
    ensures r.1 <==> amount >= 0
    ensures !r.1 ==> r.0 == c
    ensures r.1 ==> r.0.transactions == c.transactions + [Transaction(amount, at)]
    ensures r.0.name == c.name && r.0.id == c.id
    ensures Balance(r.0) == Balance(c) + (if r.1 then amount else 0)
    ensures NonNegative(c) ==> NonNegative(r.0)
  {
    if amount < 0 then
      (c, false)
    else
      var c' := c.(transactions := c.transactions + [Transaction(amount, at)]);
      AmountsAppend(c.transactions, Transaction(amount, at));
      TotalSnoc(Amounts(c.transactions), amount);
      (c', true)
  }

  /** `getBalance` as the source runs it: one pass over the log, adding each
      amount to a running total that starts at 0. */
  method ComputeBalance(c: Customer) returns (total: int)
    ensures total == Balance(c)
  {
    total := 0;
    var i := 0;
    while i < |c.transactions|
      invariant 0 <= i <= |c.transactions|
      invariant total == Total(Amounts(c.transactions[..i]))
    {
      assert c.transactions[..i + 1] == c.transactions[..i] + [c.transactions[i]];
      AmountsAppend(c.transactions[..i], c.transactions[i]);
      TotalSnoc(Amounts(c.transactions[..i]), c.transactions[i].amount);
      total := total + c.transactions[i].amount;
      i := i + 1;
    }
    assert c.transactions[..i] == c.transactions;
  }

  lemma {:induction false} TotalNonNegative(xs: seq<int>)
    requires forall i :: 0 <= i < |xs| ==> xs[i] >= 0
    ensures Total(xs) >= 0
    decreases |xs|
  {
    if |xs| > 0 {
      TotalNonNegative(xs[..|xs| - 1]);
    }
  }

  /** A log of non-negative amounts never sums below zero. */
  lemma BalanceNonNegative(c: Customer)
    requires NonNegative(c)
    ensures Balance(c) >= 0
  {
    TotalNonNegative(Amounts(c.transactions));
  }

  lemma {:induction false} TotalAppend(xs: seq<int>, ys: seq<int>)
    ensures Total(xs + ys) == Total(xs) + Total(ys)
    decreases |ys|
  {
    if |ys| > 0 {
      var last := ys[|ys| - 1];
      var init := ys[..|ys| - 1];
      assert ys == init + [last];
      assert xs + ys == (xs + init) + [last];
      TotalAppend(xs, init);
      TotalSnoc(xs + init, last);
      TotalSnoc(init, last);
    } else {
      assert xs + ys == xs;
    }
  }

  /** The sum does not depend on the order of the amounts. */
  lemma {:induction false} TotalPermutation(xs: seq<int>, ys: seq<int>)
    requires multiset(xs) == multiset(ys)
    ensures Total(xs) == Total(ys)
    decreases |xs|
  {
    if |xs| == 0 {
      assert |ys| == |multiset(ys)| == 0;
    } else {
      var n := |xs| - 1;
      var x := xs[n];
      assert xs == xs[..n] + [x];
      assert x in multiset(ys);
      var k :| 0 <= k < |ys| && ys[k] == x;
      var rest := ys[..k] + ys[k + 1..];
      assert ys == ys[..k] + [x] + ys[k + 1..];
      assert multiset(ys) == multiset(ys[..k]) + multiset{x} + multiset(ys[k + 1..]);
      assert multiset(xs) == multiset(xs[..n]) + multiset{x};
      assert multiset(rest) == multiset(ys[..k]) + multiset(ys[k + 1..]);
      assert multiset(xs[..n]) + multiset{x} == multiset(rest) + multiset{x};
      assert multiset(xs[..n]) == multiset(xs[..n]) + multiset{x} - multiset{x};
      assert multiset(xs[..n]) == multiset(rest);
      TotalPermutation(xs[..n], rest);
      TotalAppend(ys[..k] + [x], ys[k + 1..]);
      TotalSnoc(ys[..k], x);
      TotalAppend(ys[..k], ys[k + 1..]);
    }
  }

  /** Performs `addTransaction` once per entry of `ds`, in order. */
  function DepositAll(c: Customer, ds: seq<Transaction>): Customer
    decreases |ds|
  {
    if |ds| == 0 then c
    else
      var d := ds[|ds| - 1];
      AddTransaction(DepositAll(c, ds[..|ds| - 1]), d.amount, d.date).0
  }

  /** Depositing a run of non-negative amounts appends them all, in order, and
      raises the balance by their sum. */
  lemma {:induction false} DepositAllBalance(c: Customer, ds: seq<Transaction>)
    requires forall i :: 0 <= i < |ds| ==> ds[i].amount >= 0
    ensures DepositAll(c, ds).transactions == c.transactions + ds
    ensures Balance(DepositAll(c, ds)) == Balance(c) + Total(Amounts(ds))
    decreases |ds|
  {
    if |ds| == 0 {
      assert c.transactions + ds == c.transactions;
      assert Amounts(ds) == [];
    } else {
      var init := ds[..|ds| - 1];
      var d := ds[|ds| - 1];
      assert ds == init + [d];
      DepositAllBalance(c, init);
      AmountsAppend(init, d);
      TotalSnoc(Amounts(init), d.amount);
    }
  }

  /** A fresh customer that receives the same non-negative deposits in any two
      orders ends with the same balance: the sum of those deposits. */
  lemma {:induction false} DepositOrderIrrelevant(name: string, id: int, ds: seq<Transaction>, es: seq<Transaction>)
    requires forall i :: 0 <= i < |ds| ==> ds[i].amount >= 0
    requires multiset(Amounts(ds)) == multiset(Amounts(es))
    ensures Balance(DepositAll(Fresh(name, id), ds)) == Total(Amounts(ds))
    ensures Balance(DepositAll(Fresh(name, id), es)) == Total(Amounts(ds))
  {
    var c := Fresh(name, id);
    assert Amounts([]) == [];
    DepositAllBalance(c, ds);
    forall i | 0 <= i < |es|
      ensures es[i].amount >= 0
    {
      assert Amounts(es)[i] in multiset(Amounts(ds));
    }
    DepositAllBalance(c, es);
    TotalPermutation(Amounts(ds), Amounts(es));
  }
}
