/** The object graph of the ledger as an arena. Customers, branches and banks
    are records addressed by handles. A branch keeps handles of customers and
    a bank keeps handles of branches. So one customer can sit in several
    branches, and a deposit made through any of them is seen by all. */
module Arena {
  import opened Common
  import opened Customers

  datatype CustomerRef = CustomerRef(index: nat)
  datatype BranchRef = BranchRef(index: nat)
  datatype BankRef = BankRef(index: nat)

  /** A branch: its name and the customers it holds, in insertion order. */
  datatype Branch = Branch(name: string, customers: seq<CustomerRef>)

  /** A bank: its name and the branches it holds, in insertion order. */
  datatype Bank = Bank(name: string, branches: seq<BranchRef>)

  /** Every object alive in the program, indexed by its handle. */
  datatype State = State(customers: seq<Customer>, branches: seq<Branch>, banks: seq<Bank>)

  /** The program before any object has been constructed. */
  const Empty: State := State([], [], [])

  predicate HasCustomer(s: State, c: CustomerRef) { c.index < |s.customers| }
  predicate HasBranch(s: State, b: BranchRef) { b.index < |s.branches| }
  predicate HasBank(s: State, k: BankRef) { k.index < |s.banks| }

  /** Every customer handle held by `br` refers to a live customer. */
  predicate CustomersAllocated(s: State, br: Branch) {
    forall j :: 0 <= j < |br.customers| ==> br.customers[j].index < |s.customers|
  }

  /** Every branch handle held by `bk` refers to a live branch. */
  predicate BranchesAllocated(s: State, bk: Bank) {
    forall j :: 0 <= j < |bk.branches| ==> bk.branches[j].index < |s.branches|
  }

  /** The invariants of the ledger: no handle dangles, no branch holds a
      customer twice, no bank holds a branch twice, and every recorded
      amount is non-negative. */
  predicate Valid(s: State) {
    && (forall i :: 0 <= i < |s.customers| ==> NonNegative(s.customers[i]))
    && (forall i :: 0 <= i < |s.branches| ==>
          Distinct(s.branches[i].customers) && CustomersAllocated(s, s.branches[i]))
    && (forall i :: 0 <= i < |s.banks| ==>
          Distinct(s.banks[i].branches) && BranchesAllocated(s, s.banks[i]))
  }

  /** In a well-formed ledger no customer's balance is below zero. */
  lemma BalancesNonNegative(s: State)
    requires Valid(s)
    ensures forall i :: 0 <= i < |s.customers| ==> Balance(s.customers[i]) >= 0
  {
    forall i | 0 <= i < |s.customers|
      ensures Balance(s.customers[i]) >= 0
    {
      BalanceNonNegative(s.customers[i]);
    }
  }

  lemma EmptyValid()
    ensures Valid(Empty)
  {
  }

  /** `new Customer(name, id)`: a fresh handle, unknown to every branch, to a
      customer with an empty log; every existing object is left alone. */
  function NewCustomer(s: State, name: string, id: int): (r: (State, CustomerRef))
    ensures !HasCustomer(s, r.1) && HasCustomer(r.0, r.1)
    ensures r.0.customers[r.1.index] == Customer(name, id, [])
    ensures r.0.customers[..|s.customers|] == s.customers
    ensures r.0.branches == s.branches && r.0.banks == s.banks
    ensures Valid(s) ==> forall i :: 0 <= i < |s.branches| ==> r.1 !in s.branches[i].customers
    ensures Valid(s) ==> Valid(r.0)
  {
    var c := CustomerRef(|s.customers|);
    assert Valid(s) ==> forall i :: 0 <= i < |s.branches| ==> c !in s.branches[i].customers by {
      if Valid(s) {
        forall i | 0 <= i < |s.branches|
          ensures c !in s.branches[i].customers
        {
          assert CustomersAllocated(s, s.branches[i]);
        }
      }
    }
    (s.(customers := s.customers + [Customers.Fresh(name, id)]), c)
  }

  /** `new Branch(name)`: a fresh handle, unknown to every bank, to a branch
      with no customers; every existing object is left alone. */
  function NewBranch(s: State, name: string): (r: (State, BranchRef))
    ensures !HasBranch(s, r.1) && HasBranch(r.0, r.1)
    ensures r.0.branches[r.1.index] == Branch(name, [])
    ensures r.0.branches[..|s.branches|] == s.branches
    ensures r.0.customers == s.customers && r.0.banks == s.banks
    ensures Valid(s) ==> forall i :: 0 <= i < |s.banks| ==> r.1 !in s.banks[i].branches
    ensures Valid(s) ==> Valid(r.0)
  {
    var b := BranchRef(|s.branches|);
    assert Valid(s) ==> forall i :: 0 <= i < |s.banks| ==> b !in s.banks[i].branches by {
      if Valid(s) {
        forall i | 0 <= i < |s.banks|
          ensures b !in s.banks[i].branches
        {
          assert BranchesAllocated(s, s.banks[i]);
        }
      }
    }
    var s' := s.(branches := s.branches + [Branch(name, [])]);
    assert Valid(s) ==> Valid(s') by {
      if Valid(s) {
        forall i | 0 <= i < |s'.banks|
          ensures BranchesAllocated(s', s'.banks[i])
        {
          assert BranchesAllocated(s, s.banks[i]);
        }
      }
    }
    (s', b)
  }

  /** `new Bank(name)`: a fresh handle to a bank with no branches; every
      existing object is left alone. */
  function NewBank(s: State, name: string): (r: (State, BankRef))
    ensures !HasBank(s, r.1) && HasBank(r.0, r.1)
    ensures r.0.banks[r.1.index] == Bank(name, [])
    ensures r.0.banks[..|s.banks|] == s.banks
    ensures r.0.customers == s.customers && r.0.branches == s.branches
    ensures Valid(s) ==> Valid(r.0)
  {
    (s.(banks := s.banks + [Bank(name, [])]), BankRef(|s.banks|))
  }

  /** `s'` is `s` after the single transaction `Transaction(amount, at)` was
      appended to the log of customer `c`, and nothing else changed. */
  predicate Deposited(s: State, s': State, c: CustomerRef, amount: int, at: Timestamp)
    requires HasCustomer(s, c)
  {
    && s'.branches == s.branches
    && s'.banks == s.banks
    && |s'.customers| == |s.customers|
    && (forall i :: 0 <= i < |s.customers| && i != c.index ==> s'.customers[i] == s.customers[i])
    && s'.customers[c.index].name == s.customers[c.index].name
    && s'.customers[c.index].id == s.customers[c.index].id
    && s'.customers[c.index].transactions == s.customers[c.index].transactions + [Transaction(amount, at)]
  }

  /** `customer.addTransaction(amount)` on the customer behind handle `c`:
      a negative amount changes nothing and reports failure; otherwise the
      one transaction is appended to that customer only and its balance
      rises by the amount. */
  function CustomerAddTransaction(s: State, c: CustomerRef, amount: int, at: Timestamp): (r: (State, bool))
    requires HasCustomer(s, c)
    ensures r.1 <==> amount >= 0
    ensures !r.1 ==> r.0 == s
    ensures r.1 ==> Deposited(s, r.0, c, amount, at)
    ensures |r.0.customers| == |s.customers|
    ensures Balance(r.0.customers[c.index]) == Balance(s.customers[c.index]) + (if r.1 then amount else 0)
    ensures Valid(s) ==> Valid(r.0)
  {
    var (customer, ok) := AddTransaction(s.customers[c.index], amount, at);
    if ok then (s.(customers := s.customers[c.index := customer]), true) else (s, false)
  }
}
