/** The operations of a bank: registering branches by identity, the
    membership guard, the guarded customer operations, the lookup of a
    branch by name and the customer listing. */
module Banks {
  import opened Common
  import opened Customers
  import opened Arena
  import Branches

  /** `bank.checkBranch(branch)`: whether the bank holds this very branch
      (identity, not name). */
  function CheckBranch(s: State, k: BankRef, b: BranchRef): (r: bool)
    requires HasBank(s, k)
    ensures r <==> exists i :: 0 <= i < |s.banks[k.index].branches| && s.banks[k.index].branches[i] == b
  {
    b in s.banks[k.index].branches
  }

  /** `bank.addBranch(branch)`: a branch the bank already holds is refused and
      nothing changes; otherwise its handle is appended to this bank's list
      and nothing else changes. Afterwards the bank holds the branch, and the
      list stays duplicate-free. */
  function AddBranch(s: State, k: BankRef, b: BranchRef): (r: (State, bool))
    requires HasBank(s, k) && HasBranch(s, b)
    ensures r.1 <==> b !in s.banks[k.index].branches
    ensures !r.1 ==> r.0 == s
    ensures r.0.customers == s.customers && r.0.branches == s.branches
    ensures |r.0.banks| == |s.banks|
    ensures forall i :: 0 <= i < |s.banks| && i != k.index ==> r.0.banks[i] == s.banks[i]
    ensures r.0.banks[k.index].name == s.banks[k.index].name
    ensures r.1 ==> r.0.banks[k.index].branches == s.banks[k.index].branches + [b]
    ensures CheckBranch(r.0, k, b)
    ensures Distinct(s.banks[k.index].branches) ==> Distinct(r.0.banks[k.index].branches)
    ensures Valid(s) ==> Valid(r.0)
  {
    var bk := s.banks[k.index];
    if b !in bk.branches then
      assert Distinct(bk.branches) ==> Distinct(bk.branches + [b]) by {
        if Distinct(bk.branches) {
          DistinctAppend(bk.branches, b);
        }
      }
      (s.(banks := s.banks[k.index := bk.(branches := bk.branches + [b])]), true)
    else
      (s, false)
  }

  /** `bank.addCustomer(branch, customer)`: refused with no change when the
      bank does not hold the branch; otherwise it behaves exactly as the
      branch's own `addCustomer`. */
  function AddCustomer(s: State, k: BankRef, b: BranchRef, c: CustomerRef): (r: (State, bool))
    requires HasBank(s, k) && HasBranch(s, b) && HasCustomer(s, c)
    ensures r.1 <==> CheckBranch(s, k, b) && c !in s.branches[b.index].customers
    ensures !CheckBranch(s, k, b) ==> r == (s, false)
    ensures CheckBranch(s, k, b) ==> r == Branches.AddCustomer(s, b, c)
    ensures Valid(s) ==> Valid(r.0)
  {
    if CheckBranch(s, k, b) then Branches.AddCustomer(s, b, c) else (s, false)
  }

  /** `bank.addCustomerTransaction(branch, customerId, amount)`: it succeeds
      exactly when the bank holds the branch, the branch holds a customer
      with that id and the amount is not negative. On failure nothing
      changes; on success only the first matching customer of that branch
      gains the one transaction. */
  function AddCustomerTransaction(s: State, k: BankRef, b: BranchRef, id: int, amount: int, at: Timestamp): (r: (State, bool))
    requires HasBank(s, k) && HasBranch(s, b) && CustomersAllocated(s, s.branches[b.index])
    ensures r.1 <==> CheckBranch(s, k, b) && Branches.HoldsId(s, s.branches[b.index].customers, id) && amount >= 0
    ensures !r.1 ==> r.0 == s
    ensures r.1 ==> exists j :: Branches.FirstWithId(s, s.branches[b.index].customers, id, j)
                              && Deposited(s, r.0, s.branches[b.index].customers[j], amount, at)
    ensures CheckBranch(s, k, b) ==> r == Branches.AddCustomerTransaction(s, b, id, amount, at)
    ensures Valid(s) ==> Valid(r.0)
  {
    if CheckBranch(s, k, b) then Branches.AddCustomerTransaction(s, b, id, amount, at) else (s, false)
  }

  /** `bank.findBranchByName(name)`: an empty name is the "required field"
      error, distinct from not finding anything. Otherwise the result is the
      name itself when some branch of the bank has exactly that name, and
      `None` (the source's `null`) when none has. */
  function FindBranchByName(s: State, k: BankRef, name: string): (r: Result<Option<string>>)
    requires HasBank(s, k) && BranchesAllocated(s, s.banks[k.index])
    ensures r.Err? <==> name == ""
    ensures r.Err? ==> r.error == MissingRequiredField
    ensures r.Ok? && r.value.Some? ==> r.value.value == name
    ensures r.Ok? ==> (r.value.Some? <==>
      exists i :: 0 <= i < |s.banks[k.index].branches| && s.branches[s.banks[k.index].branches[i].index].name == name)
  {
    if name == "" then
      Err(MissingRequiredField)
    else
      var bs := s.banks[k.index].branches;
      match FirstMatch(bs, b => HasBranch(s, b) && s.branches[b.index].name == name)
      case None => Ok(None)
      case Some(i) => Ok(Some(s.branches[bs[i].index].name))
  }

  /** One customer line of the listing: name, id and, when transactions were
      asked for, the customer's whole log (possibly empty). */
  datatype Entry = Entry(name: string, id: int, transactions: Option<seq<Transaction>>)

  /** `bank.listCustomers(branch, includeTransactions)`, without the text
      layout: listing a branch the bank does not hold is the "branch not
      found" error; otherwise there is one entry per customer of the branch,
      in insertion order, showing that customer's name and id and, exactly
      when asked, its log. */
  function ListCustomers(s: State, k: BankRef, b: BranchRef, includeTransactions: bool): (r: Result<seq<Entry>>)
    requires HasBank(s, k) && HasBranch(s, b) && CustomersAllocated(s, s.branches[b.index])
    ensures r.Err? <==> !CheckBranch(s, k, b)
    ensures r.Err? ==> r.error == BranchNotFound
    ensures r.Ok? ==> |r.value| == |s.branches[b.index].customers|
    ensures r.Ok? ==> forall i :: 0 <= i < |r.value| ==>
      var c := s.customers[s.branches[b.index].customers[i].index];
      && r.value[i].name == c.name
      && r.value[i].id == c.id
      && (r.value[i].transactions.Some? <==> includeTransactions)
      && (includeTransactions ==> r.value[i].transactions.value == c.transactions)
  {
    if !CheckBranch(s, k, b) then
      Err(BranchNotFound)
    else
      var cs := s.branches[b.index].customers;
      Ok(seq(|cs|, i requires 0 <= i < |cs| =>
        var c := s.customers[cs[i].index];
        Entry(c.name, c.id, if includeTransactions then Some(c.transactions) else None)))
  }

  /** Adding the same branch to a bank twice: the second call fails and the
      bank keeps the one entry. */
  lemma AddBranchTwice(s: State, k: BankRef, b: BranchRef)
    requires HasBank(s, k) && HasBranch(s, b)
    ensures var (s1, _) := AddBranch(s, k, b);
            var (s2, ok2) := AddBranch(s1, k, b);
            !ok2 && s2 == s1 && |s1.banks[k.index].branches| <= |s.banks[k.index].branches| + 1
  {
  }
}
