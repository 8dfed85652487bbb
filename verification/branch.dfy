/** The operations of a branch: registering a customer by identity and
    depositing to a customer found by id. */
module Branches {
  import opened Common
  import opened Customers
  import opened Arena

  /** Position `k` of `cs` holds a customer with this id, and no earlier
      position does. */
  predicate FirstWithId(s: State, cs: seq<CustomerRef>, id: int, k: int)
    requires forall j :: 0 <= j < |cs| ==> cs[j].index < |s.customers|
  {
    && 0 <= k < |cs|
    && s.customers[cs[k].index].id == id
    && forall j :: 0 <= j < k ==> s.customers[cs[j].index].id != id
  }

  /** Some customer held by the branch has this id. */
  predicate HoldsId(s: State, cs: seq<CustomerRef>, id: int)
    requires forall j :: 0 <= j < |cs| ==> cs[j].index < |s.customers|
  {
    exists j :: 0 <= j < |cs| && s.customers[cs[j].index].id == id
  }

  /** The lookup of `addCustomerTransaction`: the position, in insertion
      order, of the first customer of branch `b` whose id is `id`. */
  function FindCustomer(s: State, b: BranchRef, id: int): (r: Option<nat>)
    requires HasBranch(s, b) && CustomersAllocated(s, s.branches[b.index])
    ensures r.Some? ==> FirstWithId(s, s.branches[b.index].customers, id, r.value)
    ensures r.None? <==> !HoldsId(s, s.branches[b.index].customers, id)
  {
    FirstMatch(s.branches[b.index].customers,
               c => HasCustomer(s, c) && s.customers[c.index].id == id)
  }

  /** `branch.addCustomer(customer)`: a customer the branch already holds is
      refused and nothing changes; otherwise its handle is appended to this
      branch's list and nothing else changes. The list stays duplicate-free. */
  function AddCustomer(s: State, b: BranchRef, c: CustomerRef): (r: (State, bool))
    requires HasBranch(s, b) && HasCustomer(s, c)
    ensures r.1 <==> c !in s.branches[b.index].customers
    ensures !r.1 ==> r.0 == s
    ensures r.0.customers == s.customers && r.0.banks == s.banks
    ensures |r.0.branches| == |s.branches|
    ensures forall i :: 0 <= i < |s.branches| && i != b.index ==> r.0.branches[i] == s.branches[i]
    ensures r.0.branches[b.index].name == s.branches[b.index].name
    ensures r.1 ==> r.0.branches[b.index].customers == s.branches[b.index].customers + [c]
    ensures c in r.0.branches[b.index].customers
    ensures Distinct(s.branches[b.index].customers) ==> Distinct(r.0.branches[b.index].customers)
    ensures Valid(s) ==> Valid(r.0)
  {
    var br := s.branches[b.index];
    if c !in br.customers then
      assert Distinct(br.customers) ==> Distinct(br.customers + [c]) by {
        if Distinct(br.customers) {
          DistinctAppend(br.customers, c);
        }
      }
      var s' := s.(branches := s.branches[b.index := br.(customers := br.customers + [c])]);
      assert Valid(s) ==> Valid(s') by {
        if Valid(s) {
          forall i | 0 <= i < |s'.banks|
            ensures BranchesAllocated(s', s'.banks[i])
          {
            assert BranchesAllocated(s, s.banks[i]);
          }
        }
      }
      (s', true)
    else
      (s, false)
  }

  /** `branch.addCustomerTransaction(customerId, amount)`: it succeeds exactly
      when the branch holds a customer with that id and the amount is not
      negative. On failure nothing changes at all; on success the first such
      customer, in insertion order, gains the one transaction and nothing
      else changes. */
  function AddCustomerTransaction(s: State, b: BranchRef, id: int, amount: int, at: Timestamp): (r: (State, bool))
    requires HasBranch(s, b) && CustomersAllocated(s, s.branches[b.index])
    ensures r.1 <==> HoldsId(s, s.branches[b.index].customers, id) && amount >= 0
    ensures !r.1 ==> r.0 == s
    ensures r.1 ==> exists k :: FirstWithId(s, s.branches[b.index].customers, id, k)
                              && Deposited(s, r.0, s.branches[b.index].customers[k], amount, at)
    ensures Valid(s) ==> Valid(r.0)
  {
    match FindCustomer(s, b, id)
    case None => (s, false)
    case Some(k) =>
      if amount < 0 then (s, false)
      else CustomerAddTransaction(s, s.branches[b.index].customers[k], amount, at)
  }

  /** Adding the same customer to a branch twice: the second call fails and
      the branch keeps the one entry. */
  lemma AddCustomerTwice(s: State, b: BranchRef, c: CustomerRef)
    requires HasBranch(s, b) && HasCustomer(s, c)
    ensures var (s1, _) := AddCustomer(s, b, c);
            var (s2, ok2) := AddCustomer(s1, b, c);
            !ok2 && s2 == s1 && |s1.branches[b.index].customers| <= |s.branches[b.index].customers| + 1
  {
  }
}
