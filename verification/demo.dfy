/** The script at the end of the ledger: one bank, two branches, three
    customers, John registered at both branches. */
module Demo {
  import opened Common
  import opened Customers
  import opened Arena
  import Branches
  import Banks

  const Arizona := BankRef(0)
  const West := BranchRef(0)
  const Sun := BranchRef(1)
  const John := CustomerRef(0)
  const Anna := CustomerRef(1)
  const Sara := CustomerRef(2)

  /** The three customers as constructed, with empty logs. */
  const Accounts := [Customer("John", 1, []), Customer("Anna", 2, []), Customer("Sara", 3, [])]

  /** The branches after the customer registrations. */
  const Registered := [Branch("West Branch", [John, Sara]), Branch("Sun Branch", [John, Anna])]

  /** The objects of the script, constructed. */
  method Construct() returns (s: State)
    ensures s == State(Accounts, [Branch("West Branch", []), Branch("Sun Branch", [])], [Bank("Arizona", [])])
  {
    var (s0, arizona) := NewBank(Empty, "Arizona");
    var (s1, west) := NewBranch(s0, "West Branch");
    var (s2, sun) := NewBranch(s1, "Sun Branch");
    var (s3, john) := NewCustomer(s2, "John", 1);
    var (s4, anna) := NewCustomer(s3, "Anna", 2);
    var (s5, sara) := NewCustomer(s4, "Sara", 3);
    assert arizona == Arizona && west == West && sun == Sun;
    assert john == John && anna == Anna && sara == Sara;
    s := s5;
  }

  /** West, Sun, then West again: the repeat is refused. */
  method AddBranches(s: State) returns (s': State, westAgain: bool)
    requires s == State(Accounts, [Branch("West Branch", []), Branch("Sun Branch", [])], [Bank("Arizona", [])])
    ensures s' == State(Accounts, s.branches, [Bank("Arizona", [West, Sun])])
    ensures !westAgain
  {
    var (s6, _) := Banks.AddBranch(s, Arizona, West);
    assert s6.banks[0].branches == [] + [West];
    assert s6.banks[0] == Bank("Arizona", [West]);
    assert s6 == State(Accounts, s.branches, [Bank("Arizona", [West])]);
    var (s7, _) := Banks.AddBranch(s6, Arizona, Sun);
    assert s7.banks[0].branches == [West] + [Sun];
    assert s7.banks[0] == Bank("Arizona", [West, Sun]);
    assert s7 == State(Accounts, s.branches, [Bank("Arizona", [West, Sun])]);
    var r := Banks.AddBranch(s7, Arizona, West);
    s', westAgain := r.0, r.1;
  }

  /** One registration through the bank: the customer joins the end of the
      branch's list, and nothing else changes. */
  method Register(branches: seq<Branch>, b: BranchRef, c: CustomerRef) returns (s': State)
    requires b == West || b == Sun
    requires c == John || c == Anna || c == Sara
    requires |branches| == 2 && c !in branches[b.index].customers
    ensures s' == State(Accounts, branches[b.index := branches[b.index].(customers := branches[b.index].customers + [c])],
                        [Bank("Arizona", [West, Sun])])
  {
    var s := State(Accounts, branches, [Bank("Arizona", [West, Sun])]);
    var r := Banks.AddCustomer(s, Arizona, b, c);
    assert r.0.branches[b.index] == branches[b.index].(customers := branches[b.index].customers + [c]);
    s' := r.0;
  }

  /** John and Sara at West, John and Anna at Sun. */
  method AddCustomers(s: State) returns (s': State)
    requires s == State(Accounts, [Branch("West Branch", []), Branch("Sun Branch", [])], [Bank("Arizona", [West, Sun])])
    ensures s' == State(Accounts, Registered, s.banks)
  {
    var s9 := Register(s.branches, West, John);
    assert s.branches[0].customers + [John] == [John];
    assert s9.branches == [Branch("West Branch", [John]), Branch("Sun Branch", [])];
    var s10 := Register(s9.branches, West, Sara);
    assert s9.branches[0].customers + [Sara] == [John, Sara];
    assert s10.branches == [Registered[0], Branch("Sun Branch", [])];
    var s11 := Register(s10.branches, Sun, John);
    assert s10.branches[1].customers + [John] == [John];
    assert s11.branches == [Registered[0], Branch("Sun Branch", [John])];
    s' := Register(s11.branches, Sun, Anna);
    assert s11.branches[1].customers + [Anna] == [John, Anna];
    assert s'.branches == Registered;
  }

  /** Neither "Bank" nor "sun" is the exact name of a branch of Arizona. */
  method Lookups(s: State) returns (bankLookup: Result<Option<string>>, sunLookup: Result<Option<string>>)
    requires s == State(Accounts, [Branch("West Branch", []), Branch("Sun Branch", [])], [Bank("Arizona", [West, Sun])])
    ensures bankLookup == Ok(None) && sunLookup == Ok(None)
  {
    bankLookup := Banks.FindBranchByName(s, Arizona, "Bank");
    sunLookup := Banks.FindBranchByName(s, Arizona, "sun");
  }

  /** John, as registered, and the log he holds after the two deposits. */
  function Ledger(log: seq<Transaction>): State {
    State([Customer("John", 1, log)] + Accounts[1..], Registered, [Bank("Arizona", [West, Sun])])
  }

  /** A deposit for id 1 through West reaches John, the first (and only)
      customer of West with that id. */
  method DepositForJohn(s: State, ghost log: seq<Transaction>, amount: int, at: Timestamp) returns (s': State)
    requires s == Ledger(log)
    requires amount >= 0
    ensures s' == Ledger(log + [Transaction(amount, at)])
  {
    assert Branches.FirstWithId(s, s.branches[West.index].customers, 1, 0);
    assert forall k :: Branches.FirstWithId(s, s.branches[West.index].customers, 1, k) ==> k == 0;
    var r := Banks.AddCustomerTransaction(s, Arizona, West, 1, amount, at);
    assert s.customers[John.index].id == 1;
    assert r.1;
    assert r.0.customers[0] == Customer("John", 1, log + [Transaction(amount, at)]);
    assert r.0.customers[1..] == Accounts[1..];
    s' := r.0;
  }

  /** A deposit for id 2 through West is refused, since Anna is only
      registered at Sun; nothing changes. */
  method DepositForAnnaAtWest(s: State, ghost log: seq<Transaction>, at: Timestamp) returns (s': State, ok: bool)
    requires s == Ledger(log)
    ensures s' == s
    ensures !ok
  {
    assert !Branches.HoldsId(s, s.branches[West.index].customers, 2);
    var r := Banks.AddCustomerTransaction(s, Arizona, West, 2, 3000, at);
    s', ok := r.0, r.1;
  }

  lemma JohnsBalance(t1: Timestamp, t2: Timestamp)
    ensures Balance(Customer("John", 1, [Transaction(3000, t1), Transaction(2000, t2)])) == 5000
  {
    assert Amounts([Transaction(3000, t1), Transaction(2000, t2)]) == [3000, 2000];
    assert [3000, 2000][..1] == [3000];
    assert [3000][..0] == [];
  }

  /** After the deposits: John's direct -1000 is refused, his balance is
      5000, and the Sun listing shows the deposits made through West. */
  method Closing(s: State, t1: Timestamp, t2: Timestamp, t4: Timestamp)
    returns (negative: bool, balance: int, sunListing: Result<seq<Banks.Entry>>)
    requires s == Ledger([Transaction(3000, t1), Transaction(2000, t2)])
    ensures !negative
    ensures balance == 5000
    ensures sunListing.Ok? && |sunListing.value| == 2
    ensures sunListing.value[0] == Banks.Entry("John", 1, Some([Transaction(3000, t1), Transaction(2000, t2)]))
    ensures sunListing.value[1] == Banks.Entry("Anna", 2, Some([]))
  {
    var r := CustomerAddTransaction(s, John, -1000, t4);
    negative := r.1;
    JohnsBalance(t1, t2);
    balance := ComputeBalance(r.0.customers[John.index]);
    sunListing := Banks.ListCustomers(r.0, Arizona, Sun, true);
  }

  /** The script's calls in order. The clock readings of the four
      deposit attempts are parameters. The outcomes are fixed: adding West a
      second time fails; neither lookup finds a branch, because names match
      exactly; Anna (id 2) cannot be credited through West, where she was
      never registered; John's direct -1000 is refused; John's balance is
      5000. Both of John's deposits, made through West, show in the Sun
      listing because both branches hold the same customer. */
  method Script(t1: Timestamp, t2: Timestamp, t3: Timestamp, t4: Timestamp)
    returns (westAgain: bool, bankLookup: Result<Option<string>>, sunLookup: Result<Option<string>>,
             annaAtWest: bool, negative: bool, balance: int, sunListing: Result<seq<Banks.Entry>>)
    ensures !westAgain
    ensures bankLookup == Ok(None) && sunLookup == Ok(None)
    ensures !annaAtWest
    ensures !negative
    ensures balance == 5000
    ensures sunListing.Ok? && |sunListing.value| == 2
    ensures sunListing.value[0] == Banks.Entry("John", 1, Some([Transaction(3000, t1), Transaction(2000, t2)]))
    ensures sunListing.value[1] == Banks.Entry("Anna", 2, Some([]))
  {
    var s := Construct();
    s, westAgain := AddBranches(s);
    bankLookup, sunLookup := Lookups(s);
    s := AddCustomers(s);
    assert s == Ledger([]);
    s := DepositForJohn(s, [], 3000, t1);
    assert [] + [Transaction(3000, t1)] == [Transaction(3000, t1)];
    s := DepositForJohn(s, [Transaction(3000, t1)], 2000, t2);
    assert [Transaction(3000, t1)] + [Transaction(2000, t2)] == [Transaction(3000, t1), Transaction(2000, t2)];
    s, annaAtWest := DepositForAnnaAtWest(s, [Transaction(3000, t1), Transaction(2000, t2)], t3);
    negative, balance, sunListing := Closing(s, t1, t2, t4);
  }
}
