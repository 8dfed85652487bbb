# Banking ledger — a Dafny model

This project models the in-memory banking ledger of `src/bank.ts`. A **bank** holds branches. A **branch** holds customers. A **customer** holds an ordered log of **transactions**, and each transaction is an amount and a date. The model covers:

- the guards: negative amounts, duplicate registrations, unknown customer ids and branches the bank does not hold;
- the derived balance;
- the lookup of a branch by name;
- the script at the end of the file.

The source tests membership by object identity, and one customer object can sit in several branches. So the model is an **arena**: `Arena.State` keeps every customer, branch and bank as a record addressed by a handle (`CustomerRef`, `BranchRef`, `BankRef`, each an index). A branch stores customer handles and a bank stores branch handles. A deposit made through one branch is therefore seen through every branch that holds the same customer. Every operation is a pure function. It returns the new state with the source's boolean, or a `Result` for the two operations that throw.

Files:

- `common.dfy` (`Common`): `Option`, `Result`, the two error kinds, `Distinct`, and `FirstMatch`, which models `Array.prototype.find`.
- `customer.dfy` (`Customers`): transactions, `addTransaction`, the balance, and order-independence of the balance.
- `arena.dfy` (`Arena`): handles, the state, the ledger invariant `Valid`, the constructors, and `addTransaction` on a customer handle.
- `branch.dfy` (`Branches`): `Branch.addCustomer` and `Branch.addCustomerTransaction`.
- `bank.dfy` (`Banks`): `checkBranch`, `addBranch`, `addCustomer`, `addCustomerTransaction`, `findBranchByName` and `listCustomers`.
- `demo.dfy` (`Demo`): the closing script, modelled call by call.

`Arena.Valid` is the ledger invariant. It says that no handle dangles, no branch holds a customer twice, no bank holds a branch twice, and every amount is non-negative. `Valid(Empty)` holds, and every operation preserves `Valid` (each has an `ensures Valid(s) ==> Valid(r.0)`).

Notes on how the model reads the code:

- `Bank.addCustomer` and `Bank.addCustomerTransaction` repeat the branch logic inline (src/bank.ts:122-130, 140-156). The model calls the branch-level functions instead. Their contracts state that, once the guard passes, the bank operation gives exactly the branch operation's result.
- `addCustomerTransaction` looks up the customer first and then checks the amount. A negative amount therefore never reaches `Customer.addTransaction`, and its own check is then always passed. Both failures leave the state unchanged. The model keeps the source's order of checks.
- `findBranchByName` returns the name of the first branch whose name equals the argument, which is the argument itself. The model returns `Ok(Some(name))` in that case, `Ok(None)` for `null`, and `Err(MissingRequiredField)` for the empty name.
- Amounts and ids are `int`. The date of a transaction is an opaque `Timestamp` that the caller supplies in place of `new Date()`.

## Model

| member | source | states |
|---|---|---|
| Customers.AddTransaction | src/bank.ts:32-42 | Succeeds exactly when the amount is not negative. On failure the customer is unchanged. On success exactly one transaction `(amount, at)` is appended at the end, all earlier entries stay, the balance rises by exactly the amount, and a non-negative log stays non-negative. |
| Customers.ComputeBalance | src/bank.ts:44-48 | The one-pass running total of `getBalance`, starting at 0, equals the balance defined as the sum of the log's amounts. |
| Customers.BalanceNonNegative | src/bank.ts:44-48 | A log whose amounts are all non-negative has a balance of at least 0. |
| Customers.TotalPermutation | src/bank.ts:45-47 | The sum of the amounts does not depend on their order: two sequences with the same multiset of amounts have the same sum. |
| Customers.DepositAllBalance | src/bank.ts:32-48 | A run of non-negative deposits appends exactly those transactions, in order, and raises the balance by their sum. |
| Customers.DepositOrderIrrelevant | src/bank.ts:32-48 | A fresh customer that gets the same non-negative amounts in any order ends with the same balance, which is their sum. |
| Common.FirstMatch | src/bank.ts:80-82 | The search of `find`: the result is a position whose element matches and no earlier element matches, or `None` exactly when no element matches. |
| Arena.NewCustomer | src/bank.ts:14-18 | `new Customer` yields a fresh handle that no branch holds. It refers to a customer with the given name and id and an empty log. No existing object changes, and the invariant is kept. |
| Arena.NewBranch | src/bank.ts:54-57 | `new Branch` yields a fresh handle that no bank holds. It refers to a branch with no customers. No existing object changes, and the invariant is kept. |
| Arena.NewBank | src/bank.ts:103-106 | `new Bank` yields a fresh handle to a bank with no branches. No existing object changes. |
| Arena.CustomerAddTransaction | src/bank.ts:32-42 | `addTransaction` on the customer behind a handle. It succeeds exactly when the amount is not negative. Failure changes nothing. Success appends the one transaction to that customer only, raises its balance by the amount and keeps the invariant. |
| Arena.BalancesNonNegative | src/bank.ts:44-48 | In a ledger that keeps the invariant, every customer's balance is at least 0. |
| Branches.FindCustomer | src/bank.ts:80-83 | The lookup by id gives the first position, in insertion order, whose customer has that id. It gives `None` exactly when no customer of the branch has it. |
| Branches.AddCustomer | src/bank.ts:67-77 | Fails, with no change, exactly when the branch already holds that customer handle. Otherwise it appends the handle to this branch only. Afterwards the branch holds the customer, and the list stays duplicate-free. |
| Branches.AddCustomerTransaction | src/bank.ts:79-97 | Succeeds exactly when some customer of the branch has the id and the amount is not negative. Failure changes nothing. Success appends one transaction to the first matching customer and changes nothing else. |
| Branches.AddCustomerTwice | src/bank.ts:67-77 | Adding the same customer twice: the second call fails and leaves the state as the first call left it. |
| Banks.CheckBranch | src/bank.ts:181-188 | True exactly when the branch handle occurs in the bank's branch list. |
| Banks.AddBranch | src/bank.ts:108-118 | Fails, with no change, exactly when the bank already holds the branch handle. Otherwise it appends the handle to this bank only. Afterwards `CheckBranch` holds, and the list stays duplicate-free. |
| Banks.AddCustomer | src/bank.ts:120-136 | Succeeds exactly when the bank holds the branch and the branch does not yet hold the customer. For a branch the bank does not hold, it changes nothing. Otherwise its result is that of `Branch.addCustomer`. |
| Banks.AddCustomerTransaction | src/bank.ts:138-162 | Succeeds exactly when the bank holds the branch, the branch holds a customer with the id, and the amount is not negative. Failure changes nothing. Success appends one transaction to the first matching customer only. |
| Banks.FindBranchByName | src/bank.ts:164-179 | An empty name is the `MissingRequiredField` error and never a not-found result. For any other name the result is `Some(name)` exactly when a branch of the bank has exactly that name, and `None` otherwise. |
| Banks.ListCustomers | src/bank.ts:190-214 | A branch the bank does not hold gives the `BranchNotFound` error. Otherwise there is one entry per customer of the branch, in order, with its name and id, and with its whole log exactly when transactions are asked for. |
| Banks.AddBranchTwice | src/bank.ts:108-118 | Adding the same branch twice: the second call fails and leaves the state as the first call left it. |
| Demo.Construct | src/bank.ts:218-223 | The script's constructors produce the bank, the two branches and the three customers at the handles the rest of the script uses. |
| Demo.AddBranches | src/bank.ts:226-228 | Adding West, then Sun, then West again leaves the bank holding [West, Sun], and the third call fails. |
| Demo.Lookups | src/bank.ts:231-232 | Looking up "Bank" and "sun" returns not-found, not an error, because names must match exactly ("Sun Branch" is not "sun"). |
| Demo.Register | src/bank.ts:235-238 | One registration through the bank in the script's state: the customer joins the end of that branch's list, and nothing else changes. |
| Demo.AddCustomers | src/bank.ts:235-238 | John and Sara end up at West, and John and Anna at Sun. |
| Demo.DepositForJohn | src/bank.ts:241-242 | A deposit for id 1 through West is appended to John's log and changes nothing else. |
| Demo.DepositForAnnaAtWest | src/bank.ts:243 | The deposit for id 2 through West fails and changes nothing, because Anna is not registered there. |
| Demo.Closing | src/bank.ts:246-249 | John's direct -1000 is refused and his balance is 5000. The Sun listing shows John with both deposits made through West, and Anna with an empty log. |
| Demo.Script | src/bank.ts:218-249 | The whole script: the second `addBranch(West)` fails, both name lookups return not-found, Anna's deposit through West fails, John's direct -1000 is refused, and John's balance is 5000. The Sun listing shows both deposits made through West. |

## Left out

- Console output: the success and failure messages, and the text of the `listCustomers` report. The report is modelled as a list of entries (name, id, optional log) without its layout or date formatting.
- `new Date()`: the clock is replaced by a `Timestamp` that the caller passes in.
- JavaScript `number` semantics (NaN, -0, fractions, loose `==` between types): amounts and ids are mathematical integers.
- Truthiness in `findBranchByName`: only the empty string counts as a missing name. A `null` or `undefined` argument has no counterpart in the model.
- The getters `getName`, `getId`, `getTransactions`, `getCustomers`: they are field reads of the records. Mutation of the returned arrays by callers is not modelled.
- The `Transaction` class constructor: a `Transaction` is a datatype value.
- The listing of the West branch in the script (src/bank.ts:251-252): only the Sun listing is stated, since that is the one showing a deposit made through another branch.
