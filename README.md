# Banklist ledger model

A Dafny model of the ledger core of the Banklist page (`script.js`). The page
holds four seeded accounts in memory. Each account has an owner, a list of
movements (positive deposits and negative withdrawals), an interest rate and a
PIN. Usernames are derived from the owners' names. The click handlers log in,
transfer money, request a loan, close the current account and toggle the
sorted view of the movements. Everything is discarded on reload.

The model has three modules:

- `Figures` (`figures.dfy`, pure). The figures shown for a list of movements:
  - the balance, the incomes and the outcomes (left folds, like `reduce`);
  - the interest: only deposits are counted, each term is rate/100 of a
    deposit, and only terms of at least 1 are credited;
  - the ascending copy used by the sorted view;
  - the total held by a ledger of accounts.
- `Usernames` (`usernames.dfy`, pure). `toLowerCase().split(' ').map(name =>
  name.at(0)).join('')`, with an independent reference definition (the word
  starts) proved equal to it, and the usernames of the four seeded owners.
- `Banklist` (`bank.dfy`, imperative):
  - an `Account` class whose `movements`, `username` and cached `balance`
    are updated in place;
  - a `Bank` class holding the account list, the current account and the
    sort flag, with one method per click handler;
  - each handler states its outcome exactly, says which state changes, and
    keeps the invariant `Valid`: every username is the one derived from its
    owner, no two listed accounts share a username, and a current account
    that has been closed shares its username with no listed account.

A handler's `Outcome` is one of three values:

- `Done`: the guarded branch ran.
- `Rejected`: the guard was false.
- `Crashed`: the handler read a property of an undefined current account, a
  TypeError in the page.

Behaviour of the code worth knowing, which the model keeps as written:

- Transfer compares the amount with the balance cached by the last
  `updateUI` of the current account (`amount <= currentAccount.balance`). It
  does not use a freshly computed balance. An account whose display has not
  been refreshed has an undefined balance, and the guard is then false.
  `Covers` models this.
- Closing an account does not clear the current account. A second close with
  the same credentials does not find the username, and `findIndex` answers
  -1, so `splice(-1, 1)` removes the last listed account.
  - A transfer from such a closed current account still credits the receiver.
    It creates money: see `MovedTotal`.
  - A loan to it changes no listed account.
- The loan rule accepts any movement of at least a tenth of the amount. The
  third seeded account has a movement of 400, so a loan of 3000 is granted
  (`SeedLoans`).
- Login sets the current account to the lookup's result before the PIN is
  checked, so a wrong PIN still changes the current account.

Five session methods drive the page as loaded through the handlers, one click
after another: logging in as js and sending 100 to jd, and closing js twice and
then asking for a loan of 10.

Amounts are unbounded integers. The interest rate and the interest are reals,
which stand in for JavaScript's double arithmetic.

## Model

| member | source | states |
|---|---|---|
| Figures.SumPermutation | script.js:100 | `Balance`, the `reduce` sum of the movements, does not depend on their order |
| Figures.Deposits | script.js:106-107 | `filter(mov => mov > 0)` keeps only positive movements and never lengthens the list |
| Figures.Withdrawals | script.js:112-113 | `filter(mov => mov < 0)` keeps only negative movements and never lengthens the list |
| Figures.FiltersConcat | script.js:106-107 | both filters distribute over concatenation, so each keeps every passing movement of each part, in order |
| Figures.FiltersKeepAll | script.js:106-113 | a value is among the deposits exactly when it is a positive movement, and among the withdrawals exactly when it is a negative one |
| Figures.IncomesPlusOutcomes | script.js:104-115 | `Incomes` (the sum of the deposits, lines 106-108) plus `Outcomes` (the sum of the withdrawals, lines 112-114) equal the balance: zero movements drop out and no movement is counted twice |
| Figures.SummaryBounds | script.js:104-115 | outcomes are at most 0, incomes at least 0, and the balance lies between them |
| Figures.BalanceAfterAppend | script.js:99-102 | pushing a movement moves `Balance` by exactly that amount |
| Figures.BalanceOfPrefix | script.js:99-102 | the same step, along the prefixes of a list of movements |
| Figures.SeedBalance | script.js:6-7 | the first seeded account's movements sum to 3840 |
| Figures.InterestTerms | script.js:121 | one interest term per deposit, each being `deposit * interestRate / 100` |
| Figures.Credited | script.js:122-124 | only terms of at least 1 are kept, and the list never grows |
| Figures.CreditedConcat | script.js:122-124 | `filter(int => int >= 1)` distributes over concatenation, keeping order |
| Figures.CreditedKeepsAll | script.js:122-124 | a term is credited exactly when it is one of the terms and at least 1 |
| Figures.InterestAfterAppend | script.js:119-125 | `Interest`, the credited terms summed, is built up movement by movement: pushing a movement adds its interest term when it is a deposit whose term is at least 1, and adds nothing otherwise |
| Figures.InterestOfPrefix | script.js:119-125 | the same step, along the prefixes of a list of movements |
| Figures.SeedInterest | script.js:6-7 | the first seeded account's movements at rate 1.2 earn 59.4: the 70 deposit's 0.84 is dropped |
| Figures.InterestAtLeastCredited | script.js:119-125 | the interest is at least the number of credited deposits, so never negative, whatever the rate |
| Figures.InterestAtMostRateOfIncomes | script.js:119-125 | with a non-negative rate, the interest never exceeds the rate applied to all incomes |
| Figures.SmallDepositEarnsNothing | script.js:119-125 | a deposit whose interest term is below 1 leaves the interest unchanged |
| Figures.InsertKeepsOrder | script.js:65 | inserting into an ascending list keeps it ascending |
| Figures.SortedCopy | script.js:65 | `slice().sort((a, b) => a - b)` yields an ascending permutation of the movements |
| Figures.AscendingPermutationUnique | script.js:65 | two ascending permutations of the same movements are equal |
| Figures.SortedCopyIsTheSort | script.js:65 | any ascending permutation of the movements is exactly the sorted copy, whatever the sort algorithm |
| Figures.Displayed | script.js:61-65 | the displayed list is the movements unchanged when not sorting, and an ascending permutation of them when sorting |
| Figures.SortedViewKeepsBalance | script.js:65 | the sorted view sums to the same balance as the stored movements |
| Figures.SortedViewGroupsKinds | script.js:65-69 | in the sorted view no withdrawal row follows a deposit row |
| Figures.TotalAfterAppend | script.js:182-183 | pushing an amount onto one account of a ledger moves the ledger's total by that amount |
| Usernames.LowerChar | script.js:90 | `toLowerCase` maps A-Z to a-z, leaves other characters alone, and leaves no upper-case letter |
| Usernames.Lower | script.js:90 | lowercasing keeps the length and lowercases each character |
| Usernames.Split | script.js:91 | `split(' ')` gives at least one piece and no piece holds a space |
| Usernames.JoinSplit | script.js:91 | joining the pieces with single spaces gives back the string |
| Usernames.Initials | script.js:92-93 | one initial per non-empty piece at most, and exactly one per piece when none is empty |
| Usernames.InitialsAreWordStarts | script.js:91-93 | the initials of the split pieces are exactly the non-space characters that start a word |
| Usernames.UsernameIsInitials | script.js:89-93 | `Username`, the chain of lowercasing, splitting, taking initials and joining: the username is the word starts of the lowercased owner, no longer than the number of pieces, with no space or upper-case letter |
| Usernames.UsernameFromStarts | script.js:89-93 | the username is the lowercased word starts of the owner as written |
| Usernames.TwoWordUsername | script.js:89-93 | a two-word owner gives the two lowercased first letters |
| Usernames.ThreeWordUsername | script.js:89-93 | a three-word owner gives the three lowercased first letters |
| Usernames.SeedUsernames | script.js:4-32 | the four seeded owners give `js`, `jd`, `stw` and `ss` |
| Banklist.SummaryOf | script.js:129-136 | the figures `updateUI` shows: the stored movements, their balance, incomes, outcomes and interest, with incomes plus outcomes equal to the balance, outcomes at most 0 and incomes and interest at least 0 |
| Banklist.SeedSummaryInterest | script.js:119-125 | the interest shown for the first seeded account is 59.4 |
| Banklist.FindIndex | script.js:210-212 | `findIndex` answers -1 or a position holding the username |
| Banklist.FindIndexFirst | script.js:210-212 | the position found is the first match, and -1 means no account has the username |
| Banklist.Find | script.js:146-148 | `find` answers undefined exactly when `findIndex` answers -1, and otherwise the account at that first matching position |
| Banklist.SpliceStart | script.js:215 | `splice` starts at -1 at the last element and at a valid start at that start |
| Banklist.SpliceOne | script.js:215 | `splice(start, 1)` drops the element at the splice position and keeps the others in order |
| Banklist.AnyAtLeast | script.js:193 | `some(mov => mov >= threshold)` holds exactly when some movement reaches the threshold |
| Banklist.LoanRule | script.js:193 | `LoanGranted`: a loan is granted exactly when the amount is positive and ten times some movement reaches it; that movement is a deposit |
| Banklist.SeedLoans | script.js:193 | on the third seeded account, loans of 3000 and 4000 are granted and 4001 is refused |
| Banklist.OpenAccounts | script.js:4-32 | four fresh `Account` objects carrying the seeded owners, movements, rates and PINs, with no balance yet |
| Banklist.CreateUsernames | script.js:87-95 | every account's username becomes the one derived from its owner |
| Banklist.UpdateUI | script.js:129-136 | the cached balance becomes the sum of the movements (the rest is display) |
| Banklist.Push | script.js:182-183 | `movements.push(x)` appends x to that account, and the ledger of a list holding it once changes at its position only |
| Banklist.PushedTotal | script.js:195 | a pushed movement adds to the total of the listed ledgers, unless the account is not listed |
| Banklist.MovedTotal | script.js:182-183 | a transfer keeps the total of the listed ledgers, except from a closed account, where it adds the amount |
| Banklist.SpliceKeepsNames | script.js:215 | removing any account keeps the usernames derived and distinct |
| Banklist.CloseListed | script.js:210-215 | for a listed account, `findIndex` finds its own position, and the splice removes it and its username |
| Banklist.CloseDetached | script.js:210-215 | for a closed current account, `findIndex` answers -1, the last account is removed, and the username stays absent |
| Banklist.CloseSplice | script.js:210-215 | after the close handler's splice the current account and its username are gone, and exactly the right element was removed |
| Banklist.SeedNames | script.js:87-97 | after `createUsernames` the seeded usernames are `js`, `jd`, `stw`, `ss`, all different |
| Banklist.Bank.constructor | script.js:4-32 | the page as loaded: four fresh accounts opened from the seeds with their usernames, no current account, not sorted, and the invariant `Valid` holds: usernames derived from the owners and pairwise different |
| Banklist.Bank.Login | script.js:143-162 | the current account becomes the lookup's result; success exactly when the PIN matches, and then only that account's cached balance is refreshed |
| Banklist.Bank.Transfer | script.js:165-186 | crash and success conditions exactly as guarded (`Covers`, line 179: a cached balance exists and reaches the amount), the debit and credit as a `Moved` ledger, and only the current account's cache refreshed; otherwise no ledger changes |
| Banklist.Bank.RequestLoan | script.js:189-201 | crash exactly when the amount is positive and there is no current account; success exactly when the loan rule holds; the loan appended and the cache refreshed, and no other ledger changes |
| Banklist.Bank.Close | script.js:203-222 | crash exactly without a current account; success exactly when username and PIN match; then the spliced list, with the current account's own position removed when listed, or the last account removed when it was already closed |
| Banklist.Bank.ToggleSort | script.js:224-229 | crash exactly without a current account; otherwise the flag flips and the view shows the movements sorted exactly when the flag was off; `Valid` is kept |
| Banklist.LoginSession | script.js:143-162 | on the page as loaded, js with PIN 1111 logs in and its display caches the balance 3840 |
| Banklist.TransferSession | script.js:165-186 | js then sends 100 to jd: the transfer succeeds, js's movements end in -100 and jd's in 100 |
| Banklist.CloseSession | script.js:203-222 | js logged in closes js: js is removed and stays the current account |
| Banklist.CloseTwiceSession | script.js:203-222 | closing js again also succeeds and removes ss, the last account, leaving jd and stw with their ledgers |
| Banklist.LoanAfterCloseSession | script.js:189-201 | a loan of 10 to the closed js is then granted and changes no listed ledger |

## Left out

- Rendering is left out: the HTML rows, the welcome text, the labels, the
  opacity of the app and the clearing and blurring of input fields. The
  figures a refresh shows are `SummaryOf`.
- `Number(...)` parsing of the input fields is left out. Amounts and PINs
  arrive as integers, so NaN and fractional amounts are not modelled.
- Floating-point rounding is not modelled: the interest is computed in reals.
- Event wiring and `preventDefault` are left out. Each handler is a method
  that is called directly.
- The balance-label click handler (`script.js:231-243`) is left out. It only
  reads the page and logs to the console.
- Lowercasing covers ASCII A-Z only. JavaScript's full Unicode case mapping
  is not modelled.
- Strings are sequences of whole Unicode characters, while `name.at(0)`
  returns one UTF-16 code unit. An owner whose word starts with a character
  outside the Basic Multilingual Plane gets half a surrogate pair in the page,
  but the whole character in the model.
- `Banklist.UpdateUI` states only the cached balance it writes. The
  movements list and summary it draws are captured by `SummaryOf` and
  `Displayed`, not as page state.
- `Banklist.Bank.ToggleSort` returns the list it would draw and does not
  keep it as page state.
