/** The in-memory bank of the demo: the seeded accounts, the current account,
    the sort flag, and the click handlers for login, transfer, loan, close and
    sort, each as a method that changes that state. */
module Banklist {
  import opened Figures
  import opened Usernames

  datatype Option<T> = None | Some(value: T)

  /** What a click handler did. `Crashed` stands for the TypeError raised when
      the handler reads a property of an undefined current account; the
      handler stops there and nothing in the ledger has changed. */
  datatype Outcome = Done | Rejected | Crashed

  /** The figures that `updateUI` shows for an account. */
  datatype Summary = Summary(movements: seq<int>, balance: int, incomes: int, outcomes: int, interest: real)

  /** The figures shown for a movement history: incomes and outcomes add up to
      the balance, outcomes are never positive, incomes and interest never negative. */
  function SummaryOf(movements: seq<int>, interestRate: real): (s: Summary)
    ensures s.movements == movements && s.balance == Balance(movements)
    ensures s.incomes == Incomes(movements) && s.outcomes == Outcomes(movements)
    ensures s.interest == Interest(movements, interestRate)
    ensures s.incomes + s.outcomes == s.balance
    ensures s.outcomes <= 0 <= s.incomes && s.interest >= 0.0
  {
    SummaryBounds(movements);
    InterestAtLeastCredited(movements, interestRate);
    Summary(Displayed(movements, false), Balance(movements), Incomes(movements),
            Outcomes(movements), Interest(movements, interestRate))
  }

  class Account {
    const owner: string
    var movements: seq<int>
    const interestRate: real
    const pin: int
    /** Assigned once, by CreateUsernames, when the bank is set up. */
    var username: string
    /** The balance last written by updateUI; None while it is still undefined. */
    var balance: Option<int>

    constructor (owner: string, movements: seq<int>, interestRate: real, pin: int)
      ensures this.owner == owner && this.movements == movements
      ensures this.interestRate == interestRate && this.pin == pin
      ensures username == [] && balance == None
    {
      this.owner := owner;
      this.movements := movements;
      this.interestRate := interestRate;
      this.pin := pin;
      username := [];
      balance := None;
    }
  }

  /** The usernames of every account of a list, in order. */
  function Names(accs: seq<Account>): (names: seq<string>)
    reads accs`username
    ensures |names| == |accs|
  {
    if accs == [] then [] else [accs[0].username] + Names(accs[1..])
  }

  lemma {:induction false} NamesAt(accs: seq<Account>)
    ensures forall i :: 0 <= i < |accs| ==> Names(accs)[i] == accs[i].username
  {
    if accs != [] {
      NamesAt(accs[1..]);
    }
  }

  /** A position of u in names, or -1; IndexOfFirst shows it is the first. */
  function IndexOf(names: seq<string>, u: string): (k: int)
    ensures -1 <= k < |names|
    ensures k >= 0 ==> names[k] == u
  {
    if names == [] then -1
    else if names[0] == u then 0
    else
      var k := IndexOf(names[1..], u);
      if k == -1 then -1 else k + 1
  }

  /** The position found is the first one holding u, and -1 means u is absent. */
  lemma {:induction false} IndexOfFirst(names: seq<string>, u: string)
    ensures forall j :: 0 <= j < IndexOf(names, u) ==> names[j] != u
    ensures IndexOf(names, u) == -1 <==> u !in names
  {
    if names != [] && names[0] != u {
      var tail := names[1..];
      IndexOfFirst(tail, u);
      forall j | 0 < j < |names|
        ensures names[j] == tail[j - 1]
      {
      }
      assert u in names <==> u in tail;
    }
  }

  /** No name occurs twice. */
  predicate Distinct(names: seq<string>)
  {
    |names| <= 1 || (IndexOf(names[1..], names[0]) == -1 && Distinct(names[1..]))
  }

  /** Two positions of a distinct list hold different names. */
  lemma {:induction false} DistinctAt(names: seq<string>, i: int, j: int)
    requires Distinct(names) && 0 <= i < |names| && 0 <= j < |names| && i != j
    ensures names[i] != names[j]
  {
    IndexOfFirst(names[1..], names[0]);
    if i > 0 && j > 0 {
      DistinctAt(names[1..], i - 1, j - 1);
    } else if i == 0 {
      assert names[j] == names[1..][j - 1];
    } else {
      assert names[i] == names[1..][i - 1];
    }
  }

  /** In a distinct list, each name is found at its own position. */
  lemma {:induction false} DistinctIndex(names: seq<string>, j: int)
    requires Distinct(names) && 0 <= j < |names|
    ensures IndexOf(names, names[j]) == j
  {
    if j > 0 {
      var tail := names[1..];
      assert names[j] == tail[j - 1];
      IndexOfFirst(tail, names[0]);
      assert names[j] != names[0];
      DistinctIndex(tail, j - 1);
    }
  }

  /** A list whose positions hold pairwise different names is distinct. */
  lemma {:induction false} DistinctFromPairs(names: seq<string>)
    requires forall i, j :: 0 <= i < j < |names| ==> names[i] != names[j]
    ensures Distinct(names)
  {
    if |names| > 1 {
      var tail := names[1..];
      forall i, j | 0 <= i < j < |tail|
        ensures tail[i] != tail[j]
      {
        assert tail[i] == names[i + 1] && tail[j] == names[j + 1];
      }
      DistinctFromPairs(tail);
      forall m | 0 <= m < |tail|
        ensures tail[m] != names[0]
      {
        assert tail[m] == names[m + 1];
      }
      IndexOfFirst(tail, names[0]);
    }
  }

  /** `accounts.findIndex(acc => acc.username === u)`: a match, or -1;
      FindIndexFirst shows it is the first match. */
  function FindIndex(accs: seq<Account>, u: string): (k: int)
    reads accs`username
    ensures -1 <= k < |accs|
    ensures k >= 0 ==> accs[k].username == u
  {
    NamesAt(accs);
    IndexOf(Names(accs), u)
  }

  /** findIndex answers the first account holding the username, and -1 exactly
      when no account holds it. */
  lemma {:induction false} FindIndexFirst(accs: seq<Account>, u: string)
    ensures forall j :: 0 <= j < FindIndex(accs, u) ==> accs[j].username != u
    ensures FindIndex(accs, u) == -1 <==> forall j :: 0 <= j < |accs| ==> accs[j].username != u
  {
    NamesAt(accs);
    IndexOfFirst(Names(accs), u);
  }

  /** `accounts.find(acc => acc.username === u)`: the account findIndex finds,
      or undefined. */
  function Find(accs: seq<Account>, u: string): (a: Account?)
    reads accs`username
    ensures a == null <==> FindIndex(accs, u) == -1
    ensures a != null ==> a == accs[FindIndex(accs, u)] && a.username == u
  {
    var k := FindIndex(accs, u);
    if k == -1 then null else accs[k]
  }

  /** The position `splice(start, 1)` removes at: a negative start counts back
      from the end, and a start at or past the end removes nothing. */
  function SpliceStart(length: nat, start: int): (k: nat)
    ensures k <= length
    ensures start == -1 && length > 0 ==> k == length - 1
    ensures 0 <= start <= length ==> k == start
  {
    if start < 0 then (if length + start < 0 then 0 else length + start)
    else if start > length then length
    else start
  }

  /** `s.splice(start, 1)`, as the new contents of s: the element at the splice
      position is dropped and the others keep their order. */
  function SpliceOne<T>(s: seq<T>, start: int): (r: seq<T>)
    ensures var k := SpliceStart(|s|, start);
      && |r| == (if k < |s| then |s| - 1 else |s|)
      && forall j {:trigger r[j]} :: 0 <= j < |r| ==> r[j] == (if j < k then s[j] else s[j + 1])
  {
    var k := SpliceStart(|s|, start);
    if k < |s| then s[..k] + s[k + 1..] else s
  }

  /** Removing one name keeps a distinct list distinct. */
  lemma {:induction false} DistinctSplice(names: seq<string>, start: int)
    requires Distinct(names)
    ensures Distinct(SpliceOne(names, start))
  {
    var r := SpliceOne(names, start);
    var k := SpliceStart(|names|, start);
    forall i, j | 0 <= i < j < |r|
      ensures r[i] != r[j]
    {
      var i' := if i < k then i else i + 1;
      var j' := if j < k then j else j + 1;
      DistinctAt(names, i', j');
    }
    DistinctFromPairs(r);
  }

  /** Splicing a list of accounts splices its list of names the same way. */
  lemma {:induction false} NamesSplice(accs: seq<Account>, start: int)
    ensures Names(SpliceOne(accs, start)) == SpliceOne(Names(accs), start)
  {
    NamesAt(accs);
    NamesAt(SpliceOne(accs, start));
  }

  /** The usernames that `createUsernames` derives from the owners of a list. */
  function Derived(accs: seq<Account>): (names: seq<string>)
    ensures |names| == |accs|
  {
    if accs == [] then [] else [Username(accs[0].owner)] + Derived(accs[1..])
  }

  /** Each derived name is the username of the owner at that position. */
  lemma {:induction false} DerivedAt(accs: seq<Account>)
    ensures forall i :: 0 <= i < |accs| ==> Derived(accs)[i] == Username(accs[i].owner)
  {
    if accs != [] {
      DerivedAt(accs[1..]);
    }
  }

  lemma {:induction false} DerivedSplice(accs: seq<Account>, start: int)
    ensures Derived(SpliceOne(accs, start)) == SpliceOne(Derived(accs), start)
  {
    DerivedAt(accs);
    DerivedAt(SpliceOne(accs, start));
  }

  /** `amount <= acc.balance`: false while the cached balance is undefined. */
  predicate Covers(amount: int, cached: Option<int>)
  {
    cached.Some? && amount <= cached.value
  }

  /** `movements.some(mov => mov >= threshold)`. */
  function AnyAtLeast(movements: seq<int>, threshold: real): (b: bool)
    ensures b <==> exists i :: 0 <= i < |movements| && movements[i] as real >= threshold
  {
    if movements == [] then false
    else movements[0] as real >= threshold || AnyAtLeast(movements[1..], threshold)
  }

  /** The loan rule: a positive amount, and some movement of at least a tenth of it. */
  function LoanGranted(movements: seq<int>, amount: int): bool
  {
    amount > 0 && AnyAtLeast(movements, amount as real * 0.1)
  }

  /** A loan is granted exactly when the amount is positive and some movement is at
      least a tenth of it, which can only be a deposit. */
  lemma {:induction false} LoanRule(movements: seq<int>, amount: int)
    ensures (LoanGranted(movements, amount))
              <==> (amount > 0 && exists i :: 0 <= i < |movements| && 10 * movements[i] >= amount)
    ensures LoanGranted(movements, amount) ==> exists i :: 0 <= i < |movements| && movements[i] > 0
  {
    if LoanGranted(movements, amount) {
      var i :| 0 <= i < |movements| && movements[i] as real >= amount as real * 0.1;
      assert 10 * movements[i] >= amount;
    }
    if amount > 0 && exists i :: 0 <= i < |movements| && 10 * movements[i] >= amount {
      var i :| 0 <= i < |movements| && 10 * movements[i] >= amount;
      assert movements[i] as real >= amount as real * 0.1;
    }
  }

  /** The loan rule on the third seeded account, whose largest movement is 400:
      3000 is granted and so is 4000, while 4001 is refused. */
  lemma {:induction false} SeedLoans()
    ensures LoanGranted(Seeds()[2].movements, 3000)
    ensures LoanGranted(Seeds()[2].movements, 4000)
    ensures !LoanGranted(Seeds()[2].movements, 4001)
  {
    var ms := Seeds()[2].movements;
    assert ms == [200, -200, 340, -300, -20, 50, 400, -460];
    assert ms[6] as real >= 4000 as real * 0.1;
    forall i | 0 <= i < |ms|
      ensures ms[i] as real < 4001 as real * 0.1
    {
    }
  }

  /** The interest `updateUI` shows for the first seeded account: 59.4, its
      deposit of 70 earning 0.84 and so nothing. */
  lemma {:induction false} SeedSummaryInterest()
    ensures SummaryOf(Seeds()[0].movements, Seeds()[0].interestRate).interest == 59.4
  {
    SeedInterest(Seeds()[0].movements);
  }

  /** The seeded accounts, in order. The owners are written word by word, as
      in SeedUsernames. */
  datatype Seed = Seed(owner: string, movements: seq<int>, interestRate: real, pin: int)

  function Seeds(): seq<Seed>
  {
    [ Seed("Jonas" + " " + "Schmedtmann", [200, 450, -400, 3000, -650, -130, 70, 1300], 1.2, 1111),
      Seed("Jessica" + " " + "Davis", [5000, 3400, -150, -790, -3210, -1000, 8500, -30], 1.5, 2222),
      Seed("Steven" + " " + ("Thomas" + " " + "Williams"), [200, -200, 340, -300, -20, 50, 400, -460], 0.7, 3333),
      Seed("Sarah" + " " + "Smith", [430, 1000, 700, 50, 90], 1.0, 4444) ]
  }

  /** An account as the page creates it from a seed: no display yet. */
  ghost predicate Opened(a: Account, seed: Seed)
    reads a`movements, a`balance
  {
    && a.owner == seed.owner && a.movements == seed.movements
    && a.interestRate == seed.interestRate && a.pin == seed.pin && a.balance == None
  }

  /** The four account objects of the page, one per seed. */
  method OpenAccounts() returns (accs: seq<Account>)
    ensures |accs| == |Seeds()|
    ensures forall i :: 0 <= i < |accs| ==> fresh(accs[i]) && Opened(accs[i], Seeds()[i])
  {
    var seeds := Seeds();
    var account1 := new Account(seeds[0].owner, seeds[0].movements, seeds[0].interestRate, seeds[0].pin);
    var account2 := new Account(seeds[1].owner, seeds[1].movements, seeds[1].interestRate, seeds[1].pin);
    var account3 := new Account(seeds[2].owner, seeds[2].movements, seeds[2].interestRate, seeds[2].pin);
    var account4 := new Account(seeds[3].owner, seeds[3].movements, seeds[3].interestRate, seeds[3].pin);
    accs := [account1, account2, account3, account4];
  }

  /** The movements of every account of a list, in order. */
  ghost function Ledger(accs: seq<Account>): (ms: seq<seq<int>>)
    reads accs`movements
    ensures |ms| == |accs|
  {
    if accs == [] then [] else [accs[0].movements] + Ledger(accs[1..])
  }

  lemma {:induction false} LedgerAt(accs: seq<Account>)
    ensures forall i :: 0 <= i < |accs| ==> Ledger(accs)[i] == accs[i].movements
  {
    if accs != [] {
      LedgerAt(accs[1..]);
    }
  }

  /** `createUsernames`: derive every account's username from its owner. */
  method CreateUsernames(accs: seq<Account>)
    modifies accs`username
    ensures forall i :: 0 <= i < |accs| ==> accs[i].username == Username(accs[i].owner)
  {
    for i := 0 to |accs|
      invariant forall j :: 0 <= j < i ==> accs[j].username == Username(accs[j].owner)
    {
      accs[i].username := Username(accs[i].owner);
    }
  }

  /** `updateUI`: the figures it shows are SummaryOf(acc.movements,
      acc.interestRate); the one thing it changes is the balance that
      `calcDisplayBalance` caches on the account. */
  method UpdateUI(acc: Account)
    modifies acc`balance
    ensures acc.balance == Some(Balance(acc.movements))
  {
    acc.balance := Some(Balance(acc.movements));
  }

  /** Where an account object is listed, or -1 when it is not. */
  ghost function PositionOf(accs: seq<Account>, a: Account): (i: int)
    ensures -1 <= i < |accs|
    ensures i >= 0 ==> accs[i] == a
    ensures i == -1 <==> a !in accs
  {
    if accs == [] then -1
    else if accs[0] == a then 0
    else
      var i := PositionOf(accs[1..], a);
      if i == -1 then -1 else i + 1
  }

  /** An account object is listed at one position at most. */
  ghost predicate ListedOnce(accs: seq<Account>, a: Account)
  {
    forall j :: 0 <= j < |accs| && accs[j] == a ==> j == PositionOf(accs, a)
  }

  /** Two positions of a list with distinct usernames hold different accounts. */
  lemma {:induction false} ListedApart(accs: seq<Account>, i: int, j: int)
    requires Distinct(Names(accs)) && 0 <= i < j < |accs|
    ensures accs[i] != accs[j]
  {
    NamesAt(accs);
    DistinctIndex(Names(accs), i);
    DistinctIndex(Names(accs), j);
  }

  /** With distinct usernames, no account is listed twice. */
  lemma {:induction false} DistinctListedOnce(accs: seq<Account>, a: Account)
    requires Distinct(Names(accs))
    ensures ListedOnce(accs, a)
  {
    var p := PositionOf(accs, a);
    forall j | 0 <= j < |accs| && accs[j] == a
      ensures j == p
    {
      if j < p {
        ListedApart(accs, j, p);
      } else if p < j {
        ListedApart(accs, p, j);
      }
    }
  }

  /** The ledgers after a transfer: the receiver at `to` is credited and the
      sender at `from` debited, unless the sender is not listed (`from` is -1). */
  function Moved(ledger: seq<seq<int>>, from: int, to: int, amount: int): seq<seq<int>>
    requires -1 <= from < |ledger| && 0 <= to < |ledger| && from != to
  {
    Pushed(Pushed(ledger, from, -amount), to, amount)
  }

  /** A transfer between two listed accounts keeps the total of all ledgers;
      a transfer from an account that is no longer listed adds the amount. */
  lemma {:induction false} MovedTotal(ledger: seq<seq<int>>, from: int, to: int, amount: int)
    requires -1 <= from < |ledger| && 0 <= to < |ledger| && from != to
    ensures from >= 0 ==> Total(Moved(ledger, from, to, amount)) == Total(ledger)
    ensures from == -1 ==> Total(Moved(ledger, from, to, amount)) == Total(ledger) + amount
  {
    PushedTotal(ledger, from, -amount);
    PushedTotal(Pushed(ledger, from, -amount), to, amount);
  }

  /** The ledgers after one movement is pushed onto the account at position
      p; nothing changes when p is -1. */
  function Pushed(ledger: seq<seq<int>>, p: int, x: int): (r: seq<seq<int>>)
    requires -1 <= p < |ledger|
    ensures |r| == |ledger|
  {
    if p == -1 then ledger else ledger[p := ledger[p] + [x]]
  }

  /** Pushing a movement onto a listed account adds it to the total of all
      ledgers; pushing onto an unlisted one leaves the total alone. */
  lemma {:induction false} PushedTotal(ledger: seq<seq<int>>, p: int, x: int)
    requires -1 <= p < |ledger|
    ensures p >= 0 ==> Total(Pushed(ledger, p, x)) == Total(ledger) + x
    ensures p == -1 ==> Total(Pushed(ledger, p, x)) == Total(ledger)
  {
    if p >= 0 {
      TotalAfterAppend(ledger, p, x);
    }
  }

  /** `movements.push(x)` on one account object, seen in the ledgers of a list
      that holds it at most once. */
  method Push(ghost accs: seq<Account>, a: Account, x: int)
    requires ListedOnce(accs, a)
    modifies a`movements
    ensures a.movements == old(a.movements) + [x]
    ensures Ledger(accs) == Pushed(old(Ledger(accs)), PositionOf(accs, a), x)
  {
    ghost var before := Ledger(accs);
    LedgerAt(accs);
    ghost var p := PositionOf(accs, a);
    a.movements := a.movements + [x];
    LedgerAt(accs);
    forall j | 0 <= j < |accs|
      ensures Ledger(accs)[j] == Pushed(before, p, x)[j]
    {
      if j == p {
        assert Pushed(before, p, x)[j] == before[p] + [x];
      } else {
        assert Pushed(before, p, x)[j] == before[j];
        assert accs[j] != a;
      }
    }
  }

  /** Removing a name from a distinct list leaves that name absent. */
  lemma {:induction false} SpliceRemovesName(names: seq<string>, k: int)
    requires Distinct(names) && 0 <= k < |names|
    ensures IndexOf(SpliceOne(names, k), names[k]) == -1
  {
    var r := SpliceOne(names, k);
    DistinctIndex(names, k);
    forall j | 0 <= j < |r|
      ensures r[j] != names[k]
    {
      DistinctIndex(names, if j < k then j else j + 1);
    }
    IndexOfFirst(r, names[k]);
  }

  /** Removing a name never brings an absent name in. */
  lemma {:induction false} SpliceKeepsAbsent(names: seq<string>, start: int, u: string)
    requires IndexOf(names, u) == -1
    ensures IndexOf(SpliceOne(names, start), u) == -1
  {
    IndexOfFirst(names, u);
    var r := SpliceOne(names, start);
    forall j | 0 <= j < |r|
      ensures r[j] != u
    {
      var j' := if j < SpliceStart(|names|, start) then j else j + 1;
      assert r[j] == names[j'];
    }
    IndexOfFirst(r, u);
  }

  /** Splicing out any account keeps the usernames derived and distinct. */
  lemma {:induction false} SpliceKeepsNames(accs: seq<Account>, start: int)
    requires Names(accs) == Derived(accs) && Distinct(Names(accs))
    ensures Names(SpliceOne(accs, start)) == Derived(SpliceOne(accs, start))
    ensures Distinct(Names(SpliceOne(accs, start)))
  {
    NamesSplice(accs, start);
    DerivedSplice(accs, start);
    DistinctSplice(Names(accs), start);
  }

  /** Closing a listed account: findIndex finds it, and the splice takes it out
      and its username with it. */
  lemma {:induction false} CloseListed(accs: seq<Account>, k: int)
    requires Distinct(Names(accs)) && 0 <= k < |accs|
    ensures FindIndex(accs, accs[k].username) == k
    ensures SpliceOne(accs, k) == accs[..k] + accs[k + 1..]
    ensures accs[k] !in SpliceOne(accs, k)
    ensures IndexOf(Names(SpliceOne(accs, k)), accs[k].username) == -1
  {
    var names := Names(accs);
    NamesAt(accs);
    DistinctIndex(names, k);
    SpliceRemovesName(names, k);
    NamesSplice(accs, k);
    DistinctListedOnce(accs, accs[k]);
    var r := SpliceOne(accs, k);
    forall j | 0 <= j < |r|
      ensures r[j] != accs[k]
    {
      if j < k {
        assert accs[j] != accs[k];
      } else {
        assert accs[k] != accs[j + 1];
      }
    }
  }

  /** Closing while the current account is no longer listed: findIndex answers
      -1, so the last account is spliced out, and the username stays absent. */
  lemma {:induction false} CloseDetached(accs: seq<Account>, cur: Account)
    requires cur !in accs && IndexOf(Names(accs), cur.username) == -1
    ensures FindIndex(accs, cur.username) == -1
    ensures accs != [] ==> SpliceOne(accs, -1) == accs[..|accs| - 1]
    ensures cur !in SpliceOne(accs, -1)
    ensures IndexOf(Names(SpliceOne(accs, -1)), cur.username) == -1
  {
    SpliceKeepsAbsent(Names(accs), -1, cur.username);
    NamesSplice(accs, -1);
    if accs != [] {
      assert accs[..|accs| - 1] + accs[|accs|..] == accs[..|accs| - 1];
    }
  }

  /** What the close handler's splice does to the list, for a current account
      that is listed or one that has been closed before. */
  lemma {:induction false} CloseSplice(accs: seq<Account>, cur: Account)
    requires Distinct(Names(accs))
    requires cur !in accs ==> IndexOf(Names(accs), cur.username) == -1
    ensures var r := SpliceOne(accs, FindIndex(accs, cur.username));
      && cur !in r && IndexOf(Names(r), cur.username) == -1
      && (cur in accs ==>
            r == accs[..PositionOf(accs, cur)] + accs[PositionOf(accs, cur) + 1..])
      && (cur !in accs && accs != [] ==> r == accs[..|accs| - 1])
  {
    if cur in accs {
      CloseListed(accs, PositionOf(accs, cur));
    } else {
      CloseDetached(accs, cur);
    }
  }

  /** Once `createUsernames` has run on the seeded owners, the usernames are
      the four derived ones, and they are all different. */
  lemma {:induction false} SeedNames(accs: seq<Account>)
    requires |accs| == |Seeds()|
    requires forall i :: 0 <= i < |accs| ==> accs[i].owner == Seeds()[i].owner
    requires forall i :: 0 <= i < |accs| ==> accs[i].username == Username(accs[i].owner)
    ensures Names(accs) == Derived(accs) == ["js", "jd", "stw", "ss"]
    ensures Distinct(Names(accs))
  {
    SeedUsernames();
    DerivedAt(accs);
    var names: seq<string> := ["js", "jd", "stw", "ss"];
    assert Derived(accs) == names;
    NamesAt(accs);
    assert Names(accs) == names;
    SeedsDistinct();
  }

  lemma {:induction false} SeedsDistinct()
    ensures Distinct(["js", "jd", "stw", "ss"])
  {
    var names: seq<string> := ["js", "jd", "stw", "ss"];
    forall i, j | 0 <= i < j < |names|
      ensures names[i] != names[j]
    {
      assert |names[i]| != |names[j]| || names[i][0] != names[j][0] || names[i][1] != names[j][1];
    }
    DistinctFromPairs(names);
  }

  class Bank {
    var accounts: seq<Account>
    var current: Account?
    var sorted: bool

    /** Usernames are the ones derived from the owners and no two accounts share
        one; a current account that has been closed shares its username with no
        remaining account. Only usernames matter here, so movements and cached
        balances may change freely. */
    ghost predicate Valid()
      reads this, accounts`username, {current}`username
    {
      && Names(accounts) == Derived(accounts)
      && Distinct(Names(accounts))
      && (current != null && current !in accounts ==> IndexOf(Names(accounts), current.username) == -1)
    }

    /** The page as loaded: the four seeded accounts with their usernames, no
        current account, and the unsorted view. */
    constructor ()
      ensures Valid()
      ensures |accounts| == |Seeds()| && current == null && !sorted
      ensures forall i :: 0 <= i < |accounts| ==> fresh(accounts[i]) && Opened(accounts[i], Seeds()[i])
      ensures Names(accounts) == ["js", "jd", "stw", "ss"]
    {
      var accs := OpenAccounts();
      accounts := accs;
      current := null;
      sorted := false;
      new;
      CreateUsernames(accounts);
      SeedNames(accounts);
    }

    /** The login button: the current account becomes the lookup's result whether
        or not the PIN matches; only a matching PIN refreshes the display. */
    method Login(user: string, pin: int) returns (outcome: Outcome)
      requires Valid()
      modifies this`current, accounts`balance
      ensures Valid()
      ensures current == Find(accounts, user)
      ensures outcome != Crashed
      ensures outcome == Done <==> current != null && current.pin == pin
      ensures outcome == Done ==> current.balance == Some(Balance(current.movements))
      ensures forall a :: a in accounts && (outcome != Done || a != current) ==> a.balance == old(a.balance)
    {
      current := Find(accounts, user);
      if current != null && current.pin == pin {
        UpdateUI(current);
        outcome := Done;
      } else {
        outcome := Rejected;
      }
    }

    /** The transfer button. The guard reads the cached balance of the current
        account; on success the current account is debited and the recipient
        credited, and only the current account's display is refreshed. The sum of
        all listed ledgers is unchanged, unless the current account has been
        closed, in which case the credit is new money. */
    method Transfer(to: string, amount: int) returns (outcome: Outcome)
      requires Valid()
      modifies {current}`movements, {current}`balance, accounts`movements
      ensures Valid()
      ensures outcome == Crashed <==> amount > 0 && FindIndex(accounts, to) >= 0 && current == null
      ensures outcome == Done <==>
                amount > 0 && FindIndex(accounts, to) >= 0 && current != null
                && Covers(amount, old(current.balance)) && to != current.username
      ensures outcome == Done ==> current.movements == old(current.movements) + [-amount]
      ensures outcome == Done ==> current.balance == Some(Balance(current.movements))
      ensures outcome == Done ==>
                Ledger(accounts)
                  == Moved(old(Ledger(accounts)), PositionOf(accounts, current), FindIndex(accounts, to), amount)
      ensures outcome != Done ==> Ledger(accounts) == old(Ledger(accounts))
      ensures outcome != Done && current != null ==>
                current.movements == old(current.movements) && current.balance == old(current.balance)
      ensures forall a :: a in accounts && a != current ==> a.balance == old(a.balance)
    {
      var k := FindIndex(accounts, to);
      if !(amount > 0 && k >= 0) {
        return Rejected;
      }
      if current == null {
        return Crashed;
      }
      if !(Covers(amount, current.balance) && accounts[k].username != current.username) {
        return Rejected;
      }
      var receiver := accounts[k];
      assert receiver != current;
      ghost var debited := current.movements + [-amount];
      DistinctListedOnce(accounts, current);
      DistinctListedOnce(accounts, receiver);
      Push(accounts, current, -amount);
      Push(accounts, receiver, amount);
      assert current.movements == debited;
      UpdateUI(current);
      assert FindIndex(accounts, to) == k;
      outcome := Done;
    }

    /** The loan button: a granted loan is appended to the current account and
        its display refreshed; no other account changes. */
    method RequestLoan(amount: int) returns (outcome: Outcome)
      requires Valid()
      modifies {current}`movements, {current}`balance
      ensures Valid()
      ensures outcome == Crashed <==> amount > 0 && current == null
      ensures outcome == Done <==> current != null && LoanGranted(old(current.movements), amount)
      ensures outcome == Done ==> current.movements == old(current.movements) + [amount]
      ensures outcome == Done ==> current.balance == Some(Balance(current.movements))
      ensures outcome == Done ==>
                Ledger(accounts) == Pushed(old(Ledger(accounts)), PositionOf(accounts, current), amount)
      ensures outcome != Done ==> Ledger(accounts) == old(Ledger(accounts))
      ensures outcome != Done && current != null ==>
                current.movements == old(current.movements) && current.balance == old(current.balance)
      ensures forall a :: a in accounts && a != current ==> a.balance == old(a.balance)
    {
      if amount <= 0 {
        return Rejected;
      }
      if current == null {
        return Crashed;
      }
      if LoanGranted(current.movements, amount) {
        DistinctListedOnce(accounts, current);
        Push(accounts, current, amount);
        UpdateUI(current);
        outcome := Done;
      } else {
        outcome := Rejected;
      }
    }

    /** The close button: with the current account's username and PIN, the
        account found under that username is spliced out. The current account is
        kept, so closing again removes whatever account is last. */
    method Close(user: string, pin: int) returns (outcome: Outcome)
      requires Valid()
      modifies this`accounts
      ensures Valid()
      ensures outcome == Crashed <==> current == null
      ensures outcome == Done <==> current != null && current.username == user && current.pin == pin
      ensures outcome == Done ==>
                accounts == old(SpliceOne(accounts, FindIndex(accounts, current.username)))
                && current !in accounts
      ensures outcome != Done ==> accounts == old(accounts)
      ensures outcome == Done && current in old(accounts) ==>
                var k := PositionOf(old(accounts), current);
                accounts == old(accounts)[..k] + old(accounts)[k + 1..]
      ensures outcome == Done && current !in old(accounts) && old(accounts) != [] ==>
                accounts == old(accounts)[..|old(accounts)| - 1]
    {
      if current == null {
        return Crashed;
      }
      if !(current.username == user && current.pin == pin) {
        return Rejected;
      }
      var index := FindIndex(accounts, current.username);
      SpliceKeepsNames(accounts, index);
      CloseSplice(accounts, current);
      accounts := SpliceOne(accounts, index);
      outcome := Done;
    }

    /** The sort button: list the current account's movements sorted when the
        flag was off and in stored order when it was on, then flip the flag. */
    method ToggleSort() returns (outcome: Outcome, shown: seq<int>)
      requires Valid()
      modifies this`sorted
      ensures Valid()
      ensures outcome != Rejected
      ensures outcome == Crashed <==> current == null
      ensures outcome == Crashed ==> sorted == old(sorted) && shown == []
      ensures outcome == Done ==>
                sorted == !old(sorted) && shown == Displayed(current.movements, !old(sorted))
    {
      if current == null {
        return Crashed, [];
      }
      shown := Displayed(current.movements, !sorted);
      sorted := !sorted;
      outcome := Done;
    }
  }

  // ---------------------------------------------------------------------------
  // Sessions on the page as loaded
  // ---------------------------------------------------------------------------

  /** The page as loaded, after logging in as js with PIN 1111: js is the current
      account and its display shows the balance 3840. */
  method LoginSession() returns (bank: Bank, outcome: Outcome)
    ensures fresh(bank) && bank.Valid() && !bank.sorted
    ensures |bank.accounts| == 4 && forall i :: 0 <= i < 4 ==> fresh(bank.accounts[i])
    ensures Names(bank.accounts) == ["js", "jd", "stw", "ss"]
    ensures outcome == Done && bank.current == bank.accounts[0] && bank.current.pin == 1111
    ensures forall i :: 0 <= i < 4 ==> bank.accounts[i].movements == Seeds()[i].movements
    ensures bank.current.balance == Some(3840)
  {
    bank := new Bank();
    NamesAt(bank.accounts);
    assert FindIndex(bank.accounts, "js") == 0;
    outcome := bank.Login("js", 1111);
    SeedBalance(Seeds()[0].movements);
  }

  /** Then sending 100 to jd: the cached 3840 covers it, so js's movements end in
      -100 and jd's in 100. */
  method TransferSession() returns (bank: Bank, outcome: Outcome)
    ensures outcome == Done
    ensures |bank.accounts| == 4
    ensures bank.accounts[0].movements == Seeds()[0].movements + [-100]
    ensures bank.accounts[1].movements == Seeds()[1].movements + [100]
  {
    var login;
    bank, login := LoginSession();
    assert IndexOf(Names(bank.accounts)[1..], "jd") == 0;
    assert FindIndex(bank.accounts, "jd") == 1;
    LedgerAt(bank.accounts);
    outcome := bank.Transfer("jd", 100);
    LedgerAt(bank.accounts);
  }

  /** Logging in as js and closing js: js is removed, and stays the current
      account. */
  method CloseSession() returns (bank: Bank, outcome: Outcome)
    ensures fresh(bank) && bank.Valid() && bank.current != null && fresh(bank.current)
    ensures outcome == Done && bank.current.pin == 1111 && bank.current !in bank.accounts
    ensures bank.current.username == "js" && bank.current.movements == Seeds()[0].movements
    ensures Names(bank.accounts) == ["jd", "stw", "ss"]
    ensures forall i :: 0 <= i < 3 ==> bank.accounts[i].movements == Seeds()[i + 1].movements
  {
    var login;
    bank, login := LoginSession();
    var accs := bank.accounts;
    NamesAt(accs);
    outcome := bank.Close("js", 1111);
    assert PositionOf(accs, accs[0]) == 0;
    assert bank.accounts == accs[1..];
    NamesAt(bank.accounts);
  }

  /** Closing js a second time finds no js and removes the last account, ss. */
  method CloseTwiceSession() returns (bank: Bank, first: Outcome, second: Outcome)
    ensures fresh(bank) && bank.Valid() && bank.current != null && fresh(bank.current)
    ensures first == Done && second == Done
    ensures bank.current !in bank.accounts && bank.current.movements == Seeds()[0].movements
    ensures Names(bank.accounts) == ["jd", "stw"]
    ensures Ledger(bank.accounts) == [Seeds()[1].movements, Seeds()[2].movements]
  {
    bank, first := CloseSession();
    var accs := bank.accounts;
    second := bank.Close("js", 1111);
    assert bank.accounts == accs[..2];
    NamesAt(accs);
    NamesAt(bank.accounts);
    LedgerAt(bank.accounts);
  }

  /** Then asking for a loan of 10: js has a movement of at least 1, so the loan
      is granted, and it changes no listed account. */
  method LoanAfterCloseSession() returns (bank: Bank, loan: Outcome)
    ensures loan == Done
    ensures Ledger(bank.accounts) == [Seeds()[1].movements, Seeds()[2].movements]
  {
    var first, second;
    bank, first, second := CloseTwiceSession();
    assert bank.current.movements[0] as real >= 10 as real * 0.1;
    loan := bank.RequestLoan(10);
  }
}
