/** Budgets: what the validator accepts, and the three aggregators that rely on it. Amounts are integers in the
  currency's smallest unit; the source keeps them in doubles and refuses every sum beyond the safe integers, so sums
  are exact. */
module Budget {
  import opened Wrappers

  const MAX_FISCAL_TOTAL := 281474976710655

  datatype Kind = Income | Expense

  datatype Account = Account(id: string, currency: string, openingBalance: int)

  datatype Category = Category(id: string, kind: Kind)

  datatype Receipt = Receipt(fn: string, fd: nat, fp: nat, total: int, operation: nat)

  datatype Transaction = Transaction(id: string, accountId: string, categoryId: string, kind: Kind, amount: int,
                                     date: string,
                                     placeId: Option<string>, items: seq<int>, receipt: Option<Receipt>)

  datatype Data = Data(accounts: seq<Account>, categories: seq<Category>, places: seq<string>,
                       transactions: seq<Transaction>)

  datatype Result<T> = Ok(value: T) | Invalid | MoneyOverflow | UnknownAccount

  datatype MonthlyTotal = MonthlyTotal(income: int, expense: int, balance: int)

  predicate Safe(n: int) {
    -MAX_SAFE <= n <= MAX_SAFE
  }

  predicate Digits(s: string) {
    forall i :: 0 <= i < |s| ==> '0' <= s[i] <= '9'
  }

  function Number(s: string): (n: nat)
    requires Digits(s)
  {
    if s == "" then 0 else Number(s[..|s| - 1]) * 10 + (s[|s| - 1] - '0') as nat
  }

  /** YYYY-MM. */
  predicate RealMonth(s: string) {
    && |s| == 7 && s[4] == '-' && Digits(s[..4]) && Digits(s[5..])
    && Number(s[..4]) > 0 && 1 <= Number(s[5..]) <= 12
  }

  /** YYYY-MM-DD. */
  predicate RealDate(s: string) {
    && |s| == 10 && RealMonth(s[..7]) && s[7] == '-' && Digits(s[8..])
    && var year, month := Number(s[..4]), Number(s[5..7]);
       var leap := year % 4 == 0 && (year % 100 != 0 || year % 400 == 0);
       1 <= Number(s[8..]) <= [31, if leap then 29 else 28, 31, 30, 31, 30, 31, 31, 30, 31, 30, 31][month - 1]
  }

  /** What every field of a record has passed by the time the records are checked against each other. */
  predicate FieldsOk(d: Data) {
    && (forall a :: a in d.accounts ==> Safe(a.openingBalance) && |a.currency| == 3)
    && forall t :: t in d.transactions ==> TransactionFieldsOk(t)
  }

  predicate TransactionFieldsOk(t: Transaction) {
    && 0 < t.amount <= MAX_SAFE && RealDate(t.date)
    && NonNegative(t.items)
    && (t.receipt.Some? ==>
          && 0 < t.receipt.value.total <= MAX_FISCAL_TOTAL && 1 <= t.receipt.value.operation <= 4
          && 0 < t.receipt.value.fd <= 4294967295 && 0 < t.receipt.value.fp <= 4294967295)
  }

  function AccountMap(accounts: seq<Account>): (m: map<string, Account>)
    ensures forall id :: id in m ==> m[id] in accounts && m[id].id == id
    ensures forall a :: a in accounts ==> a.id in m
  {
    if accounts == [] then map[] else AccountMap(accounts[..|accounts| - 1])[Last(accounts).id := Last(accounts)]
  }

  function CategoryMap(categories: seq<Category>): (m: map<string, Category>)
    ensures forall id :: id in m ==> m[id] in categories && m[id].id == id
    ensures forall c :: c in categories ==> c.id in m
  {
    if categories == [] then map[]
    else CategoryMap(categories[..|categories| - 1])[Last(categories).id := Last(categories)]
  }

  function Last<T>(s: seq<T>): T
    requires s != []
  {
    s[|s| - 1]
  }

  /** The month a transaction is booked in. */
  function MonthOf(t: Transaction): string {
    if |t.date| < 7 then t.date else t.date[..7]
  }

  /** A set of transactions whose amounts are summed. */
  datatype Group =
    | Monthly(month: string, currency: string, kind: Kind)
    | OfCategory(month: string, categoryId: string, currency: string)
    | OfAccount(accountId: string, kind: Kind)

  predicate InGroup(accounts: map<string, Account>, t: Transaction, g: Group) {
    && t.accountId in accounts
    && match g
       case Monthly(month, currency, kind) => MonthOf(t) == month && accounts[t.accountId].currency == currency
         && t.kind == kind
       case OfCategory(month, categoryId, currency) =>
         MonthOf(t) == month && t.categoryId == categoryId && accounts[t.accountId].currency == currency
       case OfAccount(accountId, kind) => t.accountId == accountId && t.kind == kind
  }

  function Share(accounts: map<string, Account>, t: Transaction, g: Group): int {
    if InGroup(accounts, t, g) then t.amount else 0
  }

  function Total(accounts: map<string, Account>, ts: seq<Transaction>, g: Group): int {
    if ts == [] then 0 else Total(accounts, ts[..|ts| - 1], g) + Share(accounts, Last(ts), g)
  }

  function BalanceOf(accounts: map<string, Account>, ts: seq<Transaction>, id: string): int
    requires id in accounts
  {
    accounts[id].openingBalance
      + Total(accounts, ts, OfAccount(id, Income)) - Total(accounts, ts, OfAccount(id, Expense))
  }

  function Sum(items: seq<int>): int {
    if items == [] then 0 else Sum(items[..|items| - 1]) + Last(items)
  }

  lemma TotalNext(accounts: map<string, Account>, ts: seq<Transaction>, k: nat, g: Group)
    requires k < |ts|
    ensures Total(accounts, ts[..k + 1], g) == Total(accounts, ts[..k], g) + Share(accounts, ts[k], g)
  {
    assert ts[..k + 1][..k] == ts[..k];
  }

  ghost predicate Positive(ts: seq<Transaction>) {
    forall t :: t in ts ==> t.amount > 0
  }

  lemma {:induction false} TotalGrows(accounts: map<string, Account>, ts: seq<Transaction>, k: nat, g: Group)
    requires k <= |ts| && Positive(ts)
    ensures 0 <= Total(accounts, ts[..k], g) <= Total(accounts, ts, g)
    decreases |ts|
  {
    if k == |ts| {
      assert ts[..k] == ts;
      if k > 0 {
        TotalGrows(accounts, ts[..k - 1], k - 1, g);
      }
    } else {
      var front := ts[..|ts| - 1];
      TotalGrows(accounts, front, k, g);
      assert front[..k] == ts[..k];
    }
  }

  lemma SumNext(items: seq<int>, k: nat)
    requires k < |items|
    ensures Sum(items[..k + 1]) == Sum(items[..k]) + items[k]
  {
    assert items[..k + 1][..k] == items[..k];
  }

  predicate NonNegative(items: seq<int>) {
    forall i :: 0 <= i < |items| ==> items[i] >= 0
  }

  lemma {:induction false} SumGrows(items: seq<int>, k: nat)
    requires k <= |items| && NonNegative(items)
    ensures 0 <= Sum(items[..k]) <= Sum(items)
    decreases |items|
  {
    if k == |items| {
      assert items[..k] == items;
      if k > 0 {
        SumGrows(items[..k - 1], k - 1);
        assert items[..k - 1][..k - 1] == items[..k - 1];
      }
    } else {
      var front := items[..|items| - 1];
      SumGrows(front, k);
      assert front[..k] == items[..k];
    }
  }

  // References.

  predicate ReceiptOk(currency: string, t: Transaction) {
    t.receipt.Some? ==>
      && currency == "RUB" && t.receipt.value.total == t.amount
      && (t.receipt.value.operation == 1 ==> t.kind == Expense) && (t.receipt.value.operation == 2 ==> t.kind == Income)
  }

  predicate TransactionOk(d: Data, t: Transaction) {
    var accounts, categories := AccountMap(d.accounts), CategoryMap(d.categories);
    && t.accountId in accounts && t.categoryId in categories && categories[t.categoryId].kind == t.kind
    && (t.placeId.Some? ==> t.placeId.value in d.places)
    && ReceiptOk(accounts[t.accountId].currency, t)
  }

  predicate SameReceipt(t: Transaction, u: Transaction) {
    && t.receipt.Some? && u.receipt.Some?
    && t.receipt.value.fn == u.receipt.value.fn && t.receipt.value.fd == u.receipt.value.fd
      && t.receipt.value.fp == u.receipt.value.fp
  }

  function AccountIds(s: seq<Account>): seq<string> {
    seq(|s|, i requires 0 <= i < |s| => s[i].id)
  }

  function CategoryIds(s: seq<Category>): seq<string> {
    seq(|s|, i requires 0 <= i < |s| => s[i].id)
  }

  function TransactionIds(s: seq<Transaction>): seq<string> {
    seq(|s|, i requires 0 <= i < |s| => s[i].id)
  }

  /** Identifiers are unique, every reference leads somewhere and agrees with what it names, no receipt is used
    twice. */
  predicate ReferencesOk(d: Data) {
    && Distinct(AccountIds(d.accounts)) && Distinct(CategoryIds(d.categories)) && Distinct(d.places)
    && Distinct(TransactionIds(d.transactions))
    && (forall t :: t in d.transactions ==> TransactionOk(d, t))
    && forall i, j :: 0 <= i < j < |d.transactions| ==> !SameReceipt(d.transactions[i], d.transactions[j])
  }

  method UniqueById(ids: seq<string>) returns (ok: bool)
    ensures ok <==> Distinct(ids)
  {
    var seen: set<string> := {};
    for k := 0 to |ids|
      invariant seen == set x | x in ids[..k]
      invariant Distinct(ids[..k])
    {
      assert ids[..k + 1] == ids[..k] + [ids[k]];
      if ids[k] in seen {
        var i :| 0 <= i < k && ids[i] == ids[k];
        return false;
      }
      seen := seen + {ids[k]};
    }
    assert ids[..|ids|] == ids;
    return true;
  }

  type ReceiptKey = (string, nat, nat)

  function KeyOf(r: Receipt): ReceiptKey {
    (r.fn, r.fd, r.fp)
  }

  ghost predicate ReceiptsSeen(ts: seq<Transaction>, seen: set<ReceiptKey>) {
    && (forall i :: 0 <= i < |ts| && ts[i].receipt.Some? ==> KeyOf(ts[i].receipt.value) in seen)
    && forall key :: key in seen ==>
      exists i :: 0 <= i < |ts| && ts[i].receipt.Some? && KeyOf(ts[i].receipt.value) == key
  }

  method ValidateReferences(d: Data) returns (ok: bool)
    ensures ok <==> ReferencesOk(d)
  {
    hide AccountMap, CategoryMap, Distinct, TransactionOk;
    var unique := UniqueById(AccountIds(d.accounts));
    if !unique {
      return false;
    }
    unique := UniqueById(CategoryIds(d.categories));
    if !unique {
      return false;
    }
    unique := UniqueById(d.places);
    if !unique {
      return false;
    }
    unique := UniqueById(TransactionIds(d.transactions));
    if !unique {
      return false;
    }
    var fits := ValidateTransactions(d);
    return fits;
  }

  ghost predicate NoReceiptTwice(ts: seq<Transaction>, k: nat)
    requires k <= |ts|
  {
    forall i, j :: 0 <= i < j < k ==> !SameReceipt(ts[i], ts[j])
  }

  /** What is seen, one transaction later. */
  lemma SeenNext(ts: seq<Transaction>, k: nat, seen: set<ReceiptKey>)
    requires k < |ts| && ReceiptsSeen(ts[..k], seen)
    ensures ReceiptsSeen(ts[..k + 1], if ts[k].receipt.Some? then seen + {KeyOf(ts[k].receipt.value)} else seen)
  {
    hide KeyOf;
    var before, after := ts[..k], ts[..k + 1];
    assert after == before + [ts[k]];
    var now := if ts[k].receipt.Some? then seen + {KeyOf(ts[k].receipt.value)} else seen;
    forall key | key in now
      ensures exists i :: 0 <= i < |after| && after[i].receipt.Some? && KeyOf(after[i].receipt.value) == key
    {
      if key in seen {
        var i :| 0 <= i < |before| && before[i].receipt.Some? && KeyOf(before[i].receipt.value) == key;
        assert after[i] == before[i];
      } else {
        assert after[k] == ts[k];
      }
    }
  }

  /** A receipt that was seen before is some earlier transaction's; one that was not is nobody's. */
  lemma ReceiptNext(ts: seq<Transaction>, k: nat, seen: set<ReceiptKey>)
    requires k < |ts| && ReceiptsSeen(ts[..k], seen)
    ensures ts[k].receipt.Some? && KeyOf(ts[k].receipt.value) in seen ==> !NoReceiptTwice(ts, |ts|)
    ensures NoReceiptTwice(ts, k) && (ts[k].receipt.None? || KeyOf(ts[k].receipt.value) !in seen) ==>
      NoReceiptTwice(ts, k + 1)
  {
    if ts[k].receipt.Some? && KeyOf(ts[k].receipt.value) in seen {
      var i :| 0 <= i < k && ts[..k][i].receipt.Some? && KeyOf(ts[..k][i].receipt.value) == KeyOf(ts[k].receipt.value);
      assert SameReceipt(ts[i], ts[k]);
    }
    assert forall i :: 0 <= i < k && ts[i].receipt.Some? ==> KeyOf(ts[..k][i].receipt.value) in seen;
  }

  method ValidateTransactions(d: Data) returns (ok: bool)
    ensures ok <==>
      (forall t :: t in d.transactions ==> TransactionOk(d, t)) && NoReceiptTwice(d.transactions, |d.transactions|)
  {
    hide AccountMap, CategoryMap, ReceiptsSeen, SameReceipt, NoReceiptTwice;
    var accounts, categories := AccountMap(d.accounts), CategoryMap(d.categories);
    var fiscalReceipts: set<ReceiptKey> := {};
    NoReceipts(d.transactions);
    for k := 0 to |d.transactions|
      invariant forall i :: 0 <= i < k ==> TransactionOk(d, d.transactions[i])
      invariant NoReceiptTwice(d.transactions, k) && ReceiptsSeen(d.transactions[..k], fiscalReceipts)
    {
      var t := d.transactions[k];
      assert t in d.transactions;
      ReceiptNext(d.transactions, k, fiscalReceipts);
      SeenNext(d.transactions, k, fiscalReceipts);
      if t.accountId !in accounts || t.categoryId !in categories || categories[t.categoryId].kind != t.kind {
        return false;
      }
      if t.placeId.Some? && t.placeId.value !in d.places {
        return false;
      }
      if t.receipt.Some? {
        var receipt := t.receipt.value;
        if accounts[t.accountId].currency != "RUB" || receipt.total != t.amount
           || (receipt.operation == 1 && t.kind != Expense) || (receipt.operation == 2 && t.kind != Income) {
          return false;
        }
        if KeyOf(receipt) in fiscalReceipts {
          return false;
        }
        fiscalReceipts := fiscalReceipts + {KeyOf(receipt)};
      }
    }
    return true;
  }

  lemma NoReceipts(ts: seq<Transaction>)
    ensures NoReceiptTwice(ts, 0) && ReceiptsSeen(ts[..0], {})
  {
  }

  // Sums.

  /** Every sum an aggregator may form is a safe integer. */
  ghost predicate SumsOk(d: Data) {
    var accounts := AccountMap(d.accounts);
    && (forall t :: t in d.transactions && t.accountId in accounts ==> Sum(t.items) <= MAX_SAFE)
    && (forall month, currency, kind :: Total(accounts, d.transactions, Monthly(month, currency, kind)) <= MAX_SAFE)
    && (forall month, category, currency ::
        Total(accounts, d.transactions, OfCategory(month, category, currency)) <= MAX_SAFE)
    && (forall id :: id in accounts ==> Safe(BalanceOf(accounts, d.transactions, id)))
  }

  function At<K>(m: map<K, int>, k: K): int {
    if k in m then m[k] else 0
  }

  /** A sum that is a safe integer, or nothing. */
  function CheckedAdd(left: int, right: int): (r: Option<int>)
    ensures r == if Safe(left + right) then Some(left + right) else None
  {
    var result := left + right;
    if Safe(result) then Some(result) else None
  }

  method ItemTotal(items: seq<int>) returns (ok: bool)
    requires NonNegative(items)
    ensures ok <==> Sum(items) <= MAX_SAFE
  {
    var itemTotal := 0;
    for k := 0 to |items|
      invariant itemTotal == Sum(items[..k]) && 0 <= itemTotal <= MAX_SAFE
    {
      SumNext(items, k);
      SumGrows(items, k + 1);
      var next := CheckedAdd(itemTotal, items[k]);
      if next.None? {
        return false;
      }
      itemTotal := next.value;
    }
    assert items[..|items|] == items;
    return true;
  }

  ghost predicate MonthTally(accounts: map<string, Account>, ts: seq<Transaction>, kind: Kind,
                             sums: map<(string, string), int>) {
    forall month, currency :: At(sums, (month, currency)) == Total(accounts, ts, Monthly(month, currency, kind))
  }

  ghost predicate CategoryTally(accounts: map<string, Account>, ts: seq<Transaction>,
                                sums: map<(string, string, string), int>) {
    forall month, category, currency ::
      At(sums, (month, category, currency)) == Total(accounts, ts, OfCategory(month, category, currency))
  }

  ghost predicate BalanceTally(accounts: map<string, Account>, ts: seq<Transaction>, sums: map<string, int>) {
    sums.Keys == accounts.Keys && forall id :: id in accounts ==> sums[id] == BalanceOf(accounts, ts, id)
  }

  lemma MonthTallyNext(accounts: map<string, Account>, ts: seq<Transaction>, k: nat, kind: Kind,
                       sums: map<(string, string), int>)
    requires k < |ts| && MonthTally(accounts, ts[..k], kind, sums)
    ensures !(ts[k].accountId in accounts && ts[k].kind == kind) ==> MonthTally(accounts, ts[..k + 1], kind, sums)
    ensures ts[k].accountId in accounts && ts[k].kind == kind ==>
      var key := (MonthOf(ts[k]), accounts[ts[k].accountId].currency);
      MonthTally(accounts, ts[..k + 1], kind, sums[key := At(sums, key) + ts[k].amount])
  {
    hide Total;
    forall month, currency
      ensures Total(accounts, ts[..k + 1], Monthly(month, currency, kind))
           == Total(accounts, ts[..k], Monthly(month, currency, kind))
             + Share(accounts, ts[k], Monthly(month, currency, kind))
    {
      TotalNext(accounts, ts, k, Monthly(month, currency, kind));
    }
  }

  lemma CategoryTallyNext(accounts: map<string, Account>, ts: seq<Transaction>, k: nat,
                          sums: map<(string, string, string), int>)
    requires k < |ts| && CategoryTally(accounts, ts[..k], sums)
    ensures ts[k].accountId !in accounts ==> CategoryTally(accounts, ts[..k + 1], sums)
    ensures ts[k].accountId in accounts ==>
      var key := (MonthOf(ts[k]), ts[k].categoryId, accounts[ts[k].accountId].currency);
      CategoryTally(accounts, ts[..k + 1], sums[key := At(sums, key) + ts[k].amount])
  {
    hide Total;
    forall month, category, currency
      ensures Total(accounts, ts[..k + 1], OfCategory(month, category, currency))
           == Total(accounts, ts[..k], OfCategory(month, category, currency))
             + Share(accounts, ts[k], OfCategory(month, category, currency))
    {
      TotalNext(accounts, ts, k, OfCategory(month, category, currency));
    }
  }

  function Signed(t: Transaction): int {
    if t.kind == Income then t.amount else -t.amount
  }

  lemma BalanceNext(accounts: map<string, Account>, ts: seq<Transaction>, k: nat, id: string)
    requires k < |ts| && id in accounts
    ensures BalanceOf(accounts, ts[..k + 1], id)
      == BalanceOf(accounts, ts[..k], id) + if ts[k].accountId == id then Signed(ts[k]) else 0
  {
    hide Total;
    TotalNext(accounts, ts, k, OfAccount(id, Income));
    TotalNext(accounts, ts, k, OfAccount(id, Expense));
  }

  lemma BalanceTallyNext(accounts: map<string, Account>, ts: seq<Transaction>, k: nat, sums: map<string, int>)
    requires k < |ts| && BalanceTally(accounts, ts[..k], sums)
    ensures ts[k].accountId !in accounts ==> BalanceTally(accounts, ts[..k + 1], sums)
    ensures ts[k].accountId in accounts ==>
      BalanceTally(accounts, ts[..k + 1], sums[ts[k].accountId := At(sums, ts[k].accountId) + Signed(ts[k])])
  {
    hide Total, BalanceOf;
    forall id | id in accounts
      ensures BalanceOf(accounts, ts[..k + 1], id)
        == BalanceOf(accounts, ts[..k], id) + if ts[k].accountId == id then Signed(ts[k]) else 0
    {
      BalanceNext(accounts, ts, k, id);
    }
  }

  /** The running sums of the check, after the first `k` transactions. */
  ghost predicate Tallied(d: Data, k: nat, balances: map<string, int>, income: map<(string, string), int>,
                          expense: map<(string, string), int>, categories: map<(string, string, string), int>)
    requires k <= |d.transactions|
  {
    var accounts, ts := AccountMap(d.accounts), d.transactions[..k];
    && BalanceTally(accounts, ts, balances) && MonthTally(accounts, ts, Income, income)
      && MonthTally(accounts, ts, Expense, expense)
    && CategoryTally(accounts, ts, categories)
  }

  ghost predicate Bounded<K>(sums: map<K, int>) {
    forall k :: k in sums ==> 0 <= sums[k] <= MAX_SAFE
  }

  /** `sums` with `amount` added under `key`, or nothing when that is no safe integer. */
  function Accumulate<K>(sums: map<K, int>, key: K, amount: int): (r: Option<map<K, int>>)
    requires Bounded(sums) && 0 <= amount <= MAX_SAFE
    ensures r.None? <==> At(sums, key) + amount > MAX_SAFE
    ensures r.Some? ==> Bounded(r.value) && r.value == sums[key := At(sums, key) + amount]
  {
    var next := CheckedAdd(At(sums, key), amount);
    if next.None? then None else Some(sums[key := next.value])
  }

  lemma PositiveFields(d: Data)
    requires FieldsOk(d)
    ensures Positive(d.transactions)
  {
    hide RealDate;
  }

  lemma MonthOverflows(d: Data, k: nat, kind: Kind, sums: map<(string, string), int>)
    requires FieldsOk(d) && k < |d.transactions| && d.transactions[k].accountId in AccountMap(d.accounts)
    requires d.transactions[k].kind == kind && MonthTally(AccountMap(d.accounts), d.transactions[..k], kind, sums)
    requires At(sums, (MonthOf(d.transactions[k]), AccountMap(d.accounts)[d.transactions[k].accountId].currency))
             + d.transactions[k].amount > MAX_SAFE
    ensures !SumsOk(d)
  {
    hide AccountMap, Total, RealDate, FieldsOk;
    PositiveFields(d);
    var accounts, t := AccountMap(d.accounts), d.transactions[k];
    var g := Monthly(MonthOf(t), accounts[t.accountId].currency, kind);
    MonthTallyNext(accounts, d.transactions, k, kind, sums);
    TotalNext(accounts, d.transactions, k, g);
    TotalGrows(accounts, d.transactions, k + 1, g);
  }

  lemma CategoryOverflows(d: Data, k: nat, sums: map<(string, string, string), int>)
    requires FieldsOk(d) && k < |d.transactions| && d.transactions[k].accountId in AccountMap(d.accounts)
    requires CategoryTally(AccountMap(d.accounts), d.transactions[..k], sums)
    requires At(sums, (MonthOf(d.transactions[k]), d.transactions[k].categoryId,
                       AccountMap(d.accounts)[d.transactions[k].accountId].currency))
                         + d.transactions[k].amount > MAX_SAFE
    ensures !SumsOk(d)
  {
    hide AccountMap, Total, RealDate, FieldsOk;
    PositiveFields(d);
    var accounts, t := AccountMap(d.accounts), d.transactions[k];
    var g := OfCategory(MonthOf(t), t.categoryId, accounts[t.accountId].currency);
    TotalNext(accounts, d.transactions, k, g);
    TotalGrows(accounts, d.transactions, k + 1, g);
  }

  method ValidateAggregateSafety(d: Data) returns (ok: bool)
    requires FieldsOk(d)
    ensures ok <==> SumsOk(d)
  {
    hide AccountMap, Total, Sum, RealDate, BalanceOf, SumsOk, Bounded, Tallied;
    var accounts := AccountMap(d.accounts);
    var balances := map id | id in accounts :: accounts[id].openingBalance;
    var monthlyIncome: map<(string, string), int>, monthlyExpense: map<(string, string), int> := map[], map[];
    var categoryAmounts: map<(string, string, string), int> := map[];
    NothingTallied(d, balances);
    for k := 0 to |d.transactions|
      invariant Tallied(d, k, balances, monthlyIncome, monthlyExpense, categoryAmounts)
      invariant Bounded(monthlyIncome) && Bounded(monthlyExpense) && Bounded(categoryAmounts)
      invariant ItemsOk(d, k)
    {
      var t := d.transactions[k];
      assert t in d.transactions && TransactionFieldsOk(t);
      TalliedNext(d, k, balances, monthlyIncome, monthlyExpense, categoryAmounts);
      TalliedOverflows(d, k, balances, monthlyIncome, monthlyExpense, categoryAmounts);
      if t.accountId in accounts {
        var small := ItemTotal(t.items);
        if !small {
          ItemsOverflow(d, t);
          return false;
        }
        balances := balances[t.accountId := At(balances, t.accountId) + Signed(t)];
        var currency := accounts[t.accountId].currency;
        var monthlyKey := (MonthOf(t), currency);
        var sums := Accumulate(if t.kind == Income then monthlyIncome else monthlyExpense, monthlyKey, t.amount);
        if sums.None? {
          return false;
        }
        if t.kind == Income {
          monthlyIncome := sums.value;
        } else {
          monthlyExpense := sums.value;
        }
        var balance := CheckedAdd(At(monthlyIncome, monthlyKey), -At(monthlyExpense, monthlyKey));
        if balance.None? {
          NeverBeyond(monthlyIncome, monthlyExpense, monthlyKey);
          assert false;
        }
        var amounts := Accumulate(categoryAmounts, (MonthOf(t), t.categoryId, currency), t.amount);
        if amounts.None? {
          return false;
        }
        categoryAmounts := amounts.value;
      }
    }
    ok := SafeBalances(balances);
    SumsOkIff(d, balances, monthlyIncome, monthlyExpense, categoryAmounts);
  }

  /** Safe sums of positive amounts cannot differ by more than a safe integer. */
  lemma NeverBeyond<K>(income: map<K, int>, expense: map<K, int>, key: K)
    requires Bounded(income) && Bounded(expense)
    ensures Safe(At(income, key) - At(expense, key))
  {
  }

  ghost predicate ItemsOk(d: Data, k: nat)
    requires k <= |d.transactions|
  {
    forall i :: 0 <= i < k && d.transactions[i].accountId in AccountMap(d.accounts) ==>
      Sum(d.transactions[i].items) <= MAX_SAFE
  }

  lemma ItemsOverflow(d: Data, t: Transaction)
    requires t in d.transactions && t.accountId in AccountMap(d.accounts) && Sum(t.items) > MAX_SAFE
    ensures !SumsOk(d)
  {
    hide AccountMap, Total, Sum, BalanceOf;
  }

  lemma NothingTallied(d: Data, balances: map<string, int>)
    requires balances.Keys == AccountMap(d.accounts).Keys
    requires forall id :: id in balances ==> balances[id] == AccountMap(d.accounts)[id].openingBalance
    ensures Tallied(d, 0, balances, map[], map[], map[])
    ensures Bounded<(string, string)>(map[]) && Bounded<(string, string, string)>(map[])
  {
    hide AccountMap;
  }

  /** What the running sums are after one more transaction. */
  lemma TalliedNext(d: Data, k: nat, balances: map<string, int>, income: map<(string, string), int>,
                    expense: map<(string, string), int>, categories: map<(string, string, string), int>)
    requires k < |d.transactions| && Tallied(d, k, balances, income, expense, categories)
    ensures
      var accounts, t := AccountMap(d.accounts), d.transactions[k];
      if t.accountId !in accounts then Tallied(d, k + 1, balances, income, expense, categories)
      else
        var key := (MonthOf(t), accounts[t.accountId].currency);
        var category := (MonthOf(t), t.categoryId, accounts[t.accountId].currency);
        Tallied(d, k + 1, balances[t.accountId := At(balances, t.accountId) + Signed(t)],
                if t.kind == Income then income[key := At(income, key) + t.amount] else income,
                if t.kind == Expense then expense[key := At(expense, key) + t.amount] else expense,
                categories[category := At(categories, category) + t.amount])
  {
    hide AccountMap, Total, BalanceOf, MonthTally, CategoryTally, BalanceTally;
    var accounts := AccountMap(d.accounts);
    BalanceTallyNext(accounts, d.transactions, k, balances);
    MonthTallyNext(accounts, d.transactions, k, Income, income);
    MonthTallyNext(accounts, d.transactions, k, Expense, expense);
    CategoryTallyNext(accounts, d.transactions, k, categories);
  }

  lemma TalliedOverflows(d: Data, k: nat, balances: map<string, int>, income: map<(string, string), int>,
                         expense: map<(string, string), int>, categories: map<(string, string, string), int>)
    requires FieldsOk(d) && k < |d.transactions| && Tallied(d, k, balances, income, expense, categories)
    ensures
      var accounts, t := AccountMap(d.accounts), d.transactions[k];
      t.accountId in accounts ==>
        var key := (MonthOf(t), accounts[t.accountId].currency);
        var category := (MonthOf(t), t.categoryId, accounts[t.accountId].currency);
        && (At(if t.kind == Income then income else expense, key) + t.amount > MAX_SAFE ==> !SumsOk(d))
        && (At(categories, category) + t.amount > MAX_SAFE ==> !SumsOk(d))
  {
    hide AccountMap, Total, BalanceOf, MonthTally, CategoryTally, BalanceTally, RealDate, SumsOk, FieldsOk;
    var accounts, t := AccountMap(d.accounts), d.transactions[k];
    if t.accountId in accounts {
      var sums := if t.kind == Income then income else expense;
      if At(sums, (MonthOf(t), accounts[t.accountId].currency)) + t.amount > MAX_SAFE {
        MonthOverflows(d, k, t.kind, sums);
      }
      if At(categories, (MonthOf(t), t.categoryId, accounts[t.accountId].currency)) + t.amount > MAX_SAFE {
        CategoryOverflows(d, k, categories);
      }
    }
  }

  method SafeBalances(balances: map<string, int>) returns (ok: bool)
    ensures ok <==> forall id :: id in balances ==> Safe(balances[id])
  {
    var todo := balances.Keys;
    while todo != {}
      invariant todo <= balances.Keys && forall id :: id in balances && id !in todo ==> Safe(balances[id])
    {
      var id :| id in todo;
      if !Safe(balances[id]) {
        return false;
      }
      todo := todo - {id};
    }
    return true;
  }

  lemma SumsOkIff(d: Data, balances: map<string, int>, income: map<(string, string), int>,
                  expense: map<(string, string), int>, categories: map<(string, string, string), int>)
    requires Tallied(d, |d.transactions|, balances, income, expense, categories) && ItemsOk(d, |d.transactions|)
    requires Bounded(income) && Bounded(expense) && Bounded(categories)
    ensures SumsOk(d) <==> forall id :: id in balances ==> Safe(balances[id])
  {
    hide AccountMap, Total, BalanceOf, Sum;
    var accounts, ts := AccountMap(d.accounts), d.transactions;
    assert ts[..|ts|] == ts;
    forall month, currency, kind
      ensures Total(accounts, ts, Monthly(month, currency, kind)) <= MAX_SAFE
    {
      var sums := if kind == Income then income else expense;
      assert At(sums, (month, currency)) <= MAX_SAFE;
    }
    forall month, category, currency
      ensures Total(accounts, ts, OfCategory(month, category, currency)) <= MAX_SAFE
    {
      assert At(categories, (month, category, currency)) <= MAX_SAFE;
    }
  }
}
