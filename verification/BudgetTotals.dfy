/** The aggregators over an accepted budget, and how their answers reconcile. */
module BudgetTotals {
  import opened Wrappers
  import opened Budget

  ghost predicate Accepted(d: Data) {
    FieldsOk(d) && ReferencesOk(d) && SumsOk(d)
  }

  method ValidateBudget(d: Data) returns (r: Result<Data>)
    ensures r == Ok(d) || r == Invalid || r == MoneyOverflow
    ensures r.Ok? <==> Accepted(d)
    ensures r.MoneyOverflow? <==> FieldsOk(d) && ReferencesOk(d) && !SumsOk(d)
  {
    hide FieldsOk, ReferencesOk, SumsOk;
    if !FieldsOk(d) {
      return Invalid;
    }
    var references := ValidateReferences(d);
    if !references {
      return Invalid;
    }
    var sums := ValidateAggregateSafety(d);
    return if sums then Ok(d) else MoneyOverflow;
  }

  /** The two key strings the totals are kept under tell their parts apart. */
  lemma KeysAreFaithful(month: string, category: string, currency: string, month': string, category': string,
                        currency': string)
    requires |month| == |month'| == 7 && |currency| == |currency'| == 3
    ensures month + "\0" + currency == month' + "\0" + currency' <==> month == month' && currency == currency'
    ensures month + "\0" + category + "\0" + currency == month' + "\0" + category' + "\0" + currency'
        <==> month == month' && category == category' && currency == currency'
    ensures category + "\0" + currency == category' + "\0" + currency' <==>
      category == category' && currency == currency'
  {
    Parts(month + "\0", currency, month' + "\0", currency');
    Parts(category + "\0", currency, category' + "\0", currency');
    Parts(month + "\0" + category + "\0", currency, month' + "\0" + category' + "\0", currency');
    Parts(month + "\0", category + "\0", month' + "\0", category' + "\0");
    assert month + "\0" + category + "\0" == (month + "\0") + (category + "\0");
    assert month' + "\0" + category' + "\0" == (month' + "\0") + (category' + "\0");
    Parts(month, "\0", month', "\0");
    Parts(category, "\0", category', "\0");
  }

  lemma Parts(a: string, b: string, a': string, b': string)
    requires |a| == |a'| || |b| == |b'|
    ensures a + b == a' + b' <==> a == a' && b == b'
  {
    if a + b == a' + b' {
      assert |a + b| == |a' + b'|;
      assert a == (a + b)[..|a|] == a' && b == (a + b)[|a|..] == b';
    }
  }

  /** On a real date, the test the aggregators make for a month is the month the validator books it in. */
  lemma SameMonth(t: Transaction, month: string)
    requires RealDate(t.date) && |month| == 7
    ensures month + "-" <= t.date <==> MonthOf(t) == month
  {
    assert t.date == t.date[..7] + ['-'] + t.date[8..];
    assert (month + "-")[..7] == month;
  }

  method AccountBalance(value: Data, accountId: string) returns (r: Result<int>)
    ensures Accepted(value) && accountId in AccountMap(value.accounts) ==>
      r == Ok(BalanceOf(AccountMap(value.accounts), value.transactions, accountId))
    ensures Accepted(value) && accountId !in AccountMap(value.accounts) ==> r == UnknownAccount
    ensures !Accepted(value) ==> r == Invalid || r == MoneyOverflow
  {
    hide FieldsOk, ReferencesOk, AccountMap, Total, BalanceOf;
    var checked := ValidateBudget(value);
    if !checked.Ok? {
      return if checked.Invalid? then Invalid else MoneyOverflow;
    }
    var data := checked.value;
    var i := 0;
    while i < |data.accounts| && data.accounts[i].id != accountId
      invariant 0 <= i <= |data.accounts| && forall j :: 0 <= j < i ==> data.accounts[j].id != accountId
    {
      i := i + 1;
    }
    if i == |data.accounts| {
      return UnknownAccount;
    }
    OnlyAccount(data, i);
    var balance := data.accounts[i].openingBalance;
    OpeningOnly(AccountMap(data.accounts), accountId);
    for k := 0 to |data.transactions|
      invariant balance == BalanceOf(AccountMap(data.accounts), data.transactions[..k], accountId)
    {
      var t := data.transactions[k];
      BalanceNext(AccountMap(data.accounts), data.transactions, k, accountId);
      if t.accountId == accountId {
        balance := balance + if t.kind == Income then t.amount else -t.amount;
      }
    }
    assert data.transactions[..|data.transactions|] == data.transactions;
    return if Safe(balance) then Ok(balance) else MoneyOverflow;
  }

  lemma OpeningOnly(accounts: map<string, Account>, id: string)
    requires id in accounts
    ensures BalanceOf(accounts, [], id) == accounts[id].openingBalance
  {
  }

  /** With unique identifiers, any account found by its identifier is the one the map has. */
  lemma OnlyAccount(d: Data, i: nat)
    requires ReferencesOk(d) && i < |d.accounts|
    ensures d.accounts[i].id in AccountMap(d.accounts) && AccountMap(d.accounts)[d.accounts[i].id] == d.accounts[i]
  {
    hide AccountMap;
    var id := d.accounts[i].id;
    assert d.accounts[i] in d.accounts;
    var j :| 0 <= j < |d.accounts| && d.accounts[j] == AccountMap(d.accounts)[id];
    var ids := AccountIds(d.accounts);
    assert ids[i] == d.accounts[i].id && ids[j] == d.accounts[j].id;
  }

  /** A row per currency that had a transaction in the month, holding the month's totals. */
  ghost predicate MonthlyRows(d: Data, ts: seq<Transaction>, month: string, rows: map<string, MonthlyTotal>) {
    var accounts := AccountMap(d.accounts);
    && (forall currency :: currency in rows <==> InMonth(accounts, ts, month, currency))
    && forall currency :: currency in rows ==>
         rows[currency] == Row(accounts, ts, month, currency)
  }

  ghost predicate InMonth(accounts: map<string, Account>, ts: seq<Transaction>, month: string, currency: string) {
    exists t :: t in ts && t.accountId in accounts && MonthOf(t) == month && accounts[t.accountId].currency == currency
  }

  function Row(accounts: map<string, Account>, ts: seq<Transaction>, month: string, currency: string): MonthlyTotal {
    var income, expense :=
      Total(accounts, ts, Monthly(month, currency, Income)), Total(accounts, ts, Monthly(month, currency, Expense));
    MonthlyTotal(income, expense, income - expense)
  }

  lemma {:induction false} NoneInMonth(accounts: map<string, Account>, ts: seq<Transaction>, month: string,
                                       currency: string)
    requires !InMonth(accounts, ts, month, currency)
    ensures Row(accounts, ts, month, currency) == MonthlyTotal(0, 0, 0)
    decreases |ts|
  {
    if ts != [] {
      var front := ts[..|ts| - 1];
      assert forall t :: t in front ==> t in ts;
      NoneInMonth(accounts, front, month, currency);
      assert Last(ts) in ts;
    }
  }

  /** The month's totals never exceed what the validator bounded, however far the loop has come. */
  lemma RowIsSafe(d: Data, k: nat, month: string, currency: string)
    requires Accepted(d) && k <= |d.transactions|
    ensures var row := Row(AccountMap(d.accounts), d.transactions[..k], month, currency);
            0 <= row.income <= MAX_SAFE && 0 <= row.expense <= MAX_SAFE
  {
    hide FieldsOk, ReferencesOk, AccountMap, Total, BalanceOf;
    PositiveFields(d);
    TotalGrows(AccountMap(d.accounts), d.transactions, k, Monthly(month, currency, Income));
    TotalGrows(AccountMap(d.accounts), d.transactions, k, Monthly(month, currency, Expense));
  }

  lemma RowNext(accounts: map<string, Account>, ts: seq<Transaction>, k: nat, month: string, currency: string)
    requires k < |ts|
    ensures var was, now := Row(accounts, ts[..k], month, currency), Row(accounts, ts[..k + 1], month, currency);
            && now.income == was.income + Share(accounts, ts[k], Monthly(month, currency, Income))
            && now.expense == was.expense + Share(accounts, ts[k], Monthly(month, currency, Expense))
  {
    hide Total;
    TotalNext(accounts, ts, k, Monthly(month, currency, Income));
    TotalNext(accounts, ts, k, Monthly(month, currency, Expense));
  }

  lemma RowsNext(d: Data, k: nat, month: string, rows: map<string, MonthlyTotal>)
    requires k < |d.transactions| && d.transactions[k].accountId in AccountMap(d.accounts)
    requires MonthlyRows(d, d.transactions[..k], month, rows)
    ensures MonthOf(d.transactions[k]) != month ==> MonthlyRows(d, d.transactions[..k + 1], month, rows)
    ensures MonthOf(d.transactions[k]) == month ==>
      var currency := AccountMap(d.accounts)[d.transactions[k].accountId].currency;
      MonthlyRows(d, d.transactions[..k + 1], month,
                  rows[currency := Row(AccountMap(d.accounts), d.transactions[..k + 1], month, currency)])
  {
    hide AccountMap, Total, Row;
    var accounts, ts := AccountMap(d.accounts), d.transactions;
    assert ts[..k + 1] == ts[..k] + [ts[k]];
    forall currency
      ensures InMonth(accounts, ts[..k + 1], month, currency)
          <==> (InMonth(accounts, ts[..k], month, currency)
                || (MonthOf(ts[k]) == month && accounts[ts[k].accountId].currency == currency))
      ensures !(MonthOf(ts[k]) == month && accounts[ts[k].accountId].currency == currency) ==>
        Row(accounts, ts[..k + 1], month, currency) == Row(accounts, ts[..k], month, currency)
    {
      assert ts[k] in ts[..k + 1];
      assert forall t :: t in ts[..k] ==> t in ts[..k + 1];
      RowSame(accounts, ts, k, month, currency);
    }
  }

  lemma RowSame(accounts: map<string, Account>, ts: seq<Transaction>, k: nat, month: string, currency: string)
    requires k < |ts|
    ensures var t := ts[k];
            t.accountId in accounts && !(MonthOf(t) == month && accounts[t.accountId].currency == currency) ==>
              Row(accounts, ts[..k + 1], month, currency) == Row(accounts, ts[..k], month, currency)
  {
    hide Total;
    RowNext(accounts, ts, k, month, currency);
  }

  method MonthlyTotals(value: Data, month: string) returns (r: Result<map<string, MonthlyTotal>>)
    ensures r.Ok? <==> Accepted(value) && RealMonth(month)
    ensures r.Ok? ==> MonthlyRows(value, value.transactions, month, r.value)
    ensures r.MoneyOverflow? ==> !Accepted(value)
  {
    hide FieldsOk, ReferencesOk, SumsOk, AccountMap, Total, RealDate, RealMonth, MonthlyRows;
    var checked := ValidateBudget(value);
    if !checked.Ok? {
      return if checked.Invalid? then Invalid else MoneyOverflow;
    }
    var data := checked.value;
    if !RealMonth(month) {
      return Invalid;
    }
    var accounts := AccountMap(data.accounts);
    var totals: map<string, MonthlyTotal> := map[];
    NoRows(data, month);
    for k := 0 to |data.transactions|
      invariant MonthlyRows(data, data.transactions[..k], month, totals)
    {
      var t := data.transactions[k];
      Known(data, k, month);
      RowsNext(data, k, month, totals);
      if month + "-" <= t.date {
        var currency := accounts[t.accountId].currency;
        RowIsSafe(data, k + 1, month, currency);
        RowNext(accounts, data.transactions, k, month, currency);
        RowSoFar(data, k, month, totals, currency);
        var total := if currency in totals then totals[currency] else MonthlyTotal(0, 0, 0);
        var sum := CheckedAdd(if t.kind == Income then total.income else total.expense, t.amount);
        if sum.None? {
          return MoneyOverflow;
        }
        total := if t.kind == Income then total.(income := sum.value) else total.(expense := sum.value);
        var balance := CheckedAdd(total.income, -total.expense);
        if balance.None? {
          return MoneyOverflow;
        }
        totals := totals[currency := total.(balance := balance.value)];
      }
    }
    assert data.transactions[..|data.transactions|] == data.transactions;
    return Ok(totals);
  }

  lemma NoRows(d: Data, month: string)
    ensures MonthlyRows(d, d.transactions[..0], month, map[])
  {
    hide AccountMap;
  }

  lemma RowSoFar(d: Data, k: nat, month: string, rows: map<string, MonthlyTotal>, currency: string)
    requires k <= |d.transactions| && MonthlyRows(d, d.transactions[..k], month, rows)
    ensures Row(AccountMap(d.accounts), d.transactions[..k], month, currency)
         == if currency in rows then rows[currency] else MonthlyTotal(0, 0, 0)
  {
    hide AccountMap, Row, InMonth;
    if currency !in rows {
      NoneInMonth(AccountMap(d.accounts), d.transactions[..k], month, currency);
    }
  }

  lemma Known(d: Data, k: nat, month: string)
    requires Accepted(d) && k < |d.transactions| && RealMonth(month)
    ensures d.transactions[k].accountId in AccountMap(d.accounts)
    ensures month + "-" <= d.transactions[k].date <==> MonthOf(d.transactions[k]) == month
    ensures d.transactions[k].amount > 0
  {
    hide AccountMap, CategoryMap, RealDate, SumsOk;
    var t := d.transactions[k];
    assert t in d.transactions && TransactionOk(d, t) && TransactionFieldsOk(t);
    SameMonth(t, month);
  }

  /** A row per category and currency with an amount in the month, holding the month's total. */
  ghost predicate CategoryRows(d: Data, ts: seq<Transaction>, month: string, rows: map<(string, string), int>) {
    && (forall key :: key in rows ==> rows[key] > 0)
    && forall category, currency ::
         At(rows, (category, currency)) == Total(AccountMap(d.accounts), ts, OfCategory(month, category, currency))
  }

  lemma CategoryRowsNext(d: Data, k: nat, month: string, rows: map<(string, string), int>)
    requires k < |d.transactions| && d.transactions[k].accountId in AccountMap(d.accounts)
      && d.transactions[k].amount > 0
    requires CategoryRows(d, d.transactions[..k], month, rows)
    ensures MonthOf(d.transactions[k]) != month ==> CategoryRows(d, d.transactions[..k + 1], month, rows)
    ensures MonthOf(d.transactions[k]) == month ==>
      var key := (d.transactions[k].categoryId, AccountMap(d.accounts)[d.transactions[k].accountId].currency);
      CategoryRows(d, d.transactions[..k + 1], month, rows[key := At(rows, key) + d.transactions[k].amount])
  {
    hide AccountMap, Total;
    var accounts, ts := AccountMap(d.accounts), d.transactions;
    var key := (ts[k].categoryId, accounts[ts[k].accountId].currency);
    forall category, currency
      ensures var g := OfCategory(month, category, currency);
              Total(accounts, ts[..k + 1], g) == Total(accounts, ts[..k], g) + Share(accounts, ts[k], g)
    {
      TotalNext(accounts, ts, k, OfCategory(month, category, currency));
    }
    assert At(rows, key) >= 0;
  }

  method CategoryTotals(value: Data, month: string) returns (r: Result<map<(string, string), int>>)
    ensures r.Ok? <==> Accepted(value) && RealMonth(month)
    ensures r.Ok? ==> CategoryRows(value, value.transactions, month, r.value)
    ensures r.MoneyOverflow? ==> !Accepted(value)
  {
    hide FieldsOk, ReferencesOk, SumsOk, AccountMap, Total, RealDate, RealMonth, CategoryRows;
    var checked := ValidateBudget(value);
    if !checked.Ok? {
      return if checked.Invalid? then Invalid else MoneyOverflow;
    }
    var data := checked.value;
    if !RealMonth(month) {
      return Invalid;
    }
    var accounts := AccountMap(data.accounts);
    var totals: map<(string, string), int> := map[];
    NoCategoryRows(data, month);
    for k := 0 to |data.transactions|
      invariant CategoryRows(data, data.transactions[..k], month, totals)
    {
      var t := data.transactions[k];
      Known(data, k, month);
      CategoryRowsNext(data, k, month, totals);
      if month + "-" <= t.date {
        var key := (t.categoryId, accounts[t.accountId].currency);
        CategoryIsSafe(data, k, month, totals, key);
        var amount := CheckedAdd(At(totals, key), t.amount);
        if amount.None? {
          return MoneyOverflow;
        }
        totals := totals[key := amount.value];
      }
    }
    assert data.transactions[..|data.transactions|] == data.transactions;
    return Ok(totals);
  }

  lemma NoCategoryRows(d: Data, month: string)
    ensures CategoryRows(d, d.transactions[..0], month, map[])
  {
    hide AccountMap;
  }

  lemma CategoryIsSafe(d: Data, k: nat, month: string, rows: map<(string, string), int>, key: (string, string))
    requires Accepted(d) && k < |d.transactions| && d.transactions[k].accountId in AccountMap(d.accounts)
    requires CategoryRows(d, d.transactions[..k], month, rows) && MonthOf(d.transactions[k]) == month
    requires key == (d.transactions[k].categoryId, AccountMap(d.accounts)[d.transactions[k].accountId].currency)
    ensures Safe(At(rows, key) + d.transactions[k].amount)
  {
    hide FieldsOk, ReferencesOk, AccountMap, Total, BalanceOf;
    PositiveFields(d);
    var g := OfCategory(month, key.0, key.1);
    TotalNext(AccountMap(d.accounts), d.transactions, k, g);
    TotalGrows(AccountMap(d.accounts), d.transactions, k, g);
    TotalGrows(AccountMap(d.accounts), d.transactions, k + 1, g);
    assert d.transactions[k] in d.transactions;
  }

  // Reconciliation.

  lemma DistinctFront(s: seq<string>, x: string)
    requires Distinct(s + [x])
    ensures Distinct(s)
  {
    assert forall i :: 0 <= i < |s| ==> (s + [x])[i] == s[i];
  }

  /** What the rows of the categories of one kind add up to in a currency. */
  function CategorySum(categories: seq<Category>, rows: map<(string, string), int>, currency: string, kind: Kind): int {
    if categories == [] then 0
    else CategorySum(categories[..|categories| - 1], rows, currency, kind)
         + if Last(categories).kind == kind then At(rows, (Last(categories).id, currency)) else 0
  }

  function CategoriesTotal(accounts: map<string, Account>, ts: seq<Transaction>, categories: seq<Category>,
                           month: string, currency: string, kind: Kind): int
  {
    if categories == [] then 0
    else CategoriesTotal(accounts, ts, categories[..|categories| - 1], month, currency, kind)
         + if Last(categories).kind == kind then Total(accounts, ts, OfCategory(month, Last(categories).id, currency))
           else 0
  }

  ghost predicate Listed(categories: seq<Category>, id: string, kind: Kind) {
    exists i :: 0 <= i < |categories| && categories[i].id == id && categories[i].kind == kind
  }

  lemma {:induction false} CategoriesNext(accounts: map<string, Account>, ts: seq<Transaction>, k: nat,
                                          categories: seq<Category>, month: string, currency: string, kind: Kind)
    requires k < |ts| && Distinct(CategoryIds(categories)) && ts[k].accountId in accounts
    ensures CategoriesTotal(accounts, ts[..k + 1], categories, month, currency, kind)
         == CategoriesTotal(accounts, ts[..k], categories, month, currency, kind)
            + if Listed(categories, ts[k].categoryId, kind) && MonthOf(ts[k]) == month
              && accounts[ts[k].accountId].currency == currency
              then ts[k].amount else 0
    decreases |categories|
  {
    hide Total;
    if categories != [] {
      var front, last := categories[..|categories| - 1], Last(categories);
      assert CategoryIds(categories) == CategoryIds(front) + [last.id];
      DistinctFront(CategoryIds(front), last.id);
      CategoriesNext(accounts, ts, k, front, month, currency, kind);
      TotalNext(accounts, ts, k, OfCategory(month, last.id, currency));
      ListedNext(categories, ts[k].categoryId, kind);
    }
  }

  lemma ListedNext(categories: seq<Category>, id: string, kind: Kind)
    requires categories != [] && Distinct(CategoryIds(categories))
    ensures var front, last := categories[..|categories| - 1], Last(categories);
            && (Listed(categories, id, kind) <==> Listed(front, id, kind) || (last.id == id && last.kind == kind))
            && (last.id == id ==> !Listed(front, id, kind))
  {
    var n := |categories| - 1;
    var front, ids := categories[..n], CategoryIds(categories);
    assert forall i :: 0 <= i < |categories| ==> ids[i] == categories[i].id;
    assert forall i :: 0 <= i < n ==> front[i] == categories[i];
    if Listed(categories, id, kind) {
      var i :| 0 <= i < |categories| && categories[i].id == id && categories[i].kind == kind;
      assert i < n ==> front[i].id == id && front[i].kind == kind;
    }
    if Last(categories).id == id && Last(categories).kind == kind {
      assert categories[n].id == id;
    }
  }

  lemma {:induction false} CategoriesCover(d: Data, k: nat, month: string, currency: string, kind: Kind)
    requires ReferencesOk(d) && k <= |d.transactions|
    ensures CategoriesTotal(AccountMap(d.accounts), d.transactions[..k], d.categories, month, currency, kind)
         == Total(AccountMap(d.accounts), d.transactions[..k], Monthly(month, currency, kind))
  {
    hide AccountMap, CategoriesTotal, Total, Listed;
    if k == 0 {
      NothingTotals(AccountMap(d.accounts), d.categories, month, currency, kind);
    } else {
      var t := d.transactions[k - 1];
      assert t in d.transactions && TransactionOk(d, t);
      CategoriesCover(d, k - 1, month, currency, kind);
      CategoriesNext(AccountMap(d.accounts), d.transactions, k - 1, d.categories, month, currency, kind);
      TotalNext(AccountMap(d.accounts), d.transactions, k - 1, Monthly(month, currency, kind));
      OneKind(d, t, kind);
    }
  }

  lemma {:induction false} NothingTotals(accounts: map<string, Account>, categories: seq<Category>, month: string,
                                         currency: string, kind: Kind)
    ensures CategoriesTotal(accounts, [], categories, month, currency, kind) == 0
    ensures Total(accounts, [], Monthly(month, currency, kind)) == 0
    decreases |categories|
  {
    if categories != [] {
      NothingTotals(accounts, categories[..|categories| - 1], month, currency, kind);
    }
  }

  /** A transaction's category is of its own kind and of no other. */
  lemma OneKind(d: Data, t: Transaction, kind: Kind)
    requires ReferencesOk(d) && t in d.transactions
    ensures Listed(d.categories, t.categoryId, kind) <==> t.kind == kind
  {
    hide AccountMap, CategoryMap;
    assert TransactionOk(d, t);
    var c := CategoryMap(d.categories)[t.categoryId];
    var j :| 0 <= j < |d.categories| && d.categories[j] == c;
    var ids := CategoryIds(d.categories);
    if Listed(d.categories, t.categoryId, kind) {
      var i :| 0 <= i < |d.categories| && d.categories[i].id == t.categoryId && d.categories[i].kind == kind;
      assert ids[i] == d.categories[i].id && ids[j] == d.categories[j].id;
    }
  }

  lemma {:induction false} SameSum(d: Data, categories: seq<Category>, month: string, rows: map<(string, string), int>,
                                   currency: string, kind: Kind)
    requires CategoryRows(d, d.transactions, month, rows)
    ensures CategorySum(categories, rows, currency, kind)
         == CategoriesTotal(AccountMap(d.accounts), d.transactions, categories, month, currency, kind)
    decreases |categories|
  {
    hide AccountMap, Total;
    if categories != [] {
      SameSum(d, categories[..|categories| - 1], month, rows, currency, kind);
    }
  }

  /** For each month and currency, the totals of the categories of a kind add up to the month's total of that kind. */
  lemma MonthReconciles(d: Data, month: string, rows: map<string, MonthlyTotal>, byCategory: map<(string, string), int>,
                        currency: string)
    requires Accepted(d) && MonthlyRows(d, d.transactions, month, rows)
      && CategoryRows(d, d.transactions, month, byCategory)
    ensures CategorySum(d.categories, byCategory, currency, Income)
      == if currency in rows then rows[currency].income else 0
    ensures CategorySum(d.categories, byCategory, currency, Expense)
      == if currency in rows then rows[currency].expense else 0
  {
    hide AccountMap, Total, FieldsOk, ReferencesOk, SumsOk, CategoryRows, MonthlyRows, CategorySum;
    var n := |d.transactions|;
    assert d.transactions[..n] == d.transactions;
    RowSoFar(d, n, month, rows, currency);
    CategoriesCover(d, n, month, currency, Income);
    CategoriesCover(d, n, month, currency, Expense);
    SameSum(d, d.categories, month, byCategory, currency, Income);
    SameSum(d, d.categories, month, byCategory, currency, Expense);
  }

  /** The balances, and the opening balances, of the accounts held in a currency. */
  function BalanceSum(accounts: map<string, Account>, ts: seq<Transaction>, held: seq<Account>, currency: string): int {
    if held == [] then 0
    else BalanceSum(accounts, ts, held[..|held| - 1], currency)
         + if Last(held).currency == currency
           && Last(held).id in accounts then BalanceOf(accounts, ts, Last(held).id) else 0
  }

  function OpeningSum(held: seq<Account>, currency: string): int {
    if held == [] then 0
    else
      OpeningSum(held[..|held| - 1], currency)
      + if Last(held).currency == currency then Last(held).openingBalance else 0
  }

  /** The balances of several months in a currency. */
  function MonthSum(accounts: map<string, Account>, ts: seq<Transaction>, months: seq<string>, currency: string): int {
    if months == [] then 0
    else MonthSum(accounts, ts, months[..|months| - 1], currency) + Row(accounts, ts, Last(months), currency).balance
  }

  ghost predicate Held(held: seq<Account>, id: string, currency: string) {
    exists i :: 0 <= i < |held| && held[i].id == id && held[i].currency == currency
  }

  lemma {:induction false} BalancesNext(accounts: map<string, Account>, ts: seq<Transaction>, k: nat,
                                        held: seq<Account>, currency: string)
    requires k < |ts| && Distinct(AccountIds(held)) && forall a :: a in held ==> a.id in accounts
    ensures BalanceSum(accounts, ts[..k + 1], held, currency)
         == BalanceSum(accounts, ts[..k], held, currency)
           + if Held(held, ts[k].accountId, currency) then Signed(ts[k]) else 0
    decreases |held|
  {
    hide BalanceOf;
    if held != [] {
      var front, last := held[..|held| - 1], Last(held);
      assert AccountIds(held) == AccountIds(front) + [last.id];
      DistinctFront(AccountIds(front), last.id);
      assert forall a :: a in front ==> a in held;
      assert last in held;
      BalancesNext(accounts, ts, k, front, currency);
      BalanceNext(accounts, ts, k, last.id);
      HeldNext(held, ts[k].accountId, currency);
    }
  }

  lemma HeldNext(held: seq<Account>, id: string, currency: string)
    requires held != [] && Distinct(AccountIds(held))
    ensures var front, last := held[..|held| - 1], Last(held);
            && (Held(held, id, currency) <==> Held(front, id, currency) || (last.id == id && last.currency == currency))
            && (last.id == id ==> !Held(front, id, currency))
  {
    var n := |held| - 1;
    var front, ids := held[..n], AccountIds(held);
    assert forall i :: 0 <= i < |held| ==> ids[i] == held[i].id;
    assert forall i :: 0 <= i < n ==> front[i] == held[i];
    if Held(held, id, currency) {
      var i :| 0 <= i < |held| && held[i].id == id && held[i].currency == currency;
      assert i < n ==> front[i].id == id && front[i].currency == currency;
    }
    if Last(held).id == id && Last(held).currency == currency {
      assert held[n].id == id;
    }
  }

  lemma {:induction false} MonthsNext(accounts: map<string, Account>, ts: seq<Transaction>, k: nat, months: seq<string>,
                                      currency: string)
    requires k < |ts| && Distinct(months) && ts[k].accountId in accounts
    ensures MonthSum(accounts, ts[..k + 1], months, currency)
         == MonthSum(accounts, ts[..k], months, currency)
            + if MonthOf(ts[k]) in months && accounts[ts[k].accountId].currency == currency then Signed(ts[k]) else 0
    decreases |months|
  {
    hide Total;
    if months != [] {
      var front, last := months[..|months| - 1], Last(months);
      assert months == front + [last];
      MonthsNext(accounts, ts, k, front, currency);
      RowNext(accounts, ts, k, last, currency);
      assert last !in front;
    }
  }

  lemma {:induction false} NothingYet(accounts: map<string, Account>, held: seq<Account>, months: seq<string>,
                                      currency: string)
    requires forall a :: a in held ==> a.id in accounts && accounts[a.id] == a
    ensures BalanceSum(accounts, [], held, currency) == OpeningSum(held, currency)
    decreases |held|
  {
    if held != [] {
      NothingYet(accounts, held[..|held| - 1], months, currency);
      assert Last(held) in held;
    }
  }

  lemma {:induction false} NoMonths(accounts: map<string, Account>, months: seq<string>, currency: string)
    ensures MonthSum(accounts, [], months, currency) == 0
    decreases |months|
  {
    if months != [] {
      NoMonths(accounts, months[..|months| - 1], currency);
    }
  }

  lemma {:induction false} BalancesCover(d: Data, k: nat, months: seq<string>, currency: string)
    requires ReferencesOk(d) && k <= |d.transactions| && Distinct(months)
    requires forall t :: t in d.transactions ==> MonthOf(t) in months
    ensures BalanceSum(AccountMap(d.accounts), d.transactions[..k], d.accounts, currency)
         == OpeningSum(d.accounts, currency) + MonthSum(AccountMap(d.accounts), d.transactions[..k], months, currency)
  {
    hide AccountMap, CategoryMap, BalanceSum, MonthSum, OpeningSum, Distinct, Held;
    var accounts := AccountMap(d.accounts);
    forall a | a in d.accounts
      ensures a.id in accounts && accounts[a.id] == a
    {
      var i :| 0 <= i < |d.accounts| && d.accounts[i] == a;
      OnlyAccount(d, i);
    }
    if k == 0 {
      NothingYet(accounts, d.accounts, months, currency);
      NoMonths(accounts, months, currency);
    } else {
      var t := d.transactions[k - 1];
      assert t in d.transactions && TransactionOk(d, t);
      BalancesCover(d, k - 1, months, currency);
      BalancesNext(accounts, d.transactions, k - 1, d.accounts, currency);
      MonthsNext(accounts, d.transactions, k - 1, months, currency);
      HeldIs(d, accounts[t.accountId], currency);
    }
  }

  lemma HeldIs(d: Data, a: Account, currency: string)
    requires ReferencesOk(d) && a in d.accounts
    ensures Held(d.accounts, a.id, currency) <==> a.currency == currency
  {
    var j :| 0 <= j < |d.accounts| && d.accounts[j] == a;
    var ids := AccountIds(d.accounts);
    if Held(d.accounts, a.id, currency) {
      var i :| 0 <= i < |d.accounts| && d.accounts[i].id == a.id && d.accounts[i].currency == currency;
      assert ids[i] == d.accounts[i].id && ids[j] == d.accounts[j].id;
    }
  }

  /** Per currency, the opening balances and the balances of all the months anything was booked in add up to the
    balances of the accounts. */
  lemma BalancesReconcile(d: Data, months: seq<string>, currency: string)
    requires Accepted(d) && Distinct(months) && forall t :: t in d.transactions ==> MonthOf(t) in months
    ensures BalanceSum(AccountMap(d.accounts), d.transactions, d.accounts, currency)
         == OpeningSum(d.accounts, currency) + MonthSum(AccountMap(d.accounts), d.transactions, months, currency)
  {
    hide FieldsOk, ReferencesOk, SumsOk, AccountMap, BalanceSum, MonthSum, OpeningSum;
    BalancesCover(d, |d.transactions|, months, currency);
    assert d.transactions[..|d.transactions|] == d.transactions;
  }
}
