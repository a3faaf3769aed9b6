/** What one more transaction does to a balance and to a month's totals, and which dates a transaction can have. */
module BudgetLaws {
  import opened Wrappers
  import opened Budget
  import opened BudgetTotals

  /** An account starts at its opening balance; an income raises its balance by its amount, an expense lowers it, and
    what is booked on another account leaves it alone. */
  lemma BalanceMoves(accounts: map<string, Account>, ts: seq<Transaction>, t: Transaction, id: string)
    requires id in accounts
    ensures BalanceOf(accounts, [], id) == accounts[id].openingBalance
    ensures t.accountId == id && t.kind == Income ==>
      BalanceOf(accounts, ts + [t], id) == BalanceOf(accounts, ts, id) + t.amount
    ensures t.accountId == id && t.kind == Expense ==>
      BalanceOf(accounts, ts + [t], id) == BalanceOf(accounts, ts, id) - t.amount
    ensures t.accountId != id ==> BalanceOf(accounts, ts + [t], id) == BalanceOf(accounts, ts, id)
  {
    OneMore(accounts, ts, t, OfAccount(id, Income));
    OneMore(accounts, ts, t, OfAccount(id, Expense));
  }

  lemma OneMore(accounts: map<string, Account>, ts: seq<Transaction>, t: Transaction, g: Group)
    ensures Total(accounts, ts + [t], g) == Total(accounts, ts, g) + Share(accounts, t, g)
  {
    assert (ts + [t])[..|ts|] == ts;
  }

  /** A booking of the month in the currency: its date begins with the month, and its account holds the currency. */
  ghost predicate BookedIn(accounts: map<string, Account>, t: Transaction, month: string, currency: string) {
    t.accountId in accounts && accounts[t.accountId].currency == currency && |t.date| >= 7 && t.date[..7] == month
  }

  /** A month starts at nothing; an income raises the month's income and balance by its amount, an expense raises its
    expense and lowers the balance, each in its currency, and no other booking counts. */
  lemma MonthMoves(accounts: map<string, Account>, ts: seq<Transaction>, t: Transaction, month: string,
                   currency: string)
    requires |month| == 7
    ensures Row(accounts, [], month, currency) == MonthlyTotal(0, 0, 0)
    ensures var was, now := Row(accounts, ts, month, currency), Row(accounts, ts + [t], month, currency);
            if !BookedIn(accounts, t, month, currency) then now == was
            else if t.kind == Income
            then now == MonthlyTotal(was.income + t.amount, was.expense, was.balance + t.amount)
            else now == MonthlyTotal(was.income, was.expense + t.amount, was.balance - t.amount)
  {
    OneMore(accounts, ts, t, Monthly(month, currency, Income));
    OneMore(accounts, ts, t, Monthly(month, currency, Expense));
  }

  /** A category's total in a month and a currency grows by the amounts booked on it, and by nothing else. */
  lemma CategoryMoves(accounts: map<string, Account>, ts: seq<Transaction>, t: Transaction, month: string,
                      category: string, currency: string)
    requires |month| == 7
    ensures Total(accounts, [], OfCategory(month, category, currency)) == 0
    ensures Total(accounts, ts + [t], OfCategory(month, category, currency))
         == Total(accounts, ts, OfCategory(month, category, currency))
            + if BookedIn(accounts, t, month, currency) && t.categoryId == category then t.amount else 0
  {
    OneMore(accounts, ts, t, OfCategory(month, category, currency));
  }

  // Dates.

  /** A number in decimal, with leading zeros to a width. */
  function Padded(n: nat, width: nat): string {
    if width == 0 then "" else Padded(n / 10, width - 1) + ["0123456789"[n % 10]]
  }

  function PowerOfTen(k: nat): nat {
    if k == 0 then 1 else 10 * PowerOfTen(k - 1)
  }

  lemma {:induction false} PaddedReads(n: nat, width: nat)
    requires n < PowerOfTen(width)
    ensures |Padded(n, width)| == width && Digits(Padded(n, width)) && Number(Padded(n, width)) == n
    decreases width
  {
    if width > 0 {
      PaddedReads(n / 10, width - 1);
      var s, front := Padded(n, width), Padded(n / 10, width - 1);
      assert s[..width - 1] == front;
      DigitIs(n % 10);
    }
  }

  lemma DigitIs(d: nat)
    requires d < 10
    ensures var c := "0123456789"[d]; '0' <= c <= '9' && (c - '0') as nat == d
  {
  }

  lemma {:induction false} PaddedBack(s: string)
    requires Digits(s)
    ensures Number(s) < PowerOfTen(|s|) && Padded(Number(s), |s|) == s
    decreases |s|
  {
    if s != "" {
      var front, last := s[..|s| - 1], s[|s| - 1];
      PaddedBack(front);
      var d := (last - '0') as nat;
      DigitIs(d);
      assert Number(s) == Number(front) * 10 + d && Number(s) / 10 == Number(front) && Number(s) % 10 == d;
      assert s == front + [last];
    }
  }

  predicate Leap(year: nat) {
    year % 400 == 0 || (year % 4 == 0 && year % 100 != 0)
  }

  /** A day of the calendar: no month has more than 31 days, four have 30, February has 28 and in leap years 29. */
  predicate IsDay(year: nat, month: nat, day: nat) {
    && 1 <= year <= 9999 && 1 <= month <= 12 && 1 <= day <= 31
    && (month in {4, 6, 9, 11} ==> day != 31)
    && (month == 2 ==> day < 30 && (day == 29 ==> Leap(year)))
  }

  function Written(year: nat, month: nat, day: nat): string {
    Padded(year, 4) + "-" + Padded(month, 2) + "-" + Padded(day, 2)
  }

  lemma Powers()
    ensures PowerOfTen(4) == 10000 && PowerOfTen(2) == 100
  {
    assert PowerOfTen(3) == 1000;
  }

  /** A date is accepted exactly when it is a day of the calendar, written as such. */
  lemma DateIsReal(s: string)
    ensures RealDate(s) <==> exists year, month, day :: IsDay(year, month, day) && s == Written(year, month, day)
  {
    hide Padded, Number, Leap;
    Powers();
    if RealDate(s) {
      var year, month, day := Number(s[..4]), Number(s[5..7]), Number(s[8..]);
      assert s[..7][..4] == s[..4] && s[..7][5..] == s[5..7];
      PaddedBack(s[..4]);
      PaddedBack(s[5..7]);
      PaddedBack(s[8..]);
      RealIsDay(year, month, day);
      assert s == s[..4] + "-" + s[5..7] + "-" + s[8..];
      assert IsDay(year, month, day) && s == Written(year, month, day);
    }
    forall year: nat, month: nat, day: nat | IsDay(year, month, day) && s == Written(year, month, day)
      ensures RealDate(s)
    {
      PaddedReads(year, 4);
      PaddedReads(month, 2);
      PaddedReads(day, 2);
      assert s[..4] == Padded(year, 4) && s[5..7] == Padded(month, 2) && s[8..] == Padded(day, 2);
      assert s[..7][..4] == s[..4] && s[..7][5..] == s[5..7];
      RealIsDay(year, month, day);
    }
  }

  /** A month is accepted exactly when it is one of the calendar, written as such. */
  lemma MonthIsReal(s: string)
    ensures RealMonth(s) <==>
      exists year, month :: 1 <= year <= 9999 && 1 <= month <= 12 && s == MonthWritten(year, month)
  {
    hide Padded, Number;
    Powers();
    if RealMonth(s) {
      PaddedBack(s[..4]);
      PaddedBack(s[5..]);
      assert s == s[..4] + "-" + s[5..];
      assert s == MonthWritten(Number(s[..4]), Number(s[5..]));
    }
    forall year: nat, month: nat | 1 <= year <= 9999 && 1 <= month <= 12 && s == MonthWritten(year, month)
      ensures RealMonth(s)
    {
      PaddedReads(year, 4);
      PaddedReads(month, 2);
      assert s[..4] == Padded(year, 4) && s[5..] == Padded(month, 2);
    }
  }

  function MonthWritten(year: nat, month: nat): string {
    Padded(year, 4) + "-" + Padded(month, 2)
  }

  /** The days a month has. */
  lemma RealIsDay(year: nat, month: nat, day: nat)
    requires 1 <= year <= 9999 && 1 <= month <= 12
    ensures var leap := year % 4 == 0 && (year % 100 != 0 || year % 400 == 0);
            IsDay(year, month, day) <==>
            1 <= day <= [31, if leap then 29 else 28, 31, 30, 31, 30, 31, 31, 30, 31, 30, 31][month - 1]
  {
  }
}
