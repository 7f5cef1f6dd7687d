/** Daily check-ins: the streak counted from a limited list of dates, and the reward it earns. */
module Checkin {
  import opened Base
  import opened Sums
  import opened Ledger
  import opened Payout
  import opened Calendar
  import Decimal
  import Rewards

  /** How many rows the streak query looks back. */
  const LOOKBACK := 30

  const CHECKIN_KIND := "checkin_reward"
  const CHECKIN_REF := "checkin"

  // ----- Dates as text -----

  function Digit(n: int): char
    requires 0 <= n < 10
  {
    Decimal.DIGITS[n]
  }

  function TwoDigits(n: int): string
    requires 0 <= n < 100
  {
    [Digit(n / 10), Digit(n % 10)]
  }

  /** The stored form of a date, yyyy-MM-dd. */
  function Text(d: Date): string
    requires Valid(d) && 0 <= d.year <= 9999
  {
    TwoDigits(d.year / 100) + TwoDigits(d.year % 100) + "-" + TwoDigits(d.month) + "-" + TwoDigits(d.day)
  }

  /** Lexicographic order of texts, as the database compares them. */
  predicate TextLess(a: string, b: string) {
    if a == [] || b == [] then a == [] && b != []
    else if a[0] == b[0] then TextLess(a[1..], b[1..])
    else a[0] < b[0]
  }

  lemma DigitOrder(m: int, n: int)
    requires 0 <= m < 10 && 0 <= n < 10
    ensures Digit(m) < Digit(n) <==> m < n
    ensures Digit(m) == Digit(n) <==> m == n
  {
  }

  lemma TwoDigitsOrder(m: int, n: int, s: string, t: string)
    requires 0 <= m < 100 && 0 <= n < 100
    ensures TextLess(TwoDigits(m) + s, TwoDigits(n) + t) <==> m < n || (m == n && TextLess(s, t))
  {
    DigitOrder(m / 10, n / 10);
    DigitOrder(m % 10, n % 10);
    var a, b := TwoDigits(m) + s, TwoDigits(n) + t;
    assert a[1..] == [Digit(m % 10)] + s && b[1..] == [Digit(n % 10)] + t;
    assert a[1..][1..] == s && b[1..][1..] == t;
  }

  lemma DashOrder(s: string, t: string)
    ensures TextLess("-" + s, "-" + t) <==> TextLess(s, t)
  {
    assert ("-" + s)[1..] == s && ("-" + t)[1..] == t;
  }

  /** Comparing stored dates as text is comparing them on the calendar. */
  lemma TextOrderIsDateOrder(a: Date, b: Date)
    requires Valid(a) && Valid(b) && 0 <= a.year <= 9999 && 0 <= b.year <= 9999
    ensures TextLess(Text(a), Text(b)) <==> Before(a, b)
  {
    var sd, td := TwoDigits(a.day) + "", TwoDigits(b.day) + "";
    var sm, tm := TwoDigits(a.month) + ("-" + sd), TwoDigits(b.month) + ("-" + td);
    var sy, ty := TwoDigits(a.year % 100) + ("-" + sm), TwoDigits(b.year % 100) + ("-" + tm);
    assert Text(a) == TwoDigits(a.year / 100) + sy && Text(b) == TwoDigits(b.year / 100) + ty;
    TwoDigitsOrder(a.day, b.day, "", "");
    DashOrder(sd, td);
    TwoDigitsOrder(a.month, b.month, "-" + sd, "-" + td);
    DashOrder(sm, tm);
    TwoDigitsOrder(a.year % 100, b.year % 100, "-" + sm, "-" + tm);
    TwoDigitsOrder(a.year / 100, b.year / 100, sy, ty);
  }

  // ----- Counting -----

  /** Some stored date has this day number. */
  ghost predicate HasDay(days: set<Date>, n: int) {
    exists d :: d in days && DayNumber(d) == n
  }

  /** What the query returns: the latest stored dates up to the given one, newest first, at most LOOKBACK. */
  ghost predicate IsListing(list: seq<Date>, days: set<Date>, date: Date) {
    && |list| <= LOOKBACK
    && (forall d :: d in list ==> d in days && !Before(date, d))
    && (forall i, j :: 0 <= i < j < |list| ==> Before(list[j], list[i]))
    && (forall d :: d in days && !Before(date, d) && d !in list ==> |list| == LOOKBACK && Before(d, list[LOOKBACK - 1]))
  }

  /** count days in a row, ending at day number n, have a check-in. */
  ghost predicate InRow(days: set<Date>, n: int, count: nat) {
    forall m :: n - count < m <= n ==> HasDay(days, m)
  }

  /** The streak: the longest run of days ending at n, cut off at the lookback. */
  ghost predicate IsStreak(days: set<Date>, n: int, count: nat) {
    count <= LOOKBACK && InRow(days, n, count) && (count < LOOKBACK ==> !HasDay(days, n - count))
  }

  lemma StreakUnique(days: set<Date>, n: int, a: nat, b: nat)
    requires IsStreak(days, n, a) && IsStreak(days, n, b)
    ensures a == b
  {
    assert HasDay(days, n - a) || !HasDay(days, n - a);
    assert HasDay(days, n - b) || !HasDay(days, n - b);
  }

  /** The streak is the maximal run, or the lookback if the run is longer. */
  lemma StreakIsMaximalRun(days: set<Date>, n: int, run: nat)
    requires InRow(days, n, run) && !HasDay(days, n - run)
    ensures IsStreak(days, n, if run < 30 then run else 30)
  {
  }

  /** A day in the gap behind the i-th listed date would have been listed. */
  lemma GapIsEmpty(list: seq<Date>, days: set<Date>, date: Date, i: nat)
    requires Valid(date) && (forall d :: d in days ==> Valid(d)) && IsListing(list, days, date)
    requires i <= |list| && i < LOOKBACK
    requires forall k :: 0 <= k < i ==> DayNumber(list[k]) == DayNumber(date) - k
    requires i < |list| ==> DayNumber(list[i]) != DayNumber(date) - i
    ensures !HasDay(days, DayNumber(date) - i)
  {
    if HasDay(days, DayNumber(date) - i) {
      var d :| d in days && DayNumber(d) == DayNumber(date) - i;
      OrderIsDayOrder(date, d);
      if i < |list| {
        OrderIsDayOrder(list[i], if i == 0 then date else list[i - 1]);
        OrderIsDayOrder(date, list[i]);
      }
      if d in list {
        var j: nat :| j < |list| && list[j] == d;
        if j > i { OrderIsDayOrder(list[j], list[i]); }
        assert false;
      } else {
        OrderIsDayOrder(d, list[LOOKBACK - 1]);
        OrderIsDayOrder(list[LOOKBACK - 1], list[i]);
        assert false;
      }
    }
  }

  /** The test the loop makes at position i is whether the i-th listed date is i days before the first. */
  lemma ExpectedIffConsecutive(list: seq<Date>, days: set<Date>, date: Date, i: nat)
    requires Valid(date) && (forall d :: d in days ==> Valid(d)) && IsListing(list, days, date)
    requires i < |list| && forall k :: 0 <= k < i ==> DayNumber(list[k]) == DayNumber(date) - k
    ensures list[i] in days && Valid(list[i])
    ensures i == 0 ==> (list[i] == date <==> DayNumber(list[i]) == DayNumber(date) - i)
    ensures i > 0 ==> (list[i] == PrevDay(list[i - 1]) <==> DayNumber(list[i]) == DayNumber(date) - i)
  {
    assert list[i] in list;
    if i == 0 {
      OrderIsDayOrder(list[i], date);
    } else {
      assert list[i - 1] in list;
      PrevDayCounts(list[i - 1]);
      OrderIsDayOrder(list[i], PrevDay(list[i - 1]));
    }
  }

  lemma RowExtends(days: set<Date>, n: int, count: nat, d: Date)
    requires InRow(days, n, count) && d in days && DayNumber(d) == n - count
    ensures InRow(days, n, count + 1)
  {
  }

  method CountConsecutive(list: seq<Date>, ghost days: set<Date>, date: Date) returns (count: nat)
    requires Valid(date) && (forall d :: d in days ==> Valid(d)) && IsListing(list, days, date)
    ensures IsStreak(days, DayNumber(date), count)
  {
    if |list| == 0 {
      GapIsEmpty(list, days, date, 0);
      return 0;
    }
    count := 0;
    for i := 0 to |list|
      invariant count == i
      invariant forall k :: 0 <= k < i ==> DayNumber(list[k]) == DayNumber(date) - k
      invariant InRow(days, DayNumber(date), i)
    {
      ExpectedIffConsecutive(list, days, date, i);
      if i == 0 {
        if list[i] != date {
          GapIsEmpty(list, days, date, 0);
          return 0;
        }
        count := 1;
      } else {
        var expected := PrevDay(list[i - 1]);
        if list[i] != expected {
          GapIsEmpty(list, days, date, i);
          return;
        }
        count := count + 1;
      }
      RowExtends(days, DayNumber(date), i, list[i]);
    }
    if |list| < LOOKBACK {
      GapIsEmpty(list, days, date, |list|);
    }
  }

  // ----- The reward -----

  /** In LB. */
  const BASE := 0.10
  const FACTOR := 1.5
  const CAP := 1.0
  const TIER := 7

  function Power(n: nat): real {
    if n == 0 then 1.0 else Power(n - 1) * FACTOR
  }

  function Tier(days: int): nat {
    if days < 0 then 0 else days / TIER
  }

  function Reward(days: int): real {
    var r := BASE * Power(Tier(days));
    if r > CAP then CAP else r
  }

  method CalculateReward(days: int) returns (r: real)
    ensures r == Reward(days)
  {
    var streakTier := if days < 0 then 0 else days / TIER;
    var multiplier := 1.0;
    for i := 0 to streakTier
      invariant multiplier == Power(i)
    {
      multiplier := multiplier * FACTOR;
    }
    r := BASE * multiplier;
    if r > CAP {
      r := CAP;
    }
  }

  lemma {:induction false} PowerGrows(m: nat, n: nat)
    requires m <= n
    ensures 1.0 <= Power(m) <= Power(n)
    decreases n
  {
    if m < n {
      PowerGrows(m, n - 1);
    } else if n > 0 {
      PowerGrows(n - 1, n - 1);
    }
  }

  lemma FirstPowers()
    ensures Power(4) == 5.0625 && Power(5) == 7.59375 && Power(6) == 11.390625
  {
    assert Power(1) == 1.5 && Power(2) == 2.25 && Power(3) == 3.375;
    assert Power(4) == 5.0625;
    assert Power(5) == 7.59375;
  }

  /** A longer streak never earns less, and every reward lies between the base and the cap. */
  lemma RewardMonotone(m: int, n: int)
    requires m <= n
    ensures BASE <= Reward(m) <= Reward(n) <= CAP
  {
    PowerGrows(Tier(m), Tier(n));
  }

  /** The cap is reached exactly from the sixth tier on. */
  lemma CapBindsIff(days: int)
    ensures Reward(days) == CAP <==> days >= 6 * TIER
  {
    FirstPowers();
    if days >= 6 * TIER {
      PowerGrows(6, Tier(days));
    } else {
      PowerGrows(Tier(days), 5);
    }
  }

  /**
   * A check-in is paid for the streak up to yesterday plus today, and the query sees at most 30 days:
   * no check-in ever earns more than four tiers, so the cap is never reached.
   */
  lemma PaidRewardBound(days: set<Date>, yesterday: int, count: nat)
    requires IsStreak(days, yesterday, count)
    ensures BASE <= Reward(count + 1) <= 0.50625 == BASE * Power(4)
    ensures Reward(count + 1) < CAP
  {
    FirstPowers();
    PowerGrows(Tier(count + 1), 4);
  }

  /** The reward by the length of the streak in weeks, in LB, and in the ledger's units when it is paid. */
  lemma RewardByWeek(days: nat)
    ensures Reward(days) == if days < 7 then 0.1 else if days < 14 then 0.15 else if days < 21 then 0.225 else if days < 28 then 0.3375
                            else if days < 35 then 0.50625 else if days < 42 then 0.759375 else 1.0
    ensures days <= 31 ==>
              Units(Reward(days)) == if days < 7 then 1000 else if days < 14 then 1500 else if days < 21 then 2250
                                     else if days < 28 then 3375 else 5063
  {
    FirstPowers();
    assert Power(0) == 1.0 && Power(1) == 1.5 && Power(2) == 2.25 && Power(3) == 3.375;
    if days >= 42 {
      PowerGrows(6, Tier(days));
    }
  }

  // ----- The service -----

  /** The columns of the unique constraint. */
  datatype Key = Key(account: int, date: Date)

  /** LB to ledger units; the column keeps four decimals. */
  function Units(lb: real): int {
    (lb * 10_000.0 + 0.5).Floor
  }

  lemma UnitsNearest(lb: real)
    ensures -0.5 < Units(lb) as real - lb * 10_000.0 <= 0.5
  {
  }

  type Bank = Rewards.Bank<Key>

  /** Dates on which an account has checked in. */
  function DaysOf(granted: map<Key, Claim>, account: int): set<Date> {
    set k | k in granted && k.account == account :: k.date
  }

  /** The days that count for an account are those of its own records. */
  lemma DaysOfIff(granted: map<Key, Claim>, account: int, date: Date)
    ensures date in DaysOf(granted, account) <==> Key(account, date) in granted
  {
    if date in DaysOf(granted, account) {
      var k :| k in granted && k.account == account && k.date == date;
      assert k == Key(account, date);
    }
  }

  /** How a check-in is booked; idOf gives the id the database assigns to a record. */
  function Booking(idOf: Key -> string): Style<Key> {
    Style(CHECKIN_KIND, CHECKIN_REF, idOf, (k: Key) => "")
  }

  /** Which of the store calls of a check-in succeed. */
  datatype StoreAnswers = StoreAnswers(lookup: bool, list: bool, insert: bool, credit: bool)

  class CheckinService {
    const repo: WalletRepo
    const idOf: Key -> string
    var checkins: map<Key, Claim>
    ghost var payers: seq<Payer<Key>>

    ghost function View(): Bank
      reads this, repo
    {
      Rewards.Bank(repo.Contents(), checkins, payers)
    }

    constructor (repo: WalletRepo, idOf: Key -> string)
      ensures this.repo == repo && this.idOf == idOf && checkins == map[] && payers == []
    {
      this.repo, this.idOf, checkins, payers := repo, idOf, map[], [];
    }

    /**
     * list is what the database answers for the days up to yesterday; ok tells which of the four store calls
     * succeed. The record is inserted, then the wallet credited; a second check-in on the same day changes nothing.
     */
    method DoCheckin(account: int, today: Date, list: seq<Date>, ok: StoreAnswers) returns (r: Result<int>, ghost streak: nat)
      requires Valid(today) && forall k :: k in checkins ==> Valid(k.date)
      requires IsListing(list, DaysOf(checkins, account), PrevDay(today))
      modifies this, repo
      ensures !ok.lookup ==> View() == old(View()) && r == Err(Unavailable)
      ensures ok.lookup && Key(account, today) in old(checkins) ==> View() == old(View()) && r == Err(Duplicate)
      ensures ok.lookup && Key(account, today) !in old(checkins) && !(ok.list && ok.insert) ==>
                View() == old(View()) && r == Err(Unavailable)
      ensures ok.lookup && Key(account, today) !in old(checkins) && ok.list && ok.insert ==>
                && IsStreak(DaysOf(old(checkins), account), DayNumber(today) - 1, streak)
                && var reward := Units(Reward(streak + 1));
                   var b := Rewards.Granting(old(View()), Key(account, today), Claim(account, reward));
                   if ok.credit then
                     && View() == Rewards.Paying(b, |old(payers)|, false, Booking(idOf))
                     && r == if account in old(repo.wallets) then Ok(reward) else Err(NoWallet)
                   else View() == Rewards.WithStage(b, |old(payers)|, Lost) && r == Err(Unavailable)
    {
      streak := 0;
      if !ok.lookup {
        return Err(Unavailable), streak;
      }
      if Key(account, today) in checkins {
        return Err(Duplicate), streak;
      }
      if !ok.list {
        return Err(Unavailable), streak;
      }
      PrevDayCounts(today);
      var count := CountConsecutive(list, DaysOf(checkins, account), PrevDay(today));
      streak := count;
      count := count + 1;
      var lb := CalculateReward(count);
      var reward := Units(lb);
      if !ok.insert {
        return Err(Unavailable), streak;
      }
      checkins := checkins[Key(account, today) := Claim(account, reward)];
      payers := payers + [Payer(Key(account, today), Claim(account, reward), Holding)];
      ghost var i := |payers| - 1;
      if !ok.credit {
        payers := payers[i := payers[i].(stage := Lost)];
        return Err(Unavailable), streak;
      }
      var tx := repo.Credit(account, reward, CHECKIN_KIND, Ref(CHECKIN_REF, idOf(Key(account, today))), "", "");
      if tx.Err? {
        payers := payers[i := payers[i].(stage := Lost)];
        return Err(tx.error), streak;
      }
      payers := payers[i := payers[i].(stage := Paid)];
      r := Ok(reward);
    }
  }

  /**
   * However check-ins and crashes interleave, as no two records share an id: the ledger holds one
   * row for an account and day if that check-in got through, otherwise none, and the money adds up.
   */
  lemma {:induction false} CheckinsConserved(steps: seq<Rewards.Step<Key>>, idOf: Key -> string, key: Key)
    requires Rewards.Foreign(steps, CHECKIN_REF)
    requires forall k | k in Rewards.Run(steps, Booking(idOf)).granted && idOf(k) == idOf(key) :: k == key
    ensures var b := Rewards.Run(steps, Booking(idOf));
            && Sum(b.book.rows, Selected(CHECKIN_REF, HasId(idOf(key)))) == (if key in PaidKeys(b.payers) then 1 else 0)
            && Sum(b.book.rows, AmountUnder(CHECKIN_REF)) + Sum(b.payers, AmountAt(Holding)) + Sum(b.payers, AmountAt(Lost))
                 == Total(Amounts(b.granted))
  {
    Rewards.RewardPaidOnce(steps, Booking(idOf), key, HasId(idOf(key)));
    Rewards.RewardMoneyConserved(steps, Booking(idOf));
  }

  /** With a wallet, a recorded check-in is credited by one row that references its record. */
  lemma CheckinPays(account: int, date: Date, units: int, idOf: Key -> string)
    ensures var key := Key(account, date);
            var steps := [Rewards.Other(OpenWallet(account)), Rewards.Grant(key, Claim(account, units)), Rewards.Pay(0, false)];
            Rewards.Run(steps, Booking(idOf)).book.rows == [Row(account, "checkin_reward", units, units, "", Ref("checkin", idOf(key)), "")]
  {
    var key, style := Key(account, date), Booking(idOf);
    var e1, e2, e3: Rewards.Step<Key> := Rewards.Other(OpenWallet(account)), Rewards.Grant(key, Claim(account, units)), Rewards.Pay(0, false);
    Rewards.RunSnoc([], e1, style);
    Rewards.RunSnoc([e1], e2, style);
    Rewards.RunSnoc([e1, e2], e3, style);
    assert [] + [e1] == [e1] && [e1] + [e2] == [e1, e2] && [e1, e2] + [e3] == [e1, e2, e3];
    var book := Book(map[account := Wallet(0, 0, 0)], [], map[]);
    assert Rewards.Run([e1], style) == Rewards.Bank(book, map[], []);
    var b2 := Rewards.Bank(book, map[key := Claim(account, units)], [Payer(key, Claim(account, units), Holding)]);
    assert Rewards.Run([e1, e2], style) == b2;
    HeldPays(b2, key, account, units, idOf);
  }

  lemma HeldPays(b: Bank, key: Key, account: int, units: int, idOf: Key -> string)
    requires b.payers == [Payer(key, Claim(account, units), Holding)] && account in b.book.wallets && b.book.rows == []
    ensures Rewards.Next(b, Rewards.Pay(0, false), Booking(idOf)).book.rows
         == [Row(account, "checkin_reward", units, b.book.wallets[account].balance + units, "", Ref("checkin", idOf(key)), "")]
  {
  }

  /** Every check-in row credits the account and reward of a recorded and paid check-in. */
  lemma {:induction false} CheckinRowsMatch(steps: seq<Rewards.Step<Key>>, idOf: Key -> string, j: nat) returns (key: Key)
    requires Rewards.Foreign(steps, CHECKIN_REF)
    requires j < |Rewards.Run(steps, Booking(idOf)).book.rows|
    requires Rewards.Run(steps, Booking(idOf)).book.rows[j].ref.kind == CHECKIN_REF
    ensures var b := Rewards.Run(steps, Booking(idOf));
            && key in b.granted && key in PaidKeys(b.payers) && b.book.rows[j].ref.id == idOf(key)
            && Claim(b.book.rows[j].account, b.book.rows[j].amount) == b.granted[key]
  {
    key := Rewards.RewardRowsMatch(steps, Booking(idOf), j);
  }
}
