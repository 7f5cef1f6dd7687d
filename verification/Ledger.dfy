/**
 * Wallets, the append-only ledger and redemption codes.
 * Money is an integer count of 0.0001 LB, the precision of the balance column.
 */
module Ledger {
  import opened Base
  import opened Sums

  const TOPUP := "topup"
  const REDEMPTION := "redemption"
  const CODE_REF := "redemption_code"

  /** One hundredth LB, the precision of the lifetime columns. */
  const CENT := 100

  datatype Wallet = Wallet(balance: int, lifetimeTopup: int, lifetimeSpend: int)

  datatype Ref = Ref(kind: string, id: string)

  /** note is the row's description. */
  datatype Row = Row(account: int, kind: string, amount: int, balanceAfter: int, product: string, ref: Ref, note: string)

  /** What a row says about the movement it records. */
  datatype Slip = Slip(account: int, amount: int, kind: string, ref: Ref, note: string)

  function SlipOf(r: Row): Slip {
    Slip(r.account, r.amount, r.kind, r.ref, r.note)
  }

  datatype Code = Code(product: string, rewardType: string, rewardValue: int, maxUses: int, usedCount: int,
                       expiresAt: Option<int>)

  datatype Book = Book(wallets: map<int, Wallet>, rows: seq<Row>, codes: map<string, Code>)

  const EMPTY := Book(map[], [], map[])

  /** Rounding of a numeric column to whole cents: half away from zero. */
  function RoundCents(x: int): int {
    if x >= 0 then (x + CENT / 2) / CENT * CENT else -((-x + CENT / 2) / CENT * CENT)
  }

  // ----- What each transaction does to the book -----

  function Opened(b: Book, account: int): Book {
    if account in b.wallets then b else b.(wallets := b.wallets[account := Wallet(0, 0, 0)])
  }

  function Issued(b: Book, id: string, code: Code): Book {
    if id in b.codes then b else b.(codes := b.codes[id := code.(usedCount := 0)])
  }

  function Credited(b: Book, account: int, amount: int, kind: string, ref: Ref, product: string, note: string): Result<Book> {
    if account !in b.wallets then Err(NoWallet)
    else
      var w := b.wallets[account];
      var topup := if kind == TOPUP then RoundCents(w.lifetimeTopup + amount) else w.lifetimeTopup;
      Ok(b.(wallets := b.wallets[account := Wallet(w.balance + amount, topup, w.lifetimeSpend)],
            rows := b.rows + [Row(account, kind, amount, w.balance + amount, product, ref, note)]))
  }

  function Debited(b: Book, account: int, amount: int, kind: string, ref: Ref, product: string, note: string): Result<Book> {
    if account !in b.wallets then Err(NoWallet)
    else
      var w := b.wallets[account];
      if w.balance < amount then Err(Insufficient)
      else
        Ok(b.(wallets := b.wallets[account := Wallet(w.balance - amount, w.lifetimeTopup, RoundCents(w.lifetimeSpend + amount))],
              rows := b.rows + [Row(account, kind, -amount, w.balance - amount, product, ref, note)]))
  }

  function Redeemed(b: Book, account: int, id: string, now: int): Result<Book> {
    if id !in b.codes then Err(InvalidCode)
    else
      var c := b.codes[id];
      if c.expiresAt.Some? && c.expiresAt.value < now then Err(CodeExpired)
      else if c.usedCount >= c.maxUses then Err(CodeExhausted)
      else if c.rewardType != "credits" then Err(CodeUnsupported)
      else if account !in b.wallets then Err(NoWallet)
      else
        var w := b.wallets[account];
        var balance := w.balance + c.rewardValue;
        Ok(Book(b.wallets[account := w.(balance := balance)],
                b.rows + [Row(account, REDEMPTION, c.rewardValue, balance, c.product, Ref(CODE_REF, id), "Redeem code " + id)],
                b.codes[id := c.(usedCount := c.usedCount + 1)]))
  }

  /** The store behind the wallet service; every method is one database transaction. */
  class WalletRepo {
    var wallets: map<int, Wallet>
    var rows: seq<Row>
    var codes: map<string, Code>

    ghost function Contents(): Book
      reads this
    {
      Book(wallets, rows, codes)
    }

    constructor ()
      ensures Contents() == EMPTY
    {
      wallets, rows, codes := map[], [], map[];
    }

    method GetOrCreate(account: int) returns (w: Wallet)
      modifies this
      ensures Contents() == Opened(old(Contents()), account)
      ensures account in wallets && w == wallets[account]
    {
      if account !in wallets {
        wallets := wallets[account := Wallet(0, 0, 0)];
      }
      w := wallets[account];
    }

    method Credit(account: int, amount: int, kind: string, ref: Ref, product: string, note: string) returns (r: Result<Row>)
      modifies this
      ensures match Credited(old(Contents()), account, amount, kind, ref, product, note)
              case Ok(b) => Contents() == b && r == Ok(b.rows[|b.rows| - 1])
              case Err(e) => Contents() == old(Contents()) && r == Err(e)
    {
      if account !in wallets {
        return Err(NoWallet);
      }
      var w := wallets[account];
      w := w.(balance := w.balance + amount);
      if kind == TOPUP {
        w := w.(lifetimeTopup := RoundCents(w.lifetimeTopup + amount));
      }
      wallets := wallets[account := w];
      var tx := Row(account, kind, amount, wallets[account].balance, product, ref, note);
      rows := rows + [tx];
      r := Ok(tx);
    }

    method Debit(account: int, amount: int, kind: string, ref: Ref, product: string, note: string) returns (r: Result<Row>)
      modifies this
      ensures match Debited(old(Contents()), account, amount, kind, ref, product, note)
              case Ok(b) => Contents() == b && r == Ok(b.rows[|b.rows| - 1])
              case Err(e) => Contents() == old(Contents()) && r == Err(e)
    {
      if account !in wallets {
        return Err(NoWallet);
      }
      var w := wallets[account];
      if w.balance < amount {
        return Err(Insufficient);
      }
      w := w.(balance := w.balance - amount, lifetimeSpend := RoundCents(w.lifetimeSpend + amount));
      wallets := wallets[account := w];
      var tx := Row(account, kind, -amount, wallets[account].balance, product, ref, note);
      rows := rows + [tx];
      r := Ok(tx);
    }

    method RedeemCode(account: int, id: string, now: int) returns (r: Result<Row>)
      modifies this
      ensures match Redeemed(old(Contents()), account, id, now)
              case Ok(b) => Contents() == b && r == Ok(b.rows[|b.rows| - 1])
              case Err(e) => Contents() == old(Contents()) && r == Err(e)
    {
      if id !in codes {
        return Err(InvalidCode);
      }
      var rc := codes[id];
      if rc.expiresAt.Some? && rc.expiresAt.value < now {
        return Err(CodeExpired);
      }
      if rc.usedCount >= rc.maxUses {
        return Err(CodeExhausted);
      }
      if rc.rewardType != "credits" {
        return Err(CodeUnsupported);
      }
      if account !in wallets {
        return Err(NoWallet);
      }
      var w := wallets[account];
      wallets := wallets[account := w.(balance := w.balance + rc.rewardValue)];
      var tx := Row(account, REDEMPTION, rc.rewardValue, wallets[account].balance, rc.product, Ref(CODE_REF, id), "Redeem code " + id);
      rows := rows + [tx];
      codes := codes[id := rc.(usedCount := rc.usedCount + 1)];
      r := Ok(tx);
    }
  }

  // ----- What a transaction promises its caller -----

  /** r is x rounded to hundredths of LB, half away from zero. */
  predicate NearestCent(x: int, r: int) {
    && r % 100 == 0 && -50 <= r - x <= 50
    && (r - x == 50 ==> x >= 0) && (r - x == -50 ==> x < 0)
  }

  lemma RoundsToNearest(x: int)
    ensures NearestCent(x, RoundCents(x))
  {
  }

  /** The book is as before, save for one wallet and one row more. */
  ghost predicate OneMovement(b: Book, b': Book, account: int, w: Wallet, row: Row) {
    b'.rows == b.rows + [row] && account in b.wallets && b'.wallets == b.wallets[account := w] && row.balanceAfter == w.balance
  }

  /**
   * A credit goes through exactly if the account has a wallet; it adds the amount, leaves one row that says so, and
   * moves no lifetime column but that of topups.
   */
  lemma CreditEffect(b: Book, account: int, amount: int, kind: string, ref: Ref, product: string, note: string)
    ensures var r := Credited(b, account, amount, kind, ref, product, note);
            if account !in b.wallets then r == Err(NoWallet)
            else
              var w := b.wallets[account];
              && r.Ok? && account in r.value.wallets && r.value.codes == b.codes
              && var w' := r.value.wallets[account];
                 && OneMovement(b, r.value, account, w', Row(account, kind, amount, w.balance + amount, product, ref, note))
                 && w'.lifetimeSpend == w.lifetimeSpend
                 && if kind == "topup" then NearestCent(w.lifetimeTopup + amount, w'.lifetimeTopup) else w'.lifetimeTopup == w.lifetimeTopup
  {
    if account in b.wallets {
      RoundsToNearest(b.wallets[account].lifetimeTopup + amount);
    }
  }

  /** A debit goes through exactly if the wallet covers it; it takes the amount, and leaves one row with the amount negated. */
  lemma DebitEffect(b: Book, account: int, amount: int, kind: string, ref: Ref, product: string, note: string)
    ensures var r := Debited(b, account, amount, kind, ref, product, note);
            if account !in b.wallets then r == Err(NoWallet)
            else if b.wallets[account].balance < amount then r == Err(Insufficient)
            else
              var w := b.wallets[account];
              && r.Ok? && account in r.value.wallets && r.value.codes == b.codes
              && var w' := r.value.wallets[account];
                 && OneMovement(b, r.value, account, w', Row(account, kind, -amount, w.balance - amount, product, ref, note))
                 && w'.lifetimeTopup == w.lifetimeTopup && NearestCent(w.lifetimeSpend + amount, w'.lifetimeSpend)
  {
    if account in b.wallets {
      RoundsToNearest(b.wallets[account].lifetimeSpend + amount);
    }
  }

  /**
   * A redemption changes the book exactly if the code exists, has not expired, has a use left and pays credits, and the
   * account has a wallet. Then it pays the code's value and uses the code once; otherwise the first failing condition
   * is the error.
   */
  lemma RedeemIff(b: Book, account: int, id: string, now: int)
    ensures var r := Redeemed(b, account, id, now);
            if id !in b.codes then r == Err(InvalidCode)
            else
              var c := b.codes[id];
              if c.expiresAt.Some? && c.expiresAt.value < now then r == Err(CodeExpired)
              else if c.maxUses <= c.usedCount then r == Err(CodeExhausted)
              else if c.rewardType != "credits" then r == Err(CodeUnsupported)
              else if account !in b.wallets then r == Err(NoWallet)
              else
                var w := b.wallets[account].(balance := b.wallets[account].balance + c.rewardValue);
                && r.Ok? && r.value.codes == b.codes[id := c.(usedCount := c.usedCount + 1)]
                && OneMovement(b, r.value, account, w, Row(account, "redemption", c.rewardValue, w.balance, c.product,
                                                           Ref("redemption_code", id), "Redeem code " + id))
    ensures Apply(b, Redeem(account, id, now)) != b <==>
            && id in b.codes && account in b.wallets && b.codes[id].rewardType == "credits"
            && (b.codes[id].expiresAt.None? || now <= b.codes[id].expiresAt.value)
            && b.codes[id].usedCount < b.codes[id].maxUses
  {
  }

  /** Opening a wallet or issuing a code adds an empty one, and never touches one that is there. */
  lemma OpenAndIssue(b: Book, account: int, id: string, code: Code)
    ensures var b' := Apply(b, OpenWallet(account));
            && b'.rows == b.rows && b'.codes == b.codes && account in b'.wallets
            && b'.wallets == if account in b.wallets then b.wallets else b.wallets[account := Wallet(0, 0, 0)]
    ensures var b' := Apply(b, IssueCode(id, code));
            && b'.rows == b.rows && b'.wallets == b.wallets && id in b'.codes
            && b'.codes == if id in b.codes then b.codes else b.codes[id := code.(usedCount := 0)]
  {
  }

  // ----- Runs -----

  datatype Op =
    | OpenWallet(account: int)
    | IssueCode(id: string, code: Code)
    | Credit(account: int, amount: int, kind: string, ref: Ref, product: string, note: string)
    | Debit(account: int, amount: int, kind: string, ref: Ref, product: string, note: string)
    | Redeem(account: int, id: string, now: int)

  function OrElse(r: Result<Book>, b: Book): Book {
    if r.Ok? then r.value else b
  }

  /** A transaction that fails is rolled back. */
  function Apply(b: Book, op: Op): Book {
    match op
    case OpenWallet(a) => Opened(b, a)
    case IssueCode(id, c) => Issued(b, id, c)
    case Credit(a, amount, kind, ref, product, note) => OrElse(Credited(b, a, amount, kind, ref, product, note), b)
    case Debit(a, amount, kind, ref, product, note) => OrElse(Debited(b, a, amount, kind, ref, product, note), b)
    case Redeem(a, id, now) => OrElse(Redeemed(b, a, id, now), b)
  }

  function Replay(ops: seq<Op>): Book {
    if ops == [] then EMPTY else Apply(Replay(ops[..|ops| - 1]), ops[|ops| - 1])
  }

  // ----- What the ledger says -----

  function Balance(b: Book, account: int): int {
    if account in b.wallets then b.wallets[account].balance else 0
  }

  ghost function AmountFor(account: int): Row -> int {
    (r: Row) => if r.account == account then r.amount else 0
  }

  ghost function TopupFor(account: int): Row -> int {
    (r: Row) => if r.account == account && r.kind == TOPUP && r.amount > 0 then r.amount else 0
  }

  ghost function SpendFor(account: int): Row -> int {
    (r: Row) => if r.account == account && r.amount < 0 then -r.amount else 0
  }

  /** Counts the rows carrying a reference. */
  ghost function Mentions(ref: Ref): Row -> int {
    (r: Row) => if r.ref == ref then 1 else 0
  }

  /** The rows of one account account for its balance, and each row for the balance it left behind. */
  ghost predicate Explained(b: Book) {
    && (forall a :: Balance(b, a) == Sum(b.rows, AmountFor(a)))
    && (forall i :: 0 <= i < |b.rows| ==> b.rows[i].balanceAfter == Sum(b.rows[..i + 1], AmountFor(b.rows[i].account)))
  }

  function LifetimeTopup(b: Book, account: int): int {
    if account in b.wallets then b.wallets[account].lifetimeTopup else 0
  }

  function LifetimeSpend(b: Book, account: int): int {
    if account in b.wallets then b.wallets[account].lifetimeSpend else 0
  }

  /** The lifetime_topup column of an account sums up the rows it counts. */
  ghost predicate TopupMatches(b: Book, account: int) {
    LifetimeTopup(b, account) == Sum(b.rows, TopupFor(account))
  }

  /** The lifetime_spend column of an account sums up the rows it counts. */
  ghost predicate SpendMatches(b: Book, account: int) {
    LifetimeSpend(b, account) == Sum(b.rows, SpendFor(account))
  }

  ghost predicate Solvent(b: Book) {
    && (forall a :: Balance(b, a) >= 0)
    && (forall i :: 0 <= i < |b.rows| ==> b.rows[i].balanceAfter >= 0)
    && (forall id :: id in b.codes ==> b.codes[id].rewardValue >= 0)
  }

  predicate NonNegative(op: Op) {
    match op
    case OpenWallet(_) => true
    case IssueCode(_, c) => c.rewardValue >= 0
    case Credit(_, amount, _, _, _, _) => amount >= 0
    case Debit(_, amount, _, _, _, _) => amount >= 0
    case Redeem(_, _, _) => true
  }

  /** Topups credit DECIMAL(10,2) order amounts. */
  predicate WholeTopup(op: Op) {
    op.Credit? && op.kind == TOPUP ==> op.amount % CENT == 0
  }

  /** Renewals debit DECIMAL(10,2) prices; the internal debit calls accept any positive amount. */
  predicate WholeDebit(op: Op) {
    op.Debit? ==> op.amount % CENT == 0
  }

  /** Only RedeemCode writes rows that reference a redemption code. */
  predicate KeepsRef(op: Op, kind: string) {
    match op
    case Credit(_, _, _, ref, _, _) => ref.kind != kind
    case Debit(_, _, _, ref, _, _) => ref.kind != kind
    case Redeem(_, _, _) => kind != CODE_REF
    case _ => true
  }

  /** Every operation either leaves rows alone or appends one row for the account it works on. */
  lemma ApplyShape(b: Book, op: Op) returns (row: Row)
    ensures Apply(b, op).rows == b.rows || Apply(b, op).rows == b.rows + [row]
    ensures Apply(b, op).rows == b.rows ==> forall a :: Balance(Apply(b, op), a) == Balance(b, a)
    ensures Apply(b, op).rows == b.rows + [row] ==>
              && row.balanceAfter == Balance(Apply(b, op), row.account)
              && (forall a :: Balance(Apply(b, op), a) == Balance(b, a) + AmountFor(a)(row))
  {
    var b' := Apply(b, op);
    row := if b'.rows == [] then Row(0, "", 0, 0, "", Ref("", ""), "") else b'.rows[|b'.rows| - 1];
  }

  lemma ExplainedKept(b: Book, op: Op)
    requires Explained(b)
    ensures Explained(Apply(b, op))
  {
    var b' := Apply(b, op);
    var row := ApplyShape(b, op);
    if b'.rows != b.rows {
      forall a
        ensures Balance(b', a) == Sum(b'.rows, AmountFor(a))
      {
        SumAppend(b.rows, row, AmountFor(a));
      }
      forall i | 0 <= i < |b'.rows|
        ensures b'.rows[i].balanceAfter == Sum(b'.rows[..i + 1], AmountFor(b'.rows[i].account))
      {
        if i < |b.rows| {
          assert b'.rows[..i + 1] == b.rows[..i + 1];
        } else {
          assert b'.rows[..i + 1] == b'.rows;
        }
      }
    }
  }

  /** Whatever amounts callers pass, balances and balance_after columns are the ledger's prefix sums. */
  lemma {:induction false} LedgerExplainsBalances(ops: seq<Op>)
    ensures Explained(Replay(ops))
  {
    if ops != [] {
      LedgerExplainsBalances(ops[..|ops| - 1]);
      ExplainedKept(Replay(ops[..|ops| - 1]), ops[|ops| - 1]);
    }
  }

  lemma SolventKept(b: Book, op: Op)
    requires Solvent(b) && NonNegative(op)
    ensures Solvent(Apply(b, op))
  {
    var b' := Apply(b, op);
    var row := ApplyShape(b, op);
    match op
    case OpenWallet(_) =>
    case IssueCode(_, _) =>
    case Credit(_, amount, _, _, _, _) =>
    case Debit(_, amount, _, _, _, _) =>
    case Redeem(a, id, now) =>
      if Redeemed(b, a, id, now).Ok? {
        assert b.codes[id].rewardValue >= 0;
      }
  }

  /** With non-negative amounts no wallet is ever overdrawn, and no row ever showed a negative balance. */
  lemma {:induction false} NeverOverdrawn(ops: seq<Op>)
    requires forall i :: 0 <= i < |ops| ==> NonNegative(ops[i])
    ensures Solvent(Replay(ops))
  {
    if ops != [] {
      NeverOverdrawn(ops[..|ops| - 1]);
      SolventKept(Replay(ops[..|ops| - 1]), ops[|ops| - 1]);
    }
  }

  lemma WholeSum(x: int, y: int)
    requires x % CENT == 0 && y % CENT == 0
    ensures RoundCents(x + y) == x + y && (x + y) % CENT == 0
  {
  }

  lemma TopupMoves(b: Book, op: Op, row: Row, account: int)
    requires LifetimeTopup(b, account) % CENT == 0 && Solvent(b) && NonNegative(op) && WholeTopup(op)
    requires Apply(b, op).rows == b.rows + [row]
    ensures LifetimeTopup(Apply(b, op), account) % CENT == 0
    ensures LifetimeTopup(Apply(b, op), account) == LifetimeTopup(b, account) + TopupFor(account)(row)
  {
    assert Apply(b, op).rows[|b.rows|] == row;
    if op.Credit? && op.account == account && op.kind == TOPUP {
      WholeSum(LifetimeTopup(b, account), op.amount);
    }
  }

  lemma SpendMoves(b: Book, op: Op, row: Row, account: int)
    requires LifetimeSpend(b, account) % CENT == 0 && Solvent(b) && NonNegative(op) && WholeDebit(op)
    requires Apply(b, op).rows == b.rows + [row]
    ensures LifetimeSpend(Apply(b, op), account) % CENT == 0
    ensures LifetimeSpend(Apply(b, op), account) == LifetimeSpend(b, account) + SpendFor(account)(row)
  {
    assert Apply(b, op).rows[|b.rows|] == row;
    match op
    case Debit(a, amount, _, _, _, _) =>
      if a == account { WholeSum(LifetimeSpend(b, a), amount); }
    case Redeem(_, id, _) =>
      assert b.codes[id].rewardValue >= 0;
    case _ =>
  }

  /** Over runs whose topups are whole cents, whatever is debited, lifetime_topup is the sum of the topup credits. */
  lemma {:induction false} LifetimeTopupIsSum(ops: seq<Op>, account: int)
    requires forall i :: 0 <= i < |ops| ==> NonNegative(ops[i]) && WholeTopup(ops[i])
    ensures TopupMatches(Replay(ops), account) && LifetimeTopup(Replay(ops), account) % CENT == 0
  {
    if ops != [] {
      var b, op := Replay(ops[..|ops| - 1]), ops[|ops| - 1];
      LifetimeTopupIsSum(ops[..|ops| - 1], account);
      NeverOverdrawn(ops[..|ops| - 1]);
      var row := ApplyShape(b, op);
      if Apply(b, op).rows != b.rows {
        TopupMoves(b, op, row, account);
        SumAppend(b.rows, row, TopupFor(account));
      }
    }
  }

  /** Over runs whose debits are whole cents, whatever is credited, lifetime_spend is the sum of the debits. */
  lemma {:induction false} LifetimeSpendIsSum(ops: seq<Op>, account: int)
    requires forall i :: 0 <= i < |ops| ==> NonNegative(ops[i]) && WholeDebit(ops[i])
    ensures SpendMatches(Replay(ops), account) && LifetimeSpend(Replay(ops), account) % CENT == 0
  {
    if ops != [] {
      var b, op := Replay(ops[..|ops| - 1]), ops[|ops| - 1];
      LifetimeSpendIsSum(ops[..|ops| - 1], account);
      NeverOverdrawn(ops[..|ops| - 1]);
      var row := ApplyShape(b, op);
      if Apply(b, op).rows != b.rows {
        SpendMoves(b, op, row, account);
        SumAppend(b.rows, row, SpendFor(account));
      }
    }
  }

  /** Whatever the amounts, the columns themselves only ever hold whole cents. */
  lemma {:induction false} ColumnsAreCents(ops: seq<Op>, account: int)
    ensures LifetimeTopup(Replay(ops), account) % CENT == 0 && LifetimeSpend(Replay(ops), account) % CENT == 0
  {
    if ops != [] {
      ColumnsAreCents(ops[..|ops| - 1], account);
      var b := Replay(ops[..|ops| - 1]);
      var op := ops[|ops| - 1];
      if op.Credit? { RoundIsCents(LifetimeTopup(b, op.account) + op.amount); }
      if op.Debit? { RoundIsCents(LifetimeSpend(b, op.account) + op.amount); }
    }
  }

  lemma ReplaySnoc(ops: seq<Op>, op: Op)
    ensures Replay(ops + [op]) == Apply(Replay(ops), op)
  {
    assert (ops + [op])[..|ops|] == ops;
  }

  lemma RoundIsCents(x: int)
    ensures RoundCents(x) % CENT == 0
  {
  }

  lemma TopupMatchesIff(b: Book, b': Book, row: Row, account: int, amount: int)
    requires TopupMatches(b, account) && LifetimeTopup(b, account) % CENT == 0 && amount > 0
    requires row.account == account && row.kind == TOPUP && row.amount == amount && b'.rows == b.rows + [row]
    requires LifetimeTopup(b', account) == RoundCents(LifetimeTopup(b, account) + amount)
    ensures TopupMatches(b', account) <==> amount % CENT == 0
  {
    SumAppend(b.rows, row, TopupFor(account));
    RoundExact(LifetimeTopup(b, account), amount);
  }

  lemma SpendMatchesIff(b: Book, b': Book, row: Row, account: int, amount: int)
    requires SpendMatches(b, account) && LifetimeSpend(b, account) % CENT == 0 && amount > 0
    requires row.account == account && row.amount == -amount && b'.rows == b.rows + [row]
    requires LifetimeSpend(b', account) == RoundCents(LifetimeSpend(b, account) + amount)
    ensures SpendMatches(b', account) <==> amount % CENT == 0
  {
    SumAppend(b.rows, row, SpendFor(account));
    RoundExact(LifetimeSpend(b, account), amount);
  }

  lemma RoundExact(x: int, y: int)
    requires x % CENT == 0
    ensures RoundCents(x + y) == x + y <==> y % CENT == 0
  {
    RoundIsCents(x + y);
  }

  /**
   * The lifetime columns hold fewer decimals than the balance. In any reachable book whose column agrees
   * with its rows, a topup credit keeps it so exactly when the amount is a whole number of cents.
   */
  lemma TopupKeepsLifetimeIff(ops: seq<Op>, account: int, amount: int, ref: Ref, product: string, note: string)
    requires account in Replay(ops).wallets && amount > 0 && TopupMatches(Replay(ops), account)
    ensures TopupMatches(Replay(ops + [Credit(account, amount, TOPUP, ref, product, note)]), account) <==> amount % CENT == 0
  {
    var b, op := Replay(ops), Credit(account, amount, TOPUP, ref, product, note);
    ReplaySnoc(ops, op);
    ColumnsAreCents(ops, account);
    TopupMatchesIff(b, Apply(b, op), Row(account, TOPUP, amount, Balance(b, account) + amount, product, ref, note), account, amount);
  }

  /** Likewise for a debit that goes through and lifetime_spend. */
  lemma DebitKeepsLifetimeIff(ops: seq<Op>, account: int, amount: int, kind: string, ref: Ref, product: string, note: string)
    requires account in Replay(ops).wallets && 0 < amount <= Balance(Replay(ops), account) && SpendMatches(Replay(ops), account)
    ensures SpendMatches(Replay(ops + [Debit(account, amount, kind, ref, product, note)]), account) <==> amount % CENT == 0
  {
    var b, op := Replay(ops), Debit(account, amount, kind, ref, product, note);
    ReplaySnoc(ops, op);
    ColumnsAreCents(ops, account);
    SpendMatchesIff(b, Apply(b, op), Row(account, kind, -amount, Balance(b, account) - amount, product, ref, note), account, amount);
  }

  function Used(b: Book, id: string): int {
    if id in b.codes then b.codes[id].usedCount else 0
  }

  lemma CodeUseMoves(b: Book, op: Op, row: Row, id: string)
    requires op.Redeem? || KeepsRef(op, CODE_REF)
    requires Apply(b, op).rows == b.rows + [row]
    ensures Used(Apply(b, op), id) == Used(b, id) + Mentions(Ref(CODE_REF, id))(row)
    ensures id in b.codes <==> id in Apply(b, op).codes
    ensures id in b.codes ==> Apply(b, op).codes[id].maxUses == b.codes[id].maxUses
    ensures Used(Apply(b, op), id) != Used(b, id) ==> Used(b, id) < b.codes[id].maxUses
  {
    assert Apply(b, op).rows[|b.rows|] == row;
  }

  /** A code is redeemed once per unit of its counter, and never more often than its limit allows. */
  lemma {:induction false} CodesNeverOverused(ops: seq<Op>, id: string)
    requires forall i :: 0 <= i < |ops| ==> ops[i].Redeem? || KeepsRef(ops[i], CODE_REF)
    ensures Sum(Replay(ops).rows, Mentions(Ref(CODE_REF, id))) == Used(Replay(ops), id) >= 0
    ensures Used(Replay(ops), id) > 0 ==> id in Replay(ops).codes && Used(Replay(ops), id) <= Replay(ops).codes[id].maxUses
  {
    if ops != [] {
      var b, op := Replay(ops[..|ops| - 1]), ops[|ops| - 1];
      CodesNeverOverused(ops[..|ops| - 1], id);
      var row := ApplyShape(b, op);
      if Apply(b, op).rows != b.rows {
        CodeUseMoves(b, op, row, id);
        SumAppend(b.rows, row, Mentions(Ref(CODE_REF, id)));
      }
    }
  }

  /**
   * A debit goes through exactly if the wallet can cover it, and crediting back the same amount restores
   * every balance: the compensation used by renewals.
   */
  lemma DebitThenCredit(b: Book, account: int, amount: int, k1: string, k2: string, r1: Ref, r2: Ref, p: string, n1: string, n2: string)
    ensures var debit := Debited(b, account, amount, k1, r1, p, n1);
            && (debit.Ok? <==> account in b.wallets && Balance(b, account) >= amount)
            && (debit.Ok? ==>
                  var credit := Credited(debit.value, account, amount, k2, r2, p, n2);
                  credit.Ok? && forall a :: Balance(credit.value, a) == Balance(b, a))
  {
  }

  /** The code can be redeemed now, leaving aside its use limit. */
  predicate Redeemable(b: Book, account: int, id: string, now: int) {
    && id in b.codes && account in b.wallets
    && b.codes[id].rewardType == "credits"
    && (b.codes[id].expiresAt.Some? ==> now <= b.codes[id].expiresAt.value)
  }

  function RedeemTimes(b: Book, account: int, id: string, now: int, n: nat): Book {
    if n == 0 then b else Apply(RedeemTimes(b, account, id, now, n - 1), Redeem(account, id, now))
  }

  /** However often a redeemable code is tried, it pays its value once per use left, and no more. */
  lemma {:induction false} RedeemPaysUsesLeft(b: Book, account: int, id: string, now: int, n: nat)
    requires Redeemable(b, account, id, now) && b.codes[id].usedCount <= b.codes[id].maxUses
    ensures var b' := RedeemTimes(b, account, id, now, n);
            var left := b.codes[id].maxUses - b.codes[id].usedCount;
            var paid := if n < left then n else left;
            && Redeemable(b', account, id, now)
            && b'.codes[id] == b.codes[id].(usedCount := b.codes[id].usedCount + paid)
            && Balance(b', account) == Balance(b, account) + paid * b.codes[id].rewardValue
            && forall a :: a != account ==> Balance(b', a) == Balance(b, a)
  {
    if n > 0 {
      RedeemPaysUsesLeft(b, account, id, now, n - 1);
      var left := b.codes[id].maxUses - b.codes[id].usedCount;
      if n <= left {
        assert n * b.codes[id].rewardValue == (n - 1) * b.codes[id].rewardValue + b.codes[id].rewardValue;
      }
    }
  }
}
