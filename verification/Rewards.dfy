/**
 * Rewards under a UNIQUE constraint: insert a record, which succeeds once per key, then credit the
 * wallet in a second transaction. Check-ins and referral rewards work this way.
 */
module Rewards {
  import opened Base
  import opened Sums
  import opened Ledger
  import opened Payout

  /** granted: the records inserted; payers: the calls whose insert went through. */
  datatype Bank<K> = Bank(book: Book, granted: map<K, Claim>, payers: seq<Payer<K>>)

  datatype Step<K> =
    | Grant(key: K, claim: Claim)
    | Pay(i: nat, openWallet: bool)   // openWallet: create the wallet first if it is missing
    | Drop(i: nat)
    | Idle                            // a call that stops before its insert
    | Other(op: Op)

  function NewBank<K>(): Bank<K> {
    Bank(EMPTY, map[], [])
  }

  function WithStage<K>(b: Bank<K>, i: nat, stage: Stage): Bank<K>
    requires i < |b.payers|
  {
    b.(payers := b.payers[i := b.payers[i].(stage := stage)])
  }

  /** Insert the record; a duplicate is skipped. */
  function Granting<K(==)>(b: Bank<K>, key: K, claim: Claim): Bank<K> {
    if key in b.granted then b
    else b.(granted := b.granted[key := claim], payers := b.payers + [Payer(key, claim, Holding)])
  }

  function Paying<K>(b: Bank<K>, i: nat, openWallet: bool, style: Style<K>): Bank<K> {
    if i >= |b.payers| || b.payers[i].stage != Holding then b
    else
      var p := b.payers[i];
      var book := if openWallet then Opened(b.book, p.claim.account) else b.book;
      match Credited(book, p.claim.account, p.claim.amount, style.kind, Ref(style.refKind, style.refOf(p.key)), "", style.noteOf(p.key))
      case Ok(credited) => WithStage(b, i, Paid).(book := credited)
      case Err(_) => WithStage(b, i, Lost).(book := book)
  }

  function Next<K(==)>(b: Bank<K>, s: Step<K>, style: Style<K>): Bank<K> {
    match s
    case Grant(key, claim) => Granting(b, key, claim)
    case Pay(i, openWallet) => Paying(b, i, openWallet, style)
    case Drop(i) => if i < |b.payers| && b.payers[i].stage == Holding then WithStage(b, i, Lost) else b
    case Idle => b
    case Other(op) => b.(book := Apply(b.book, op))
  }

  function Run<K(==)>(steps: seq<Step<K>>, style: Style<K>): Bank<K> {
    if steps == [] then NewBank() else Next(Run(steps[..|steps| - 1], style), steps[|steps| - 1], style)
  }

  lemma RunSnoc<K>(steps: seq<Step<K>>, s: Step<K>, style: Style<K>)
    ensures Run(steps + [s], style) == Next(Run(steps, style), s, style)
  {
    assert (steps + [s])[..|steps|] == steps;
  }

  /** No other caller writes ledger rows with this reference kind. */
  predicate Foreign<K>(steps: seq<Step<K>>, refKind: string) {
    forall i :: 0 <= i < |steps| && steps[i].Other? ==> KeepsRef(steps[i].op, refKind)
  }

  /** Each record has one payer, and the ledger shows, each once, the receipts of the payers that have paid. */
  ghost predicate Inv<K(!new)>(b: Bank<K>, style: Style<K>) {
    && OnePayerEach(b.granted, b.payers)
    && Booked(b.book.rows, b.payers, style)
  }

  lemma StagedKeeps<K(!new)>(b: Bank<K>, i: nat, book: Book, style: Style<K>)
    requires Inv(b, style) && i < |b.payers| && b.payers[i].stage == Holding && book.rows == b.book.rows
    ensures Inv(WithStage(b, i, Lost).(book := book), style)
  {
    StageKeeps(b.granted, b.payers, i, Lost);
    StageKeepsBooked(b.book.rows, b.payers, i, Lost, style);
  }

  lemma PayKeeps<K(!new)>(b: Bank<K>, i: nat, openWallet: bool, style: Style<K>)
    requires Inv(b, style)
    ensures Inv(Paying(b, i, openWallet, style), style)
  {
    if i < |b.payers| && b.payers[i].stage == Holding {
      var p := b.payers[i];
      var book := if openWallet then Opened(b.book, p.claim.account) else b.book;
      match Credited(book, p.claim.account, p.claim.amount, style.kind, Ref(style.refKind, style.refOf(p.key)), "", style.noteOf(p.key))
      case Err(_) => StagedKeeps(b, i, book, style);
      case Ok(credited) =>
        StageKeeps(b.granted, b.payers, i, Paid);
        PayKeepsBooked(b.book.rows, credited.rows[|b.book.rows|], b.payers, i, style);
    }
  }

  /** With the wallet created first, the credit goes through. */
  lemma OpenedPays<K>(b: Bank<K>, i: nat, style: Style<K>)
    requires i < |b.payers| && b.payers[i].stage == Holding
    ensures Paying(b, i, true, style).granted == b.granted
    ensures Paying(b, i, true, style).payers == b.payers[i := b.payers[i].(stage := Paid)]
  {
  }

  lemma GrantKeeps<K(!new)>(b: Bank<K>, key: K, claim: Claim, style: Style<K>)
    requires Inv(b, style)
    ensures Inv(Granting(b, key, claim), style)
  {
    if key !in b.granted {
      ClaimKeeps(b.granted, b.payers, Payer(key, claim, Holding));
      ClaimKeepsBooked(b.book.rows, b.payers, Payer(key, claim, Holding), style);
    }
  }

  lemma NextKeeps<K(!new)>(b: Bank<K>, s: Step<K>, style: Style<K>)
    requires Inv(b, style) && (s.Other? ==> KeepsRef(s.op, style.refKind))
    ensures Inv(Next(b, s, style), style)
  {
    match s
    case Grant(key, claim) => GrantKeeps(b, key, claim, style);
    case Pay(i, openWallet) => PayKeeps(b, i, openWallet, style);
    case Drop(i) =>
      if i < |b.payers| && b.payers[i].stage == Holding { StagedKeeps(b, i, b.book, style); }
    case Idle =>
    case Other(op) => ForeignKeepsBooked(b.book, op, b.payers, style);
  }

  lemma {:induction false} RunKeeps<K(!new)>(steps: seq<Step<K>>, style: Style<K>)
    requires Foreign(steps, style.refKind)
    ensures Inv(Run(steps, style), style)
  {
    if steps != [] {
      RunKeeps(steps[..|steps| - 1], style);
      NextKeeps(Run(steps[..|steps| - 1], style), steps[|steps| - 1], style);
    }
  }

  /**
   * However calls and crashes interleave: where a condition on ledger rows singles out the receipt of one
   * record, exactly one row meets it if that record has been paid, and none otherwise.
   */
  lemma {:induction false} RewardPaidOnce<K(!new)>(steps: seq<Step<K>>, style: Style<K>, key: K, sel: Slip -> bool)
    requires Foreign(steps, style.refKind)
    requires forall k | k in Run(steps, style).granted :: sel(Receipt(style, k, Run(steps, style).granted[k])) <==> k == key
    ensures var b := Run(steps, style);
            Sum(b.book.rows, Selected(style.refKind, sel)) == if key in PaidKeys(b.payers) then 1 else 0
  {
    RunKeeps(steps, style);
    var b := Run(steps, style);
    if key in b.granted {
      var i :| 0 <= i < |b.payers| && b.payers[i].key == key;
      forall j | 0 <= j < |b.payers|
        ensures sel(Receipt(style, b.payers[j].key, b.payers[j].claim)) <==> j == i
      {
        var k := b.payers[j].key;
        assert k in b.granted && b.granted[k] == b.payers[j].claim;
        assert k == key <==> j == i;
      }
      OneReceipt(b.book.rows, b.payers, style, sel, i);
    } else {
      NoReceipt(b.book.rows, b.payers, style, sel);
    }
  }

  /** A record is there exactly if some call of the run inserted it, and it says what the first of those asked for. */
  lemma {:induction false} RecordedIff<K(!new)>(steps: seq<Step<K>>, style: Style<K>, key: K)
    ensures key in Run(steps, style).granted <==> exists i :: 0 <= i < |steps| && steps[i].Grant? && steps[i].key == key
    ensures forall i | 0 <= i < |steps| && steps[i].Grant? && steps[i].key == key
                       && (forall j :: 0 <= j < i ==> !(steps[j].Grant? && steps[j].key == key)) ::
              key in Run(steps, style).granted && Run(steps, style).granted[key] == steps[i].claim
  {
    if steps != [] {
      var init, s := steps[..|steps| - 1], steps[|steps| - 1];
      RecordedIff(init, style, key);
      assert forall i :: 0 <= i < |init| ==> init[i] == steps[i];
    }
  }

  /** A call that holds its record and goes on to pay: it pays exactly if the wallet is there, or is created first. */
  lemma PaysIff<K>(b: Bank<K>, i: nat, openWallet: bool, style: Style<K>)
    requires i < |b.payers| && b.payers[i].stage == Holding
    ensures var b', p := Next(b, Pay(i, openWallet), style), b.payers[i];
            && b'.granted == b.granted
            && if openWallet || p.claim.account in b.book.wallets then
                 && b'.payers == b.payers[i := p.(stage := Paid)]
                 && |b'.book.rows| == |b.book.rows| + 1 && b'.book.rows[..|b.book.rows|] == b.book.rows
                 && SlipOf(b'.book.rows[|b.book.rows|]) == Receipt(style, p.key, p.claim)
                 && forall a :: Balance(b'.book, a) == Balance(b.book, a) + if a == p.claim.account then p.claim.amount else 0
               else b'.payers == b.payers[i := p.(stage := Lost)] && b'.book == b.book
  {
  }

  lemma {:induction false} LostStays<K(!new)>(steps: seq<Step<K>>, later: seq<Step<K>>, style: Style<K>, i: nat)
    requires i < |Run(steps, style).payers| && Run(steps, style).payers[i].stage == Lost
    ensures i < |Run(steps + later, style).payers| && Run(steps + later, style).payers[i] == Run(steps, style).payers[i]
  {
    if later == [] {
      assert steps + later == steps;
    } else {
      assert (steps + later)[..|steps + later| - 1] == steps + later[..|later| - 1];
      LostStays(steps, later[..|later| - 1], style, i);
    }
  }

  /** A call that dies before its credit loses it for good: the record stays, and no later run pays it. */
  lemma {:induction false} LostRewardStaysLost<K(!new)>(steps: seq<Step<K>>, i: nat, later: seq<Step<K>>, style: Style<K>)
    requires Foreign(steps, style.refKind) && Foreign(later, style.refKind)
    requires i < |Run(steps, style).payers| && Run(steps, style).payers[i].stage == Holding
    ensures var key, b := Run(steps, style).payers[i].key, Run(steps + [Drop(i)] + later, style);
            key in b.granted && key !in PaidKeys(b.payers)
  {
    RunSnoc(steps, Drop(i), style);
    LostStays(steps + [Drop(i)], later, style, i);
    RunKeeps(steps + [Drop(i)] + later, style);
  }

  /** Every ledger row under the reference kind is the receipt of a record that has been paid. */
  lemma {:induction false} RewardRowsMatch<K(!new)>(steps: seq<Step<K>>, style: Style<K>, j: nat) returns (key: K)
    requires Foreign(steps, style.refKind)
    requires j < |Run(steps, style).book.rows| && Run(steps, style).book.rows[j].ref.kind == style.refKind
    ensures var b := Run(steps, style);
            key in b.granted && key in PaidKeys(b.payers) && SlipOf(b.book.rows[j]) == Receipt(style, key, b.granted[key])
  {
    RunKeeps(steps, style);
    var b := Run(steps, style);
    var i := RowHasPayer(b.book.rows, b.payers, style, j);
    key := b.payers[i].key;
  }

  /** What the ledger shows credited, plus what was recorded and not yet or never credited, is what was recorded. */
  lemma {:induction false} RewardMoneyConserved<K(!new)>(steps: seq<Step<K>>, style: Style<K>)
    requires Foreign(steps, style.refKind)
    ensures var b := Run(steps, style);
            Sum(b.book.rows, AmountUnder(style.refKind)) + Sum(b.payers, AmountAt(Holding)) + Sum(b.payers, AmountAt(Lost))
              == Total(Amounts(b.granted))
  {
    RunKeeps(steps, style);
    var b := Run(steps, style);
    BookedTotal(b.book.rows, b.payers, style);
    ClaimsAddUp(b.granted, b.payers);
  }

  /** Rewards and everything else keep the ledger explaining its balances. */
  lemma {:induction false} LedgerStaysExplained<K(!new)>(steps: seq<Step<K>>, style: Style<K>)
    ensures Explained(Run(steps, style).book)
  {
    if steps == [] {
      LedgerExplainsBalances([]);
    } else {
      var b, s := Run(steps[..|steps| - 1], style), steps[|steps| - 1];
      LedgerStaysExplained(steps[..|steps| - 1], style);
      if s.Other? {
        ExplainedKept(b.book, s.op);
      } else if s.Pay? && s.i < |b.payers| {
        var p := b.payers[s.i];
        ExplainedKept(b.book, OpenWallet(p.claim.account));
        var book := if s.openWallet then Opened(b.book, p.claim.account) else b.book;
        ExplainedKept(book, Credit(p.claim.account, p.claim.amount, style.kind, Ref(style.refKind, style.refOf(p.key)), "", style.noteOf(p.key)));
      }
    }
  }
}
