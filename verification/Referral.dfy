/** Referral rewards: which events are rewarded, with how much, and how often. */
module Referral {
  import opened Base
  import opened Sums
  import opened Ledger
  import opened Payout
  import Rewards
  import Decimal

  const REWARD_KIND := "referral_reward"
  const REFERRAL_REF := "referral_event"

  /** 1 LB in units of the ledger. */
  const LB := 10_000

  const MAX_ROYALTIES := 6

  /** The columns of the unique constraint. */
  datatype Key = Key(referrer: int, referee: int, eventType: string)

  datatype Call =
    | OnSignup(referee: int, referrer: int)
    | OnFirstTopup(referee: int, referrer: int)
    | OnFirstSubscription(referee: int, referrer: int)
    | OnRenewal(referee: int, referrer: int, amount: int, number: int)

  function RoyaltyType(number: int): string {
    "renewal_royalty_" + Decimal.Format(number)
  }

  /** Five percent, rounded to the ledger's precision. */
  function Royalty(amount: int): int {
    (amount * 5 + 50) / 100
  }

  /** The reward a call asks for, if any. */
  function Asked(c: Call): Option<(Key, Claim)> {
    match c
    case OnSignup(referee, referrer) => Some((Key(referrer, referee, "signup"), Claim(referrer, 5 * LB)))
    case OnFirstTopup(referee, referrer) => Some((Key(referrer, referee, "first_topup"), Claim(referrer, 10 * LB)))
    case OnFirstSubscription(referee, referrer) => Some((Key(referrer, referee, "first_subscription"), Claim(referrer, 30 * LB)))
    case OnRenewal(referee, referrer, amount, number) =>
      if number > MAX_ROYALTIES || amount <= 0 then None
      else Some((Key(referrer, referee, RoyaltyType(number)), Claim(referrer, Royalty(amount))))
  }

  type Ledgered = Rewards.Bank<Key>
  type Step = Rewards.Step<Key>

  function RefereeRef(referee: int): string {
    "referee:" + Decimal.Format(referee)
  }

  const NOTE_PREFIX := "推荐奖励 — "

  /** How a reward is booked: the reference names the referee, the description the event. */
  const STYLE: Style<Key> :=
    Style(REWARD_KIND, REFERRAL_REF, (k: Key) => RefereeRef(k.referee), (k: Key) => NOTE_PREFIX + k.eventType)

  // ----- Runs -----

  datatype Move =
    | Ask(call: Call, stored: bool)   // a call up to its insert, which reaches the store or not
    | Settle(i: nat)                  // the i-th call whose insert went through credits the referrer
    | Drop(i: nat)                    // it stops before the credit
    | Other(op: Op)                   // any other wallet transaction

  function Lower(m: Move): Step {
    match m
    case Ask(c, stored) => if stored && Asked(c).Some? then Rewards.Grant(Asked(c).value.0, Asked(c).value.1) else Rewards.Idle
    case Settle(i) => Rewards.Pay(i, true)
    case Drop(i) => Rewards.Drop(i)
    case Other(op) => Rewards.Other(op)
  }

  function Lowered(moves: seq<Move>): seq<Step> {
    seq(|moves|, i requires 0 <= i < |moves| => Lower(moves[i]))
  }

  function Run(moves: seq<Move>): Ledgered {
    Rewards.Run(Lowered(moves), STYLE)
  }

  /** No other caller writes ledger rows that reference a referral event. */
  predicate Foreign(moves: seq<Move>) {
    forall i :: 0 <= i < |moves| && moves[i].Other? ==> KeepsRef(moves[i].op, REFERRAL_REF)
  }

  lemma RunSnoc(moves: seq<Move>, m: Move)
    ensures Run(moves + [m]) == Rewards.Next(Run(moves), Lower(m), STYLE)
  {
    assert Lowered(moves + [m]) == Lowered(moves) + [Lower(m)];
    assert (Lowered(moves) + [Lower(m)])[..|moves|] == Lowered(moves);
  }

  lemma Reachable(moves: seq<Move>)
    requires Foreign(moves)
    ensures Rewards.Inv(Run(moves), STYLE)
  {
    forall i | 0 <= i < |moves| && Lowered(moves)[i].Other?
      ensures KeepsRef(Lowered(moves)[i].op, REFERRAL_REF)
    {
      assert moves[i].Other?;
    }
    Rewards.RunKeeps(Lowered(moves), STYLE);
  }

  /** The move asks for a reward with this key, and the store answers. */
  predicate Asks(m: Move, key: Key) {
    m.Ask? && m.stored && Asked(m.call).Some? && Asked(m.call).value.0 == key
  }

  /** The recorded events are those asked for, and each rewards its referrer. */
  lemma {:induction false} GrantedIff(moves: seq<Move>, key: Key)
    ensures key in Run(moves).granted <==> exists i :: 0 <= i < |moves| && Asks(moves[i], key)
    ensures key in Run(moves).granted ==> Run(moves).granted[key].account == key.referrer
  {
    if moves != [] {
      var init, m := moves[..|moves| - 1], moves[|moves| - 1];
      assert init + [m] == moves;
      RunSnoc(init, m);
      GrantedIff(init, key);
      assert forall i :: 0 <= i < |init| ==> init[i] == moves[i];
    }
  }

  /** A royalty of five percent, rounded to the ledger's precision. */
  predicate FivePercent(amount: int, royalty: int) {
    -50 < 100 * royalty - 5 * amount <= 50
  }

  /**
   * What a call records, when the store answers and the event is new: 5 LB for a signup, 10 for a first topup, 30 for a
   * first subscription, five percent of the amount for a renewal numbered at most six; otherwise nothing.
   */
  lemma AskRecords(moves: seq<Move>, c: Call)
    ensures var b, b' := Run(moves), Run(moves + [Ask(c, true)]);
            match c
            case OnSignup(referee, referrer) => RecordsOnce(b, b', Key(referrer, referee, "signup"), Claim(referrer, 50_000))
            case OnFirstTopup(referee, referrer) => RecordsOnce(b, b', Key(referrer, referee, "first_topup"), Claim(referrer, 100_000))
            case OnFirstSubscription(referee, referrer) =>
              RecordsOnce(b, b', Key(referrer, referee, "first_subscription"), Claim(referrer, 300_000))
            case OnRenewal(referee, referrer, amount, number) =>
              if number > 6 || amount <= 0 then b' == b
              else
                var royalty := (amount * 5 + 50) / 100;
                && FivePercent(amount, royalty)
                && RecordsOnce(b, b', Key(referrer, referee, "renewal_royalty_" + Decimal.Format(number)), Claim(referrer, royalty))
    ensures Run(moves + [Ask(c, false)]) == Run(moves)
  {
    RunSnoc(moves, Ask(c, true));
    RunSnoc(moves, Ask(c, false));
  }

  /** The record is added if its key is new, with a payer that holds it; a second one is skipped. */
  ghost predicate RecordsOnce(b: Ledgered, b': Ledgered, key: Key, claim: Claim) {
    b' == if key in b.granted then b else b.(granted := b.granted[key := claim], payers := b.payers + [Payer(key, claim, Holding)])
  }

  /** How a reward is booked: as a referral reward of the referrer, with reference and description naming referee and event. */
  lemma ReceiptText(key: Key, claim: Claim)
    ensures Receipt(STYLE, key, claim) ==
            Slip(claim.account, claim.amount, "referral_reward", Ref("referral_event", "referee:" + Decimal.Format(key.referee)),
                 "推荐奖励 — " + key.eventType)
  {
  }

  /** Payers' receipts name the referrer. */
  lemma PayersPayReferrers(moves: seq<Move>, i: nat)
    requires Foreign(moves) && i < |Run(moves).payers|
    ensures var p := Run(moves).payers[i];
            p.key in Run(moves).granted && p.claim == Run(moves).granted[p.key] && p.claim.account == p.key.referrer
  {
    Reachable(moves);
    GrantedIff(moves, Run(moves).payers[i].key);
  }

  lemma RefereeRefInjective(m: int, n: int)
    requires RefereeRef(m) == RefereeRef(n)
    ensures m == n
  {
    assert RefereeRef(m)[8..] == Decimal.Format(m) && RefereeRef(n)[8..] == Decimal.Format(n);
    Decimal.FormatInjective(m, n);
  }

  lemma NoteInjective(e: string, f: string)
    requires NOTE_PREFIX + e == NOTE_PREFIX + f
    ensures e == f
  {
    assert (NOTE_PREFIX + e)[|NOTE_PREFIX|..] == e && (NOTE_PREFIX + f)[|NOTE_PREFIX|..] == f;
  }

  /** The slip credits a key's referrer for its referee and event. */
  ghost function IsFor(key: Key): Slip -> bool {
    (s: Slip) => s.account == key.referrer && s.ref.id == RefereeRef(key.referee) && s.note == NOTE_PREFIX + key.eventType
  }

  lemma IsForOne(moves: seq<Move>, key: Key, k: Key)
    requires k in Run(moves).granted
    ensures IsFor(key)(Receipt(STYLE, k, Run(moves).granted[k])) <==> k == key
  {
    GrantedIff(moves, k);
    if IsFor(key)(Receipt(STYLE, k, Run(moves).granted[k])) {
      RefereeRefInjective(k.referee, key.referee);
      NoteInjective(k.eventType, key.eventType);
    }
  }

  /**
   * However calls and crashes interleave: the ledger credits a referrer for a referee and an event once if that
   * event's call got through and otherwise never, and the money adds up.
   */
  lemma {:induction false} ReferralsConserved(moves: seq<Move>, key: Key)
    requires Foreign(moves)
    ensures var b := Run(moves);
            && Sum(b.book.rows, Selected(REFERRAL_REF, IsFor(key))) == (if key in PaidKeys(b.payers) then 1 else 0)
            && Sum(b.book.rows, AmountUnder(REFERRAL_REF)) + Sum(b.payers, AmountAt(Holding)) + Sum(b.payers, AmountAt(Lost))
                 == Total(Amounts(b.granted))
  {
    Reachable(moves);
    forall k | k in Run(moves).granted
      ensures IsFor(key)(Receipt(STYLE, k, Run(moves).granted[k])) <==> k == key
    {
      IsForOne(moves, key, k);
    }
    LoweredForeign(moves);
    Rewards.RewardPaidOnce(Lowered(moves), STYLE, key, IsFor(key));
    Rewards.RewardMoneyConserved(Lowered(moves), STYLE);
  }

  lemma LoweredForeign(moves: seq<Move>)
    requires Foreign(moves)
    ensures Rewards.Foreign(Lowered(moves), REFERRAL_REF)
  {
    forall i | 0 <= i < |moves| && Lowered(moves)[i].Other?
      ensures KeepsRef(Lowered(moves)[i].op, REFERRAL_REF)
    {
      assert moves[i].Other?;
    }
  }

  /** Every referral row credits the referrer of a recorded and paid event with that event's amount. */
  lemma {:induction false} ReferralRowsMatch(moves: seq<Move>, j: nat) returns (key: Key)
    requires Foreign(moves) && j < |Run(moves).book.rows| && Run(moves).book.rows[j].ref.kind == REFERRAL_REF
    ensures var b := Run(moves);
            && key in b.granted && key in PaidKeys(b.payers)
            && b.book.rows[j].account == key.referrer && b.book.rows[j].amount == b.granted[key].amount
            && IsFor(key)(SlipOf(b.book.rows[j]))
  {
    LoweredForeign(moves);
    key := Rewards.RewardRowsMatch(Lowered(moves), STYLE, j);
    GrantedIff(moves, key);
  }

  // ----- Royalties -----

  predicate IsRoyalty(eventType: string) {
    |eventType| >= 16 && eventType[..16] == "renewal_royalty_"
  }

  /** The recorded royalties of a pair. */
  function RoyaltiesOf(b: Ledgered, referrer: int, referee: int): set<Key> {
    set k | k in b.granted && k.referrer == referrer && k.referee == referee && IsRoyalty(k.eventType)
  }

  /** The slip credits a royalty of a pair. */
  ghost function IsRoyaltyOf(referrer: int, referee: int): Slip -> bool {
    (s: Slip) => s.account == referrer && s.ref.id == RefereeRef(referee)
                 && |s.note| >= |NOTE_PREFIX| && s.note[..|NOTE_PREFIX|] == NOTE_PREFIX && IsRoyalty(s.note[|NOTE_PREFIX|..])
  }

  /** Ledger rows that credit royalties of a pair. */
  ghost function RoyaltyRows(b: Ledgered, referrer: int, referee: int): int {
    Sum(b.book.rows, Selected(REFERRAL_REF, IsRoyaltyOf(referrer, referee)))
  }

  /** A stored call that earns a royalty: its number is at most six and its amount positive. */
  predicate Earns(m: Move, referrer: int, referee: int) {
    m.Ask? && m.stored && m.call.OnRenewal? && m.call.referrer == referrer && m.call.referee == referee
    && m.call.number <= MAX_ROYALTIES && m.call.amount > 0
  }

  /** The renewal numbers for which a pair's calls earn royalties. */
  function Numbers(moves: seq<Move>, referrer: int, referee: int): set<int> {
    set i | 0 <= i < |moves| && Earns(moves[i], referrer, referee) :: moves[i].call.number
  }

  /** Every renewal number gets its own slot in the unique constraint. */
  lemma OneSlotPerNumber(referrer: int, referee: int, m: int, n: int)
    ensures Key(referrer, referee, RoyaltyType(m)) == Key(referrer, referee, RoyaltyType(n)) <==> m == n
  {
    if RoyaltyType(m) == RoyaltyType(n) {
      assert RoyaltyType(m)[16..] == Decimal.Format(m) && RoyaltyType(n)[16..] == Decimal.Format(n);
      Decimal.FormatInjective(m, n);
    }
  }

  lemma RoyaltyIsAsked(m: Move, key: Key)
    requires Asks(m, key)
    ensures IsRoyalty(key.eventType) <==> m.call.OnRenewal?
    ensures m.call.OnRenewal? ==> Earns(m, key.referrer, key.referee) && key.eventType == RoyaltyType(m.call.number)
  {
    if m.call.OnRenewal? {
      assert key.eventType[..16] == "renewal_royalty_";
    }
    assert "first_subscription"[..16][0] == 'f' && "renewal_royalty_"[0] == 'r';
  }

  function SlotOf(referrer: int, referee: int): int -> Key {
    n => Key(referrer, referee, RoyaltyType(n))
  }

  lemma RoyaltiesAreSlots(moves: seq<Move>, referrer: int, referee: int)
    ensures RoyaltiesOf(Run(moves), referrer, referee) == Image(Numbers(moves, referrer, referee), SlotOf(referrer, referee))
  {
    var keys, numbers := RoyaltiesOf(Run(moves), referrer, referee), Numbers(moves, referrer, referee);
    forall k | k in keys
      ensures exists n :: n in numbers && SlotOf(referrer, referee)(n) == k
    {
      GrantedIff(moves, k);
      var i :| 0 <= i < |moves| && Asks(moves[i], k);
      RoyaltyIsAsked(moves[i], k);
      assert SlotOf(referrer, referee)(moves[i].call.number) == k;
    }
    forall n | n in numbers
      ensures SlotOf(referrer, referee)(n) in keys
    {
      var i :| 0 <= i < |moves| && Earns(moves[i], referrer, referee) && moves[i].call.number == n;
      var k := SlotOf(referrer, referee)(n);
      assert Asks(moves[i], k);
      GrantedIff(moves, k);
      RoyaltyIsAsked(moves[i], k);
    }
  }

  /** The payer's receipt is a royalty of the pair exactly if its key is. */
  lemma RoyaltyReceipt(moves: seq<Move>, i: nat, referrer: int, referee: int)
    requires Foreign(moves) && i < |Run(moves).payers|
    ensures var p := Run(moves).payers[i];
            IsRoyaltyOf(referrer, referee)(Receipt(STYLE, p.key, p.claim)) <==> p.key in RoyaltiesOf(Run(moves), referrer, referee)
  {
    PayersPayReferrers(moves, i);
    var k := Run(moves).payers[i].key;
    var note := NOTE_PREFIX + k.eventType;
    assert note[..|NOTE_PREFIX|] == NOTE_PREFIX && note[|NOTE_PREFIX|..] == k.eventType;
    if RefereeRef(k.referee) == RefereeRef(referee) {
      RefereeRefInjective(k.referee, referee);
    }
  }

  /** The ledger's royalty rows are the paid ones among the recorded royalties. */
  lemma RoyaltyRowsPaid(moves: seq<Move>, referrer: int, referee: int)
    requires Foreign(moves)
    ensures var b := Run(moves);
            RoyaltyRows(b, referrer, referee) == |PaidKeys(b.payers) * RoyaltiesOf(b, referrer, referee)|
  {
    Reachable(moves);
    var b, keys, sel := Run(moves), RoyaltiesOf(Run(moves), referrer, referee), IsRoyaltyOf(referrer, referee);
    SelectedPaid(b.book.rows, b.payers, STYLE, sel);
    forall i | 0 <= i < |b.payers|
      ensures PaidSelected(STYLE, sel)(b.payers[i]) == PaidIn(keys)(b.payers[i])
    {
      RoyaltyReceipt(moves, i, referrer, referee);
    }
    SumSame(b.payers, PaidSelected(STYLE, sel), PaidIn(keys));
    PaidKeysCount(b.payers, keys);
  }

  lemma SlotsDiffer(referrer: int, referee: int)
    ensures forall m, n :: SlotOf(referrer, referee)(m) == SlotOf(referrer, referee)(n) ==> m == n
  {
    forall m, n | SlotOf(referrer, referee)(m) == SlotOf(referrer, referee)(n)
      ensures m == n
    {
      OneSlotPerNumber(referrer, referee, m, n);
    }
  }

  lemma RoyaltiesRecorded(moves: seq<Move>, referrer: int, referee: int)
    ensures |RoyaltiesOf(Run(moves), referrer, referee)| == |Numbers(moves, referrer, referee)|
  {
    SlotsDiffer(referrer, referee);
    RoyaltiesAreSlots(moves, referrer, referee);
    ImageSize(Numbers(moves, referrer, referee), SlotOf(referrer, referee));
  }

  /**
   * Over every run, a pair has as many recorded royalties as its calls have different numbers that earn one,
   * and at most as many are credited in the ledger. So six are exceeded exactly with more than six such numbers.
   */
  lemma {:induction false} RoyaltiesCounted(moves: seq<Move>, referrer: int, referee: int)
    requires Foreign(moves)
    ensures |RoyaltiesOf(Run(moves), referrer, referee)| == |Numbers(moves, referrer, referee)|
    ensures RoyaltyRows(Run(moves), referrer, referee) <= |Numbers(moves, referrer, referee)|
  {
    RoyaltiesRecorded(moves, referrer, referee);
    RoyaltyRowsPaid(moves, referrer, referee);
    var keys := RoyaltiesOf(Run(moves), referrer, referee);
    Fewer(PaidKeys(Run(moves).payers) * keys, keys);
  }

  /** If renewals are numbered from 1, a pair earns at most six royalties, in the records and in the ledger. */
  lemma {:induction false} AtMostSixRoyalties(moves: seq<Move>, referrer: int, referee: int)
    requires Foreign(moves)
    requires forall i :: 0 <= i < |moves| && Earns(moves[i], referrer, referee) ==> moves[i].call.number >= 1
    ensures |RoyaltiesOf(Run(moves), referrer, referee)| <= MAX_ROYALTIES
    ensures RoyaltyRows(Run(moves), referrer, referee) <= MAX_ROYALTIES
  {
    RoyaltiesCounted(moves, referrer, referee);
    AtMostSixNumbers(Numbers(moves, referrer, referee));
  }

  lemma AtMostSixNumbers(numbers: set<int>)
    requires forall n :: n in numbers ==> 1 <= n <= MAX_ROYALTIES
    ensures |numbers| <= MAX_ROYALTIES
  {
    var six := {1, 2, 3, 4, 5, 6};
    assert forall n :: 1 <= n <= MAX_ROYALTIES ==> n in six;
    Fewer(numbers, six);
  }

  // ----- The bound is reached -----

  function Asking(calls: seq<Call>): seq<Move> {
    seq(|calls|, i requires 0 <= i < |calls| => Ask(calls[i], true))
  }

  function Settling(n: nat): seq<Move> {
    seq(n, i requires i >= 0 => Settle(i))
  }

  /** Calls ask, and then every call whose insert went through credits its referrer. */
  function Undisturbed(calls: seq<Call>): seq<Move> {
    Asking(calls) + Settling(|Run(Asking(calls)).payers|)
  }

  lemma {:induction false} AskingHolds(calls: seq<Call>)
    ensures forall i :: 0 <= i < |Run(Asking(calls)).payers| ==> Run(Asking(calls)).payers[i].stage == Holding
  {
    if calls != [] {
      var init, c := calls[..|calls| - 1], calls[|calls| - 1];
      AskingHolds(init);
      assert Asking(calls) == Asking(init) + [Ask(c, true)];
      RunSnoc(Asking(init), Ask(c, true));
    }
  }

  lemma {:induction false} SettlingPays(calls: seq<Call>, n: nat)
    requires n <= |Run(Asking(calls)).payers|
    ensures var b, b' := Run(Asking(calls)), Run(Asking(calls) + Settling(n));
            && b'.granted == b.granted && |b'.payers| == |b.payers|
            && forall i :: 0 <= i < |b.payers| ==> b'.payers[i] == b.payers[i].(stage := if i < n then Paid else Holding)
  {
    if n == 0 {
      AskingHolds(calls);
      assert Asking(calls) + Settling(0) == Asking(calls);
    } else {
      SettlingPays(calls, n - 1);
      var before := Asking(calls) + Settling(n - 1);
      assert Asking(calls) + Settling(n) == before + [Settle(n - 1)];
      RunSnoc(before, Settle(n - 1));
      Rewards.OpenedPays(Run(before), n - 1, STYLE);
    }
  }

  lemma SettledKeysPaid(b: Ledgered, b': Ledgered, keys: set<Key>)
    requires keys <= b.granted.Keys && OnePayerEach(b.granted, b.payers) && |b'.payers| == |b.payers|
    requires forall i :: 0 <= i < |b.payers| ==> b'.payers[i] == b.payers[i].(stage := Paid)
    ensures PaidKeys(b'.payers) * keys == keys
  {
    forall k | k in keys
      ensures k in PaidKeys(b'.payers)
    {
      var i :| 0 <= i < |b.payers| && b.payers[i].key == k;
      assert b'.payers[i].HasPaid() && b'.payers[i].key == k;
    }
  }

  /** With nothing lost, the ledger shows as many royalties of a pair as its calls have numbers that earn one. */
  lemma {:induction false} UndisturbedRoyalties(calls: seq<Call>, referrer: int, referee: int)
    ensures RoyaltyRows(Run(Undisturbed(calls)), referrer, referee) == |Numbers(Asking(calls), referrer, referee)|
  {
    var asked, settled := Run(Asking(calls)), Run(Undisturbed(calls));
    SettlingPays(calls, |asked.payers|);
    RoyaltyRowsPaid(Undisturbed(calls), referrer, referee);
    RoyaltiesRecorded(Asking(calls), referrer, referee);
    Reachable(Asking(calls));
    SettledKeysPaid(asked, settled, RoyaltiesOf(asked, referrer, referee));
  }

  /** Renewals numbered from 0 earn a seventh royalty: numbers are not checked from below. */
  lemma SeventhRoyalty(referrer: int, referee: int, amount: int)
    requires amount > 0
    ensures RoyaltyRows(Run(Undisturbed(FromZero(referrer, referee, amount))), referrer, referee) == 7 > MAX_ROYALTIES
  {
    UndisturbedRoyalties(FromZero(referrer, referee, amount), referrer, referee);
    FromZeroNumbers(referrer, referee, amount);
  }

  function FromZero(referrer: int, referee: int, amount: int): seq<Call> {
    seq(7, i => OnRenewal(referee, referrer, amount, i))
  }

  lemma FromZeroNumbers(referrer: int, referee: int, amount: int)
    requires amount > 0
    ensures |Numbers(Asking(FromZero(referrer, referee, amount)), referrer, referee)| == 7
  {
    var moves := Asking(FromZero(referrer, referee, amount));
    forall n
      ensures n in Numbers(moves, referrer, referee) <==> n in {0, 1, 2, 3, 4, 5, 6}
    {
      if 0 <= n <= 6 {
        assert Earns(moves[n], referrer, referee) && moves[n].call.number == n;
      }
    }
    assert Numbers(moves, referrer, referee) == {0, 1, 2, 3, 4, 5, 6};
  }

  // ----- The service -----

  class ReferralService {
    const repo: WalletRepo
    const accounts: set<int>
    var events: map<Key, Claim>
    ghost var payers: seq<Payer<Key>>

    ghost function View(): Ledgered
      reads this, repo
    {
      Rewards.Bank(repo.Contents(), events, payers)
    }

    constructor (repo: WalletRepo, accounts: set<int>)
      ensures this.repo == repo && this.accounts == accounts && events == map[] && payers == []
    {
      this.repo, this.accounts, events, payers := repo, accounts, map[], [];
    }

    /**
     * Insert the event, skip if it exists, create the wallet, credit; recordOk, walletOk and creditOk tell whether
     * the store answers each.
     */
    method Reward(c: Call, recordOk: bool, walletOk: bool, creditOk: bool) returns (r: Result<()>)
      modifies this, repo
      ensures Asked(c) == None ==> View() == old(View()) && r == Ok(())
      ensures Asked(c).Some? && c.referrer !in accounts ==> View() == old(View()) && r == Err(NotFound)
      ensures Asked(c).Some? && c.referrer in accounts && !recordOk ==> View() == old(View()) && r == Err(Unavailable)
      ensures Asked(c).Some? && c.referrer in accounts && recordOk ==>
                var (key, claim) := Asked(c).value;
                if key in old(events) then View() == old(View()) && r == Ok(())
                else
                  var b := Rewards.Granting(old(View()), key, claim);
                  var i := |old(payers)|;
                  && (r.Ok? <==> walletOk && creditOk)
                  && View() == if walletOk && creditOk then Rewards.Paying(b, i, true, STYLE)
                               else if walletOk then Rewards.WithStage(b, i, Lost).(book := Opened(b.book, claim.account))
                               else Rewards.WithStage(b, i, Lost)
    {
      var asked := Asked(c);
      if asked == None {
        return Ok(());
      }
      if c.referrer !in accounts {
        return Err(NotFound);
      }
      if !recordOk {
        return Err(Unavailable);
      }
      var (key, claim) := asked.value;
      if key in events {
        return Ok(());
      }
      events := events[key := claim];
      payers := payers + [Payer(key, claim, Holding)];
      ghost var i := |payers| - 1;
      if !walletOk {
        payers := payers[i := payers[i].(stage := Lost)];
        return Err(Unavailable);
      }
      var w := repo.GetOrCreate(claim.account);
      if !creditOk {
        payers := payers[i := payers[i].(stage := Lost)];
        return Err(Unavailable);
      }
      var tx := repo.Credit(claim.account, claim.amount, REWARD_KIND, Ref(REFERRAL_REF, RefereeRef(c.referee)), "", NOTE_PREFIX + key.eventType);
      payers := payers[i := payers[i].(stage := Paid)];
      r := Ok(());
    }
  }
}
