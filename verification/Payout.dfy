/**
 * Claim, then pay. Topups, refunds and referral rewards all share this shape: one atomic conditional
 * write claims a key, and only the caller that made the claim goes on to credit a wallet in a second
 * transaction. Callers may crash, or have the credit refused, in between.
 */
module Payout {
  import opened Base
  import opened Sums
  import opened Ledger

  datatype Claim = Claim(account: int, amount: int)

  /** Where the caller that owns a claim has got to. */
  datatype Stage =
    | Holding   // claimed, not yet credited
    | Lost      // crashed or refused before the credit; nobody takes over
    | Paid      // credited
    | Finished  // credited, and a final status written

  datatype Payer<K> = Payer(key: K, claim: Claim, stage: Stage) {
    predicate HasPaid() {
      stage.Paid? || stage.Finished?
    }
  }

  /** Every claim has exactly one payer, which carries the claim's account and amount. */
  ghost predicate OnePayerEach<K(!new)>(claims: map<K, Claim>, payers: seq<Payer<K>>) {
    && (forall i, j :: 0 <= i < j < |payers| ==> payers[i].key != payers[j].key)
    && (forall i :: 0 <= i < |payers| ==> payers[i].key in claims && claims[payers[i].key] == payers[i].claim)
    && (forall k :: k in claims ==> exists i :: 0 <= i < |payers| && payers[i].key == k)
  }

  ghost function Amounts<K>(claims: map<K, Claim>): map<K, int> {
    map k | k in claims :: claims[k].amount
  }

  /** Amounts of payers at one stage. */
  ghost function AmountAt<K>(stage: Stage): Payer<K> -> int {
    (p: Payer<K>) => if p.stage == stage then p.claim.amount else 0
  }

  ghost function AmountPaid<K>(): Payer<K> -> int {
    (p: Payer<K>) => if p.HasPaid() then p.claim.amount else 0
  }

  lemma {:induction false} ClaimKeeps<K(!new)>(claims: map<K, Claim>, payers: seq<Payer<K>>, p: Payer<K>)
    requires OnePayerEach(claims, payers)
    requires p.key !in claims
    ensures OnePayerEach(claims[p.key := p.claim], payers + [p])
  {
    var claims', payers' := claims[p.key := p.claim], payers + [p];
    forall k | k in claims'
      ensures exists i :: 0 <= i < |payers'| && payers'[i].key == k
    {
      if k == p.key {
        assert payers'[|payers|].key == k;
      } else {
        var i :| 0 <= i < |payers| && payers[i].key == k;
        assert payers'[i].key == k;
      }
    }
  }

  lemma {:induction false} StageKeeps<K(!new)>(claims: map<K, Claim>, payers: seq<Payer<K>>, i: nat, stage: Stage)
    requires OnePayerEach(claims, payers) && i < |payers|
    ensures OnePayerEach(claims, payers[i := payers[i].(stage := stage)])
  {
    var payers' := payers[i := payers[i].(stage := stage)];
    forall k | k in claims
      ensures exists j :: 0 <= j < |payers'| && payers'[j].key == k
    {
      var j :| 0 <= j < |payers| && payers[j].key == k;
      assert payers'[j].key == k;
    }
  }

  lemma {:induction false} DropLast<K(!new)>(claims: map<K, Claim>, payers: seq<Payer<K>>)
    requires OnePayerEach(claims, payers) && payers != []
    ensures OnePayerEach(claims - {payers[|payers| - 1].key}, payers[..|payers| - 1])
  {
    var init, last := payers[..|payers| - 1], payers[|payers| - 1].key;
    forall k | k in claims - {last}
      ensures exists i :: 0 <= i < |init| && init[i].key == k
    {
      var i :| 0 <= i < |payers| && payers[i].key == k;
      assert init[i].key == k;
    }
  }

  lemma OneOfThree<K>(p: Payer<K>)
    ensures AmountAt(Holding)(p) + AmountAt(Lost)(p) + AmountPaid()(p) == p.claim.amount
  {
  }

  /** The claimed total is what payers hold, lost and paid out. */
  lemma {:induction false} ClaimsAddUp<K(!new)>(claims: map<K, Claim>, payers: seq<Payer<K>>)
    requires OnePayerEach(claims, payers)
    ensures Total(Amounts(claims)) ==
            Sum(payers, AmountAt(Holding)) + Sum(payers, AmountAt(Lost)) + Sum(payers, AmountPaid())
  {
    if payers == [] {
      assert claims.Keys == {};
      assert Amounts(claims) == map[];
    } else {
      var p := payers[|payers| - 1];
      var fewer := claims - {p.key};
      DropLast(claims, payers);
      ClaimsAddUp(fewer, payers[..|payers| - 1]);
      assert Amounts(claims) == Amounts(fewer)[p.key := p.claim.amount];
      TotalInsert(Amounts(fewer), p.key, p.claim.amount);
      OneOfThree(p);
    }
  }

  ghost function AmountUnder(kind: string): Row -> int {
    (r: Row) => if r.ref.kind == kind then r.amount else 0
  }

  // ----- Matching ledger rows -----

  /** How the payers of a protocol are booked in the ledger. */
  datatype Style<!K> = Style(kind: string, refKind: string, refOf: K -> string, noteOf: K -> string)

  /** What the ledger row of a payer says. */
  function Receipt<K>(style: Style<K>, key: K, claim: Claim): Slip {
    Slip(claim.account, claim.amount, style.kind, Ref(style.refKind, style.refOf(key)), style.noteOf(key))
  }

  /** The weight of a row, if it has the given reference kind. */
  ghost function RowWeight(refKind: string, w: Slip -> int): Row -> int {
    (r: Row) => if r.ref.kind == refKind then w(SlipOf(r)) else 0
  }

  /** The weight of a payer's receipt, once it has paid. */
  ghost function PaidWeight<K>(style: Style<K>, w: Slip -> int): Payer<K> -> int {
    (p: Payer<K>) => if p.HasPaid() then w(Receipt(style, p.key, p.claim)) else 0
  }

  /**
   * The rows with the style's reference kind are, each as often, the receipts of the payers that have
   * paid: however receipts are weighed, both sides weigh the same.
   */
  ghost predicate Booked<K>(rows: seq<Row>, payers: seq<Payer<K>>, style: Style<K>) {
    forall w: Slip -> int :: Sum(rows, RowWeight(style.refKind, w)) == Sum(payers, PaidWeight(style, w))
  }

  lemma RowWeighs(r: Row, refKind: string, w: Slip -> int)
    ensures RowWeight(refKind, w)(r) == if r.ref.kind == refKind then w(SlipOf(r)) else 0
  {
  }

  lemma PayerWeighs<K>(p: Payer<K>, style: Style<K>, w: Slip -> int)
    ensures PaidWeight(style, w)(p) == if p.HasPaid() then w(Receipt(style, p.key, p.claim)) else 0
  {
  }

  /** A holding payer pays, and its receipt is appended. */
  lemma PayKeepsBooked<K>(rows: seq<Row>, row: Row, payers: seq<Payer<K>>, i: nat, style: Style<K>)
    requires Booked(rows, payers, style)
    requires i < |payers| && payers[i].stage.Holding? && SlipOf(row) == Receipt(style, payers[i].key, payers[i].claim)
    ensures Booked(rows + [row], payers[i := payers[i].(stage := Paid)], style)
  {
    var p := payers[i].(stage := Paid);
    forall w: Slip -> int
      ensures Sum(rows + [row], RowWeight(style.refKind, w)) == Sum(payers[i := p], PaidWeight(style, w))
    {
      SumAppend(rows, row, RowWeight(style.refKind, w));
      SumUpdate(payers, i, p, PaidWeight(style, w));
      RowWeighs(row, style.refKind, w);
      PayerWeighs(payers[i], style, w);
      PayerWeighs(p, style, w);
    }
  }

  /** A stage change that does not change whether the payer has paid. */
  lemma StageKeepsBooked<K>(rows: seq<Row>, payers: seq<Payer<K>>, i: nat, stage: Stage, style: Style<K>)
    requires Booked(rows, payers, style)
    requires i < |payers| && payers[i].HasPaid() == payers[i].(stage := stage).HasPaid()
    ensures Booked(rows, payers[i := payers[i].(stage := stage)], style)
  {
    var p := payers[i].(stage := stage);
    forall w: Slip -> int
      ensures Sum(rows, RowWeight(style.refKind, w)) == Sum(payers[i := p], PaidWeight(style, w))
    {
      SumUpdate(payers, i, p, PaidWeight(style, w));
      PayerWeighs(payers[i], style, w);
      PayerWeighs(p, style, w);
    }
  }

  lemma ClaimKeepsBooked<K>(rows: seq<Row>, payers: seq<Payer<K>>, p: Payer<K>, style: Style<K>)
    requires Booked(rows, payers, style) && p.stage.Holding?
    ensures Booked(rows, payers + [p], style)
  {
    forall w: Slip -> int
      ensures Sum(rows, RowWeight(style.refKind, w)) == Sum(payers + [p], PaidWeight(style, w))
    {
      SumAppend(payers, p, PaidWeight(style, w));
      PayerWeighs(p, style, w);
    }
  }

  /** Operations that leave this reference kind alone leave the bookings alone. */
  lemma ForeignKeepsBooked<K>(b: Book, op: Op, payers: seq<Payer<K>>, style: Style<K>)
    requires Booked(b.rows, payers, style) && KeepsRef(op, style.refKind)
    ensures Booked(Apply(b, op).rows, payers, style)
  {
    var row := ApplyShape(b, op);
    var rows' := Apply(b, op).rows;
    if rows' != b.rows {
      assert rows'[|b.rows|] == row;
      forall w: Slip -> int
        ensures Sum(rows', RowWeight(style.refKind, w)) == Sum(payers, PaidWeight(style, w))
      {
        SumAppend(b.rows, row, RowWeight(style.refKind, w));
        RowWeighs(row, style.refKind, w);
      }
    }
  }

  /** The money under a reference kind is the money paid. */
  lemma BookedTotal<K>(rows: seq<Row>, payers: seq<Payer<K>>, style: Style<K>)
    requires Booked(rows, payers, style)
    ensures Sum(rows, AmountUnder(style.refKind)) == Sum(payers, AmountPaid())
  {
    var w := (s: Slip) => s.amount;
    RowsWeigh(rows, style.refKind, w, AmountUnder(style.refKind));
    PayersWeigh(payers, style, w, AmountPaid());
  }

  lemma RowsWeigh(rows: seq<Row>, refKind: string, w: Slip -> int, f: Row -> int)
    requires forall r :: f(r) == if r.ref.kind == refKind then w(SlipOf(r)) else 0
    ensures Sum(rows, f) == Sum(rows, RowWeight(refKind, w))
  {
    forall i | 0 <= i < |rows|
      ensures f(rows[i]) == RowWeight(refKind, w)(rows[i])
    {
      RowWeighs(rows[i], refKind, w);
    }
    SumSame(rows, f, RowWeight(refKind, w));
  }

  lemma PayersWeigh<K>(payers: seq<Payer<K>>, style: Style<K>, w: Slip -> int, f: Payer<K> -> int)
    requires forall i :: 0 <= i < |payers| ==>
               f(payers[i]) == if payers[i].HasPaid() then w(Receipt(style, payers[i].key, payers[i].claim)) else 0
    ensures Sum(payers, f) == Sum(payers, PaidWeight(style, w))
  {
    forall i | 0 <= i < |payers|
      ensures f(payers[i]) == PaidWeight(style, w)(payers[i])
    {
      PayerWeighs(payers[i], style, w);
    }
    SumSame(payers, f, PaidWeight(style, w));
  }

  /** Every row under the reference kind is the receipt of a payer that has paid. */
  lemma RowHasPayer<K>(rows: seq<Row>, payers: seq<Payer<K>>, style: Style<K>, j: nat) returns (i: nat)
    requires Booked(rows, payers, style) && j < |rows| && rows[j].ref.kind == style.refKind
    ensures i < |payers| && payers[i].HasPaid() && SlipOf(rows[j]) == Receipt(style, payers[i].key, payers[i].claim)
  {
    var w := (s: Slip) => if s == SlipOf(rows[j]) then 1 else 0;
    SumAtLeast(rows, RowWeight(style.refKind, w), j);
    i := SumPositive(payers, PaidWeight(style, w));
  }

  /** The rows of a reference kind whose slips meet a condition. */
  ghost function Selected(refKind: string, sel: Slip -> bool): Row -> int {
    (r: Row) => if r.ref.kind == refKind && sel(SlipOf(r)) then 1 else 0
  }

  ghost function HasId(id: string): Slip -> bool {
    (s: Slip) => s.ref.id == id
  }

  lemma MentionIs(r: Row, refKind: string, id: string)
    ensures Mentions(Ref(refKind, id))(r) == Selected(refKind, HasId(id))(r)
  {
    assert HasId(id)(SlipOf(r)) == (r.ref.id == id);
  }

  lemma MentionsSelected(rows: seq<Row>, refKind: string, id: string)
    ensures Sum(rows, Mentions(Ref(refKind, id))) == Sum(rows, Selected(refKind, HasId(id)))
  {
    forall i | 0 <= i < |rows|
      ensures Mentions(Ref(refKind, id))(rows[i]) == Selected(refKind, HasId(id))(rows[i])
    {
      MentionIs(rows[i], refKind, id);
    }
    SumSame(rows, Mentions(Ref(refKind, id)), Selected(refKind, HasId(id)));
  }

  /** The paid payers whose receipts meet a condition. */
  ghost function PaidSelected<K>(style: Style<K>, sel: Slip -> bool): Payer<K> -> int {
    (p: Payer<K>) => if p.HasPaid() && sel(Receipt(style, p.key, p.claim)) then 1 else 0
  }

  /** As many rows meet a condition as receipts of paid payers do. */
  lemma SelectedPaid<K>(rows: seq<Row>, payers: seq<Payer<K>>, style: Style<K>, sel: Slip -> bool)
    requires Booked(rows, payers, style)
    ensures Sum(rows, Selected(style.refKind, sel)) == Sum(payers, PaidSelected(style, sel))
  {
    var w := (s: Slip) => if sel(s) then 1 else 0;
    RowsWeigh(rows, style.refKind, w, Selected(style.refKind, sel));
    PayersWeigh(payers, style, w, PaidSelected(style, sel));
  }

  /** If a condition picks out one payer's receipt, one ledger row meets it once that payer has paid, and none before. */
  lemma OneReceipt<K>(rows: seq<Row>, payers: seq<Payer<K>>, style: Style<K>, sel: Slip -> bool, i: nat)
    requires Booked(rows, payers, style) && i < |payers|
    requires forall j :: 0 <= j < |payers| ==> (sel(Receipt(style, payers[j].key, payers[j].claim)) <==> j == i)
    ensures Sum(rows, Selected(style.refKind, sel)) == if payers[i].HasPaid() then 1 else 0
  {
    SelectedPaid(rows, payers, style, sel);
    SumSingle(payers, PaidSelected(style, sel), i);
  }

  /** Where the reference is the key, a key has one row once it is paid, and none before. */
  lemma OneMention<K(!new)>(rows: seq<Row>, claims: map<K, Claim>, payers: seq<Payer<K>>, style: Style<K>, i: nat)
    requires Booked(rows, payers, style) && OnePayerEach(claims, payers) && i < |payers|
    requires forall k, m :: style.refOf(k) == style.refOf(m) ==> k == m
    ensures Sum(rows, Mentions(Ref(style.refKind, style.refOf(payers[i].key)))) == if payers[i].HasPaid() then 1 else 0
  {
    var id := style.refOf(payers[i].key);
    MentionsSelected(rows, style.refKind, id);
    OneReceipt(rows, payers, style, HasId(id), i);
  }

  /** ... and a key without a claim has none. */
  lemma NoMention<K(!new)>(rows: seq<Row>, claims: map<K, Claim>, payers: seq<Payer<K>>, style: Style<K>, key: K)
    requires Booked(rows, payers, style) && OnePayerEach(claims, payers) && key !in claims
    requires forall k, m :: style.refOf(k) == style.refOf(m) ==> k == m
    ensures Sum(rows, Mentions(Ref(style.refKind, style.refOf(key)))) == 0
  {
    var id := style.refOf(key);
    MentionsSelected(rows, style.refKind, id);
    NoReceipt(rows, payers, style, HasId(id));
  }

  /** If no payer's receipt meets a condition, no ledger row does. */
  lemma NoReceipt<K>(rows: seq<Row>, payers: seq<Payer<K>>, style: Style<K>, sel: Slip -> bool)
    requires Booked(rows, payers, style)
    requires forall j :: 0 <= j < |payers| ==> !sel(Receipt(style, payers[j].key, payers[j].claim))
    ensures Sum(rows, Selected(style.refKind, sel)) == 0
  {
    SelectedPaid(rows, payers, style, sel);
    SumZero(payers, PaidSelected(style, sel));
  }

  /** The keys that have been paid. */
  ghost function PaidKeys<K(!new)>(payers: seq<Payer<K>>): set<K> {
    set i | 0 <= i < |payers| && payers[i].HasPaid() :: payers[i].key
  }

  ghost function PaidIn<K(!new)>(keys: set<K>): Payer<K> -> int {
    (p: Payer<K>) => if p.HasPaid() && p.key in keys then 1 else 0
  }

  lemma PaidKeysSnoc<K(!new)>(payers: seq<Payer<K>>, p: Payer<K>)
    ensures PaidKeys(payers + [p]) == PaidKeys(payers) + if p.HasPaid() then {p.key} else {}
  {
    var all := payers + [p];
    forall k | k in PaidKeys(payers)
      ensures k in PaidKeys(all)
    {
      var i :| 0 <= i < |payers| && payers[i].HasPaid() && payers[i].key == k;
      assert all[i] == payers[i];
    }
    assert all[|payers|] == p;
  }

  lemma MeetOneMore<K>(a: set<K>, b: set<K>, k: K)
    requires k !in a
    ensures |(a + {k}) * b| == |a * b| + if k in b then 1 else 0
  {
    if k in b {
      assert (a + {k}) * b == a * b + {k};
    } else {
      assert (a + {k}) * b == a * b;
    }
  }

  /** Keys are paid once each, so counting payers counts keys. */
  lemma {:induction false} PaidKeysCount<K(!new)>(payers: seq<Payer<K>>, keys: set<K>)
    requires forall i, j :: 0 <= i < j < |payers| ==> payers[i].key != payers[j].key
    ensures Sum(payers, PaidIn(keys)) == |PaidKeys(payers) * keys|
  {
    if payers == [] {
      assert PaidKeys(payers) * keys == {};
    } else {
      var init, p := payers[..|payers| - 1], payers[|payers| - 1];
      PaidKeysCount(init, keys);
      assert init + [p] == payers;
      PaidKeysSnoc(init, p);
      assert p.key !in PaidKeys(init);
      MeetOneMore(PaidKeys(init), keys, p.key);
      SumAppend(init, p, PaidIn(keys));
      assert PaidKeys(init) + {} == PaidKeys(init);
    }
  }
}
