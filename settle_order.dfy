/** programs/solora-pyth-price/src/instructions/settle_order.rs: pays one
    participant out of a resolved round and closes their order. */
module SettleOrder {
  import opened Ints
  import opened Errors
  import opened Util
  import opened Outcomes
  import opened OrderState
  import opened EventState
  import opened EventConfigState
  import opened Ledger

  // ---------------------------------------------------------------------
  // The payout arithmetic
  // ---------------------------------------------------------------------

  predicate BothSidesEntered(e: EventRecord) {
    e.upAmount > 0 && e.downAmount > 0
  }

  /** A two-sided round that resolved Up or Down: money moves from the
      losing pool to the winners. */
  predicate Decided(e: EventRecord) {
    BothSidesEntered(e) && IsDirection(e.outcome)
  }

  function WinningPool(e: EventRecord): u128 {
    if e.outcome == Up then e.upAmount else e.downAmount
  }

  function LosingPool(e: EventRecord): u128 {
    if e.outcome == Up then e.downAmount else e.upAmount
  }

  /** earned_amount: in a decided round, the stake's share of the losing
      pool in proportion to the winning pool, `amount * losing / winning`
      in u128 (a product beyond u128 is an OverflowError), narrowed to u64
      without a check. Nothing is earned otherwise. */
  function EarnedAmount(e: EventRecord, amount: u64): (r: Result<u64>)
    ensures r.Err? <==> Decided(e) && amount * LosingPool(e) >= U128_LIMIT
    ensures r.Err? ==> r.error == OverflowError
    ensures r.Ok? && !Decided(e) ==> r.value == 0
    ensures r.Ok? && Decided(e) ==> r.value * WinningPool(e) <= amount * LosingPool(e)
    // the result is the floor share, narrowed to its low 64 bits
    ensures r.Ok? && Decided(e) ==> (FloorDiv(amount * LosingPool(e), WinningPool(e)) - r.value) % U64_LIMIT == 0
    ensures r.Ok? && Decided(e) && amount * LosingPool(e) < U64_LIMIT * WinningPool(e) ==>
      amount * LosingPool(e) < (r.value + 1) * WinningPool(e)
  {
    if Decided(e) then
      var product := amount * LosingPool(e);
      if product >= U128_LIMIT then Err(OverflowError)
      else
        Ok(NarrowedShare(product, WinningPool(e)))
    else
      Ok(0)
  }

  /** `product / divisor as u64`: the floor quotient, keeping its low 64 bits. */
  function NarrowedShare(product: nat, divisor: nat): (q: u64)
    requires divisor > 0
    ensures q * divisor <= product
    ensures (FloorDiv(product, divisor) - q) % U64_LIMIT == 0
    ensures product < U64_LIMIT * divisor ==> product < (q + 1) * divisor
  {
    FloorDivTruncated(product, divisor);
    TruncateU64(FloorDiv(product, divisor))
  }

  /** fee: `earned * fee_bps / 10000` in u128, narrowed to u64 without a
      check. The product is below 2^96, so the checked u128 operations
      never fail; and the fee is taken on earnings only, never on the
      principal. */
  function FeeAmount(earned: u64, feeBps: u32): (fee: u64)
    ensures earned == 0 ==> fee == 0
    ensures fee * 10000 <= earned * feeBps
    // the fee is the floor of the rate, narrowed to its low 64 bits
    ensures earned > 0 ==> (FloorDiv(earned * feeBps, 10000) - fee) % U64_LIMIT == 0
    ensures earned * feeBps < U64_LIMIT * 10000 ==> earned * feeBps < (fee + 1) * 10000
    ensures feeBps <= 10000 ==> fee <= earned
  {
    if earned > 0 then
      var product := earned * feeBps;
      RateBound(earned, feeBps);
      NarrowedShare(product, 10000)
    else
      0
  }

  lemma RateBound(earned: nat, feeBps: nat)
    ensures feeBps <= 10000 ==> earned * feeBps <= earned * 10000
  {
    if feeBps <= 10000 {
      MulMonotone(earned, feeBps, 10000);
    }
  }

  /** amount_to_user: a refund of the stake in a one-sided round; the
      stake plus earnings less the fee for a winner (checked u64
      subtraction and addition); a refund when the round resolved neither
      Up nor Down; nothing for a loser. */
  function AmountToUser(e: EventRecord, o: Order, earned: u64, fee: u64): (r: Result<u64>)
    ensures r.Err? ==> r.error == OverflowError
    ensures !BothSidesEntered(e) ==> r == Ok(o.amount)
    ensures BothSidesEntered(e) && e.outcome == o.outcome ==>
      (r.Ok? <==> fee <= earned && earned - fee + o.amount < U64_LIMIT)
    ensures BothSidesEntered(e) && e.outcome == o.outcome && r.Ok? ==> r.value == earned - fee + o.amount
    ensures BothSidesEntered(e) && e.outcome != o.outcome ==>
      r == Ok(if IsDirection(e.outcome) then 0 else o.amount)
  {
    if !BothSidesEntered(e) then Ok(o.amount)
    else if e.outcome == o.outcome then
      if fee > earned then Err(OverflowError)
      else if earned - fee + o.amount >= U64_LIMIT then Err(OverflowError)
      else Ok(earned - fee + o.amount)
    else if e.outcome != Up && e.outcome != Down then Ok(o.amount)
    else Ok(0)
  }

  /** What settle_order pays for an order out of the round's funds:
      `toUser` to the participant and `fee` to the fee account. */
  datatype Payout = Payout(toUser: u64, fee: u64)

  /** The payout of order `o` in round `e`. The fee is transferred only
      together with a positive amount to the user. */
  function Settlement(e: EventRecord, o: Order): (r: Result<Payout>)
    ensures r.Err? ==> r.error == OverflowError
    ensures r.Ok? && r.value.fee > 0 ==> r.value.toUser > 0
    ensures r.Ok? ==> r.value.fee == 0 || (Decided(e) && e.outcome == o.outcome)
  {
    var earned :- EarnedAmount(e, o.amount);
    var fee := FeeAmount(earned, e.feeBps);
    var toUser :- AmountToUser(e, o, earned, fee);
    Ok(Payout(toUser, if toUser > 0 then fee else 0))
  }

  /** A round that was not decided refunds every stake exactly, with no
      fee, whatever it resolved to. */
  lemma SettlementRefund(e: EventRecord, o: Order)
    requires !Decided(e)
    ensures Settlement(e, o) == Ok(Payout(o.amount, 0))
  {
    assert EarnedAmount(e, o.amount) == Ok(0);
    assert FeeAmount(0, e.feeBps) == 0;
  }

  /** A loser of a decided round gets nothing and pays no fee; the
      settlement fails only if computing the (unused) earnings overflows. */
  lemma SettlementLoser(e: EventRecord, o: Order)
    requires Decided(e) && o.outcome != e.outcome
    ensures Settlement(e, o) ==
      if o.amount * LosingPool(e) >= U128_LIMIT then Err(OverflowError) else Ok(Payout(0, 0))
  {
  }

  /** A winner of a decided round receives the stake plus the earnings
      less the fee, and the fee goes to the fee account. */
  lemma SettlementWinner(e: EventRecord, o: Order)
    requires Decided(e) && o.outcome == e.outcome && Settlement(e, o).Ok?
    ensures var earned := EarnedAmount(e, o.amount).value;
      var p := Settlement(e, o).value;
      && p.toUser == earned - FeeAmount(earned, e.feeBps) + o.amount
      && (p.toUser > 0 ==> p.fee == FeeAmount(earned, e.feeBps))
      && p.toUser + p.fee <= earned + o.amount
  {
  }

  /** What a winner takes out of the event is at most the stake's
      proportional share `amount * (winning + losing) / winning` of both
      pools. */
  lemma SettlementWinnerShare(e: EventRecord, o: Order)
    requires Decided(e) && o.outcome == e.outcome && Settlement(e, o).Ok?
    ensures var p := Settlement(e, o).value;
      (p.toUser + p.fee) * WinningPool(e) <= o.amount * (WinningPool(e) + LosingPool(e))
  {
    SettlementWinner(e, o);
    var p := Settlement(e, o).value;
    ShareBound(EarnedAmount(e, o.amount).value, o.amount, p.toUser + p.fee, WinningPool(e), LosingPool(e));
  }

  lemma ShareBound(earned: nat, amount: nat, x: nat, w: nat, l: nat)
    requires earned * w <= amount * l && x <= earned + amount
    ensures x * w <= amount * (w + l)
  {
    MulMonotone(w, x, earned + amount);
    assert (earned + amount) * w == earned * w + amount * w;
    assert amount * (w + l) == amount * l + amount * w;
  }

  /** A winner's settlement succeeds when the fee rate is at most 100%, the
      stake is within the winning pool and the u128 and u64 bounds hold;
      so a fee above the earnings, and its OverflowError, needs a fee rate
      above 10000 bps. */
  lemma SettlementWinnerSucceeds(e: EventRecord, o: Order)
    requires Decided(e) && o.outcome == e.outcome
    requires e.feeBps <= 10000
    requires o.amount <= WinningPool(e)
    requires o.amount * LosingPool(e) < U128_LIMIT
    requires o.amount + LosingPool(e) < U64_LIMIT
    ensures Settlement(e, o).Ok?
  {
    var earned := EarnedAmount(e, o.amount).value;
    EarnedWithinPool(earned, o.amount, WinningPool(e), LosingPool(e));
    assert FeeAmount(earned, e.feeBps) <= earned;
  }

  lemma EarnedWithinPool(earned: nat, amount: nat, w: nat, l: nat)
    requires w > 0 && amount <= w && earned * w <= amount * l
    ensures earned <= l
  {
    MulMonotone(l, amount, w);
    assert earned * w <= l * w;
    MulCancelLe(earned, l, w);
  }

  /** settle_order.rs:74-92 on the round up = 200, down = 100, resolved
      Down, with a fee of 300 bps: a Down stake of 100 earns 200, pays a
      fee of 6 and receives 294. */
  lemma WorkedExample(e: EventRecord, o: Order)
    requires e.upAmount == 200 && e.downAmount == 100 && e.outcome == Down && e.feeBps == 300
    requires o.outcome == Down && o.amount == 100
    ensures EarnedAmount(e, o.amount) == Ok(200)
    ensures FeeAmount(200, 300) == 6
    ensures Settlement(e, o) == Ok(Payout(294, 6))
  {
    assert FloorDiv(20000, 100) == 200 by {
      var q := FloorDiv(20000, 100);
      assert q * 100 <= 20000 < (q + 1) * 100;
    }
    assert FloorDiv(60000, 10000) == 6 by {
      var q := FloorDiv(60000, 10000);
      assert q * 10000 <= 60000 < (q + 1) * 10000;
    }
  }

  // ---------------------------------------------------------------------
  // Payouts over a whole round
  // ---------------------------------------------------------------------

  function Sum(stakes: seq<u64>): nat {
    if stakes == [] then 0 else stakes[0] + Sum(stakes[1..])
  }

  /** The earnings of a stake, 0 where computing them fails. */
  function Earned(e: EventRecord, amount: u64): nat {
    match EarnedAmount(e, amount)
    case Ok(v) => v
    case Err(_) => 0
  }

  function TotalEarned(e: EventRecord, stakes: seq<u64>): nat {
    if stakes == [] then 0 else Earned(e, stakes[0]) + TotalEarned(e, stakes[1..])
  }

  lemma {:induction false} TotalEarnedUpperBound(e: EventRecord, stakes: seq<u64>)
    requires Decided(e)
    ensures TotalEarned(e, stakes) * WinningPool(e) <= Sum(stakes) * LosingPool(e)
  {
    if stakes != [] {
      TotalEarnedUpperBound(e, stakes[1..]);
      assert Earned(e, stakes[0]) * WinningPool(e) <= stakes[0] * LosingPool(e);
      AddProductBounds(Earned(e, stakes[0]), TotalEarned(e, stakes[1..]), WinningPool(e),
        stakes[0], Sum(stakes[1..]), LosingPool(e));
    }
  }

  /** x * w <= a * l and y * w <= b * l add up. */
  lemma AddProductBounds(x: nat, y: nat, w: nat, a: nat, b: nat, l: nat)
    requires x * w <= a * l && y * w <= b * l
    ensures (x + y) * w <= (a + b) * l
  {
    assert (x + y) * w == x * w + y * w;
    assert (a + b) * l == a * l + b * l;
  }

  /** If the winners' stakes add up to at most the winning pool, their
      earnings together never exceed the losing pool: the floor divisions
      only ever round down. */
  lemma EarnedWithinLosingPool(e: EventRecord, stakes: seq<u64>)
    requires Decided(e) && Sum(stakes) <= WinningPool(e)
    ensures TotalEarned(e, stakes) <= LosingPool(e)
  {
    TotalEarnedUpperBound(e, stakes);
    EarnedWithinPool(TotalEarned(e, stakes), Sum(stakes), WinningPool(e), LosingPool(e));
  }

  lemma {:induction false} TotalEarnedLowerBound(e: EventRecord, stakes: seq<u64>)
    requires Decided(e)
    requires forall i | 0 <= i < |stakes| :: stakes[i] * LosingPool(e) < U128_LIMIT
    requires forall i | 0 <= i < |stakes| :: stakes[i] * LosingPool(e) < U64_LIMIT * WinningPool(e)
    ensures Sum(stakes) * LosingPool(e) <= (TotalEarned(e, stakes) + |stakes|) * WinningPool(e)
  {
    if stakes != [] {
      var a := stakes[0];
      assert a * LosingPool(e) < U128_LIMIT && a * LosingPool(e) < U64_LIMIT * WinningPool(e);
      TotalEarnedLowerBound(e, stakes[1..]);
      assert a * LosingPool(e) <= (Earned(e, a) + 1) * WinningPool(e);
      AddProductBounds(a, Sum(stakes[1..]), LosingPool(e),
        Earned(e, a) + 1, TotalEarned(e, stakes[1..]) + |stakes[1..]|, WinningPool(e));
    }
  }

  /** When the winners' stakes are exactly the winning pool and nothing is
      truncated, the floor divisions leave at most one unit per winner of
      the losing pool undistributed. */
  lemma LosingPoolDistributed(e: EventRecord, stakes: seq<u64>)
    requires Decided(e) && Sum(stakes) == WinningPool(e)
    requires forall i | 0 <= i < |stakes| :: stakes[i] * LosingPool(e) < U128_LIMIT
    requires forall i | 0 <= i < |stakes| :: stakes[i] * LosingPool(e) < U64_LIMIT * WinningPool(e)
    ensures LosingPool(e) - |stakes| <= TotalEarned(e, stakes) <= LosingPool(e)
  {
    EarnedWithinLosingPool(e, stakes);
    TotalEarnedLowerBound(e, stakes);
    MulCancelLe(LosingPool(e), TotalEarned(e, stakes) + |stakes|, WinningPool(e));
  }

  /** The sum of the stakes on `side`. */
  function StakeOn(os: seq<Order>, side: Outcome): nat {
    if os == [] then 0 else (if os[0].outcome == side then os[0].amount else 0) + StakeOn(os[1..], side)
  }

  /** What settling `o` pays out, 0 if it fails. */
  function Outflow(e: EventRecord, o: Order): nat {
    match Settlement(e, o)
    case Ok(p) => p.toUser + p.fee
    case Err(_) => 0
  }

  function TotalOutflow(e: EventRecord, os: seq<Order>): nat {
    if os == [] then 0 else Outflow(e, os[0]) + TotalOutflow(e, os[1..])
  }

  lemma {:induction false} RefundOutflow(e: EventRecord, os: seq<Order>)
    requires !Decided(e)
    requires forall i | 0 <= i < |os| :: IsDirection(os[i].outcome)
    ensures TotalOutflow(e, os) == StakeOn(os, Up) + StakeOn(os, Down)
  {
    if os != [] {
      SettlementRefund(e, os[0]);
      RefundOutflow(e, os[1..]);
    }
  }

  lemma LoserOutflow(e: EventRecord, o: Order)
    requires Decided(e) && o.outcome != e.outcome
    ensures Outflow(e, o) == 0
  {
    SettlementLoser(e, o);
  }

  lemma WinnerOutflow(e: EventRecord, o: Order)
    requires Decided(e) && o.outcome == e.outcome
    ensures Outflow(e, o) * WinningPool(e) <= o.amount * (WinningPool(e) + LosingPool(e))
  {
    var r := Settlement(e, o);
    var w: nat, l: nat := WinningPool(e), LosingPool(e);
    if r.Ok? {
      SettlementWinnerShare(e, o);
      assert Outflow(e, o) == r.value.toUser + r.value.fee;
      MulMonotone(w, Outflow(e, o), r.value.toUser + r.value.fee);
      assert Outflow(e, o) * w <= o.amount * (w + l);
    } else {
      assert Outflow(e, o) == 0;
      MulNonNegative(o.amount, w + l);
    }
  }

  lemma {:induction false} DecidedOutflow(e: EventRecord, os: seq<Order>)
    requires Decided(e)
    ensures TotalOutflow(e, os) * WinningPool(e) <= StakeOn(os, e.outcome) * (WinningPool(e) + LosingPool(e))
  {
    if os != [] {
      var o := os[0];
      DecidedOutflow(e, os[1..]);
      var w: nat, l: nat := WinningPool(e), LosingPool(e);
      if o.outcome == e.outcome {
        WinnerOutflow(e, o);
        AddProductBounds(Outflow(e, o), TotalOutflow(e, os[1..]), w, o.amount, StakeOn(os[1..], e.outcome), w + l);
      } else {
        LoserOutflow(e, o);
        assert TotalOutflow(e, os) == TotalOutflow(e, os[1..]);
        assert StakeOn(os, e.outcome) == StakeOn(os[1..], e.outcome);
      }
    }
  }

  lemma WithinBothPools(t: nat, sw: nat, w: nat, l: nat)
    requires w > 0 && sw <= w && t * w <= sw * (w + l)
    ensures t <= w + l
  {
    MulMonotone(w + l, sw, w);
    assert t * w <= (w + l) * w;
    MulCancelLe(t, w + l, w);
  }

  /** Settling every order of a round pays out at most the two pools,
      provided the pools cover the stakes on each side: winners share the
      losing pool, everybody else is refunded or gets nothing. This bounds
      the computed payouts; which account holds the funds is not part of
      the model. */
  lemma Solvency(e: EventRecord, os: seq<Order>)
    requires forall i | 0 <= i < |os| :: IsDirection(os[i].outcome)
    requires StakeOn(os, Up) <= e.upAmount && StakeOn(os, Down) <= e.downAmount
    ensures TotalOutflow(e, os) <= e.upAmount + e.downAmount
  {
    if Decided(e) {
      var w: nat, l: nat := WinningPool(e), LosingPool(e);
      var t, sw := TotalOutflow(e, os), StakeOn(os, e.outcome);
      assert w + l == e.upAmount + e.downAmount;
      assert sw <= w;
      DecidedOutflow(e, os);
      WithinBothPools(t, sw, w, l);
    } else {
      RefundOutflow(e, os);
    }
  }

  // ---------------------------------------------------------------------
  // The instruction
  // ---------------------------------------------------------------------

  /** The state after a settled order and what was paid out. */
  datatype Settled = Settled(event: EventRecord, orders: map<Pubkey, Order>, payout: Payout)

  /** settle_order, signed by `signer`, on the event `e` at address
      `eventKey` of the config at `configKey`, whose orders are `orders`
      (by participant), naming `feeAccount` as the fee destination. The
      checks come in the order the account framework and the body make
      them: the order account must exist; the event's address, fee account
      and config must match; the event must be resolved; the order must
      belong to the event and the signer. */
  function SettleOrderSpec(configKey: Pubkey, e: EventRecord, eventKey: Pubkey,
                           orders: map<Pubkey, Order>, signer: Pubkey, feeAccount: Pubkey): (r: Result<Settled>)
    ensures r.Ok? <==>
      && signer in orders && configKey == e.eventConfig && feeAccount == e.feeAccount
      && e.outcome != Undrawn
      && orders[signer].event == eventKey && orders[signer].authority == signer
      && Settlement(e, orders[signer]).Ok? && e.ordersSettled + 1 < U32_LIMIT
    ensures (signer in orders && configKey == e.eventConfig && feeAccount == e.feeAccount &&
             e.outcome == Undrawn) ==> r == Err(EventNotSettled)
    ensures signer !in orders ==> r == Err(AccountNotInitialized)
    ensures r.Ok? ==> Ok(r.value.payout) == Settlement(e, orders[signer])
    ensures r.Ok? ==> r.value.orders == orders - {signer}
    ensures r.Ok? ==> r.value.event == e.(ordersSettled := e.ordersSettled + 1)
  {
    AddressMatchesIff(e, configKey, e.startTime);
    if signer !in orders then Err(AccountNotInitialized)
    else if !AddressMatches(e, configKey, e.startTime) then Err(ConstraintSeeds)
    else if feeAccount != e.feeAccount || e.eventConfig != configKey then Err(ConstraintHasOne)
    else if e.outcome == Undrawn then Err(EventNotSettled)
    else
      var o := orders[signer];
      if o.event != eventKey || o.authority != signer then Err(ConstraintHasOne)
      else
        var payout :- Settlement(e, o);
        if e.ordersSettled + 1 >= U32_LIMIT then Err(Panic)
        else Ok(Settled(e.(ordersSettled := e.ordersSettled + 1), orders - {signer}, payout))
  }

  /** settle_order: pays the signer's order out of `event` and closes it.
      The two transfers of the payout are not modelled beyond returning
      their amounts. */
  method SettleOrder(config: EventConfig, event: Event, book: OrderAccounts, signer: Pubkey, feeAccount: Pubkey)
    returns (r: Result<Payout>)
    modifies event, book
    ensures var s := SettleOrderSpec(config.key, old(event.Record()), event.key, old(book.orders), signer, feeAccount);
      && (s.Ok? ==> r == Ok(s.value.payout) && event.Record() == s.value.event && book.orders == s.value.orders)
      && (s.Err? ==> r == Err(s.error) && event.Record() == old(event.Record()) && book.orders == old(book.orders))
  {
    AddressMatchesIff(event.Record(), config.key, event.startTime);
    if signer !in book.orders {
      return Err(AccountNotInitialized);
    }
    if config.key != event.eventConfig {
      return Err(ConstraintSeeds);
    }
    if feeAccount != event.feeAccount {
      return Err(ConstraintHasOne);
    }
    if event.outcome == Undrawn {
      return Err(EventNotSettled);
    }
    var order := book.orders[signer];
    if order.event != event.key || order.authority != signer {
      return Err(ConstraintHasOne);
    }
    var payout := Settlement(event.Record(), order);
    if payout.Err? {
      return Err(payout.error);
    }
    if event.ordersSettled + 1 >= U32_LIMIT {
      return Err(Panic);
    }
    event.ordersSettled := event.ordersSettled + 1;
    // `close = authority`: the order account is closed when the call succeeds
    book.orders := book.orders - {signer};
    return Ok(payout.value);
  }

  /** An order can be settled once: the second attempt finds no order. */
  lemma SettleTwiceFails(configKey: Pubkey, e: EventRecord, eventKey: Pubkey,
                         orders: map<Pubkey, Order>, signer: Pubkey, feeAccount: Pubkey)
    requires SettleOrderSpec(configKey, e, eventKey, orders, signer, feeAccount).Ok?
    ensures var s := SettleOrderSpec(configKey, e, eventKey, orders, signer, feeAccount).value;
      SettleOrderSpec(configKey, s.event, eventKey, s.orders, signer, feeAccount) == Err(AccountNotInitialized)
  {
  }
}
