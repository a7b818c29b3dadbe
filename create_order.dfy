/** programs/solora-pyth-price/src/instructions/create_order.rs: a
    participant stakes on Up or Down while the round is open. */
module CreateOrder {
  import opened Ints
  import opened Errors
  import opened Util
  import opened Outcomes
  import opened OrderState
  import opened EventState
  import opened EventConfigState
  import opened Ledger
  import opened SettleOrder

  /** The side guard as written: it rejects only Undrawn and Invalid. */
  predicate IsAcceptedSideAsWritten(side: Outcome) {
    side != Undrawn && side != Invalid
  }

  /** The pool a stake on `side` is added to as written: everything that
      is not Up goes to the Down pool. */
  function PoolSideAsWritten(side: Outcome): (pool: Outcome)
    ensures pool == Up || pool == Down
    ensures pool == Up <==> side == Up
  {
    if side == Up then Up else Down
  }

  /** With Same declared, the guard as written lets a Same stake through;
      it lands in the Down pool, and in every two-sided round resolved Up
      or Down it is paid nothing, even when Down wins with it in the
      winning pool. */
  lemma SameStakeAcceptedAsWritten(e: EventRecord, o: Order)
    requires Decided(e) && o.outcome == Same
    requires o.amount * LosingPool(e) < U128_LIMIT
    ensures IsAcceptedSideAsWritten(Same) && PoolSideAsWritten(Same) == Down
    ensures Settlement(e, o) == Ok(Payout(0, 0))
  {
    SettlementLoser(e, o);
  }

  /** The side guard of the model: only Up and Down are stake sides. */
  predicate IsStakeSide(side: Outcome) {
    side == Up || side == Down
  }

  /** The guard rejects what the source's guard rejects, and Same. */
  lemma StakeSideGuard(side: Outcome)
    ensures IsStakeSide(side) <==> IsAcceptedSideAsWritten(side) && side != Same
    ensures IsStakeSide(side) <==> IsDirection(side)
  {
  }

  /** `pool += pool.checked_add(amount)`: the sum is checked (an
      OverflowError), the addition to the pool is not (it aborts); the pool
      becomes 2·pool + amount. */
  function AddStake(pool: u128, amount: u64): (r: Result<u128>)
    ensures r.Err? <==> 2 * pool + amount >= U128_LIMIT
    ensures r.Err? ==> r.error == (if pool + amount >= U128_LIMIT then OverflowError else Panic)
    ensures r.Ok? ==> r.value == 2 * pool + amount
  {
    if pool + amount >= U128_LIMIT then Err(OverflowError)
    else if pool + (pool + amount) >= U128_LIMIT then Err(Panic)
    else Ok(pool + (pool + amount))
  }

  /** The first stake on a side makes the pool exactly that stake. */
  lemma FirstStakeIsAmount(amount: u64)
    ensures AddStake(0, amount) == Ok(amount)
  {
  }

  /** The doubling lets a round pay out more than was staked: Down stakes
      of 1 and 1 make the Down pool 3, and an Up stake of 10 is then paid 13
      in a round whose stakes total 12. */
  lemma DoublingOverpays(e: EventRecord, o: Order)
    requires e.upAmount == 10 && Ok(e.downAmount) == AddStake(AddStake(0, 1).value, 1)
    requires e.outcome == Up && e.feeBps == 0
    requires o.outcome == Up && o.amount == 10
    ensures e.downAmount == 3
    ensures Outflow(e, o) == 13 > 10 + 1 + 1
  {
    assert FloorDiv(30, 10) == 3 by {
      var q := FloorDiv(30, 10);
      assert q * 10 <= 30 < (q + 1) * 10;
    }
    assert EarnedAmount(e, 10) == Ok(3);
    assert FeeAmount(3, 0) == 0;
  }

  /** The currency check: with no extra accounts the config's mint must
      be the native mint, with extra accounts the supplied mint must be
      the config's mint. */
  predicate MintAccepted(cfg: ConfigRecord, extraMint: Option<Pubkey>) {
    match extraMint
    case None => IsNativeMint(cfg.currencyMint)
    case Some(mint) => mint == cfg.currencyMint
  }

  function PoolOf(e: EventRecord, side: Outcome): u128 {
    if side == Up then e.upAmount else e.downAmount
  }

  function CountOf(e: EventRecord, side: Outcome): u32 {
    if side == Up then e.upCount else e.downCount
  }

  /** The state after a placed order. */
  datatype Placed = Placed(event: EventRecord, orders: map<Pubkey, Order>)

  /** create_order signed by `signer` at time `now`, staking `amount` on
      `side`, with the order account's `bump`; `extraMint` is the mint
      among the extra accounts, if any are passed. The event's address is
      checked against its start time (see README, Findings). */
  function CreateOrderSpec(cfg: ConfigRecord, configKey: Pubkey, e: EventRecord, eventKey: Pubkey,
                           orders: map<Pubkey, Order>, signer: Pubkey, bump: u8, side: Outcome,
                           amount: u64, now: i64, extraMint: Option<Pubkey>): (r: Result<Placed>)
    // one order per participant per round
    ensures signer in orders ==> r == Err(AccountAlreadyInUse)
    ensures (signer !in orders && configKey == e.eventConfig && e.outcome != Undrawn) ==> r == Err(EventSettled)
    ensures (signer !in orders && configKey == e.eventConfig && e.outcome == Undrawn && now >= e.lockTime) ==>
      r == Err(EventLocked)
    ensures (signer !in orders && configKey == e.eventConfig && e.outcome == Undrawn && now < e.lockTime &&
             !IsStakeSide(side)) ==> r == Err(InvalidOutcome)
    ensures r.Ok? <==>
      && signer !in orders && configKey == e.eventConfig && e.outcome == Undrawn && now < e.lockTime
      && IsStakeSide(side) && AddStake(PoolOf(e, side), amount).Ok? && CountOf(e, side) + 1 < U32_LIMIT
      && MintAccepted(cfg, extraMint)
    // past every other check, the currency check fails exactly when no extra
    // accounts are passed for a non-native mint, or the mint passed is not
    // the config's
    ensures (signer !in orders && configKey == e.eventConfig && e.outcome == Undrawn && now < e.lockTime &&
             IsStakeSide(side) && AddStake(PoolOf(e, side), amount).Ok? && CountOf(e, side) + 1 < U32_LIMIT) ==>
      (r == Err(InvalidMint) <==>
         (extraMint.None? && cfg.currencyMint != NATIVE_MINT) || (extraMint.Some? && extraMint.value != cfg.currencyMint))
    // the order records the participant, the event, the side and the amount
    ensures r.Ok? ==> r.value.orders == orders[signer := Order(bump, 0, signer, eventKey, side, amount)]
    // the staked side's pool doubles and takes the amount, its count grows by one
    ensures r.Ok? && side == Up ==> r.value.event == e.(upAmount := 2 * e.upAmount + amount, upCount := e.upCount + 1)
    ensures r.Ok? && side == Down ==>
      r.value.event == e.(downAmount := 2 * e.downAmount + amount, downCount := e.downCount + 1)
  {
    AddressMatchesIff(e, configKey, e.startTime);
    if signer in orders then Err(AccountAlreadyInUse)
    else if !AddressMatches(e, configKey, e.startTime) then Err(ConstraintSeeds)
    else if e.eventConfig != configKey then Err(ConstraintHasOne)
    else if e.outcome != Undrawn then Err(EventSettled)
    else if now >= e.lockTime then Err(EventLocked)
    else if !IsStakeSide(side) then Err(InvalidOutcome)
    else
      var order := Order(bump, 0, signer, eventKey, side, amount);
      var pool :- AddStake(PoolOf(e, side), amount);
      if CountOf(e, side) + 1 >= U32_LIMIT then Err(Panic)
      else if !MintAccepted(cfg, extraMint) then Err(InvalidMint)
      else
        var e2 := if side == Up then e.(upAmount := pool, upCount := e.upCount + 1)
                  else e.(downAmount := pool, downCount := e.downCount + 1);
        Ok(Placed(e2, orders[signer := order]))
  }

  /** create_order: creates the signer's order account and adds the stake
      to the event's pool in place. The transfer of the stake into the
      round is not modelled. */
  method CreateOrder(config: EventConfig, event: Event, book: OrderAccounts, signer: Pubkey, bump: u8,
                     side: Outcome, amount: u64, now: i64, extraMint: Option<Pubkey>) returns (r: Result<()>)
    modifies event, book
    ensures var s := CreateOrderSpec(config.Record(), config.key, old(event.Record()), event.key,
                                     old(book.orders), signer, bump, side, amount, now, extraMint);
      && (s.Ok? ==> r == Ok(()) && event.Record() == s.value.event && book.orders == s.value.orders)
      && (s.Err? ==> r == Err(s.error) && event.Record() == old(event.Record()) && book.orders == old(book.orders))
  {
    AddressMatchesIff(event.Record(), config.key, event.startTime);
    if signer in book.orders {
      return Err(AccountAlreadyInUse);
    }
    if config.key != event.eventConfig {
      return Err(ConstraintSeeds);
    }
    if event.outcome != Undrawn {
      return Err(EventSettled);
    }
    if now >= event.lockTime {
      return Err(EventLocked);
    }
    if !IsStakeSide(side) {
      return Err(InvalidOutcome);
    }
    var pool := AddStake(PoolOf(event.Record(), side), amount);
    if pool.Err? {
      return Err(pool.error);
    }
    if CountOf(event.Record(), side) + 1 >= U32_LIMIT {
      return Err(Panic);
    }
    // the source writes the order and the pool before this check; the
    // failed transaction rolls them back, so checking first is the same
    if !MintAccepted(config.Record(), extraMint) {
      return Err(InvalidMint);
    }
    book.orders := book.orders[signer := Order(bump, 0, signer, event.key, side, amount)];
    if side == Up {
      event.upAmount := pool.value;
      event.upCount := event.upCount + 1;
    } else {
      event.downAmount := pool.value;
      event.downCount := event.downCount + 1;
    }
    return Ok(());
  }
}
