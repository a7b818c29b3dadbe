/** programs/solora-pyth-price/src/instructions/settle_event.rs: the Settle
    step, run by the round's settle thread once the waiting period is
    over; it compares the settle price with the lock price. */
module SettleEvent {
  import opened Ints
  import opened Errors
  import opened Util
  import opened Outcomes
  import opened EventState
  import opened EventConfigState

  /** Same if the price did not move, else Up or Down. */
  function DeriveOutcome(settlePrice: u64, lockPrice: u64): (o: Outcome)
    ensures o == Same <==> settlePrice == lockPrice
    ensures o == Up <==> settlePrice > lockPrice
    ensures o == Down <==> settlePrice < lockPrice
  {
    if settlePrice == lockPrice then Same
    else if settlePrice > lockPrice then Up
    else Down
  }

  /** The accounts passed in are the config's feed, the event's own
      address and its settle thread. */
  predicate SettleAccounts(cfg: ConfigRecord, configKey: Pubkey, e: EventRecord, pythFeed: Pubkey, settleThread: Pubkey) {
    pythFeed == cfg.pythFeed && configKey == e.eventConfig && settleThread == e.settleThread
  }

  /** settle_event at time `now` with the oracle's current `reading`. */
  function SettleEventSpec(cfg: ConfigRecord, configKey: Pubkey, e: EventRecord, pythFeed: Pubkey,
                           settleThread: Pubkey, now: i64, reading: Option<PriceReading>): (r: Result<EventRecord>)
    // the guards, in the order of precedence
    ensures !SettleAccounts(cfg, configKey, e, pythFeed, settleThread) ==> r.Err?
    ensures (SettleAccounts(cfg, configKey, e, pythFeed, settleThread) && e.outcome != Undrawn) ==>
      r == Err(EventSettled)
    ensures (SettleAccounts(cfg, configKey, e, pythFeed, settleThread) && e.outcome == Undrawn &&
             e.lockPrice == 0) ==> r == Err(LockPriceNotSet)
    ensures (SettleAccounts(cfg, configKey, e, pythFeed, settleThread) && e.outcome == Undrawn &&
             e.lockPrice > 0 && e.lockTime + e.waitPeriod < I64_LIMIT && now < e.lockTime + e.waitPeriod) ==>
      r == Err(EventInWaitingPeriod)
    // `lock_time + wait_period as i64` beyond i64 aborts
    ensures (SettleAccounts(cfg, configKey, e, pythFeed, settleThread) && e.outcome == Undrawn &&
             e.lockPrice > 0 && e.lockTime + e.waitPeriod >= I64_LIMIT) ==> r == Err(Panic)
    // a call that passes every guard succeeds unless normalising the price aborts
    ensures r.Ok? <==>
      && SettleAccounts(cfg, configKey, e, pythFeed, settleThread) && e.outcome == Undrawn && e.lockPrice > 0
      && e.lockTime + e.waitPeriod < I64_LIMIT && e.lockTime + e.waitPeriod <= now
      && (reading.None? || reading.value.price < 0 ||
          PriceWithDecimalChange(reading.value.price, reading.value.expo, e.priceDecimals).Ok?)
    // no price, or a negative one: the round becomes Invalid and keeps no settle price
    ensures r.Ok? && (reading.None? || reading.value.price < 0) ==> r.value == e.(outcome := Invalid)
    // otherwise the settle price is the normalised price, compared with the lock price
    ensures r.Ok? && reading.Some? && reading.value.price >= 0 ==>
      && Ok(r.value.settlePrice) == PriceWithDecimalChange(reading.value.price, reading.value.expo, e.priceDecimals)
      && r.value == e.(settlePrice := r.value.settlePrice, outcome := DeriveOutcome(r.value.settlePrice, e.lockPrice))
    // every successful call resolves the round
    ensures r.Ok? ==> r.value.outcome != Undrawn
  {
    AddressMatchesIff(e, configKey, e.startTime);
    if pythFeed != cfg.pythFeed then Err(ConstraintHasOne)
    else if !AddressMatches(e, configKey, e.startTime) then Err(ConstraintSeeds)
    else if settleThread != e.settleThread then Err(ConstraintHasOne)
    else if e.outcome != Undrawn then Err(EventSettled)
    else if e.lockPrice == 0 then Err(LockPriceNotSet)
    // `lock_time + wait_period as i64` aborts on i64 overflow
    else if e.lockTime + e.waitPeriod >= I64_LIMIT then Err(Panic)
    else if now < e.lockTime + e.waitPeriod then Err(EventInWaitingPeriod)
    else match reading
      case None => Ok(e.(outcome := Invalid))
      case Some(p) =>
        if p.price < 0 then Ok(e.(outcome := Invalid))
        else
          var settlePrice :- PriceWithDecimalChange(p.price, p.expo, e.priceDecimals);
          Ok(e.(settlePrice := settlePrice, outcome := DeriveOutcome(settlePrice, e.lockPrice)))
  }

  /** settle_event: writes the settle price and the outcome of `event` in
      place. */
  method SettleEvent(config: EventConfig, event: Event, pythFeed: Pubkey, settleThread: Pubkey,
                     now: i64, reading: Option<PriceReading>) returns (r: Result<()>)
    modifies event
    ensures var s := SettleEventSpec(config.Record(), config.key, old(event.Record()), pythFeed, settleThread, now, reading);
      && (s.Ok? ==> r == Ok(()) && event.Record() == s.value)
      && (s.Err? ==> r == Err(s.error) && event.Record() == old(event.Record()))
  {
    AddressMatchesIff(event.Record(), config.key, event.startTime);
    if pythFeed != config.pythFeed {
      return Err(ConstraintHasOne);
    }
    if config.key != event.eventConfig {
      return Err(ConstraintSeeds);
    }
    if settleThread != event.settleThread {
      return Err(ConstraintHasOne);
    }
    if event.outcome != Undrawn {
      return Err(EventSettled);
    }
    if event.lockPrice == 0 {
      return Err(LockPriceNotSet);
    }
    if event.lockTime + event.waitPeriod >= I64_LIMIT {
      return Err(Panic);
    }
    if now < event.lockTime + event.waitPeriod {
      return Err(EventInWaitingPeriod);
    }
    if reading.Some? {
      var p := reading.value;
      if p.price < 0 {
        event.outcome := Invalid;
      } else {
        var settlePrice := PriceWithDecimalChange(p.price, p.expo, event.priceDecimals);
        if settlePrice.Err? {
          return Err(settlePrice.error);
        }
        event.settlePrice := settlePrice.value;
        event.outcome := DeriveOutcome(event.settlePrice, event.lockPrice);
      }
    } else {
      event.outcome := Invalid;
    }
    return Ok(());
  }

  /** A round is settled once: after a successful call a second one fails
      with EventSettled. */
  lemma SettleTwiceFails(cfg: ConfigRecord, configKey: Pubkey, e: EventRecord, pythFeed: Pubkey,
                         settleThread: Pubkey, now: i64, reading: Option<PriceReading>,
                         now2: i64, reading2: Option<PriceReading>)
    requires SettleEventSpec(cfg, configKey, e, pythFeed, settleThread, now, reading).Ok?
    ensures var e2 := SettleEventSpec(cfg, configKey, e, pythFeed, settleThread, now, reading).value;
      SettleEventSpec(cfg, configKey, e2, pythFeed, settleThread, now2, reading2) == Err(EventSettled)
  {
  }

  /** When the lock price and the settle price come from raw prices `a` and
      `b` with the same exponent and decimals, the outcome follows the
      raw prices: a rise is never Down and a fall is never Up. */
  lemma OutcomeFollowsPrice(a: i64, b: i64, expo: i32, decimals: u8)
    requires a >= 0 && b >= 0
    requires PriceWithDecimalChange(a, expo, decimals).Ok? && PriceWithDecimalChange(b, expo, decimals).Ok?
    ensures var o := DeriveOutcome(PriceWithDecimalChange(b, expo, decimals).value,
                                   PriceWithDecimalChange(a, expo, decimals).value);
      (a <= b ==> o != Down) && (b <= a ==> o != Up)
  {
    if a <= b {
      PriceWithDecimalChangeMonotone(a, b, expo, decimals);
    } else {
      PriceWithDecimalChangeMonotone(b, a, expo, decimals);
    }
  }
}
