/** programs/solora-pyth-price/src/instructions/set_lock_price.rs: the Lock
    step, run by the round's lock thread once the lock time has come. */
module SetLockPrice {
  import opened Ints
  import opened Errors
  import opened Util
  import opened Outcomes
  import opened EventState
  import opened EventConfigState

  /** The accounts passed in are the config's feed, the event's own
      address and its lock thread. */
  predicate LockAccounts(cfg: ConfigRecord, configKey: Pubkey, e: EventRecord, pythFeed: Pubkey, lockThread: Pubkey) {
    pythFeed == cfg.pythFeed && configKey == e.eventConfig && lockThread == e.lockThread
  }

  /** set_lock_price at time `now`, with `reading` the oracle's current
      price (None when the feed has no price at most 30 seconds old). The
      event's address is checked against its start time (see README,
      Findings). */
  function SetLockPriceSpec(cfg: ConfigRecord, configKey: Pubkey, e: EventRecord, pythFeed: Pubkey,
                            lockThread: Pubkey, now: i64, reading: Option<PriceReading>): (r: Result<EventRecord>)
    // the guards, in the order of precedence
    ensures !LockAccounts(cfg, configKey, e, pythFeed, lockThread) ==> r.Err?
    ensures LockAccounts(cfg, configKey, e, pythFeed, lockThread) && e.outcome != Undrawn ==> r == Err(EventSettled)
    ensures (LockAccounts(cfg, configKey, e, pythFeed, lockThread) && e.outcome == Undrawn && e.lockPrice != 0) ==>
      r == Err(LockPriceSet)
    ensures (LockAccounts(cfg, configKey, e, pythFeed, lockThread) && e.outcome == Undrawn && e.lockPrice == 0 &&
             now < e.lockTime) ==> r == Err(EventNotLocked)
    // a call that passes every guard succeeds unless normalising the price aborts
    ensures r.Ok? <==>
      && LockAccounts(cfg, configKey, e, pythFeed, lockThread) && e.outcome == Undrawn && e.lockPrice == 0
      && e.lockTime <= now
      && (reading.None? || reading.value.price < 0 ||
          PriceWithDecimalChange(reading.value.price, reading.value.expo, e.priceDecimals).Ok?)
    ensures r.Err? && r.error == Panic ==> reading.Some? && reading.value.price >= 0
    // no price, or a negative one: the round becomes Invalid and keeps no lock price
    ensures r.Ok? && (reading.None? || reading.value.price < 0) ==> r.value == e.(outcome := Invalid)
    // otherwise the lock price is the normalised price and the round stays open to settlement
    ensures r.Ok? && reading.Some? && reading.value.price >= 0 ==>
      && Ok(r.value.lockPrice) == PriceWithDecimalChange(reading.value.price, reading.value.expo, e.priceDecimals)
      && r.value == e.(lockPrice := r.value.lockPrice)
    // only the outcome or the lock price is written
    ensures r.Ok? ==> r.value.(outcome := e.outcome, lockPrice := e.lockPrice) == e
  {
    AddressMatchesIff(e, configKey, e.startTime);
    if pythFeed != cfg.pythFeed then Err(ConstraintHasOne)
    else if !AddressMatches(e, configKey, e.startTime) then Err(ConstraintSeeds)
    else if e.eventConfig != configKey || lockThread != e.lockThread then Err(ConstraintHasOne)
    else if e.outcome != Undrawn then Err(EventSettled)
    else if e.lockPrice != 0 then Err(LockPriceSet)
    else if e.lockTime > now then Err(EventNotLocked)
    else match reading
      case None => Ok(e.(outcome := Invalid))
      case Some(p) =>
        if p.price < 0 then Ok(e.(outcome := Invalid))
        else
          var lockPrice :- PriceWithDecimalChange(p.price, p.expo, e.priceDecimals);
          Ok(e.(lockPrice := lockPrice))
  }

  /** set_lock_price: writes the outcome or the lock price of `event` in
      place. */
  method SetLockPrice(config: EventConfig, event: Event, pythFeed: Pubkey, lockThread: Pubkey,
                      now: i64, reading: Option<PriceReading>) returns (r: Result<()>)
    modifies event
    ensures var s := SetLockPriceSpec(config.Record(), config.key, old(event.Record()), pythFeed, lockThread, now, reading);
      && (s.Ok? ==> r == Ok(()) && event.Record() == s.value)
      && (s.Err? ==> r == Err(s.error) && event.Record() == old(event.Record()))
  {
    AddressMatchesIff(event.Record(), config.key, event.startTime);
    if pythFeed != config.pythFeed {
      return Err(ConstraintHasOne);
    }
    if config.key != event.eventConfig {
      return Err(ConstraintSeeds);
    }
    if lockThread != event.lockThread {
      return Err(ConstraintHasOne);
    }
    if event.outcome != Undrawn {
      return Err(EventSettled);
    }
    if event.lockPrice != 0 {
      return Err(LockPriceSet);
    }
    if event.lockTime > now {
      return Err(EventNotLocked);
    }
    if reading.Some? {
      var p := reading.value;
      if p.price < 0 {
        event.outcome := Invalid;
      } else {
        var lockPrice := PriceWithDecimalChange(p.price, p.expo, event.priceDecimals);
        if lockPrice.Err? {
          return Err(lockPrice.error);
        }
        event.lockPrice := lockPrice.value;
      }
    } else {
      event.outcome := Invalid;
    }
    return Ok(());
  }

  /** The lock price can be set once: after a call that stored a non-zero
      lock price, or that made the round Invalid, a second one fails. */
  lemma LockTwiceFails(cfg: ConfigRecord, configKey: Pubkey, e: EventRecord, pythFeed: Pubkey,
                       lockThread: Pubkey, now: i64, reading: Option<PriceReading>, now2: i64, reading2: Option<PriceReading>)
    requires SetLockPriceSpec(cfg, configKey, e, pythFeed, lockThread, now, reading).Ok?
    requires var e2 := SetLockPriceSpec(cfg, configKey, e, pythFeed, lockThread, now, reading).value;
      e2.outcome != Undrawn || e2.lockPrice != 0
    ensures var e2 := SetLockPriceSpec(cfg, configKey, e, pythFeed, lockThread, now, reading).value;
      SetLockPriceSpec(cfg, configKey, e2, pythFeed, lockThread, now2, reading2).Err?
  {
  }

  /** A lock price that normalises to 0 (a zero price, or one below the
      dropped decimals) leaves the round as it was: Undrawn with no lock
      price, so the step can run again. */
  lemma ZeroLockPriceLeavesRoundOpen(cfg: ConfigRecord, configKey: Pubkey, e: EventRecord, pythFeed: Pubkey,
                                     lockThread: Pubkey, now: i64, p: PriceReading)
    requires SetLockPriceSpec(cfg, configKey, e, pythFeed, lockThread, now, Some(p)).Ok?
    requires p.price >= 0 && PriceWithDecimalChange(p.price, p.expo, e.priceDecimals) == Ok(0)
    ensures SetLockPriceSpec(cfg, configKey, e, pythFeed, lockThread, now, Some(p)) == Ok(e)
  {
  }
}
