/** programs/solora-pyth-price/src/instructions/settle_expired_event.rs:
    the config authority's fallback that makes a round that was never
    settled Invalid, so that every stake is refunded. */
module SettleExpiredEvent {
  import opened Ints
  import opened Errors
  import opened Util
  import opened Outcomes
  import opened EventState
  import opened EventConfigState
  import SettleEvent

  /** A round expires a second waiting period after the settle time. */
  function ExpiryTime(e: EventRecord): (t: int)
    // a round expires no earlier than it can be settled
    ensures t >= e.lockTime + e.waitPeriod
  {
    // `(wait_period as i64).checked_mul(2)` cannot fail for a u32
    e.lockTime + e.waitPeriod * 2
  }

  /** settle_expired_event signed by `signer` at time `now`. */
  function SettleExpiredEventSpec(cfg: ConfigRecord, configKey: Pubkey, e: EventRecord, signer: Pubkey, now: i64)
    : (r: Result<EventRecord>)
    ensures signer != cfg.authority ==> r == Err(ConstraintHasOne)
    ensures (signer == cfg.authority && configKey == e.eventConfig && e.outcome != Undrawn) ==>
      r == Err(EventSettled)
    ensures (signer == cfg.authority && configKey == e.eventConfig && e.outcome == Undrawn &&
             ExpiryTime(e) < I64_LIMIT && now < ExpiryTime(e)) ==> r == Err(EventNotExpired)
    ensures r.Ok? <==> (signer == cfg.authority && configKey == e.eventConfig && e.outcome == Undrawn &&
                        ExpiryTime(e) < I64_LIMIT && ExpiryTime(e) <= now)
    // only the outcome changes, whether or not a lock price was set
    ensures r.Ok? ==> r.value == e.(outcome := Invalid)
  {
    AddressMatchesIff(e, configKey, e.startTime);
    if signer != cfg.authority then Err(ConstraintHasOne)
    else if !AddressMatches(e, configKey, e.startTime) then Err(ConstraintSeeds)
    else if e.outcome != Undrawn then Err(EventSettled)
    // `lock_time + 2 * wait_period` aborts on i64 overflow
    else if ExpiryTime(e) >= I64_LIMIT then Err(Panic)
    else if now < ExpiryTime(e) then Err(EventNotExpired)
    else Ok(e.(outcome := Invalid))
  }

  /** settle_expired_event: the outcome is written before the expiry check;
      a failed check rolls the write back, as the failed transaction does. */
  method SettleExpiredEvent(config: EventConfig, event: Event, signer: Pubkey, now: i64) returns (r: Result<()>)
    modifies event
    ensures var s := SettleExpiredEventSpec(config.Record(), config.key, old(event.Record()), signer, now);
      && (s.Ok? ==> r == Ok(()) && event.Record() == s.value)
      && (s.Err? ==> r == Err(s.error) && event.Record() == old(event.Record()))
  {
    AddressMatchesIff(event.Record(), config.key, event.startTime);
    if signer != config.authority {
      return Err(ConstraintHasOne);
    }
    if config.key != event.eventConfig {
      return Err(ConstraintSeeds);
    }
    if event.outcome != Undrawn {
      return Err(EventSettled);
    }
    var before := event.outcome;
    event.outcome := Invalid;
    var expiry := event.lockTime + event.waitPeriod * 2;
    if expiry >= I64_LIMIT {
      event.outcome := before;
      return Err(Panic);
    }
    if now < expiry {
      event.outcome := before;
      return Err(EventNotExpired);
    }
    return Ok(());
  }

  /** The fallback never pre-empts the Settle step: when a round can be
      expired, its waiting period is over, so settle_event on the same
      round would not be refused for waiting, and succeeds whenever its
      accounts match, a lock price is set and the price normalises. */
  lemma ExpiryAfterSettleWindow(cfg: ConfigRecord, configKey: Pubkey, e: EventRecord, signer: Pubkey, now: i64,
                                pythFeed: Pubkey, settleThread: Pubkey, reading: Option<PriceReading>)
    requires SettleExpiredEventSpec(cfg, configKey, e, signer, now).Ok?
    ensures e.lockTime + e.waitPeriod < I64_LIMIT && e.lockTime + e.waitPeriod <= now
    ensures SettleEvent.SettleEventSpec(cfg, configKey, e, pythFeed, settleThread, now, reading) != Err(EventInWaitingPeriod)
    ensures (SettleEvent.SettleAccounts(cfg, configKey, e, pythFeed, settleThread) && e.lockPrice > 0 &&
             (reading.None? || reading.value.price < 0 ||
              PriceWithDecimalChange(reading.value.price, reading.value.expo, e.priceDecimals).Ok?)) ==>
      SettleEvent.SettleEventSpec(cfg, configKey, e, pythFeed, settleThread, now, reading).Ok?
  {
  }
}
