/** programs/solora-pyth-price/src/instructions/close_accounts.rs: once a
    round is over, its threads are deleted, and when every order has been
    settled the event account is closed to the config's authority. */
module CloseAccounts {
  import opened Ints
  import opened Errors
  import opened Util
  import opened Outcomes
  import opened EventState
  import opened EventConfigState
  import opened Ledger

  /** The accounts passed in are the config's authority and the event's
      own address and threads. */
  predicate CloseAccountsMatch(cfg: ConfigRecord, configKey: Pubkey, e: EventRecord, authority: Pubkey,
                               lockThread: Pubkey, settleThread: Pubkey) {
    authority == cfg.authority && configKey == e.eventConfig && lockThread == e.lockThread && settleThread == e.settleThread
  }

  /** What the call does to the event: it is kept while orders are still
      to be settled, or closed, with `swept` tokens moved from its currency
      account to the authority. */
  datatype Closure = Kept | Closed(swept: u64)

  /** Every order of the round has been settled. */
  predicate AllSettled(e: EventRecord) {
    e.upCount + e.downCount == e.ordersSettled
  }

  /** close_accounts at time `now`; `balance` is the balance of the event's
      currency token account, which is read only when the mint is not the
      native one. */
  function CloseAccountsSpec(cfg: ConfigRecord, configKey: Pubkey, e: EventRecord, authority: Pubkey,
                             lockThread: Pubkey, settleThread: Pubkey, now: i64, balance: u64): (r: Result<Closure>)
    ensures !CloseAccountsMatch(cfg, configKey, e, authority, lockThread, settleThread) ==> r.Err?
    // a round still Undrawn, or whose waiting period after the lock has not
    // passed, is not closed
    ensures (CloseAccountsMatch(cfg, configKey, e, authority, lockThread, settleThread) && e.outcome == Undrawn) ==>
      r == Err(EventNotSettled)
    ensures (CloseAccountsMatch(cfg, configKey, e, authority, lockThread, settleThread) && e.outcome != Undrawn &&
             e.lockTime + e.waitPeriod < I64_LIMIT && now < e.lockTime + e.waitPeriod) ==> r == Err(EventNotSettled)
    ensures r.Ok? <==>
      && CloseAccountsMatch(cfg, configKey, e, authority, lockThread, settleThread) && e.outcome != Undrawn
      && e.lockTime + e.waitPeriod < I64_LIMIT && e.lockTime + e.waitPeriod <= now
      && e.upCount + e.downCount < U32_LIMIT
    // the event is closed exactly when the orders settled match the orders placed
    ensures r.Ok? ==> (r.value.Closed? <==> AllSettled(e))
    // only a token currency has an account to sweep, and nothing is left in it
    ensures r.Ok? && r.value.Closed? ==> r.value.swept == (if cfg.currencyMint == NATIVE_MINT then 0 else balance)
  {
    AddressMatchesIff(e, configKey, e.startTime);
    if authority != cfg.authority then Err(ConstraintHasOne)
    else if !AddressMatches(e, configKey, e.startTime) then Err(ConstraintSeeds)
    else if e.eventConfig != configKey || lockThread != e.lockThread || settleThread != e.settleThread then
      Err(ConstraintHasOne)
    else if e.outcome == Undrawn then Err(EventNotSettled)
    // `lock_time + wait_period as i64` aborts on overflow
    else if e.lockTime + e.waitPeriod >= I64_LIMIT then Err(Panic)
    else if e.lockTime + e.waitPeriod > now then Err(EventNotSettled)
    // so does `up_count + down_count`
    else if e.upCount + e.downCount >= U32_LIMIT then Err(Panic)
    else if AllSettled(e) then
      Ok(Closed(if IsNativeMint(cfg.currencyMint) then 0 else balance))
    else Ok(Kept)
  }

  /** close_accounts: removes the event account from `events` when it is
      closed. The thread deletions and the token transfer are not
      modelled beyond the amount swept. */
  method CloseAccounts(config: EventConfig, events: EventAccounts, event: Event, authority: Pubkey,
                       lockThread: Pubkey, settleThread: Pubkey, now: i64, balance: u64) returns (r: Result<Closure>)
    requires (config.key, event.startTime) in events.events && events.events[(config.key, event.startTime)] == event
    modifies events
    ensures r == CloseAccountsSpec(old(config.Record()), config.key, event.Record(), authority, lockThread,
                                   settleThread, now, balance)
    ensures r.Ok? && r.value.Closed? ==>
      events.events == old(events.events) - {(config.key, event.startTime)}
    ensures !(r.Ok? && r.value.Closed?) ==> events.events == old(events.events)
  {
    AddressMatchesIff(event.Record(), config.key, event.startTime);
    if authority != config.authority {
      return Err(ConstraintHasOne);
    }
    if config.key != event.eventConfig {
      return Err(ConstraintSeeds);
    }
    if lockThread != event.lockThread || settleThread != event.settleThread {
      return Err(ConstraintHasOne);
    }
    if event.outcome == Undrawn {
      return Err(EventNotSettled);
    }
    if event.lockTime + event.waitPeriod >= I64_LIMIT {
      return Err(Panic);
    }
    if event.lockTime + event.waitPeriod > now {
      return Err(EventNotSettled);
    }
    if event.upCount + event.downCount >= U32_LIMIT {
      return Err(Panic);
    }
    if event.upCount + event.downCount != event.ordersSettled {
      return Ok(Kept);
    }
    var swept: u64 := 0;
    if !IsNativeMint(config.currencyMint) && balance > 0 {
      swept := balance;
    }
    events.events := events.events - {(config.key, event.startTime)};
    return Ok(Closed(swept));
  }
}
