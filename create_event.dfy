/** programs/solora-pyth-price/src/instructions/create_event.rs: the config
    authority opens the next round of a config and schedules its Lock and
    Settle steps. */
module CreateEvent {
  import opened Ints
  import opened Errors
  import opened Util
  import opened Outcomes
  import opened EventState
  import opened EventConfigState
  import opened Ledger

  /** `price_decimals`: the feed's decimals, at most MAX_PRICE_DECIMALS. */
  function ClampDecimals(feedDecimals: u8): (d: u8)
    ensures d <= feedDecimals && d <= MAX_PRICE_DECIMALS
    ensures d == feedDecimals || d == MAX_PRICE_DECIMALS
  {
    if feedDecimals > MAX_PRICE_DECIMALS then MAX_PRICE_DECIMALS else feedDecimals
  }

  /** The accounts passed in are the config's authority (the signer), feed
      and mint. */
  predicate EventAccountsMatch(cfg: ConfigRecord, signer: Pubkey, pythFeed: Pubkey, currencyMint: Pubkey) {
    signer == cfg.authority && pythFeed == cfg.pythFeed && currencyMint == cfg.currencyMint
  }

  /** The new config, the new event, and the times its Lock and Settle
      steps are scheduled for. */
  datatype Created = Created(config: ConfigRecord, event: EventRecord, lockAt: i64, settleAt: i64)

  /** create_event at time `now`. `taken` says whether an account already
      exists at the address of the config's next round; `reading` is the
      feed's current price (None when the feed account cannot be loaded);
      `calendar(t)` says whether the timestamp `t` is a representable date
      of the calendar library that formats the schedules. */
  function CreateEventSpec(cfg: ConfigRecord, configKey: Pubkey, taken: bool, signer: Pubkey, pythFeed: Pubkey,
                           currencyMint: Pubkey, feeAccount: Pubkey, lockThread: Pubkey, settleThread: Pubkey,
                           bump: u8, feeBps: u32, now: i64, reading: Option<PriceReading>,
                           calendar: i64 -> bool): (r: Result<Created>)
    ensures taken ==> r == Err(AccountAlreadyInUse)
    ensures (!taken && !EventAccountsMatch(cfg, signer, pythFeed, currencyMint)) ==> r == Err(ConstraintHasOne)
    // a lock time in the past is refused, one equal to now is not
    ensures (!taken && EventAccountsMatch(cfg, signer, pythFeed, currencyMint) &&
             cfg.nextEventStart + cfg.intervalSeconds < I64_LIMIT &&
             cfg.nextEventStart + cfg.intervalSeconds < now) ==> r == Err(InvalidLockTime)
    ensures r.Ok? <==>
      && !taken && EventAccountsMatch(cfg, signer, pythFeed, currencyMint)
      && cfg.nextEventStart + cfg.intervalSeconds < I64_LIMIT && now <= cfg.nextEventStart + cfg.intervalSeconds
      && reading.Some? && reading.value.expo != I32_MIN
      && calendar(cfg.nextEventStart + cfg.intervalSeconds)
      && cfg.nextEventStart + 2 * cfg.intervalSeconds < I64_LIMIT
      && calendar(cfg.nextEventStart + 2 * cfg.intervalSeconds)
    // the config's next round starts when this one locks
    ensures r.Ok? ==> r.value.config == cfg.(nextEventStart := cfg.nextEventStart + cfg.intervalSeconds)
    ensures r.Ok? ==>
      var e := r.value.event;
      && e.startTime == cfg.nextEventStart && e.lockTime == cfg.nextEventStart + cfg.intervalSeconds
      && e.waitPeriod == cfg.intervalSeconds && e.feeBps == feeBps && e.outcome == Undrawn
      && e.eventConfig == configKey && e.feeAccount == feeAccount
      && e.lockThread == lockThread && e.settleThread == settleThread && e.bump == bump
      && e.priceDecimals == ClampDecimals(FeedDecimals(reading.value.expo).value)
      && e.lockPrice == 0 && e.settlePrice == 0 && e.ordersSettled == 0
      && e.upAmount == 0 && e.downAmount == 0 && e.upCount == 0 && e.downCount == 0
    // the event is the one its auth seeds sign for, at the address it is created at
    ensures r.Ok? ==> WellFormed(r.value.event) && AddressMatches(r.value.event, configKey, cfg.nextEventStart)
    // Lock is scheduled at the lock time, Settle a waiting period later
    ensures r.Ok? ==> (r.value.lockAt == r.value.event.lockTime &&
                       r.value.settleAt == r.value.event.lockTime + r.value.event.waitPeriod)
  {
    if taken then Err(AccountAlreadyInUse)
    else if !EventAccountsMatch(cfg, signer, pythFeed, currencyMint) then Err(ConstraintHasOne)
    else
      var currentStart := cfg.nextEventStart;
      // `current_event_start + interval_seconds as i64` aborts on i64 overflow
      if currentStart + cfg.intervalSeconds >= I64_LIMIT then Err(Panic)
      else
        var lockTime: i64 := currentStart + cfg.intervalSeconds;
        if lockTime < now then Err(InvalidLockTime)
        else
          var waitPeriod := cfg.intervalSeconds;
          var cfg2 := cfg.(nextEventStart := lockTime);
          // the feed account is loaded with `unwrap`
          if reading.None? then Err(Panic)
          else
            var feedDecimals :- FeedDecimals(reading.value.expo);
            var e := EventRecord(bump, EVENT_VERSION, configKey, lockThread, settleThread, feeAccount, feeBps,
              currentStart, lockTime, waitPeriod, 0, 0, Undrawn, 0, 0, 0, 0, ClampDecimals(feedDecimals), 0);
            if !calendar(lockTime) then Err(InvalidLockTime)
            else if lockTime + waitPeriod >= I64_LIMIT then Err(Panic)
            else if !calendar(lockTime + waitPeriod) then Err(InvalidLockTime)
            else Ok(Created(cfg2, e, lockTime, lockTime + waitPeriod))
  }

  /** Consecutive rounds of a config tile time: each starts when the one
      before it locks. */
  lemma RoundsTile(cfg: ConfigRecord, configKey: Pubkey, signer: Pubkey, pythFeed: Pubkey, currencyMint: Pubkey,
                   feeAccount: Pubkey, lockThread: Pubkey, settleThread: Pubkey, bump: u8, feeBps: u32,
                   now: i64, reading: Option<PriceReading>, calendar: i64 -> bool,
                   lockThread2: Pubkey, settleThread2: Pubkey, bump2: u8, feeBps2: u32, now2: i64,
                   reading2: Option<PriceReading>)
    requires CreateEventSpec(cfg, configKey, false, signer, pythFeed, currencyMint, feeAccount, lockThread,
                             settleThread, bump, feeBps, now, reading, calendar).Ok?
    requires var c1 := CreateEventSpec(cfg, configKey, false, signer, pythFeed, currencyMint, feeAccount, lockThread,
                                       settleThread, bump, feeBps, now, reading, calendar).value;
      CreateEventSpec(c1.config, configKey, false, signer, pythFeed, currencyMint, feeAccount, lockThread2,
                      settleThread2, bump2, feeBps2, now2, reading2, calendar).Ok?
    ensures var c1 := CreateEventSpec(cfg, configKey, false, signer, pythFeed, currencyMint, feeAccount, lockThread,
                                      settleThread, bump, feeBps, now, reading, calendar).value;
      var c2 := CreateEventSpec(c1.config, configKey, false, signer, pythFeed, currencyMint, feeAccount, lockThread2,
                                settleThread2, bump2, feeBps2, now2, reading2, calendar).value;
      c2.event.startTime == c1.event.lockTime && c2.event.lockTime == c1.event.lockTime + cfg.intervalSeconds
  {
  }

  /** create_event: advances the config's next start in place and creates
      the event account at address `eventKey`, the address of the seeds
      ["event", config, next_event_start]. The scheduler threads and the
      transfers of their fees are not modelled. */
  method CreateEvent(config: EventConfig, events: EventAccounts, signer: Pubkey, pythFeed: Pubkey,
                     currencyMint: Pubkey, feeAccount: Pubkey, lockThread: Pubkey, settleThread: Pubkey,
                     eventKey: Pubkey, bump: u8, feeBps: u32, now: i64, reading: Option<PriceReading>,
                     calendar: i64 -> bool) returns (r: Result<(i64, i64)>)
    modifies config, events
    ensures var s := CreateEventSpec(old(config.Record()), config.key, (config.key, old(config.nextEventStart)) in old(events.events),
                                     signer, pythFeed, currencyMint, feeAccount, lockThread, settleThread, bump,
                                     feeBps, now, reading, calendar);
      && (s.Ok? ==>
            && r == Ok((s.value.lockAt, s.value.settleAt))
            && config.Record() == s.value.config
            && var k := (config.key, old(config.nextEventStart));
               && events.events.Keys == old(events.events).Keys + {k}
               && (forall k' | k' in old(events.events) :: events.events[k'] == old(events.events)[k'])
               && fresh(events.events[k]) && events.events[k].key == eventKey
               && events.events[k].Record() == s.value.event)
      && (s.Err? ==> r == Err(s.error) && config.Record() == old(config.Record()) && events.events == old(events.events))
  {
    var slot := (config.key, config.nextEventStart);
    if slot in events.events {
      return Err(AccountAlreadyInUse);
    }
    if signer != config.authority || pythFeed != config.pythFeed || currencyMint != config.currencyMint {
      return Err(ConstraintHasOne);
    }
    var currentStart := config.nextEventStart;
    if currentStart + config.intervalSeconds >= I64_LIMIT {
      return Err(Panic);
    }
    var lockTime: i64 := currentStart + config.intervalSeconds;
    if lockTime < now {
      return Err(InvalidLockTime);
    }
    var waitPeriod := config.intervalSeconds;
    config.nextEventStart := lockTime;
    // every failure from here on rolls the config back
    if reading.None? || reading.value.expo == I32_MIN {
      config.nextEventStart := currentStart;
      return Err(Panic);
    }
    var feedDecimals := FeedDecimals(reading.value.expo).value;
    var event := new Event.Init(eventKey, EventRecord(bump, EVENT_VERSION, config.key, lockThread, settleThread,
      feeAccount, feeBps, currentStart, lockTime, waitPeriod, 0, 0, Undrawn, 0, 0, 0, 0, ClampDecimals(feedDecimals), 0));
    if !calendar(lockTime) {
      config.nextEventStart := currentStart;
      return Err(InvalidLockTime);
    }
    if lockTime + waitPeriod >= I64_LIMIT {
      config.nextEventStart := currentStart;
      return Err(Panic);
    }
    if !calendar(lockTime + waitPeriod) {
      config.nextEventStart := currentStart;
      return Err(InvalidLockTime);
    }
    events.events := events.events[slot := event];
    return Ok((lockTime, lockTime + waitPeriod));
  }
}
