/** programs/solora-pyth-price/src/instructions/update_event_config.rs:
    the config's authority replaces its schedule. */
module UpdateEventConfig {
  import opened Ints
  import opened Errors
  import opened Util
  import EventState
  import opened EventConfigState
  import CreateEvent

  /** update_event_config signed by `signer`. The config's address is
      derived from the signer's key, so another signer fails the seeds
      check before the has_one check is reached. */
  function UpdateEventConfigSpec(cfg: ConfigRecord, signer: Pubkey, intervalSeconds: u32, nextEventStart: i64)
    : (r: Result<ConfigRecord>)
    ensures r.Ok? <==> signer == cfg.authority
    ensures r.Err? ==> r.error == ConstraintSeeds
    ensures r.Ok? ==> r.value.intervalSeconds == intervalSeconds && r.value.nextEventStart == nextEventStart
    // nothing else changes, so the config keeps signing with the seeds of its address
    ensures r.Ok? ==> r.value.(intervalSeconds := cfg.intervalSeconds, nextEventStart := cfg.nextEventStart) == cfg
    ensures r.Ok? ==> AuthSeeds(r.value) == AuthSeeds(cfg)
  {
    if signer != cfg.authority then Err(ConstraintSeeds)
    else Ok(cfg.(intervalSeconds := intervalSeconds, nextEventStart := nextEventStart))
  }

  /** Nothing bounds the new start: the authority can move the schedule
      back onto a round that already exists, and create_event then fails
      at that round's address until the round is closed. */
  lemma RewindBlocksCreation(cfg: ConfigRecord, configKey: Pubkey, e: EventState.EventRecord, signer: Pubkey,
                             pythFeed: Pubkey, currencyMint: Pubkey, feeAccount: Pubkey, lockThread: Pubkey,
                             settleThread: Pubkey, bump: u8, feeBps: u32, now: i64, reading: Option<PriceReading>,
                             calendar: i64 -> bool, rounds: map<(Pubkey, i64), EventState.EventRecord>)
    requires signer == cfg.authority && e.eventConfig == configKey && e.startTime < cfg.nextEventStart
    // the round `e` is still an account of the ledger
    requires (configKey, e.startTime) in rounds && rounds[(configKey, e.startTime)] == e
    ensures var u := UpdateEventConfigSpec(cfg, signer, cfg.intervalSeconds, e.startTime);
      && u.Ok? && u.value.nextEventStart < cfg.nextEventStart
      // the next round's address is the one `e` occupies
      && (configKey, u.value.nextEventStart) in rounds
      && CreateEvent.CreateEventSpec(u.value, configKey, (configKey, u.value.nextEventStart) in rounds, signer,
                                     pythFeed, currencyMint, feeAccount, lockThread, settleThread, bump, feeBps,
                                     now, reading, calendar)
         == Err(AccountAlreadyInUse)
  {
  }

  /** update_event_config: overwrites the schedule of `config` in place. */
  method UpdateEventConfig(config: EventConfig, signer: Pubkey, intervalSeconds: u32, nextEventStart: i64)
    returns (r: Result<()>)
    modifies config
    ensures var s := UpdateEventConfigSpec(old(config.Record()), signer, intervalSeconds, nextEventStart);
      && (s.Ok? ==> r == Ok(()) && config.Record() == s.value)
      && (s.Err? ==> r == Err(s.error) && config.Record() == old(config.Record()))
  {
    if signer != config.authority {
      return Err(ConstraintSeeds);
    }
    config.intervalSeconds := intervalSeconds;
    config.nextEventStart := nextEventStart;
    return Ok(());
  }
}
