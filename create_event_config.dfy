/** programs/solora-pyth-price/src/instructions/create_event_config.rs:
    the signer opens a series of rounds on a feed, in a currency. */
module CreateEventConfig {
  import opened Ints
  import opened Errors
  import opened Util
  import opened Bytes
  import opened EventConfigState
  import opened Ledger

  /** create_event_config by `signer`; `taken` says whether an account
      already exists at the address of the seeds ["event_config", signer,
      pythFeed, currencyMint], and `bump` is that address's bump. */
  function CreateEventConfigSpec(taken: bool, signer: Pubkey, pythFeed: Pubkey, currencyMint: Pubkey, bump: u8,
                                 intervalSeconds: u32, nextEventStart: i64): (r: Result<ConfigRecord>)
    ensures r.Err? <==> taken
    ensures r.Err? ==> r.error == AccountAlreadyInUse
    // the signer owns the new config, which takes its schedule verbatim
    ensures r.Ok? ==> r.value.authority == signer && r.value.pythFeed == pythFeed && r.value.currencyMint == currencyMint
    ensures r.Ok? ==> r.value.intervalSeconds == intervalSeconds && r.value.nextEventStart == nextEventStart
    ensures r.Ok? ==> r.value.version == EVENT_CONFIG_VERSION && r.value.bump == bump
    // the seeds the config signs with are the ones its address comes from
    ensures r.Ok? ==> AuthSeeds(r.value) == [EVENT_CONFIG_SEED, signer, pythFeed, currencyMint, [bump]]
  {
    if taken then Err(AccountAlreadyInUse)
    else Ok(ConfigRecord(bump, EVENT_CONFIG_VERSION, signer, pythFeed, currencyMint, intervalSeconds, nextEventStart))
  }

  /** Two configs that sign with the same seeds belong to the same
      authority, feed and mint: they were created at the same address. */
  lemma OneConfigPerAddress(signer1: Pubkey, pythFeed1: Pubkey, currencyMint1: Pubkey, bump1: u8, interval1: u32, next1: i64,
                            signer2: Pubkey, pythFeed2: Pubkey, currencyMint2: Pubkey, bump2: u8, interval2: u32, next2: i64)
    requires CreateEventConfigSpec(false, signer1, pythFeed1, currencyMint1, bump1, interval1, next1).Ok?
    requires CreateEventConfigSpec(false, signer2, pythFeed2, currencyMint2, bump2, interval2, next2).Ok?
    requires Concat(AuthSeeds(CreateEventConfigSpec(false, signer1, pythFeed1, currencyMint1, bump1, interval1, next1).value))
          == Concat(AuthSeeds(CreateEventConfigSpec(false, signer2, pythFeed2, currencyMint2, bump2, interval2, next2).value))
    ensures (signer1, pythFeed1, currencyMint1) == (signer2, pythFeed2, currencyMint2) && bump1 == bump2
  {
    AuthSeedsInjective(CreateEventConfigSpec(false, signer1, pythFeed1, currencyMint1, bump1, interval1, next1).value,
                       CreateEventConfigSpec(false, signer2, pythFeed2, currencyMint2, bump2, interval2, next2).value);
  }

  /** create_event_config: creates the account at `key`, the address of
      the seeds, and records it under (signer, feed, mint). */
  method CreateEventConfig(configs: ConfigAccounts, signer: Pubkey, pythFeed: Pubkey, currencyMint: Pubkey,
                           key: Pubkey, bump: u8, intervalSeconds: u32, nextEventStart: i64) returns (r: Result<()>)
    modifies configs
    ensures var slot := (signer, pythFeed, currencyMint);
      var s := CreateEventConfigSpec(slot in old(configs.configs), signer, pythFeed, currencyMint, bump,
                                     intervalSeconds, nextEventStart);
      && (s.Ok? ==>
            && r == Ok(())
            && configs.configs.Keys == old(configs.configs).Keys + {slot}
            && (forall k | k in old(configs.configs) :: configs.configs[k] == old(configs.configs)[k])
            && fresh(configs.configs[slot]) && configs.configs[slot].key == key
            && configs.configs[slot].Record() == s.value)
      && (s.Err? ==> r == Err(s.error) && configs.configs == old(configs.configs))
  {
    var slot := (signer, pythFeed, currencyMint);
    if slot in configs.configs {
      return Err(AccountAlreadyInUse);
    }
    var config := new EventConfig.Zeroed(key);
    config.bump := bump;
    config.version := EVENT_CONFIG_VERSION;
    config.authority := signer;
    config.pythFeed := pythFeed;
    config.currencyMint := currencyMint;
    config.intervalSeconds := intervalSeconds;
    config.nextEventStart := nextEventStart;
    configs.configs := configs.configs[slot := config];
    return Ok(());
  }
}
