/** programs/solora-pyth-price/src/state/event_config.rs: the schedule of
    a series of rounds on one price feed, in one currency. */
module EventConfigState {
  import opened Ints
  import opened Util
  import opened Bytes

  const EVENT_CONFIG_VERSION: u8 := 1
  const EVENT_CONFIG_SIZE: nat := 8 + 1 + 1 + 32 + 32 + 32 + 4 + 8 + 256

  /** The value of an EventConfig account's fields. */
  datatype ConfigRecord = ConfigRecord(
    bump: u8,
    version: u8,
    authority: Pubkey,       // owner of the configuration
    pythFeed: Pubkey,        // the price feed rounds are decided on
    currencyMint: Pubkey,    // the token staked, or the native mint for SOL
    intervalSeconds: u32,    // spacing between start, lock and settle
    nextEventStart: i64)     // when the next round starts

  /** The EventConfig account; create_event and update_event_config update
      its fields in place. */
  class EventConfig {
    /** The address of the account. */
    const key: Pubkey
    var bump: u8
    var version: u8
    var authority: Pubkey
    var pythFeed: Pubkey
    var currencyMint: Pubkey
    var intervalSeconds: u32
    var nextEventStart: i64

    function Record(): ConfigRecord
      reads this
    {
      ConfigRecord(bump, version, authority, pythFeed, currencyMint, intervalSeconds, nextEventStart)
    }

    /** A freshly allocated account: every field zero. */
    constructor Zeroed(key: Pubkey)
      ensures this.key == key && Record() == ConfigRecord(0, 0, ZERO_KEY, ZERO_KEY, ZERO_KEY, 0, 0)
    {
      this.key := key;
      bump, version := 0, 0;
      authority, pythFeed, currencyMint := ZERO_KEY, ZERO_KEY, ZERO_KEY;
      intervalSeconds, nextEventStart := 0, 0;
    }
  }

  /** `EventConfig::auth_seeds`: ["event_config", authority, pyth_feed,
      currency_mint, bump]. */
  function AuthSeeds(c: ConfigRecord): (seeds: seq<seq<u8>>)
    ensures |seeds| == 5 && seeds[0] == EVENT_CONFIG_SEED
  {
    [EVENT_CONFIG_SEED, c.authority, c.pythFeed, c.currencyMint, [c.bump]]
  }

  /** The seed bytes determine the authority, the feed, the mint and the
      bump, so there is one config per (authority, feed, mint). */
  lemma AuthSeedsInjective(c1: ConfigRecord, c2: ConfigRecord)
    requires Concat(AuthSeeds(c1)) == Concat(AuthSeeds(c2))
    ensures c1.authority == c2.authority && c1.pythFeed == c2.pythFeed
    ensures c1.currencyMint == c2.currencyMint && c1.bump == c2.bump
  {
    Concat5(EVENT_CONFIG_SEED, c1.authority, c1.pythFeed, c1.currencyMint, [c1.bump]);
    Concat5(EVENT_CONFIG_SEED, c2.authority, c2.pythFeed, c2.currencyMint, [c2.bump]);
    var s1, s2 := Concat(AuthSeeds(c1)), Concat(AuthSeeds(c2));
    assert c1.authority == s1[12..44] == s2[12..44] == c2.authority;
    assert c1.pythFeed == s1[44..76] == s2[44..76] == c2.pythFeed;
    assert c1.currencyMint == s1[76..108] == s2[76..108] == c2.currencyMint;
    assert c1.bump == s1[108] == s2[108] == c2.bump;
  }
}
