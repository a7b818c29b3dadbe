/** programs/solora-pyth-price/src/state/event.rs: the account of one
    round (the pool), and the round invariant that the instructions keep. */
module EventState {
  import opened Ints
  import opened Util
  import opened Outcomes
  import opened Bytes

  const EVENT_VERSION: u8 := 1
  const EVENT_SIZE: nat :=
    8 + 1 + 1 + 32 + 32 + 32 + 32 + 4 + 8 + 8 + 4 + 8 + 8 + 2 + 16 + 16 + 4 + 4 + 1 + 4 + 256

  /** state.rs: at most this many decimals of a price are compared. */
  const MAX_PRICE_DECIMALS: u8 := 4

  /** The value of an Event account's fields. */
  datatype EventRecord = EventRecord(
    bump: u8,
    version: u8,
    eventConfig: Pubkey,
    lockThread: Pubkey,     // the scheduler thread that runs the Lock step
    settleThread: Pubkey,   // the scheduler thread that runs the Settle step
    feeAccount: Pubkey,     // receives the fees
    feeBps: u32,            // fee rate in basis points of the earnings
    startTime: i64,         // the round is open to orders from here
    lockTime: i64,          // and closed to new orders from here on
    waitPeriod: u32,        // seconds between lock and settle or close
    lockPrice: u64,         // normalised oracle price at lock, 0 until set
    settlePrice: u64,       // normalised oracle price at settle, 0 until set
    outcome: Outcome,       // Undrawn until the round resolves
    upAmount: u128,         // Up pool
    downAmount: u128,       // Down pool
    upCount: u32,
    downCount: u32,
    priceDecimals: u8,      // decimals of a price that count
    ordersSettled: u32)     // orders paid out; all are once it reaches upCount + downCount

  /** The Event account; the instructions update its fields in place. */
  class Event {
    /** The address of the account. */
    const key: Pubkey
    var bump: u8
    var version: u8
    var eventConfig: Pubkey
    var lockThread: Pubkey
    var settleThread: Pubkey
    var feeAccount: Pubkey
    var feeBps: u32
    var startTime: i64
    var lockTime: i64
    var waitPeriod: u32
    var lockPrice: u64
    var settlePrice: u64
    var outcome: Outcome
    var upAmount: u128
    var downAmount: u128
    var upCount: u32
    var downCount: u32
    var priceDecimals: u8
    var ordersSettled: u32

    function Record(): EventRecord
      reads this
    {
      EventRecord(bump, version, eventConfig, lockThread, settleThread, feeAccount, feeBps,
        startTime, lockTime, waitPeriod, lockPrice, settlePrice, outcome, upAmount, downAmount,
        upCount, downCount, priceDecimals, ordersSettled)
    }

    /** A newly created account at `key` whose fields the creating
        instruction sets to `rec`. */
    constructor Init(key: Pubkey, rec: EventRecord)
      ensures this.key == key && Record() == rec
    {
      this.key := key;
      bump, version := rec.bump, rec.version;
      eventConfig, lockThread, settleThread, feeAccount := rec.eventConfig, rec.lockThread, rec.settleThread, rec.feeAccount;
      feeBps, startTime, lockTime, waitPeriod := rec.feeBps, rec.startTime, rec.lockTime, rec.waitPeriod;
      lockPrice, settlePrice, outcome := rec.lockPrice, rec.settlePrice, rec.outcome;
      upAmount, downAmount, upCount, downCount := rec.upAmount, rec.downAmount, rec.upCount, rec.downCount;
      priceDecimals, ordersSettled := rec.priceDecimals, rec.ordersSettled;
    }
  }

  /** `Event::auth_seeds` with the bytes of the start time:
      ["event", event_config, start_time, bump]. */
  function AuthSeeds(e: EventRecord): (seeds: seq<seq<u8>>)
    ensures |seeds| == 4 && seeds[0] == EVENT_SEED && |seeds[2]| == 8
  {
    [EVENT_SEED, e.eventConfig, I64LeBytes(e.startTime), [e.bump]]
  }

  /** The seed bytes of an event address for the config `config` and the
      timestamp `t`. */
  function EventSeeds(config: Pubkey, t: i64, bump: u8): (bs: seq<u8>)
    ensures |bs| == 46
  {
    Concat4(EVENT_SEED, config, I64LeBytes(t), [bump]);
    Concat([EVENT_SEED, config, I64LeBytes(t), [bump]])
  }

  /** The seed bytes determine the config, the timestamp and the bump, so
      there is one event address per config per timestamp. */
  lemma EventSeedsInjective(c1: Pubkey, t1: i64, b1: u8, c2: Pubkey, t2: i64, b2: u8)
    requires EventSeeds(c1, t1, b1) == EventSeeds(c2, t2, b2)
    ensures c1 == c2 && t1 == t2 && b1 == b2
  {
    Concat4(EVENT_SEED, c1, I64LeBytes(t1), [b1]);
    Concat4(EVENT_SEED, c2, I64LeBytes(t2), [b2]);
    var s1, s2 := EventSeeds(c1, t1, b1), EventSeeds(c2, t2, b2);
    assert c1 == s1[5..37] == s2[5..37] == c2;
    assert I64LeBytes(t1) == s1[37..45] == s2[37..45] == I64LeBytes(t2);
    I64LeBytesInjective(t1, t2);
    assert b1 == s1[45] == s2[45] == b2;
  }

  /** An account check `seeds = ["event", config, t], bump = event.bump`:
      the address these seeds derive is the one the event was created at,
      from its own auth seeds. Addresses are compared through their seed
      bytes (the address derivation is taken to be collision-free). */
  predicate AddressMatches(e: EventRecord, config: Pubkey, t: i64) {
    EventSeeds(config, t, e.bump) == Concat(AuthSeeds(e))
  }

  /** The check passes exactly for the event's own config and start time. */
  lemma AddressMatchesIff(e: EventRecord, config: Pubkey, t: i64)
    ensures AddressMatches(e, config, t) <==> config == e.eventConfig && t == e.startTime
  {
    if AddressMatches(e, config, t) {
      EventSeedsInjective(config, t, e.bump, e.eventConfig, e.startTime, e.bump);
    }
  }

  /** The address check of create_order.rs and set_lock_price.rs, whose
      seeds take the event's lock time where the event was created at its
      start time. */
  predicate LockTimeSeedsMatch(e: EventRecord, config: Pubkey) {
    AddressMatches(e, config, e.lockTime)
  }

  /** The lock-time seeds match only an event whose lock time is its start
      time, so they reject every event a non-zero interval made. */
  lemma LockTimeSeedsRejected(e: EventRecord, config: Pubkey)
    ensures LockTimeSeedsMatch(e, config) <==> config == e.eventConfig && e.lockTime == e.startTime
    ensures WellFormed(e) && e.waitPeriod > 0 ==> !LockTimeSeedsMatch(e, config)
  {
    AddressMatchesIff(e, config, e.lockTime);
  }

  /** The round invariant: what every instruction keeps true of an Event
      that create_event made. */
  ghost predicate WellFormed(e: EventRecord) {
    && e.version == EVENT_VERSION
    // the lock comes one interval after the start
    && e.lockTime == e.startTime + e.waitPeriod
    && e.priceDecimals <= MAX_PRICE_DECIMALS
    // Up, Down and Same are only assigned by Settle, which needs a lock price
    && (e.outcome in {Up, Down, Same} ==> e.lockPrice > 0)
    // a settle price is only stored together with one of those outcomes
    && (e.settlePrice > 0 ==> e.outcome in {Up, Down, Same})
    // no order is paid out before the round resolves
    && (e.outcome == Undrawn ==> e.ordersSettled == 0)
  }
}
