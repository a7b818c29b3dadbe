/** The accounts of the program that instructions create and close, keyed
    by the seeds their addresses are derived from. */
module Ledger {
  import opened Ints
  import opened Util
  import opened OrderState
  import opened EventState
  import opened EventConfigState

  /** Config accounts, one per (authority, pyth feed, currency mint). */
  class ConfigAccounts {
    var configs: map<(Pubkey, Pubkey, Pubkey), EventConfig>

    constructor Empty()
      ensures configs == map[]
    {
      configs := map[];
    }
  }

  /** Event accounts, one per (config address, start time). */
  class EventAccounts {
    var events: map<(Pubkey, i64), Event>

    constructor Empty()
      ensures events == map[]
    {
      events := map[];
    }
  }

  /** The order accounts of one round, one per participant. */
  class OrderAccounts {
    /** The address of the round's event account. */
    const event: Pubkey
    var orders: map<Pubkey, Order>

    constructor Empty(event: Pubkey)
      ensures this.event == event && orders == map[]
    {
      this.event := event;
      orders := map[];
    }
  }
}
