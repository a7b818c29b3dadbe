/** A round as a whole: its event together with the order accounts that
    point at it, and the invariant every instruction keeps between them. */
module Round {
  import opened Ints
  import opened Errors
  import opened Util
  import opened Outcomes
  import opened OrderState
  import opened EventState
  import opened EventConfigState
  import CreateEvent
  import CreateOrder
  import SetLockPrice
  import SettleEvent
  import SettleExpiredEvent
  import SettleOrder
  import CloseAccounts

  /** The orders still open on `e`, whose address is `eventKey`: each one
      belongs to the participant it is keyed by, is for this event, is on
      Up or Down and is covered by its side's pool; every order placed is
      either still open or counted as settled. */
  ghost predicate Consistent(e: EventRecord, eventKey: Pubkey, orders: map<Pubkey, Order>) {
    && e.ordersSettled + |orders| == e.upCount + e.downCount
    && forall k | k in orders ::
         && orders[k].authority == k && orders[k].event == eventKey
         && IsDirection(orders[k].outcome)
         && orders[k].amount <= CreateOrder.PoolOf(e, orders[k].outcome)
  }

  /** The whole round invariant. */
  ghost predicate Invariant(e: EventRecord, eventKey: Pubkey, orders: map<Pubkey, Order>) {
    WellFormed(e) && Consistent(e, eventKey, orders)
  }

  /** create_event starts a round that keeps the invariant with no orders. */
  lemma CreateEventEstablishes(cfg: ConfigRecord, configKey: Pubkey, signer: Pubkey, pythFeed: Pubkey,
                               currencyMint: Pubkey, feeAccount: Pubkey, lockThread: Pubkey, settleThread: Pubkey,
                               bump: u8, feeBps: u32, now: i64, reading: Option<PriceReading>,
                               calendar: i64 -> bool, eventKey: Pubkey)
    requires CreateEvent.CreateEventSpec(cfg, configKey, false, signer, pythFeed, currencyMint, feeAccount,
                                         lockThread, settleThread, bump, feeBps, now, reading, calendar).Ok?
    ensures Invariant(CreateEvent.CreateEventSpec(cfg, configKey, false, signer, pythFeed, currencyMint, feeAccount,
                                                  lockThread, settleThread, bump, feeBps, now, reading,
                                                  calendar).value.event, eventKey, map[])
  {
  }

  /** create_order keeps the invariant: the new order is counted, and
      doubling a pool before adding the stake only raises it. */
  lemma CreateOrderPreserves(cfg: ConfigRecord, configKey: Pubkey, e: EventRecord, eventKey: Pubkey,
                             orders: map<Pubkey, Order>, signer: Pubkey, bump: u8, side: Outcome,
                             amount: u64, now: i64, extraMint: Option<Pubkey>)
    requires Invariant(e, eventKey, orders)
    requires CreateOrder.CreateOrderSpec(cfg, configKey, e, eventKey, orders, signer, bump, side,
                                         amount, now, extraMint).Ok?
    ensures var s := CreateOrder.CreateOrderSpec(cfg, configKey, e, eventKey, orders, signer, bump, side,
                                                 amount, now, extraMint).value;
      Invariant(s.event, eventKey, s.orders)
  {
    var s := CreateOrder.CreateOrderSpec(cfg, configKey, e, eventKey, orders, signer, bump, side,
                                         amount, now, extraMint).value;
    CreateOrder.StakeSideGuard(side);
    assert |s.orders| == |orders| + 1;
    forall k | k in s.orders
      ensures s.orders[k].amount <= CreateOrder.PoolOf(s.event, s.orders[k].outcome)
    {
      if k != signer {
        assert CreateOrder.PoolOf(e, orders[k].outcome) <= CreateOrder.PoolOf(s.event, orders[k].outcome);
      }
    }
  }

  /** settle_order keeps the invariant: the order leaves the open set and
      joins the settled count, and the pools do not change. */
  lemma SettleOrderPreserves(configKey: Pubkey, e: EventRecord, eventKey: Pubkey,
                             orders: map<Pubkey, Order>, signer: Pubkey, feeAccount: Pubkey)
    requires Invariant(e, eventKey, orders)
    requires SettleOrder.SettleOrderSpec(configKey, e, eventKey, orders, signer, feeAccount).Ok?
    ensures var s := SettleOrder.SettleOrderSpec(configKey, e, eventKey, orders, signer, feeAccount).value;
      Invariant(s.event, eventKey, s.orders)
  {
    var s := SettleOrder.SettleOrderSpec(configKey, e, eventKey, orders, signer, feeAccount).value;
    assert s.orders.Keys == orders.Keys - {signer};
    assert |s.orders| == |orders| - 1;
  }

  /** set_lock_price keeps the invariant; it touches neither the orders nor
      the pools. */
  lemma SetLockPricePreserves(cfg: ConfigRecord, configKey: Pubkey, e: EventRecord, eventKey: Pubkey,
                              orders: map<Pubkey, Order>, pythFeed: Pubkey, lockThread: Pubkey, now: i64,
                              reading: Option<PriceReading>)
    requires Invariant(e, eventKey, orders)
    requires SetLockPrice.SetLockPriceSpec(cfg, configKey, e, pythFeed, lockThread, now, reading).Ok?
    ensures Invariant(SetLockPrice.SetLockPriceSpec(cfg, configKey, e, pythFeed, lockThread, now, reading).value,
                      eventKey, orders)
  {
    var e2 := SetLockPrice.SetLockPriceSpec(cfg, configKey, e, pythFeed, lockThread, now, reading).value;
    assert forall side :: CreateOrder.PoolOf(e2, side) == CreateOrder.PoolOf(e, side);
  }

  /** settle_event keeps the invariant: it decides the round only once a
      lock price is set. */
  lemma SettleEventPreserves(cfg: ConfigRecord, configKey: Pubkey, e: EventRecord, eventKey: Pubkey,
                             orders: map<Pubkey, Order>, pythFeed: Pubkey, settleThread: Pubkey, now: i64,
                             reading: Option<PriceReading>)
    requires Invariant(e, eventKey, orders)
    requires SettleEvent.SettleEventSpec(cfg, configKey, e, pythFeed, settleThread, now, reading).Ok?
    ensures Invariant(SettleEvent.SettleEventSpec(cfg, configKey, e, pythFeed, settleThread, now, reading).value,
                      eventKey, orders)
  {
    var e2 := SettleEvent.SettleEventSpec(cfg, configKey, e, pythFeed, settleThread, now, reading).value;
    assert forall side :: CreateOrder.PoolOf(e2, side) == CreateOrder.PoolOf(e, side);
  }

  /** settle_expired_event keeps the invariant. */
  lemma SettleExpiredEventPreserves(cfg: ConfigRecord, configKey: Pubkey, e: EventRecord, eventKey: Pubkey,
                                    orders: map<Pubkey, Order>, signer: Pubkey, now: i64)
    requires Invariant(e, eventKey, orders)
    requires SettleExpiredEvent.SettleExpiredEventSpec(cfg, configKey, e, signer, now).Ok?
    ensures Invariant(SettleExpiredEvent.SettleExpiredEventSpec(cfg, configKey, e, signer, now).value,
                      eventKey, orders)
  {
    var e2 := SettleExpiredEvent.SettleExpiredEventSpec(cfg, configKey, e, signer, now).value;
    assert forall side :: CreateOrder.PoolOf(e2, side) == CreateOrder.PoolOf(e, side);
  }

  /** close_accounts closes an event only when none of its orders is still
      open, so no participant loses an order to the close. */
  lemma CloseOnlyWhenNoOrdersOpen(cfg: ConfigRecord, configKey: Pubkey, e: EventRecord, eventKey: Pubkey,
                                  orders: map<Pubkey, Order>, authority: Pubkey, lockThread: Pubkey,
                                  settleThread: Pubkey, now: i64, balance: u64)
    requires Consistent(e, eventKey, orders)
    requires CloseAccounts.CloseAccountsSpec(cfg, configKey, e, authority, lockThread, settleThread, now, balance).Ok?
    ensures CloseAccounts.CloseAccountsSpec(cfg, configKey, e, authority, lockThread, settleThread, now, balance).value.Closed?
            <==> orders == map[]
  {
    if orders != map[] {
      var k :| k in orders;
      assert |orders| > 0;
    }
  }

  /** In a decided round that keeps the invariant, a winner whose payout
      fits the integer types can always collect it: the only ways
      settle_order can still fail are the account checks and the settled
      counter. */
  lemma WinnerCanSettle(configKey: Pubkey, e: EventRecord, eventKey: Pubkey, orders: map<Pubkey, Order>,
                        signer: Pubkey)
    requires Invariant(e, eventKey, orders)
    requires configKey == e.eventConfig && e.feeBps <= 10000
    requires signer in orders && SettleOrder.Decided(e) && orders[signer].outcome == e.outcome
    requires orders[signer].amount * SettleOrder.LosingPool(e) < U128_LIMIT
    requires orders[signer].amount + SettleOrder.LosingPool(e) < U64_LIMIT
    requires e.ordersSettled + 1 < U32_LIMIT
    ensures SettleOrder.SettleOrderSpec(configKey, e, eventKey, orders, signer, e.feeAccount).Ok?
  {
    var o := orders[signer];
    assert CreateOrder.PoolOf(e, o.outcome) == SettleOrder.WinningPool(e);
    SettleOrder.SettlementWinnerSucceeds(e, o);
  }
}
