/** programs/solora-pyth-price/src/state/order.rs: one participant's stake
    in one round. An order account is never changed after it is created;
    settling it closes it. */
module OrderState {
  import opened Ints
  import opened Util
  import opened Outcomes
  import opened Bytes

  const ORDER_SIZE: nat := 8 + 1 + 1 + 4 + 32 + 32 + 1 + 8 + 32 + 4 + 8 + 8 + 4

  /** Serialised size of an Order: the 8-byte account discriminator, bump,
      version, two keys, the one-byte outcome tag and the u64 amount. */
  const ORDER_DATA_SIZE: nat := 8 + 1 + 1 + 32 + 32 + 1 + 8

  datatype Order = Order(
    bump: u8,
    version: u8,
    authority: Pubkey,
    event: Pubkey,
    outcome: Outcome,
    amount: u64)  // the principal, refunded whenever the payout is a refund

  /** `Order::space`: the account size allocated for an order, which holds
      a serialised Order. */
  function Space(): (n: nat)
    ensures n == ORDER_SIZE
    ensures n >= ORDER_DATA_SIZE
  {
    ORDER_SIZE
  }

  /** `Order::auth_seeds`: ["order", event, authority, bump]. */
  function AuthSeeds(o: Order): (seeds: seq<seq<u8>>)
    ensures |seeds| == 4 && seeds[0] == ORDER_SEED
  {
    [ORDER_SEED, o.event, o.authority, [o.bump]]
  }

  /** The seed bytes determine the event, the participant and the bump, so
      there is one order address per participant per round. */
  lemma AuthSeedsInjective(o1: Order, o2: Order)
    requires Concat(AuthSeeds(o1)) == Concat(AuthSeeds(o2))
    ensures o1.event == o2.event && o1.authority == o2.authority && o1.bump == o2.bump
  {
    Concat4(ORDER_SEED, o1.event, o1.authority, [o1.bump]);
    Concat4(ORDER_SEED, o2.event, o2.authority, [o2.bump]);
    var s1, s2 := Concat(AuthSeeds(o1)), Concat(AuthSeeds(o2));
    assert o1.event == s1[5..37] == s2[5..37] == o2.event;
    assert o1.authority == s1[37..69] == s2[37..69] == o2.authority;
    assert o1.bump == s1[69] == s2[69] == o2.bump;
  }
}
