# solora-pyth-price in Dafny

A model of the core of the `solora-pyth-price` Solana program, written in
Rust with Anchor, together with proofs about it. The program runs a
pari-mutuel Up/Down market on a Pyth price feed.

An `EventConfig` describes one series of rounds: its authority, its feed,
its currency mint and its interval. `create_event` opens each round, an
`Event` account, and advances the config's `next_event_start`.
Participants stake on Up or Down with `create_order`, one `Order`
account per participant, until the lock time. A scheduler then runs
`set_lock_price` (the Lock step) and, one waiting period later,
`settle_event` (the Settle step). Settle compares the settle price with
the lock price and so decides Up, Down or Same. A missing or negative
price makes the round Invalid, and so does `settle_expired_event`, the
authority's fallback. Each participant then calls `settle_order`: a
refund, the stake plus a share of the losing pool less a fee, or nothing.
`close_accounts` closes the event once every order has been settled.

How it is modelled:

- Every instruction is a pure function over value records
  (`EventRecord`, `ConfigRecord`, and a `map<Pubkey, Order>` of a round's
  order accounts). It returns either the new state or the error the
  program raises, checked in the program's order.
- Beside each function is an imperative method over the account classes
  (`Event`, `EventConfig`, and the registries `ConfigAccounts`,
  `EventAccounts` and `OrderAccounts`). The method performs the
  program's checks and field writes in place. Its postcondition ties the
  new state to the function.
- A Solana transaction is all-or-nothing, so every failure leaves every
  field unchanged. That includes settle_expired_event, which writes the
  outcome before it checks the time: its method writes first and
  restores the field on failure.

Other modelling choices:

- **Integer widths.** Rust integers are bounded subset types of `int`.
  The arithmetic the program leaves unchecked (`+`, `+=`, `* -1`, `pow`,
  `unwrap`) aborts the transaction on overflow, as a build with overflow
  checks does; this is the error `Panic`. The narrowing casts
  `as u64` and `as u8` are never checked: they keep the low bits.
- **Environment.** The clock (`now`) and the oracle reading are
  parameters. `set_lock_price` and `settle_event` get `None` when the
  feed has no price at most 30 seconds old. For `create_event`, `None`
  means the feed account cannot be loaded.
- **Addresses.** An address check (`seeds = [...]`) compares the seed
  bytes the check derives with the seeds the account was created and
  signs with. The derivation from seeds to address is taken to be
  collision-free.
- **Check order.** Anchor checks accounts first. An `init` account that
  already exists is `AccountAlreadyInUse`, and a missing account is
  `AccountNotInitialized`. It then checks the account constraints field by
  field, in each field seeds, then `has_one`, then the custom
  `constraint`s. The handler's own checks come last, in the order they
  appear.

Where the code and its design notes differ, the model follows the code:

- Only the config's authority may call settle_expired_event.
- The `authority` of close_accounts is only compared with the config's
  authority; it does not have to sign.
- `EventNotExpired` is raised by settle_expired_event but not declared in
  `error.rs`. The model adds it to the error type, next to `Panic`, and
  next to Anchor's `ConstraintSeeds`, `ConstraintHasOne`,
  `AccountAlreadyInUse` and `AccountNotInitialized`.
- A new order's `version` is never written, so it is 0.
- Staking keeps the code's `x += x.checked_add(amount)`: the new pool is
  `2·old + amount`. `CreateOrder.DoublingOverpays` shows what follows.
  In the round up = 10, down = 1 + 1, the down pool has grown to 3, so an
  Up stake of 10 is paid 13 while the stakes total 12.
- A loser's settlement still computes its unused earnings, so it fails
  with OverflowError when `amount * winning_pool` would exceed u128.

The modules follow the program's files:

| file | module | models |
|---|---|---|
| ints.dfy, errors.dfy | `Ints`, `Errors` | integer types, truncation and division; the error codes and `Result` |
| outcome.dfy, order.dfy, event.dfy, event_config.dfy | `Outcomes`, `OrderState`, `EventState`, `EventConfigState` | the account records, their sizes and signing seeds |
| util.rs → util.dfy, bytes.dfy | `Util`, `Bytes` | keys, price normalisation; seed byte layout |
| ledger.dfy | `Ledger` | the accounts the instructions create and close |
| one file per instruction | `SettleOrder`, `SetLockPrice`, `SettleEvent`, `SettleExpiredEvent`, `CreateOrder`, `CreateEvent`, `CloseAccounts`, `CreateEventConfig`, `UpdateEventConfig` | the instructions |
| round.dfy | `Round` | the invariant every instruction keeps for a round |

## Model

| member | source | states |
|---|---|---|
| Ints.TruncateU64 | programs/solora-pyth-price/src/instructions/settle_order.rs:78 | an unchecked `as u64` keeps the value below 2^64, never increases it, leaves it unchanged when it fits, and drops exactly a multiple of 2^64 |
| Ints.Pow10 | programs/solora-pyth-price/src/util.rs:254 | the power of ten the price is divided by is at least 1 |
| Ints.FloorDiv | programs/solora-pyth-price/src/instructions/settle_order.rs:77 | unsigned division truncates: q·d ≤ x < (q+1)·d |
| Util.FeedDecimals | programs/solora-pyth-price/src/util.rs:248 | `(expo * -1) as u8` aborts only for i32::MIN, is −expo for expo in [−255, 0], and otherwise keeps −expo modulo 256 |
| Util.PowerChange | programs/solora-pyth-price/src/util.rs:249-253 | no digits are dropped when the feed has at most the target decimals, otherwise feed = target + dropped |
| Util.PriceWithDecimalChange | programs/solora-pyth-price/src/util.rs:247-257 | the result is the floor of price / 10^(dropped digits); it never exceeds the price; it is the price unchanged when the feed has at most the target decimals; it cannot fail for expo in [−38, 0]; its only failure is an abort |
| Util.NormaliseBounds | programs/solora-pyth-price/src/util.rs:254 | for expo in [−38, 0] the power of ten fits in u128, and it is 1 when no digit is dropped |
| Util.PriceWithDecimalChangeMonotone | programs/solora-pyth-price/src/util.rs:254-255 | for a fixed expo and target, a ≤ b implies norm(a) ≤ norm(b) |
| OrderState.Space | programs/solora-pyth-price/src/state/order.rs:19-21 | `space()` is ORDER_SIZE, which holds a serialised order |
| OrderState.AuthSeeds | programs/solora-pyth-price/src/state/order.rs:23-30 | the order signs with ["order", event, authority, bump] |
| OrderState.AuthSeedsInjective | programs/solora-pyth-price/src/state/order.rs:23-30 | equal seed bytes mean equal event, authority and bump: one order address per participant per round |
| EventState.Event.Init | programs/solora-pyth-price/src/instructions/create_event.rs:108-125 | the new event account holds exactly the fields create_event writes |
| EventState.AuthSeeds | programs/solora-pyth-price/src/state/event.rs:49-56 | the event signs with ["event", event_config, start_time as 8 little-endian bytes, bump] |
| EventState.EventSeeds | programs/solora-pyth-price/src/state/event.rs:49-56 | the seed bytes of an event address are 46 bytes long |
| EventState.EventSeedsInjective | programs/solora-pyth-price/src/instructions/create_event.rs:40-50 | equal seed bytes mean equal config, timestamp and bump: one event per config per timestamp |
| EventState.AddressMatchesIff | programs/solora-pyth-price/src/instructions/settle_order.rs:22-29 | the event address check passes exactly for the event's own config and start time |
| EventState.LockTimeSeedsRejected | programs/solora-pyth-price/src/instructions/create_order.rs:22-29 | the lock-time address check passes only when lock time = start time, so it rejects every event made with a non-zero interval |
| EventConfigState.EventConfig.Zeroed | programs/solora-pyth-price/src/instructions/create_event_config.rs:11-23 | a newly allocated config account at its address, every field zero |
| EventConfigState.AuthSeeds | programs/solora-pyth-price/src/state/event_config.rs:28-36 | the config signs with ["event_config", authority, pyth_feed, currency_mint, bump] |
| EventConfigState.AuthSeedsInjective | programs/solora-pyth-price/src/state/event_config.rs:27-36 | equal seed bytes mean equal authority, feed, mint and bump: seeds are unique per triple |
| SettleOrder.EarnedAmount | programs/solora-pyth-price/src/instructions/settle_order.rs:59-82 | 0 unless both pools are non-zero and the outcome is Up or Down; otherwise floor(amount · losing / winning), checked against u128 (OverflowError), equal to that floor modulo 2^64, and exact whenever it fits in u64 |
| SettleOrder.NarrowedShare | programs/solora-pyth-price/src/instructions/settle_order.rs:77-78 | `product / divisor as u64` never exceeds the floor share, equals the floor quotient modulo 2^64, and is that quotient when it fits in u64 |
| SettleOrder.FeeAmount | programs/solora-pyth-price/src/instructions/settle_order.rs:86-95 | 0 when nothing is earned; otherwise floor(earned · fee_bps / 10000) modulo 2^64, exact when it fits in u64; at most the earnings when fee_bps ≤ 10000 |
| SettleOrder.AmountToUser | programs/solora-pyth-price/src/instructions/settle_order.rs:99-117 | the stake in a one-sided round; for a winner, earned − fee + stake, with OverflowError exactly when fee > earned or the sum leaves u64; the stake again for an outcome other than Up/Down; 0 for a loser |
| SettleOrder.Settlement | programs/solora-pyth-price/src/instructions/settle_order.rs:121-135 | the fee is paid only with a positive amount to the user, and only a winner of a decided round pays one; the only error is OverflowError |
| SettleOrder.SettlementRefund | programs/solora-pyth-price/src/instructions/settle_order.rs:100-113 | a one-sided round, or an outcome other than Up/Down, refunds exactly the stake with no fee |
| SettleOrder.SettlementLoser | programs/solora-pyth-price/src/instructions/settle_order.rs:114-117 | a loser of a decided round gets 0 and pays no fee; it fails only if the unused earnings overflow u128 |
| SettleOrder.SettlementWinner | programs/solora-pyth-price/src/instructions/settle_order.rs:103-109 | a winner gets stake + earned − fee, the fee goes to the fee account, and the two never exceed earned + stake |
| SettleOrder.SettlementWinnerShare | programs/solora-pyth-price/src/instructions/settle_order.rs:61-109 | what a winner takes out is at most amount·(winning + losing)/winning |
| SettleOrder.SettlementWinnerSucceeds | programs/solora-pyth-price/src/instructions/settle_order.rs:103-109 | with fee_bps ≤ 10000, a stake within its pool and the integer bounds, a winner's settlement succeeds: a fee above the earnings needs fee_bps > 10000 |
| SettleOrder.WorkedExample | programs/solora-pyth-price/src/instructions/settle_order.rs:74-92 | up = 200, down = 100, Down, 300 bps: a Down stake of 100 earns 200, pays 6 and receives 294 |
| SettleOrder.TotalEarnedUpperBound | programs/solora-pyth-price/src/instructions/settle_order.rs:74-78 | the earnings of any set of winning stakes times the winning pool are at most their sum times the losing pool |
| SettleOrder.EarnedWithinLosingPool | programs/solora-pyth-price/src/instructions/settle_order.rs:74-78 | when the winners' stakes sum to at most the winning pool, their total earnings are at most the losing pool |
| SettleOrder.TotalEarnedLowerBound | programs/solora-pyth-price/src/instructions/settle_order.rs:74-78 | each floor division loses less than one unit: sum·losing ≤ (total earned + number of stakes)·winning |
| SettleOrder.LosingPoolDistributed | programs/solora-pyth-price/src/instructions/settle_order.rs:74-78 | when the winners' stakes are the winning pool, losing − (number of winners) ≤ total earned ≤ losing |
| SettleOrder.RefundOutflow | programs/solora-pyth-price/src/instructions/settle_order.rs:100-113 | an undecided round pays out exactly the stakes |
| SettleOrder.LoserOutflow | programs/solora-pyth-price/src/instructions/settle_order.rs:114-117 | a loser's settlement takes nothing out of the event |
| SettleOrder.WinnerOutflow | programs/solora-pyth-price/src/instructions/settle_order.rs:103-109 | a winner's settlement takes out at most its proportional share of both pools |
| SettleOrder.DecidedOutflow | programs/solora-pyth-price/src/instructions/settle_order.rs:59-117 | a decided round pays out at most the winning stakes' share of both pools |
| SettleOrder.Solvency | programs/solora-pyth-price/src/instructions/settle_order.rs:59-117 | when the stakes on each side are within that side's pool, settling every order pays out at most the two pools (a bound on the computed payouts, not on an account balance) |
| SettleOrder.SettleOrderSpec | programs/solora-pyth-price/src/instructions/settle_order.rs:22-44 | succeeds exactly when the order is there, the accounts match, the round is resolved, the payout computes and the counter does not overflow; EventNotSettled while Undrawn; AccountNotInitialized without an order; on success pays the settlement, closes the order and adds exactly 1 to orders_settled |
| SettleOrder.SettleOrder | programs/solora-pyth-price/src/instructions/settle_order.rs:54-189 | the in-place instruction: on success the event gains one settled order and the order account is gone; on failure nothing changes |
| SettleOrder.SettleTwiceFails | programs/solora-pyth-price/src/instructions/settle_order.rs:36-44 | settling the same order a second time fails with AccountNotInitialized |
| SetLockPrice.SetLockPriceSpec | programs/solora-pyth-price/src/instructions/set_lock_price.rs:22-80 | EventSettled unless Undrawn, LockPriceSet unless the lock price is 0, and EventNotLocked before the lock time; with no price or a negative one the outcome becomes Invalid and the lock price is untouched; otherwise the lock price is the normalised price and the outcome stays Undrawn; only the outcome or the lock price changes; the call succeeds exactly when the accounts match, the round is Undrawn with no lock price, the lock time has come and the price (if present and non-negative) normalises |
| SetLockPrice.SetLockPrice | programs/solora-pyth-price/src/instructions/set_lock_price.rs:48-92 | the in-place instruction follows the function; on failure nothing changes |
| SetLockPrice.LockTwiceFails | programs/solora-pyth-price/src/instructions/set_lock_price.rs:32-33 | after a lock that stored a non-zero price or made the round Invalid, a second lock fails |
| SetLockPrice.ZeroLockPriceLeavesRoundOpen | programs/solora-pyth-price/src/instructions/set_lock_price.rs:73-76 | a price that normalises to 0 leaves the lock price 0 and the round Undrawn, so a later lock can still set it |
| SettleEvent.DeriveOutcome | programs/solora-pyth-price/src/instructions/settle_event.rs:75-81 | Same exactly when the prices are equal, Up exactly when the settle price is greater, Down exactly when it is smaller |
| SettleEvent.SettleEventSpec | programs/solora-pyth-price/src/instructions/settle_event.rs:22-86 | EventSettled unless Undrawn, LockPriceNotSet unless the lock price is positive, EventInWaitingPeriod before lock + wait; a missing or negative price makes the round Invalid and keeps the settle price; otherwise it stores the normalised price and derives the outcome; after success the outcome is never Undrawn; lock + wait beyond i64 aborts; the call succeeds exactly when the accounts match, the round is Undrawn with a lock price, lock + wait fits in i64 and has passed, and the price (if present and non-negative) normalises |
| SettleEvent.SettleEvent | programs/solora-pyth-price/src/instructions/settle_event.rs:47-95 | the in-place instruction follows the function; on failure nothing changes |
| SettleEvent.SettleTwiceFails | programs/solora-pyth-price/src/instructions/settle_event.rs:31 | after a successful settle, a second one fails with EventSettled |
| SettleEvent.OutcomeFollowsPrice | programs/solora-pyth-price/src/instructions/settle_event.rs:69-81 | with the lock price normalised the same way, a raw price rise cannot give Down and a fall cannot give Up |
| SettleExpiredEvent.ExpiryTime | programs/solora-pyth-price/src/instructions/settle_expired_event.rs:44 | a round expires no earlier than the end of its waiting period |
| SettleExpiredEvent.ExpiryAfterSettleWindow | programs/solora-pyth-price/src/instructions/settle_expired_event.rs:44-47 | whenever a round can be expired, settle_event on it is not refused for waiting (nor for lock + wait overflow), and succeeds when its accounts match, a lock price is set and the price normalises |
| SettleExpiredEvent.SettleExpiredEventSpec | programs/solora-pyth-price/src/instructions/settle_expired_event.rs:11-46 | only the config authority may call it; EventSettled unless Undrawn; EventNotExpired before the expiry time; on success exactly the outcome changes, to Invalid, whether or not a lock price was set |
| SettleExpiredEvent.SettleExpiredEvent | programs/solora-pyth-price/src/instructions/settle_expired_event.rs:36-56 | the write of Invalid before the time check is undone when the check fails |
| CreateOrder.PoolSideAsWritten | programs/solora-pyth-price/src/instructions/create_order.rs:70-77 | the code's branch sends Up to the up pool and every other side to the down pool |
| CreateOrder.SameStakeAcceptedAsWritten | programs/solora-pyth-price/src/instructions/create_order.rs:57-60 | the code's guard accepts a Same stake and books it on Down, and a Same stake settles to a payout of 0 in every two-sided round resolved Up or Down, also when Down wins with it in the winning pool |
| CreateOrder.StakeSideGuard | programs/solora-pyth-price/src/state/outcome.rs:14-15 | the corrected guard accepts exactly Up and Down: the code's guard minus Same |
| CreateOrder.AddStake | programs/solora-pyth-price/src/instructions/create_order.rs:71-75 | the pool becomes 2·pool + amount; OverflowError when pool + amount leaves u128, an abort when the doubled sum does |
| CreateOrder.FirstStakeIsAmount | programs/solora-pyth-price/src/instructions/create_order.rs:71 | the first stake on an empty side leaves the pool at exactly the amount |
| CreateOrder.DoublingOverpays | programs/solora-pyth-price/src/instructions/create_order.rs:75 | with the doubling, a winner's computed payout can exceed the total staked in the round |
| CreateOrder.CreateOrderSpec | programs/solora-pyth-price/src/instructions/create_order.rs:22-103 | one order per participant (AccountAlreadyInUse); EventSettled unless Undrawn; EventLocked from the lock time; InvalidOutcome unless Up or Down; InvalidMint, once every earlier check passes, exactly when no extra accounts are passed for a mint other than the native one or the mint passed is not the config's; on success the order stores the participant, event, side and amount, the staked side's count grows by 1 and its pool becomes 2·old + amount, and the other side is untouched |
| CreateOrder.CreateOrder | programs/solora-pyth-price/src/instructions/create_order.rs:47-103 | the in-place instruction follows the function; on failure neither the event nor the orders change |
| CreateEvent.ClampDecimals | programs/solora-pyth-price/src/instructions/create_event.rs:121-125 | price_decimals = min(feed decimals, MAX_PRICE_DECIMALS = 4) |
| CreateEvent.CreateEventSpec | programs/solora-pyth-price/src/instructions/create_event.rs:19-208 | only the authority with the config's feed and mint; AccountAlreadyInUse when the round's address is taken; lock = next + interval, InvalidLockTime exactly when lock < now; the config's next start becomes the lock time; the event starts at the old next start, locks at lock, waits one interval, keeps fee_bps, is Undrawn and has the clamped decimals; it is well-formed and sits at its own address; Lock is scheduled at lock and Settle at lock + wait |
| CreateEvent.RoundsTile | programs/solora-pyth-price/src/instructions/create_event.rs:93-100 | consecutive rounds of a config tile time: each starts when the previous one locks |
| CreateEvent.CreateEvent | programs/solora-pyth-price/src/instructions/create_event.rs:81-208 | the in-place instruction advances the config and adds a fresh event account at the round's address; on failure nothing changes |
| CloseAccounts.CloseAccountsSpec | programs/solora-pyth-price/src/instructions/close_accounts.rs:15-138 | only for the config's authority; EventNotSettled while Undrawn and before lock + wait; the event is closed exactly when up_count + down_count = orders_settled, and otherwise kept; a close sweeps no token balance when the currency is the native mint and the token account's whole residual balance otherwise (the event's own lamports, returned on close, are not tracked) |
| CloseAccounts.CloseAccounts | programs/solora-pyth-price/src/instructions/close_accounts.rs:63-141 | a close removes exactly that event account; otherwise no account changes |
| CreateEventConfig.CreateEventConfigSpec | programs/solora-pyth-price/src/instructions/create_event_config.rs:35-47 | fails only when the config's address is taken; stores the signer, feed and mint, version 1, and the interval and start exactly as given; signs with the seeds of its address |
| CreateEventConfig.OneConfigPerAddress | programs/solora-pyth-price/src/instructions/create_event_config.rs:11-18 | configs that sign with the same seeds have the same authority, feed and mint |
| CreateEventConfig.CreateEventConfig | programs/solora-pyth-price/src/instructions/create_event_config.rs:35-50 | adds one fresh config at (signer, feed, mint), or fails with nothing changed |
| UpdateEventConfig.UpdateEventConfigSpec | programs/solora-pyth-price/src/instructions/update_event_config.rs:10-31 | only the authority may update; the interval and next start are overwritten and every other field is unchanged |
| UpdateEventConfig.RewindBlocksCreation | programs/solora-pyth-price/src/instructions/update_event_config.rs:31 | next_event_start can move back onto a round that is still in the ledger, and create_event, given that ledger's occupancy of the next address, then fails with AccountAlreadyInUse |
| UpdateEventConfig.UpdateEventConfig | programs/solora-pyth-price/src/instructions/update_event_config.rs:24-34 | the in-place instruction follows the function |
| Round.CreateEventEstablishes | programs/solora-pyth-price/src/instructions/create_event.rs:109-125 | a new round with no orders satisfies the round invariant |
| Round.CreateOrderPreserves | programs/solora-pyth-price/src/instructions/create_order.rs:62-77 | staking keeps the invariant: the order is counted, and every open order stays covered by its pool |
| Round.SettleOrderPreserves | programs/solora-pyth-price/src/instructions/settle_order.rs:185-186 | settling moves one order from open to settled and keeps the invariant |
| Round.SetLockPricePreserves | programs/solora-pyth-price/src/instructions/set_lock_price.rs:68-80 | the Lock step keeps the invariant |
| Round.SettleEventPreserves | programs/solora-pyth-price/src/instructions/settle_event.rs:63-86 | the Settle step keeps the invariant |
| Round.SettleExpiredEventPreserves | programs/solora-pyth-price/src/instructions/settle_expired_event.rs:39-46 | the expiry fallback keeps the invariant |
| Round.CloseOnlyWhenNoOrdersOpen | programs/solora-pyth-price/src/state/event.rs:44-45 | under the invariant, close_accounts closes the event exactly when no order of the round is still open |
| Round.WinnerCanSettle | programs/solora-pyth-price/src/instructions/settle_order.rs:54-117 | in a decided round that keeps the invariant, a winner with fee_bps ≤ 10000 and payouts within the integer types can settle |

## Left out
- assert_keys_equal (util.rs:164-170): its only caller, assert_is_ata, belongs to the token-transfer helpers, which are not modelled; the PublicKeyMismatch error goes with it.
- Scheduler threads: creating, updating and deleting them, and the cron strings built with chrono, are not modelled. create_event returns the times it schedules Lock and Settle for. Whether chrono can represent a timestamp is the parameter `calendar`.
- The thread accounts' own checks (`id`, `authority`, `address = Thread::pubkey(...)`, the thread signer) are modelled as comparing the key with the event's stored thread key.
- Pyth: loading the feed account and the 30-second staleness rule are not modelled. The reading is a parameter.
- Transfers of SOL and SPL tokens, associated token account creation, and `transfer_sol_pda` are not modelled. settle_order returns the amounts it would transfer; close_accounts returns the balance it would sweep.
- Account ownership and type checks, rent and lamports are not modelled; neither is the derivation of a program address from its seeds. The checks of the `remaining_accounts` count (`NotEnoughAccountKeys`), and the closing of the token account, are not modelled either.
- The config account's own address check is not modelled: its seeds are its own fields, which no instruction changes once created.
- `emit!` records and `msg!` are not modelled: they only observe.
- Order accounts of a round closed by close_accounts are not tracked; neither is re-creating accounts at a reused address.
- SettleOrder.Solvency / CreateOrder.CreateOrderSpec / CloseAccounts.CloseAccountsSpec: lamports are not tracked. A native stake is transferred into the order account (create_order.rs:84-90), not the event, and settle_order's `close = authority` (settle_order.rs:38) returns it to its owner, loser or winner, while winners are paid out of the event account (settle_order.rs:122-134). Solvency therefore bounds the computed payouts, not an event balance, and a native close's return of the event's lamports to the authority (close_accounts.rs:137) is not modelled.
- CloseAccounts.CloseAccountsSpec: the extra accounts of a non-native currency are taken as supplied; their count and kind are not checked.
- CreateEvent.CreateEventSpec: the feed is read only for its exponent.
- CreateOrder.CreateOrderSpec: `extraMint` is Some exactly when extra accounts are passed; their number is not checked.
- Initial liquidity and a fee burn appear only in the dispatcher's signature and have no code here.
- The older program variants, the TypeScript tests and the client are outside this model. The dispatch code (`lib.rs`, `instructions.rs`) is not part of this model; of `error.rs` only the error names are used.

## Findings

| source | as written | input that shows it | evidently intended | confidence | as-written member | corrected member |
|---|---|---|---|---|---|---|
| programs/solora-pyth-price/src/instructions/create_order.rs:27 | the event address check uses `event.lock_time`, while create_event creates the event at its start time (the same holds at set_lock_price.rs:27) | a config with interval_seconds = 60: every event has lock_time = start_time + 60, so the seeds derive another address and create_order and set_lock_price fail with ConstraintSeeds | the seeds use `event.start_time`, as settle_order, settle_event, settle_expired_event and close_accounts do | high, not executed | EventState.LockTimeSeedsRejected | CreateOrder.CreateOrderSpec |
| programs/solora-pyth-price/src/instructions/create_order.rs:57-60 | the guard rejects only Undrawn and Invalid, so with `Same` declared a Same stake is accepted and booked on the Down pool by the `else` branch | create_order with outcome = Same: the order is stored, down_amount and down_count grow, and the stake settles to 0 in every decided round | only Up and Down are stake sides | medium, not executed | CreateOrder.SameStakeAcceptedAsWritten | CreateOrder.StakeSideGuard |
