/** Properties of the instruction processor over the account store: which accounts an
    instruction can change, and what each handler leaves in the records it writes. */
module ProcessorFacts {
  import opened Borsh
  import opened Errors
  import opened State
  import Instruction
  import opened Matching
  import opened Queue
  import opened Oracle
  import opened Runtime
  import opened Processor

  // ----- dispatch -----

  /** An encoded instruction runs the handler of its variant with that variant's fields. */
  lemma ProcessRoutes(programId: Pubkey, accounts: seq<AccountMeta>, store: Store,
                      ix: Instruction.EngineInstruction, clock: Clock)
    requires Present(store, accounts)
    ensures Process(programId, accounts, store, Instruction.Encode(ix), clock) == Dispatch(programId, accounts, store, ix, clock)
  {
    Instruction.UnpackRoundTrip(ix);
  }

  /** Bytes that are no instruction's encoding fail with `InvalidInstruction` and change nothing. */
  lemma ProcessRejectsGarbage(programId: Pubkey, accounts: seq<AccountMeta>, store: Store, data: seq<Byte>,
                              clock: Clock)
    requires Present(store, accounts)
    requires forall ix :: Instruction.Encode(ix) != data
    ensures Process(programId, accounts, store, data, clock) == Outcome(Err(Custom(InvalidInstruction)), store)
  {
    Instruction.UnpackFailsExactly(data);
  }

  /** The accounts a handler needs before it checks owners. */
  function AccountsNeeded(ix: Instruction.EngineInstruction): nat
  {
    match ix
    case CancelOrder(_) => 2
    case Liquidate(_) => 4
    case _ => 3
  }

  /** Some account whose owner `ix`'s handler checks is not owned by the program. */
  predicate ForeignChecked(programId: Pubkey, accounts: seq<AccountMeta>, ix: Instruction.EngineInstruction)
    requires |accounts| >= AccountsNeeded(ix)
  {
    match ix
    case InitializeMarket(_) => accounts[0].owner != programId
    case UpdateOracle(_, _) => false
    case Liquidate(_) =>
      accounts[0].owner != programId || accounts[1].owner != programId || accounts[2].owner != programId
    case _ => accounts[0].owner != programId || accounts[1].owner != programId
  }

  /** Every handler but `update_oracle` refuses, before reading or writing anything, a market or
      user record (or, for `liquidate`, either user record) that the program does not own. */
  lemma ProcessRejectsForeignAccounts(programId: Pubkey, accounts: seq<AccountMeta>, store: Store,
                                      ix: Instruction.EngineInstruction, clock: Clock)
    requires Present(store, accounts) && |accounts| >= AccountsNeeded(ix)
    requires ForeignChecked(programId, accounts, ix)
    ensures Process(programId, accounts, store, Instruction.Encode(ix), clock) == Outcome(Err(Custom(InvalidOwner)), store)
  {
    Instruction.UnpackRoundTrip(ix);
  }

  // ----- only the passed accounts change -----

  /** The addresses of the passed accounts. */
  function Keys(accounts: seq<AccountMeta>): set<Pubkey>
  {
    set a | a in accounts :: a.key
  }

  /** `after` holds the same accounts as `before`, and only those in `keys` may differ. */
  predicate ChangesOnly(before: Store, after: Store, keys: set<Pubkey>)
  {
    after.Keys == before.Keys && forall k :: k in before && k !in keys ==> after[k] == before[k]
  }

  /** A write changes the one account written. */
  lemma SaveChangesOnly(store: Store, key: Pubkey, enc: seq<Byte>, e: ProgramError)
    requires key in store
    ensures ChangesOnly(store, Save(store, key, enc, e).store, {key})
  {
  }

  /** A record of exactly the account's size is written in full. */
  lemma SaveFits(store: Store, key: Pubkey, enc: seq<Byte>, e: ProgramError)
    requires key in store && |enc| == |store[key]|
    ensures Save(store, key, enc, e) == Outcome(Ok(()), store[key := enc])
  {
    SerializeExact(enc, store[key]);
  }

  /** The accounts from position `from` on are among the passed accounts. */
  lemma KeysOfSuffix(accounts: seq<AccountMeta>, from: nat)
    requires from <= |accounts|
    ensures Keys(accounts[from..]) <= Keys(accounts)
  {
    forall a | a in accounts[from..] ensures a in accounts {
      var i :| 0 <= i < |accounts[from..]| && accounts[from..][i] == a;
      assert accounts[from + i] == a;
    }
  }

  /** The makers' write-back changes only the makers' accounts. */
  lemma {:induction false} SaveUsersChangesOnly(store: Store, accounts: seq<AccountMeta>, users: seq<UserAccount>)
    requires Present(store, accounts) && |users| == |accounts|
    ensures ChangesOnly(store, SaveUsers(store, accounts, users).store, Keys(accounts))
    decreases |accounts|
  {
    if accounts != [] {
      var o := Save(store, accounts[0].key, EncodeUser(users[0]), ProgramError.InvalidAccountData);
      SaveChangesOnly(store, accounts[0].key, EncodeUser(users[0]), ProgramError.InvalidAccountData);
      if o.result.Ok? {
        KeysOfSuffix(accounts, 1);
        assert Present(o.store, accounts[1..]) by {
          forall a | a in accounts[1..] ensures a.key in o.store {
            assert a.key in Keys(accounts);
          }
        }
        SaveUsersChangesOnly(o.store, accounts[1..], users[1..]);
      }
    }
  }

  /** Settling a match writes only the taker, the makers and the queue. */
  lemma SettleChangesOnly(store: Store, userKey: Pubkey, makerAccounts: seq<AccountMeta>, queueKey: Pubkey,
                          r: MatchState, now: I64)
    requires userKey in store && queueKey in store && Present(store, makerAccounts)
    requires |r.makers| == |makerAccounts|
    ensures ChangesOnly(store, Settle(store, userKey, makerAccounts, queueKey, r, now).store,
                        {userKey, queueKey} + Keys(makerAccounts))
  {
    var o := Save(store, userKey, EncodeUser(r.taker.(lastUpdateTs := now)), ProgramError.InvalidAccountData);
    SaveChangesOnly(store, userKey, EncodeUser(r.taker.(lastUpdateTs := now)), ProgramError.InvalidAccountData);
    if o.result.Ok? {
      SaveUsersChangesOnly(o.store, makerAccounts, r.makers);
    }
  }

  /** `place_order` either fails before writing or settles the match of the taker against the
      decoded makers. */
  lemma PlaceOrderSettles(programId: Pubkey, accounts: seq<AccountMeta>, store: Store, priceLots: I64,
                          maxBaseLots: I64, sideIsBid: bool, now: I64)
    requires Present(store, accounts)
    ensures var o := PlaceOrder(programId, accounts, store, priceLots, maxBaseLots, sideIsBid, now);
      || o.store == store
      || (&& |accounts| >= 3
          && DecodeUser(store[accounts[1].key]).Some?
          && LoadUsers(store, accounts[3..]).Some?
          && var st := MatchState(DecodeUser(store[accounts[1].key]).value, LoadUsers(store, accounts[3..]).value,
                                  maxBaseLots, 0, []);
             && Match(st, sideIsBid).Some?
             && |Match(st, sideIsBid).value.makers| == |accounts| - 3
             && o == Settle(store, accounts[1].key, accounts[3..], accounts[2].key, Match(st, sideIsBid).value, now))
  {
    var o := PlaceOrder(programId, accounts, store, priceLots, maxBaseLots, sideIsBid, now);
    if o.store != store {
      var st := MatchState(DecodeUser(store[accounts[1].key]).value, LoadUsers(store, accounts[3..]).value,
                           maxBaseLots, 0, []);
      MatchProgress(st, sideIsBid);
    }
  }

  /** `place_order` writes only passed accounts. */
  lemma PlaceOrderChangesOnly(programId: Pubkey, accounts: seq<AccountMeta>, store: Store, priceLots: I64,
                              maxBaseLots: I64, sideIsBid: bool, now: I64)
    requires Present(store, accounts)
    ensures ChangesOnly(store, PlaceOrder(programId, accounts, store, priceLots, maxBaseLots, sideIsBid, now).store,
                        Keys(accounts))
  {
    PlaceOrderSettles(programId, accounts, store, priceLots, maxBaseLots, sideIsBid, now);
    var o := PlaceOrder(programId, accounts, store, priceLots, maxBaseLots, sideIsBid, now);
    if o.store != store {
      var st := MatchState(DecodeUser(store[accounts[1].key]).value, LoadUsers(store, accounts[3..]).value,
                           maxBaseLots, 0, []);
      KeysOfSuffix(accounts, 3);
      assert Present(store, accounts[3..]) by {
        forall a | a in accounts[3..] ensures a.key in store {
          assert a.key in Keys(accounts);
        }
      }
      SettleChangesOnly(store, accounts[1].key, accounts[3..], accounts[2].key, Match(st, sideIsBid).value, now);
      assert accounts[1] in accounts && accounts[2] in accounts;
    }
  }

  /** `liquidate` writes only the liquidator and the liquidatee. */
  lemma LiquidateChangesOnly(programId: Pubkey, accounts: seq<AccountMeta>, store: Store, maxLiqAmount: U64)
    requires Present(store, accounts)
    ensures ChangesOnly(store, Liquidate(programId, accounts, store, maxLiqAmount).store, Keys(accounts))
  {
    var o := Liquidate(programId, accounts, store, maxLiqAmount);
    if o.store != store {
      assert accounts[1] in accounts && accounts[2] in accounts;
      var a := DecodeUser(store[accounts[1].key]).value;
      var b := DecodeUser(store[accounts[2].key]).value;
      var n := Liquidation(a, b, maxLiqAmount, ReadPrice(store[accounts[3].key]).value.price).value;
      var o1 := Save(store, accounts[1].key, EncodeUser(n.liqor), ProgramError.InvalidAccountData);
      SaveChangesOnly(store, accounts[1].key, EncodeUser(n.liqor), ProgramError.InvalidAccountData);
      SaveChangesOnly(o1.store, accounts[2].key, EncodeUser(n.liqee), ProgramError.InvalidAccountData);
    }
  }

  /** The handlers that write one record write a passed account. */
  lemma SingleWriteChangesOnly(programId: Pubkey, accounts: seq<AccountMeta>, store: Store,
                               ix: Instruction.EngineInstruction, clock: Clock)
    requires Present(store, accounts) && !ix.PlaceOrder? && !ix.Liquidate?
    ensures ChangesOnly(store, Dispatch(programId, accounts, store, ix, clock).store, Keys(accounts))
  {
    var o := Dispatch(programId, accounts, store, ix, clock);
    if o.store != store {
      var k := if ix.InitializeMarket? || ix.UpdateOracle? then 0 else 1;
      assert accounts[k] in accounts;
      assert o.store == store[accounts[k].key := o.store[accounts[k].key]];
    }
  }

  /** An instruction changes the bytes of no account besides those passed to it, and adds or
      removes no account. */
  lemma ProcessChangesOnly(programId: Pubkey, accounts: seq<AccountMeta>, store: Store, data: seq<Byte>, clock: Clock)
    requires Present(store, accounts)
    ensures ChangesOnly(store, Process(programId, accounts, store, data, clock).store, Keys(accounts))
  {
    if Instruction.Unpack(data).Ok? {
      var ix := Instruction.Unpack(data).value;
      match ix
      case PlaceOrder(price, lots, bid) =>
        PlaceOrderChangesOnly(programId, accounts, store, price, lots, bid, clock.unixTimestamp);
      case Liquidate(amount) =>
        LiquidateChangesOnly(programId, accounts, store, amount);
      case _ =>
        SingleWriteChangesOnly(programId, accounts, store, ix, clock);
    }
  }

  // ----- InitializeMarket -----

  /** A market account the program does not own is refused before anything is read or written. */
  lemma InitializeRejectsForeignMarket(programId: Pubkey, accounts: seq<AccountMeta>, store: Store, feeBps: U16)
    requires Present(store, accounts) && |accounts| >= 3 && accounts[0].owner != programId
    ensures InitializeMarket(programId, accounts, store, feeBps) == Outcome(Err(Custom(InvalidOwner)), store)
  {
  }

  /** On all-zero bytes of a market's size, the market is created with the passed admin and
      oracle, the given fee, default mints and the active flag set. */
  lemma InitializeCreates(programId: Pubkey, accounts: seq<AccountMeta>, store: Store, feeBps: U16)
    requires Present(store, accounts) && |accounts| >= 3
    requires accounts[0].owner == programId && accounts[0].rentExempt
    requires IsZeroed(store[accounts[0].key]) && |store[accounts[0].key]| == MARKET_SIZE
    ensures InitializeMarket(programId, accounts, store, feeBps) ==
      Outcome(Ok(()), store[accounts[0].key := EncodeMarket(NewMarket(accounts[1].key, accounts[2].key, feeBps))])
  {
    var m := NewMarket(accounts[1].key, accounts[2].key, feeBps);
    SaveFits(store, accounts[0].key, EncodeMarket(m), Custom(EngineError.InvalidAccountData));
  }

  /** On an existing market, initialization succeeds again for any caller: the fee, the oracle
      and the active flag are overwritten, and the admin and the mints are kept. */
  lemma InitializeOverwrites(programId: Pubkey, accounts: seq<AccountMeta>, store: Store, feeBps: U16, m: Market)
    requires Present(store, accounts) && |accounts| >= 3
    requires accounts[0].owner == programId && accounts[0].rentExempt
    requires !IsZeroed(store[accounts[0].key]) && DecodeMarket(store[accounts[0].key]) == Some(m)
    ensures InitializeMarket(programId, accounts, store, feeBps) ==
      Outcome(Ok(()), store[accounts[0].key := EncodeMarket(m.(feeBps := feeBps, oracle := accounts[2].key, isActive := true))])
  {
    var m' := m.(feeBps := feeBps, oracle := accounts[2].key, isActive := true);
    assert |store[accounts[0].key]| == MARKET_SIZE;
    SaveFits(store, accounts[0].key, EncodeMarket(m'), Custom(EngineError.InvalidAccountData));
  }

  // ----- Deposit and Withdraw -----

  /** An existing record is credited `amount as i64` and stamped; nothing else in it changes. */
  lemma CreditAdds(bytes: seq<Byte>, owner: Pubkey, market: Pubkey, amount: U64, now: I64, u: UserAccount)
    requires !IsZeroed(bytes) && DecodeUser(bytes) == Some(u)
    ensures Credit(bytes, owner, market, amount, now).Ok? <==> InI64(u.quotePosition + FromBits64(amount))
    ensures Credit(bytes, owner, market, amount, now).Err? ==>
      Credit(bytes, owner, market, amount, now).error == Panic(ArithmeticOverflow)
    ensures Credit(bytes, owner, market, amount, now).Ok? ==>
      Credit(bytes, owner, market, amount, now).value ==
        u.(quotePosition := u.quotePosition + FromBits64(amount), lastUpdateTs := now)
  {
  }

  /** All-zero bytes become a new record of `owner` in `market` holding the deposit. */
  lemma CreditOpens(bytes: seq<Byte>, owner: Pubkey, market: Pubkey, amount: U64, now: I64)
    requires IsZeroed(bytes)
    ensures Credit(bytes, owner, market, amount, now).Ok?
    ensures Credit(bytes, owner, market, amount, now).value ==
      NewUser(owner, market, now).(quotePosition := FromBits64(amount))
  {
  }

  /** `amount as i64` is negative for amounts of 2^63 and more: such a deposit lowers the
      quote position. */
  lemma LargeDepositDebits(bytes: seq<Byte>, owner: Pubkey, market: Pubkey, amount: U64, now: I64, u: UserAccount)
    requires !IsZeroed(bytes) && DecodeUser(bytes) == Some(u)
    requires amount >= I64_LIMIT && Credit(bytes, owner, market, amount, now).Ok?
    ensures Credit(bytes, owner, market, amount, now).value.quotePosition < u.quotePosition
  {
    CreditAdds(bytes, owner, market, amount, now, u);
  }

  /** A record is debited `amount as i64` and stamped whatever its balance: only an i64
      overflow stops it. */
  lemma DebitSubtracts(bytes: seq<Byte>, amount: U64, now: I64, u: UserAccount)
    requires DecodeUser(bytes) == Some(u)
    ensures Debit(bytes, amount, now).Ok? <==> InI64(u.quotePosition - FromBits64(amount))
    ensures Debit(bytes, amount, now).Err? ==> Debit(bytes, amount, now).error == Panic(ArithmeticOverflow)
    ensures Debit(bytes, amount, now).Ok? ==>
      Debit(bytes, amount, now).value == u.(quotePosition := u.quotePosition - FromBits64(amount), lastUpdateTs := now)
  {
  }

  /** Under the checks `deposit` makes, it writes the credited record. */
  lemma DepositSaves(programId: Pubkey, accounts: seq<AccountMeta>, store: Store, amount: U64, now: I64)
    requires Present(store, accounts) && |accounts| >= 3
    requires accounts[0].owner == programId && accounts[1].owner == programId
    requires DecodeMarket(store[accounts[0].key]).Some?
    requires Credit(store[accounts[1].key], accounts[2].key, accounts[0].key, amount, now).Ok?
    ensures Deposit(programId, accounts, store, amount, now) ==
      Save(store, accounts[1].key, EncodeUser(Credit(store[accounts[1].key], accounts[2].key, accounts[0].key, amount, now).value),
           ProgramError.InvalidAccountData)
  {
  }

  /** A deposit into an existing record adds `amount as i64` to its quote position and stamps
      the time; the new record replaces the account's bytes and nothing else changes. */
  lemma DepositCredits(programId: Pubkey, accounts: seq<AccountMeta>, store: Store, amount: U64, now: I64,
                       u: UserAccount)
    requires Present(store, accounts) && |accounts| >= 3
    requires accounts[0].owner == programId && accounts[1].owner == programId
    requires DecodeMarket(store[accounts[0].key]).Some?
    requires !IsZeroed(store[accounts[1].key]) && DecodeUser(store[accounts[1].key]) == Some(u)
    requires InI64(u.quotePosition + FromBits64(amount))
    ensures Deposit(programId, accounts, store, amount, now) ==
      Outcome(Ok(()), store[accounts[1].key := EncodeUser(u.(quotePosition := u.quotePosition + FromBits64(amount),
                                                              lastUpdateTs := now))])
  {
    var u' := u.(quotePosition := u.quotePosition + FromBits64(amount), lastUpdateTs := now);
    CreditAdds(store[accounts[1].key], accounts[2].key, accounts[0].key, amount, now, u);
    DepositSaves(programId, accounts, store, amount, now);
    SaveFits(store, accounts[1].key, EncodeUser(u'), ProgramError.InvalidAccountData);
  }

  /** The first deposit into an all-zero account of a user record's size opens the account for
      the owner key and the market, with the deposit as its quote position. */
  lemma DepositOpens(programId: Pubkey, accounts: seq<AccountMeta>, store: Store, amount: U64, now: I64)
    requires Present(store, accounts) && |accounts| >= 3
    requires accounts[0].owner == programId && accounts[1].owner == programId
    requires DecodeMarket(store[accounts[0].key]).Some?
    requires IsZeroed(store[accounts[1].key]) && |store[accounts[1].key]| == USER_SIZE
    ensures Deposit(programId, accounts, store, amount, now) ==
      Outcome(Ok(()), store[accounts[1].key := EncodeUser(NewUser(accounts[2].key, accounts[0].key, now)
                                                           .(quotePosition := FromBits64(amount)))])
  {
    var u := NewUser(accounts[2].key, accounts[0].key, now).(quotePosition := FromBits64(amount));
    CreditOpens(store[accounts[1].key], accounts[2].key, accounts[0].key, amount, now);
    DepositSaves(programId, accounts, store, amount, now);
    SaveFits(store, accounts[1].key, EncodeUser(u), ProgramError.InvalidAccountData);
  }

  /** Under the checks `withdraw` makes, it writes the debited record. */
  lemma WithdrawSaves(programId: Pubkey, accounts: seq<AccountMeta>, store: Store, amount: U64, now: I64)
    requires Present(store, accounts) && |accounts| >= 3
    requires accounts[0].owner == programId && accounts[1].owner == programId
    requires Debit(store[accounts[1].key], amount, now).Ok?
    ensures Withdraw(programId, accounts, store, amount, now) ==
      Save(store, accounts[1].key, EncodeUser(Debit(store[accounts[1].key], amount, now).value),
           ProgramError.InvalidAccountData)
  {
  }

  /** A withdrawal takes `amount as i64` from the quote position whatever the balance, and
      otherwise changes nothing; only an i64 overflow stops it. */
  lemma WithdrawDebits(programId: Pubkey, accounts: seq<AccountMeta>, store: Store, amount: U64, now: I64,
                       u: UserAccount)
    requires Present(store, accounts) && |accounts| >= 3
    requires accounts[0].owner == programId && accounts[1].owner == programId
    requires DecodeUser(store[accounts[1].key]) == Some(u)
    requires InI64(u.quotePosition - FromBits64(amount))
    ensures Withdraw(programId, accounts, store, amount, now) ==
      Outcome(Ok(()), store[accounts[1].key := EncodeUser(u.(quotePosition := u.quotePosition - FromBits64(amount),
                                                              lastUpdateTs := now))])
  {
    var u' := u.(quotePosition := u.quotePosition - FromBits64(amount), lastUpdateTs := now);
    DebitSubtracts(store[accounts[1].key], amount, now, u);
    WithdrawSaves(programId, accounts, store, amount, now);
    SaveFits(store, accounts[1].key, EncodeUser(u'), ProgramError.InvalidAccountData);
  }

  // ----- PlaceOrder -----

  /** Orders against an inactive market are refused before anything is read or written. */
  lemma PlaceOrderInactive(programId: Pubkey, accounts: seq<AccountMeta>, store: Store, priceLots: I64,
                           maxBaseLots: I64, sideIsBid: bool, now: I64, m: Market)
    requires Present(store, accounts) && |accounts| >= 3
    requires accounts[0].owner == programId && accounts[1].owner == programId
    requires DecodeMarket(store[accounts[0].key]) == Some(m) && !m.isActive
    ensures PlaceOrder(programId, accounts, store, priceLots, maxBaseLots, sideIsBid, now) ==
            Outcome(Err(Custom(MarketInactive)), store)
  {
  }

  /** The limit price of an order plays no part in what it does. */
  lemma PlaceOrderIgnoresPrice(programId: Pubkey, accounts: seq<AccountMeta>, store: Store, p1: I64, p2: I64,
                               maxBaseLots: I64, sideIsBid: bool, now: I64)
    requires Present(store, accounts)
    ensures PlaceOrder(programId, accounts, store, p1, maxBaseLots, sideIsBid, now) ==
            PlaceOrder(programId, accounts, store, p2, maxBaseLots, sideIsBid, now)
  {
  }

  /** The fallback header `{0, 0, 64}` is never used: any 24 bytes are a header. */
  lemma HeaderFallbackUnused(s: seq<Byte>)
    requires |s| == HEADER_SIZE
    ensures DecodeHeader(s).Some? && HeaderOrFallback(s) == DecodeHeader(s).value
    ensures var h := HeaderOrFallback(s); EncodeHeader(h.0, h.1, h.2) == s
  {
    HeaderAlwaysDecodes(s);
  }

  /** With a positive capacity and a region that holds `capacity` slots, every event is
      queued and the stored header advances by one push per event, its capacity kept. */
  lemma QueueEventsAdvances(store: Store, key: Pubkey, events: seq<Event>)
    requires key in store && HEADER_SIZE <= |store[key]| < U64_LIMIT
    requires var h := HeaderOrFallback(store[key][..HEADER_SIZE]);
      0 < h.2 && h.2 * SLOT_SIZE <= |store[key]| - HEADER_SIZE
    ensures var h := HeaderOrFallback(store[key][..HEADER_SIZE]);
      var o := QueueEvents(store, key, events, SLOT_SIZE);
      var n := AdvanceN(h.0, h.1, h.2, |events|);
      && o.result == Ok(())
      && |o.store[key]| == |store[key]|
      && DecodeHeader(o.store[key][..HEADER_SIZE]) == Some((n.0, n.1, h.2))
  {
    var bytes := store[key];
    var h := HeaderOrFallback(bytes[..HEADER_SIZE]);
    PushAllSucceeds(h.0, h.1, h.2, bytes[HEADER_SIZE..], events);
    var p := PushAll(h.0, h.1, h.2, bytes[HEADER_SIZE..], events, SLOT_SIZE);
    var out := EncodeHeader(p.head, p.tail, h.2) + p.buf;
    assert out[..HEADER_SIZE] == EncodeHeader(p.head, p.tail, h.2);
    HeaderRoundTrip(p.head, p.tail, h.2);
  }

  /** On the source's slot width, queueing a run that starts with a `Trade` fails with a Borsh
      I/O error whenever the first slot lies inside the region, and the stored header keeps its
      old counters. */
  lemma QueueEventsSourceWidth(store: Store, key: Pubkey, events: seq<Event>)
    requires key in store && HEADER_SIZE <= |store[key]| < U64_LIMIT
    requires events != [] && events[0].Trade?
    requires var h := HeaderOrFallback(store[key][..HEADER_SIZE]);
      0 < h.2 && SlotOffset(h.1, h.2, SerializedSize()) + SerializedSize() <= |store[key]| - HEADER_SIZE
    ensures var o := QueueEvents(store, key, events, SerializedSize());
      && o.result == Err(BorshIoError)
      && |o.store[key]| == |store[key]|
      && o.store[key][..HEADER_SIZE] == store[key][..HEADER_SIZE]
  {
    var bytes := store[key];
    var h := HeaderOrFallback(bytes[..HEADER_SIZE]);
    TradeOverflowsSourceSlot(h.0, h.1, h.2, bytes[HEADER_SIZE..], events[0]);
    var p := PushAll(h.0, h.1, h.2, bytes[HEADER_SIZE..], events, SerializedSize());
    assert (bytes[..HEADER_SIZE] + p.buf)[..HEADER_SIZE] == bytes[..HEADER_SIZE];
  }

  // ----- CancelOrder -----

  /** Cancelling twice is cancelling once. */
  lemma {:induction false} CancelSlotsIdempotent(os: seq<Order>, id: U128)
    ensures CancelSlots(CancelSlots(os, id), id) == CancelSlots(os, id)
  {
    if os != [] {
      CancelSlotsIdempotent(os[1..], id);
    }
  }

  /** A cancel writes the record with every slot of the id deactivated and emptied, every
      other slot and field as it was. */
  lemma CancelOrderClears(programId: Pubkey, accounts: seq<AccountMeta>, store: Store, orderId: U128, u: UserAccount)
    requires Present(store, accounts) && |accounts| >= 2
    requires accounts[0].owner == programId && accounts[1].owner == programId
    requires DecodeUser(store[accounts[1].key]) == Some(u)
    ensures CancelOrder(programId, accounts, store, orderId) ==
      Outcome(Ok(()), store[accounts[1].key := EncodeUser(u.(openOrders := CancelSlots(u.openOrders, orderId)))])
  {
    SaveFits(store, accounts[1].key, EncodeUser(u.(openOrders := CancelSlots(u.openOrders, orderId))),
             ProgramError.InvalidAccountData);
  }

  /** A second identical cancel changes nothing more. */
  lemma CancelOrderIdempotent(programId: Pubkey, accounts: seq<AccountMeta>, store: Store, orderId: U128,
                              u: UserAccount)
    requires Present(store, accounts) && |accounts| >= 2
    requires accounts[0].owner == programId && accounts[1].owner == programId
    requires DecodeUser(store[accounts[1].key]) == Some(u)
    ensures var o := CancelOrder(programId, accounts, store, orderId);
      CancelOrder(programId, accounts, o.store, orderId) == o
  {
    var key := accounts[1].key;
    var c := u.(openOrders := CancelSlots(u.openOrders, orderId));
    CancelOrderClears(programId, accounts, store, orderId, u);
    var d := store[key := EncodeUser(c)];
    UserRoundTrip(c);
    assert Present(d, accounts);
    CancelOrderClears(programId, accounts, d, orderId, c);
    CancelSlotsIdempotent(u.openOrders, orderId);
    assert c.(openOrders := CancelSlots(c.openOrders, orderId)) == c;
    assert d[key := EncodeUser(c)] == d;
  }

  // ----- UpdateOracle -----

  /** Whoever owns the oracle account, an update of an account at least a price record long
      succeeds and reads back the given price, confidence and clock slot; a shorter account
      fails with the engine's `InvalidAccountData`. */
  lemma UpdateOracleReadsBack(accounts: seq<AccountMeta>, store: Store, price: I64, confidence: U64, slot: U64)
    requires Present(store, accounts) && |accounts| >= 1
    ensures var o := UpdateOracle(accounts, store, price, confidence, slot);
      var key := accounts[0].key;
      && (o.result.Ok? <==> |store[key]| >= ORACLE_SIZE)
      && (o.result.Err? ==> o.result == Err(Custom(EngineError.InvalidAccountData)))
      && |o.store[key]| == |store[key]|
      && (o.result.Ok? ==> ReadPrice(o.store[key][..ORACLE_SIZE]) == Ok(OraclePrice(price, confidence, slot)))
  {
    WritePriceReadsBack(store[accounts[0].key], price, confidence, slot);
  }

  // ----- Liquidate -----

  /** A liquidation moves base lots and quote between the two records: their sums are kept,
      the liquidator gains `max_liq_amount as i64` base lots, and every other field is unchanged. */
  lemma LiquidationConserves(liqor: UserAccount, liqee: UserAccount, maxLiqAmount: U64, price: I64)
    requires Liquidation(liqor, liqee, maxLiqAmount, price).Ok?
    ensures var n := Liquidation(liqor, liqee, maxLiqAmount, price).value;
      && n.liqor.basePosition + n.liqee.basePosition == liqor.basePosition + liqee.basePosition
      && n.liqor.quotePosition + n.liqee.quotePosition == liqor.quotePosition + liqee.quotePosition
      && n.liqor.basePosition - liqor.basePosition == FromBits64(maxLiqAmount)
      && n.liqee.quotePosition - liqee.quotePosition == FromBits64(maxLiqAmount) * price
      && n.liqor == liqor.(basePosition := n.liqor.basePosition, quotePosition := n.liqor.quotePosition)
      && n.liqee == liqee.(basePosition := n.liqee.basePosition, quotePosition := n.liqee.quotePosition)
  {
  }

  /** A worked liquidation at price 50: taking 10 lots moves 10 lots of base to the liquidator
      and 500 of quote to the liquidatee. An amount of 2^64 - 10 is read as -10 lots, so the
      same call moves the positions the other way. */
  lemma LiquidationExample(liqor: UserAccount, liqee: UserAccount)
    ensures var a := liqor.(basePosition := 0, quotePosition := 1000);
      var b := liqee.(basePosition := 30, quotePosition := -200);
      var r := Liquidation(a, b, 10, 50);
      && r.Ok?
      && r.value.liqor.basePosition == 10 && r.value.liqor.quotePosition == 500
      && r.value.liqee.basePosition == 20 && r.value.liqee.quotePosition == 300
    ensures var a := liqor.(basePosition := 0, quotePosition := 1000);
      var b := liqee.(basePosition := 30, quotePosition := -200);
      var r := Liquidation(a, b, U64_LIMIT - 10, 50);
      && r.Ok?
      && r.value.liqor.basePosition == -10 && r.value.liqor.quotePosition == 1500
      && r.value.liqee.basePosition == 40 && r.value.liqee.quotePosition == -700
  {
    assert FromBits64(10) == 10;
    assert FromBits64(U64_LIMIT - 10) == -10;
  }

  /** Under the checks `liquidate` makes, it writes the liquidator's record, then the liquidatee's. */
  lemma LiquidateSaves(programId: Pubkey, accounts: seq<AccountMeta>, store: Store, maxLiqAmount: U64,
                       a: UserAccount, b: UserAccount, p: OraclePrice)
    requires Present(store, accounts) && |accounts| >= 4
    requires accounts[0].owner == programId && accounts[1].owner == programId && accounts[2].owner == programId
    requires DecodeMarket(store[accounts[0].key]).Some? && ReadPrice(store[accounts[3].key]) == Ok(p)
    requires DecodeUser(store[accounts[1].key]) == Some(a) && DecodeUser(store[accounts[2].key]) == Some(b)
    requires Liquidation(a, b, maxLiqAmount, p.price).Ok?
    ensures Liquidate(programId, accounts, store, maxLiqAmount) ==
      SaveBoth(store, accounts[1].key, accounts[2].key, Liquidation(a, b, maxLiqAmount, p.price).value)
  {
  }

  /** A successful liquidation stores both updated records when the two accounts differ; when
      a user liquidates themselves only the liquidatee's update survives, so the base lots
      leave the record and their quote value arrives with no counterparty. */
  lemma LiquidateStores(programId: Pubkey, accounts: seq<AccountMeta>, store: Store, maxLiqAmount: U64,
                        a: UserAccount, b: UserAccount, p: OraclePrice)
    requires Present(store, accounts) && |accounts| >= 4
    requires accounts[0].owner == programId && accounts[1].owner == programId && accounts[2].owner == programId
    requires DecodeMarket(store[accounts[0].key]).Some? && ReadPrice(store[accounts[3].key]) == Ok(p)
    requires DecodeUser(store[accounts[1].key]) == Some(a) && DecodeUser(store[accounts[2].key]) == Some(b)
    requires Liquidation(a, b, maxLiqAmount, p.price).Ok?
    ensures var n := Liquidation(a, b, maxLiqAmount, p.price).value;
      var o := Liquidate(programId, accounts, store, maxLiqAmount);
      && o.result == Ok(())
      && (accounts[1].key != accounts[2].key ==>
            o.store == store[accounts[1].key := EncodeUser(n.liqor)][accounts[2].key := EncodeUser(n.liqee)])
      && (accounts[1].key == accounts[2].key ==>
            && o.store == store[accounts[1].key := EncodeUser(n.liqee)]
            && n.liqee == a.(basePosition := a.basePosition - FromBits64(maxLiqAmount),
                             quotePosition := a.quotePosition + FromBits64(maxLiqAmount) * p.price))
  {
    var n := Liquidation(a, b, maxLiqAmount, p.price).value;
    LiquidateSaves(programId, accounts, store, maxLiqAmount, a, b, p);
    SaveFits(store, accounts[1].key, EncodeUser(n.liqor), ProgramError.InvalidAccountData);
    var o1 := store[accounts[1].key := EncodeUser(n.liqor)];
    SaveFits(o1, accounts[2].key, EncodeUser(n.liqee), ProgramError.InvalidAccountData);
    if accounts[1].key == accounts[2].key {
      assert o1[accounts[2].key := EncodeUser(n.liqee)] == store[accounts[1].key := EncodeUser(n.liqee)];
    }
  }
}
