/** The instruction processor: `process` decodes an instruction and runs one of seven
    handlers over the passed accounts. Each handler is specified by a function from the
    account bytes before the call to its result and the account bytes after it, and
    implemented by a method that updates a `Ledger` step by step. */
module Processor {
  import opened Borsh
  import opened Errors
  import opened State
  import Instruction
  import opened Matching
  import opened Queue
  import opened Oracle
  import opened Runtime

  /** The clock sysvar, as the handlers read it. */
  datatype Clock = Clock(slot: U64, unixTimestamp: I64)

  /** The result of a handler and the account bytes it leaves behind. */
  datatype Outcome = Outcome(result: Result<()>, store: Store)

  function Fail(e: ProgramError, store: Store): Outcome
  {
    Outcome(Err(e), store)
  }

  /** Serializes `enc` into account `key`; a failed write is reported as `e`. */
  function Save(store: Store, key: Pubkey, enc: seq<Byte>, e: ProgramError): (o: Outcome)
    requires key in store
    ensures o.store.Keys == store.Keys
    ensures o.result.Ok? <==> |enc| <= |store[key]|
    ensures o.result.Err? ==> o.result.error == e
  {
    var w := SerializeInto(enc, store[key]);
    Outcome(if w.ok then Ok(()) else Err(e), store[key := w.data])
  }

  /** Eight default order slots. */
  const EmptySlots: OrderSlots := [DefaultOrder, DefaultOrder, DefaultOrder, DefaultOrder,
                                   DefaultOrder, DefaultOrder, DefaultOrder, DefaultOrder]

  /** The market `initialize_market` builds on all-zero bytes. */
  function NewMarket(admin: Pubkey, oracle: Pubkey, feeBps: U16): Market
  {
    Market(admin, DefaultKey, DefaultKey, oracle, feeBps, true, [0, 0, 0, 0, 0])
  }

  /** The user account `deposit` builds on all-zero bytes. */
  function NewUser(owner: Pubkey, market: Pubkey, now: I64): UserAccount
  {
    UserAccount(owner, market, 0, 0, now, EmptySlots)
  }

  // ----- InitializeMarket -----

  /** `process_initialize_market`: accounts are the market, the admin and the oracle. */
  function InitializeMarket(programId: Pubkey, accounts: seq<AccountMeta>, store: Store, feeBps: U16): Outcome
    requires Present(store, accounts)
  {
    if |accounts| < 3 then Fail(NotEnoughAccountKeys, store)
    else
      var market := accounts[0];
      var admin := accounts[1];
      var oracle := accounts[2];
      if market.owner != programId then Fail(Custom(InvalidOwner), store)
      else if !market.rentExempt then Fail(Custom(NotRentExempt), store)
      else
        var bytes := store[market.key];
        var loaded := if IsZeroed(bytes) then Some(NewMarket(admin.key, oracle.key, feeBps)) else DecodeMarket(bytes);
        if loaded.None? then Fail(ProgramError.InvalidAccountData, store)
        else
          var m := loaded.value.(feeBps := feeBps, oracle := oracle.key, isActive := true);
          Save(store, market.key, EncodeMarket(m), Custom(EngineError.InvalidAccountData))
  }

  // ----- Deposit and Withdraw -----

  /** The user record `deposit` writes: the existing one, or a new one on all-zero bytes, with
      `amount` added to its quote position. `amount as i64` reinterprets the bits; the addition
      overflow-checks. */
  function Credit(bytes: seq<Byte>, owner: Pubkey, market: Pubkey, amount: U64, now: I64): Result<UserAccount>
  {
    var loaded := if IsZeroed(bytes) then Some(NewUser(owner, market, now)) else DecodeUser(bytes);
    if loaded.None? then Err(ProgramError.InvalidAccountData)
    else
      var quote := loaded.value.quotePosition + FromBits64(amount);
      if !InI64(quote) then Err(Panic(ArithmeticOverflow))
      else Ok(loaded.value.(quotePosition := quote, lastUpdateTs := now))
  }

  /** `process_deposit`: accounts are the market, the user record and the user's owner key. */
  function Deposit(programId: Pubkey, accounts: seq<AccountMeta>, store: Store, amount: U64, now: I64): Outcome
    requires Present(store, accounts)
  {
    if |accounts| < 3 then Fail(NotEnoughAccountKeys, store)
    else
      var market := accounts[0];
      var user := accounts[1];
      var owner := accounts[2];
      if market.owner != programId || user.owner != programId then Fail(Custom(InvalidOwner), store)
      else if DecodeMarket(store[market.key]).None? then Fail(ProgramError.InvalidAccountData, store)
      else match Credit(store[user.key], owner.key, market.key, amount, now)
        case Err(e) => Fail(e, store)
        case Ok(u) => Save(store, user.key, EncodeUser(u), ProgramError.InvalidAccountData)
  }

  /** The user record `withdraw` writes: the existing one with `amount` taken from its quote
      position. Nothing checks the balance. */
  function Debit(bytes: seq<Byte>, amount: U64, now: I64): Result<UserAccount>
  {
    match DecodeUser(bytes)
    case None => Err(ProgramError.InvalidAccountData)
    case Some(u) =>
      var quote := u.quotePosition - FromBits64(amount);
      if !InI64(quote) then Err(Panic(ArithmeticOverflow))
      else Ok(u.(quotePosition := quote, lastUpdateTs := now))
  }

  /** `process_withdraw`: accounts are the market, the user record and a recipient; the market
      record is not read. */
  function Withdraw(programId: Pubkey, accounts: seq<AccountMeta>, store: Store, amount: U64, now: I64): Outcome
    requires Present(store, accounts)
  {
    if |accounts| < 3 then Fail(NotEnoughAccountKeys, store)
    else
      var market := accounts[0];
      var user := accounts[1];
      if market.owner != programId || user.owner != programId then Fail(Custom(InvalidOwner), store)
      else match Debit(store[user.key], amount, now)
        case Err(e) => Fail(e, store)
        case Ok(u) => Save(store, user.key, EncodeUser(u), ProgramError.InvalidAccountData)
  }

  // ----- PlaceOrder -----

  /** The user records of `accounts`, decoded in order; `None` when any of them is not one. */
  function LoadUsers(store: Store, accounts: seq<AccountMeta>): (r: Option<seq<UserAccount>>)
    requires Present(store, accounts)
    ensures r.Some? ==> |r.value| == |accounts|
  {
    if accounts == [] then Some([])
    else
      var last := accounts[|accounts| - 1];
      match LoadUsers(store, accounts[..|accounts| - 1])
      case None => None
      case Some(front) =>
        match DecodeUser(store[last.key])
        case None => None
        case Some(u) => Some(front + [u])
  }

  /** The makers written back in order; the first failed write stops the loop. */
  function SaveUsers(store: Store, accounts: seq<AccountMeta>, users: seq<UserAccount>): (o: Outcome)
    requires Present(store, accounts) && |users| == |accounts|
    ensures o.store.Keys == store.Keys
    ensures o.result.Err? ==> o.result.error == ProgramError.InvalidAccountData
    decreases |accounts|
  {
    if accounts == [] then Outcome(Ok(()), store)
    else
      var o := Save(store, accounts[0].key, EncodeUser(users[0]), ProgramError.InvalidAccountData);
      if o.result.Err? then o else SaveUsers(o.store, accounts[1..], users[1..])
  }

  /** The header as `place_order` reads it, with the source's fallback for bytes that do not decode. */
  function HeaderOrFallback(s: seq<Byte>): (U64, U64, U64)
  {
    match DecodeHeader(s)
    case Some(h) => h
    case None => (0, 0, 64)
  }

  /** The queue part of `process_place_order` on slot width `slotSize`: the header from the
      first 24 bytes, one push per event into the bytes behind it, and the header written back. */
  function QueueEvents(store: Store, key: Pubkey, events: seq<Event>, slotSize: nat): (o: Outcome)
    requires key in store
    ensures o.store.Keys == store.Keys
  {
    var bytes := store[key];
    if |bytes| < HEADER_SIZE then Fail(Panic(IndexOutOfBounds), store)
    else
      var h := HeaderOrFallback(bytes[..HEADER_SIZE]);
      var p := PushAll(h.0, h.1, h.2, bytes[HEADER_SIZE..], events, slotSize);
      if p.result.Err? then Outcome(p.result, store[key := bytes[..HEADER_SIZE] + p.buf])
      else Outcome(Ok(()), store[key := EncodeHeader(p.head, p.tail, h.2) + p.buf])
  }

  /** What `process_place_order` does after matching: the taker, the makers, then the queue,
      on the corrected slot width. */
  function Settle(store: Store, userKey: Pubkey, makerAccounts: seq<AccountMeta>, queueKey: Pubkey,
                  r: MatchState, now: I64): Outcome
    requires userKey in store && queueKey in store && Present(store, makerAccounts)
    requires |r.makers| == |makerAccounts|
  {
    var o := Save(store, userKey, EncodeUser(r.taker.(lastUpdateTs := now)), ProgramError.InvalidAccountData);
    if o.result.Err? then o
    else
      var o' := SaveUsers(o.store, makerAccounts, r.makers);
      if o'.result.Err? then o' else QueueEvents(o'.store, queueKey, r.events, SLOT_SIZE)
  }

  /** `process_place_order`: accounts are the market, the taker's record, the event queue and
      then the makers' records. The taker's quantity is `max_base_lots`; `price_lots` is not used. */
  function PlaceOrder(programId: Pubkey, accounts: seq<AccountMeta>, store: Store, priceLots: I64,
                      maxBaseLots: I64, sideIsBid: bool, now: I64): Outcome
    requires Present(store, accounts)
  {
    if |accounts| < 3 then Fail(NotEnoughAccountKeys, store)
    else
      var market := accounts[0];
      var user := accounts[1];
      var queue := accounts[2];
      if market.owner != programId || user.owner != programId then Fail(Custom(InvalidOwner), store)
      else match DecodeMarket(store[market.key])
        case None => Fail(ProgramError.InvalidAccountData, store)
        case Some(m) =>
          if !m.isActive then Fail(Custom(MarketInactive), store)
          else match DecodeUser(store[user.key])
            case None => Fail(ProgramError.InvalidAccountData, store)
            case Some(taker) =>
              match LoadUsers(store, accounts[3..])
              case None => Fail(ProgramError.InvalidAccountData, store)
              case Some(makers) =>
                match Match(MatchState(taker, makers, maxBaseLots, 0, []), sideIsBid)
                case None => Fail(Panic(ArithmeticOverflow), store)
                case Some(r) => Settle(store, user.key, accounts[3..], queue.key, r, now)
  }

  // ----- CancelOrder -----

  /** Slot `o` after a cancel of `id`. */
  function CancelSlot(o: Order, id: U128): Order
  {
    if o.id == id then o.(isActive := false, baseLots := 0) else o
  }

  /** The loop of `process_cancel_order` over the order slots. */
  function CancelSlots(os: seq<Order>, id: U128): (r: seq<Order>)
    ensures |r| == |os|
    ensures forall k :: 0 <= k < |os| ==> r[k] == CancelSlot(os[k], id)
  {
    if os == [] then [] else [CancelSlot(os[0], id)] + CancelSlots(os[1..], id)
  }

  /** `process_cancel_order`: accounts are the market and the user record. */
  function CancelOrder(programId: Pubkey, accounts: seq<AccountMeta>, store: Store, orderId: U128): Outcome
    requires Present(store, accounts)
  {
    if |accounts| < 2 then Fail(NotEnoughAccountKeys, store)
    else
      var market := accounts[0];
      var user := accounts[1];
      if market.owner != programId || user.owner != programId then Fail(Custom(InvalidOwner), store)
      else match DecodeUser(store[user.key])
        case None => Fail(ProgramError.InvalidAccountData, store)
        case Some(u) =>
          Save(store, user.key, EncodeUser(u.(openOrders := CancelSlots(u.openOrders, orderId))),
               ProgramError.InvalidAccountData)
  }

  // ----- UpdateOracle -----

  /** `process_update_oracle`: the one account is the oracle; nothing checks its owner. */
  function UpdateOracle(accounts: seq<AccountMeta>, store: Store, price: I64, confidence: U64, slot: U64): Outcome
    requires Present(store, accounts)
  {
    if |accounts| < 1 then Fail(NotEnoughAccountKeys, store)
    else
      var key := accounts[0].key;
      var w := WritePrice(store[key], price, confidence, slot);
      Outcome(w.0, store[key := w.1])
  }

  // ----- Liquidate -----

  /** The two records after a liquidation of `maxLiqAmount` at `price`. */
  datatype Positions = Positions(liqor: UserAccount, liqee: UserAccount)

  /** The liquidator takes `max_liq_amount as i64` base lots from the liquidatee and pays
      their value at `price` in quote; the product and the four sums overflow-check. */
  function Liquidation(liqor: UserAccount, liqee: UserAccount, maxLiqAmount: U64, price: I64): Result<Positions>
  {
    var maxBase := FromBits64(maxLiqAmount);
    var quoteChange := maxBase * price;
    var aBase := liqor.basePosition + maxBase;
    var aQuote := liqor.quotePosition - quoteChange;
    var bBase := liqee.basePosition - maxBase;
    var bQuote := liqee.quotePosition + quoteChange;
    if !(InI64(quoteChange) && InI64(aBase) && InI64(aQuote) && InI64(bBase) && InI64(bQuote)) then
      Err(Panic(ArithmeticOverflow))
    else
      Ok(Positions(liqor.(basePosition := aBase, quotePosition := aQuote),
                   liqee.(basePosition := bBase, quotePosition := bQuote)))
  }

  /** `process_liquidate`: accounts are the market, the liquidator, the liquidatee and the oracle.
      Both records are decoded before either is written. */
  function Liquidate(programId: Pubkey, accounts: seq<AccountMeta>, store: Store, maxLiqAmount: U64): Outcome
    requires Present(store, accounts)
  {
    if |accounts| < 4 then Fail(NotEnoughAccountKeys, store)
    else
      var market := accounts[0];
      var liqor := accounts[1];
      var liqee := accounts[2];
      var oracle := accounts[3];
      if market.owner != programId || liqor.owner != programId || liqee.owner != programId then
        Fail(Custom(InvalidOwner), store)
      else if DecodeMarket(store[market.key]).None? then Fail(ProgramError.InvalidAccountData, store)
      else match ReadPrice(store[oracle.key])
        case Err(e) => Fail(e, store)
        case Ok(p) =>
          match DecodeUser(store[liqor.key])
          case None => Fail(ProgramError.InvalidAccountData, store)
          case Some(a) =>
            match DecodeUser(store[liqee.key])
            case None => Fail(ProgramError.InvalidAccountData, store)
            case Some(b) =>
              match Liquidation(a, b, maxLiqAmount, p.price)
              case Err(e) => Fail(e, store)
              case Ok(n) => SaveBoth(store, liqor.key, liqee.key, n)
  }

  /** The liquidator's record is written, then the liquidatee's. */
  function SaveBoth(store: Store, liqorKey: Pubkey, liqeeKey: Pubkey, n: Positions): (o: Outcome)
    requires liqorKey in store && liqeeKey in store
    ensures o.store.Keys == store.Keys
  {
    var o := Save(store, liqorKey, EncodeUser(n.liqor), ProgramError.InvalidAccountData);
    if o.result.Err? then o
    else Save(o.store, liqeeKey, EncodeUser(n.liqee), ProgramError.InvalidAccountData)
  }

  // ----- dispatch -----

  /** The handler each instruction variant runs, with that variant's fields. */
  function Dispatch(programId: Pubkey, accounts: seq<AccountMeta>, store: Store, ix: Instruction.EngineInstruction,
                    clock: Clock): Outcome
    requires Present(store, accounts)
  {
    match ix
    case InitializeMarket(feeBps) => InitializeMarket(programId, accounts, store, feeBps)
    case Deposit(amount) => Deposit(programId, accounts, store, amount, clock.unixTimestamp)
    case Withdraw(amount) => Withdraw(programId, accounts, store, amount, clock.unixTimestamp)
    case PlaceOrder(price, lots, bid) => PlaceOrder(programId, accounts, store, price, lots, bid, clock.unixTimestamp)
    case CancelOrder(id) => CancelOrder(programId, accounts, store, id)
    case UpdateOracle(price, confidence) => UpdateOracle(accounts, store, price, confidence, clock.slot)
    case Liquidate(amount) => Liquidate(programId, accounts, store, amount)
  }

  /** `Processor::process`: an instruction that does not unpack fails with `InvalidInstruction`. */
  function Process(programId: Pubkey, accounts: seq<AccountMeta>, store: Store, data: seq<Byte>, clock: Clock): Outcome
    requires Present(store, accounts)
  {
    match Instruction.Unpack(data)
    case Err(e) => Fail(e, store)
    case Ok(ix) => Dispatch(programId, accounts, store, ix, clock)
  }

  // ----- the handlers, updating the ledger -----

  method ProcessInitializeMarket(ledger: Ledger, programId: Pubkey, accounts: seq<AccountMeta>, feeBps: U16)
      returns (r: Result<()>)
    requires Present(ledger.data, accounts)
    modifies ledger
    ensures var o := InitializeMarket(programId, accounts, old(ledger.data), feeBps);
      r == o.result && ledger.data == o.store
  {
    if |accounts| < 3 {
      return Err(NotEnoughAccountKeys);
    }
    var marketAi, adminAi, oracleAi := accounts[0], accounts[1], accounts[2];
    if marketAi.owner != programId {
      return Err(Custom(InvalidOwner));
    }
    if !marketAi.rentExempt {
      return Err(Custom(NotRentExempt));
    }
    var market: Market;
    if IsZeroed(ledger.data[marketAi.key]) {
      market := NewMarket(adminAi.key, oracleAi.key, feeBps);
    } else {
      var decoded := DecodeMarket(ledger.data[marketAi.key]);
      if decoded.None? {
        return Err(ProgramError.InvalidAccountData);
      }
      market := decoded.value;
    }
    market := market.(feeBps := feeBps);
    market := market.(oracle := oracleAi.key);
    market := market.(isActive := true);
    var ok := ledger.Serialize(marketAi.key, EncodeMarket(market));
    r := if ok then Ok(()) else Err(Custom(EngineError.InvalidAccountData));
  }

  method ProcessDeposit(ledger: Ledger, programId: Pubkey, accounts: seq<AccountMeta>, amount: U64, clock: Clock)
      returns (r: Result<()>)
    requires Present(ledger.data, accounts)
    modifies ledger
    ensures var o := Deposit(programId, accounts, old(ledger.data), amount, clock.unixTimestamp);
      r == o.result && ledger.data == o.store
  {
    if |accounts| < 3 {
      return Err(NotEnoughAccountKeys);
    }
    var marketAi, userAi, ownerAi := accounts[0], accounts[1], accounts[2];
    if marketAi.owner != programId || userAi.owner != programId {
      return Err(Custom(InvalidOwner));
    }
    if DecodeMarket(ledger.data[marketAi.key]).None? {
      return Err(ProgramError.InvalidAccountData);
    }
    var user := CreditUser(ledger.data[userAi.key], ownerAi.key, marketAi.key, amount, clock.unixTimestamp);
    if user.Err? {
      return Err(user.error);
    }
    var ok := ledger.Serialize(userAi.key, EncodeUser(user.value));
    r := if ok then Ok(()) else Err(ProgramError.InvalidAccountData);
  }

  /** The record `deposit` writes, built field by field. */
  method CreditUser(bytes: seq<Byte>, owner: Pubkey, market: Pubkey, amount: U64, now: I64)
      returns (r: Result<UserAccount>)
    ensures r == Credit(bytes, owner, market, amount, now)
  {
    var user: UserAccount;
    if IsZeroed(bytes) {
      user := NewUser(owner, market, now);
    } else {
      var decoded := DecodeUser(bytes);
      if decoded.None? {
        return Err(ProgramError.InvalidAccountData);
      }
      user := decoded.value;
    }
    var quote := user.quotePosition + FromBits64(amount);
    if !InI64(quote) {
      return Err(Panic(ArithmeticOverflow));
    }
    return Ok(user.(quotePosition := quote, lastUpdateTs := now));
  }

  method ProcessWithdraw(ledger: Ledger, programId: Pubkey, accounts: seq<AccountMeta>, amount: U64, clock: Clock)
      returns (r: Result<()>)
    requires Present(ledger.data, accounts)
    modifies ledger
    ensures var o := Withdraw(programId, accounts, old(ledger.data), amount, clock.unixTimestamp);
      r == o.result && ledger.data == o.store
  {
    if |accounts| < 3 {
      return Err(NotEnoughAccountKeys);
    }
    var marketAi, userAi := accounts[0], accounts[1];
    if marketAi.owner != programId || userAi.owner != programId {
      return Err(Custom(InvalidOwner));
    }
    var user := DebitUser(ledger.data[userAi.key], amount, clock.unixTimestamp);
    if user.Err? {
      return Err(user.error);
    }
    var ok := ledger.Serialize(userAi.key, EncodeUser(user.value));
    r := if ok then Ok(()) else Err(ProgramError.InvalidAccountData);
  }

  /** The record `withdraw` writes, built field by field. */
  method DebitUser(bytes: seq<Byte>, amount: U64, now: I64) returns (r: Result<UserAccount>)
    ensures r == Debit(bytes, amount, now)
  {
    var decoded := DecodeUser(bytes);
    if decoded.None? {
      return Err(ProgramError.InvalidAccountData);
    }
    var user := decoded.value;
    var quote := user.quotePosition - FromBits64(amount);
    if !InI64(quote) {
      return Err(Panic(ArithmeticOverflow));
    }
    return Ok(user.(quotePosition := quote, lastUpdateTs := now));
  }

  /** Decodes the makers' records, collecting them in order. */
  method LoadMakers(ledger: Ledger, accounts: seq<AccountMeta>) returns (r: Option<seq<UserAccount>>)
    requires Present(ledger.data, accounts)
    ensures r == LoadUsers(ledger.data, accounts)
  {
    var users: seq<UserAccount> := [];
    var k := 0;
    while k < |accounts|
      invariant 0 <= k <= |accounts|
      invariant LoadUsers(ledger.data, accounts[..k]) == Some(users)
    {
      var decoded := DecodeUser(ledger.data[accounts[k].key]);
      LoadUsersNext(ledger.data, accounts, k);
      if decoded.None? {
        LoadUsersFailure(ledger.data, accounts, k + 1);
        return None;
      }
      users := users + [decoded.value];
      k := k + 1;
    }
    assert accounts[..k] == accounts;
    return Some(users);
  }

  /** One more account loaded: the prefix's records and that account's record. */
  lemma LoadUsersNext(store: Store, accounts: seq<AccountMeta>, k: nat)
    requires Present(store, accounts) && k < |accounts|
    ensures LoadUsers(store, accounts[..k + 1]) ==
      match LoadUsers(store, accounts[..k])
      case None => None
      case Some(front) =>
        match DecodeUser(store[accounts[k].key])
        case None => None
        case Some(u) => Some(front + [u])
  {
    assert accounts[..k + 1][..k] == accounts[..k];
  }

  /** A record that fails to decode makes every longer prefix fail to load. */
  lemma {:induction false} LoadUsersFailure(store: Store, accounts: seq<AccountMeta>, n: nat)
    requires Present(store, accounts) && 0 < n <= |accounts|
    requires LoadUsers(store, accounts[..n]).None?
    ensures LoadUsers(store, accounts).None?
    decreases |accounts| - n
  {
    if n < |accounts| {
      LoadUsersNext(store, accounts, n);
      LoadUsersFailure(store, accounts, n + 1);
    } else {
      assert accounts[..n] == accounts;
    }
  }

  /** Writes the makers back in order, stopping at the first failed write. */
  method SaveMakers(ledger: Ledger, accounts: seq<AccountMeta>, users: seq<UserAccount>) returns (r: Result<()>)
    requires Present(ledger.data, accounts) && |users| == |accounts|
    modifies ledger
    ensures var o := SaveUsers(old(ledger.data), accounts, users); r == o.result && ledger.data == o.store
  {
    ghost var goal := SaveUsers(ledger.data, accounts, users);
    var k := 0;
    while k < |accounts|
      invariant 0 <= k <= |accounts|
      invariant Present(ledger.data, accounts[k..])
      invariant SaveUsers(ledger.data, accounts[k..], users[k..]) == goal
    {
      assert accounts[k..][1..] == accounts[k + 1..] && users[k..][1..] == users[k + 1..];
      var ok := ledger.Serialize(accounts[k].key, EncodeUser(users[k]));
      if !ok {
        return Err(ProgramError.InvalidAccountData);
      }
      k := k + 1;
    }
    return Ok(());
  }

  /** The queue part of `process_place_order` on the ledger. */
  method PushEvents(ledger: Ledger, key: Pubkey, events: seq<Event>, slotSize: nat) returns (r: Result<()>)
    requires key in ledger.data
    modifies ledger
    ensures var o := QueueEvents(old(ledger.data), key, events, slotSize); r == o.result && ledger.data == o.store
  {
    var bytes := ledger.data[key];
    if |bytes| < HEADER_SIZE {
      return Err(Panic(IndexOutOfBounds));
    }
    var h := HeaderOrFallback(bytes[..HEADER_SIZE]);
    var header := new EventQueueHeader(h.0, h.1, h.2);
    var region := new Byte[|bytes| - HEADER_SIZE](k requires 0 <= k < |bytes| - HEADER_SIZE => bytes[HEADER_SIZE + k]);
    assert region[..] == bytes[HEADER_SIZE..];
    ghost var goal := PushAll(h.0, h.1, h.2, bytes[HEADER_SIZE..], events, slotSize);
    var i := 0;
    while i < |events|
      invariant 0 <= i <= |events|
      invariant header.capacity == h.2
      invariant ledger.data == old(ledger.data)
      invariant PushAll(header.head, header.tail, header.capacity, region[..], events[i..], slotSize) == goal
    {
      PushAllNext(header.head, header.tail, header.capacity, region[..], events, i, slotSize);
      r := PushEvent(header, region, events[i], slotSize);
      if r.Err? {
        ledger.Put(key, bytes[..HEADER_SIZE] + region[..]);
        return;
      }
      i := i + 1;
    }
    ledger.Put(key, EncodeHeader(header.head, header.tail, header.capacity) + region[..]);
    return Ok(());
  }

  /** The pushes from event `i` on: event `i`'s, then, unless it failed, those behind it. */
  lemma PushAllNext(head: U64, tail: U64, capacity: U64, buf: seq<Byte>, events: seq<Event>, i: nat, slotSize: nat)
    requires i < |events|
    ensures PushAll(head, tail, capacity, buf, events[i..], slotSize) ==
      var p := Push(head, tail, capacity, buf, events[i], slotSize);
      if p.result.Err? then p else PushAll(p.head, p.tail, capacity, p.buf, events[i + 1..], slotSize)
  {
    assert events[i..][1..] == events[i + 1..];
  }

  /** What `process_place_order` does after matching, on the ledger. */
  method SettleMatch(ledger: Ledger, userKey: Pubkey, makerAccounts: seq<AccountMeta>, queueKey: Pubkey,
                     m: MatchState, now: I64) returns (r: Result<()>)
    requires userKey in ledger.data && queueKey in ledger.data && Present(ledger.data, makerAccounts)
    requires |m.makers| == |makerAccounts|
    modifies ledger
    ensures var o := Settle(old(ledger.data), userKey, makerAccounts, queueKey, m, now);
      r == o.result && ledger.data == o.store
  {
    var taker := m.taker.(lastUpdateTs := now);
    var saved := ledger.Serialize(userKey, EncodeUser(taker));
    if !saved {
      return Err(ProgramError.InvalidAccountData);
    }
    r := SaveMakers(ledger, makerAccounts, m.makers);
    if r.Err? {
      return;
    }
    r := PushEvents(ledger, queueKey, m.events, SLOT_SIZE);
  }

  method ProcessPlaceOrder(ledger: Ledger, programId: Pubkey, accounts: seq<AccountMeta>, priceLots: I64,
                           maxBaseLots: I64, sideIsBid: bool, clock: Clock) returns (r: Result<()>)
    requires Present(ledger.data, accounts)
    modifies ledger
    ensures var o := PlaceOrder(programId, accounts, old(ledger.data), priceLots, maxBaseLots, sideIsBid,
                                clock.unixTimestamp);
      r == o.result && ledger.data == o.store
  {
    if |accounts| < 3 {
      return Err(NotEnoughAccountKeys);
    }
    var marketAi, userAi, queueAi := accounts[0], accounts[1], accounts[2];
    var remainingUsers := accounts[3..];
    if marketAi.owner != programId || userAi.owner != programId {
      return Err(Custom(InvalidOwner));
    }
    var market := DecodeMarket(ledger.data[marketAi.key]);
    if market.None? {
      return Err(ProgramError.InvalidAccountData);
    }
    if !market.value.isActive {
      return Err(Custom(MarketInactive));
    }
    var taker := DecodeUser(ledger.data[userAi.key]);
    if taker.None? {
      return Err(ProgramError.InvalidAccountData);
    }
    var loaded := LoadMakers(ledger, remainingUsers);
    if loaded.None? {
      return Err(ProgramError.InvalidAccountData);
    }
    var otherUsers := new UserAccount[|loaded.value|](k requires 0 <= k < |loaded.value| => loaded.value[k]);
    assert otherUsers[..] == loaded.value;
    var ok, takerOut, maxQuoteChange, events := MatchOrders(taker.value, otherUsers, maxBaseLots, 0, sideIsBid, []);
    if !ok {
      return Err(Panic(ArithmeticOverflow));
    }
    r := SettleMatch(ledger, userAi.key, remainingUsers, queueAi.key,
                     MatchState(takerOut, otherUsers[..], maxBaseLots, maxQuoteChange, events), clock.unixTimestamp);
  }

  /** `process_cancel_order`'s loop over the eight slots of the user's record. */
  method CancelMatching(user: UserAccount, orderId: U128) returns (u: UserAccount)
    ensures u == user.(openOrders := CancelSlots(user.openOrders, orderId))
  {
    u := user;
    var j := 0;
    while j < SLOT_COUNT
      invariant 0 <= j <= SLOT_COUNT
      invariant u == user.(openOrders := u.openOrders)
      invariant forall k :: 0 <= k < j ==> u.openOrders[k] == CancelSlot(user.openOrders[k], orderId)
      invariant forall k :: j <= k < SLOT_COUNT ==> u.openOrders[k] == user.openOrders[k]
    {
      var order := u.openOrders[j];
      if order.id == orderId {
        order := order.(isActive := false);
        order := order.(baseLots := 0);
      }
      u := u.(openOrders := u.openOrders[j := order]);
      j := j + 1;
    }
    assert u.openOrders == CancelSlots(user.openOrders, orderId);
  }

  method ProcessCancelOrder(ledger: Ledger, programId: Pubkey, accounts: seq<AccountMeta>, orderId: U128)
      returns (r: Result<()>)
    requires Present(ledger.data, accounts)
    modifies ledger
    ensures var o := CancelOrder(programId, accounts, old(ledger.data), orderId);
      r == o.result && ledger.data == o.store
  {
    if |accounts| < 2 {
      return Err(NotEnoughAccountKeys);
    }
    var marketAi, userAi := accounts[0], accounts[1];
    if marketAi.owner != programId || userAi.owner != programId {
      return Err(Custom(InvalidOwner));
    }
    var decoded := DecodeUser(ledger.data[userAi.key]);
    if decoded.None? {
      return Err(ProgramError.InvalidAccountData);
    }
    var user := CancelMatching(decoded.value, orderId);
    var ok := ledger.Serialize(userAi.key, EncodeUser(user));
    r := if ok then Ok(()) else Err(ProgramError.InvalidAccountData);
  }

  method ProcessUpdateOracle(ledger: Ledger, accounts: seq<AccountMeta>, price: I64, confidence: U64, clock: Clock)
      returns (r: Result<()>)
    requires Present(ledger.data, accounts)
    modifies ledger
    ensures var o := UpdateOracle(accounts, old(ledger.data), price, confidence, clock.slot);
      r == o.result && ledger.data == o.store
  {
    if |accounts| < 1 {
      return Err(NotEnoughAccountKeys);
    }
    r := WritePriceTo(ledger, accounts[0].key, price, confidence, clock.slot);
  }

  method ProcessLiquidate(ledger: Ledger, programId: Pubkey, accounts: seq<AccountMeta>, maxLiqAmount: U64)
      returns (r: Result<()>)
    requires Present(ledger.data, accounts)
    modifies ledger
    ensures var o := Liquidate(programId, accounts, old(ledger.data), maxLiqAmount);
      r == o.result && ledger.data == o.store
  {
    if |accounts| < 4 {
      return Err(NotEnoughAccountKeys);
    }
    var marketAi, liqorAi, liqeeAi, oracleAi := accounts[0], accounts[1], accounts[2], accounts[3];
    if marketAi.owner != programId || liqorAi.owner != programId || liqeeAi.owner != programId {
      return Err(Custom(InvalidOwner));
    }
    if DecodeMarket(ledger.data[marketAi.key]).None? {
      return Err(ProgramError.InvalidAccountData);
    }
    var read := ReadPrice(ledger.data[oracleAi.key]);
    if read.Err? {
      return Err(read.error);
    }
    var liqor := DecodeUser(ledger.data[liqorAi.key]);
    if liqor.None? {
      return Err(ProgramError.InvalidAccountData);
    }
    var liqee := DecodeUser(ledger.data[liqeeAi.key]);
    if liqee.None? {
      return Err(ProgramError.InvalidAccountData);
    }
    var n := LiquidatePositions(liqor.value, liqee.value, maxLiqAmount, read.value.price);
    if n.Err? {
      return Err(n.error);
    }
    var ok := ledger.Serialize(liqorAi.key, EncodeUser(n.value.liqor));
    if !ok {
      return Err(ProgramError.InvalidAccountData);
    }
    ok := ledger.Serialize(liqeeAi.key, EncodeUser(n.value.liqee));
    r := if ok then Ok(()) else Err(ProgramError.InvalidAccountData);
  }

  /** The arithmetic of `process_liquidate`, one checked operation at a time. */
  method LiquidatePositions(liqor: UserAccount, liqee: UserAccount, maxLiqAmount: U64, price: I64)
      returns (r: Result<Positions>)
    ensures r == Liquidation(liqor, liqee, maxLiqAmount, price)
  {
    var maxBase := FromBits64(maxLiqAmount);
    var quoteChange := maxBase * price;
    if !InI64(quoteChange) {
      return Err(Panic(ArithmeticOverflow));
    }
    var liqorBase := liqor.basePosition + maxBase;
    if !InI64(liqorBase) {
      return Err(Panic(ArithmeticOverflow));
    }
    var liqorQuote := liqor.quotePosition - quoteChange;
    if !InI64(liqorQuote) {
      return Err(Panic(ArithmeticOverflow));
    }
    var liqeeBase := liqee.basePosition - maxBase;
    if !InI64(liqeeBase) {
      return Err(Panic(ArithmeticOverflow));
    }
    var liqeeQuote := liqee.quotePosition + quoteChange;
    if !InI64(liqeeQuote) {
      return Err(Panic(ArithmeticOverflow));
    }
    var a := liqor.(basePosition := liqorBase, quotePosition := liqorQuote);
    var b := liqee.(basePosition := liqeeBase, quotePosition := liqeeQuote);
    return Ok(Positions(a, b));
  }

  /** `Processor::process` on the ledger. */
  method ProcessInstruction(ledger: Ledger, programId: Pubkey, accounts: seq<AccountMeta>, data: seq<Byte>,
                            clock: Clock) returns (r: Result<()>)
    requires Present(ledger.data, accounts)
    modifies ledger
    ensures var o := Process(programId, accounts, old(ledger.data), data, clock);
      r == o.result && ledger.data == o.store
  {
    var instruction := Instruction.Unpack(data);
    if instruction.Err? {
      return Err(instruction.error);
    }
    match instruction.value
    case InitializeMarket(feeBps) =>
      r := ProcessInitializeMarket(ledger, programId, accounts, feeBps);
    case Deposit(amount) =>
      r := ProcessDeposit(ledger, programId, accounts, amount, clock);
    case Withdraw(amount) =>
      r := ProcessWithdraw(ledger, programId, accounts, amount, clock);
    case PlaceOrder(priceLots, maxBaseLots, sideIsBid) =>
      r := ProcessPlaceOrder(ledger, programId, accounts, priceLots, maxBaseLots, sideIsBid, clock);
    case CancelOrder(orderId) =>
      r := ProcessCancelOrder(ledger, programId, accounts, orderId);
    case UpdateOracle(price, confidence) =>
      r := ProcessUpdateOracle(ledger, accounts, price, confidence, clock);
    case Liquidate(maxLiqAmount) =>
      r := ProcessLiquidate(ledger, programId, accounts, maxLiqAmount);
  }
}
