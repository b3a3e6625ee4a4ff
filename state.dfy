/** The fixed-layout records of the matching engine and their Borsh byte layouts:
    every record is the concatenation of its fields in declaration order. */
module State {
  import opened Borsh

  type Padding = s: seq<Byte> | |s| == 5 witness [0, 0, 0, 0, 0]

  /** Configuration of one trading market. */
  datatype Market = Market(
    admin: Pubkey,
    baseMint: Pubkey,
    quoteMint: Pubkey,
    oracle: Pubkey,
    feeBps: U16,
    isActive: bool,
    padding: Padding)

  /** One order slot embedded in a user account. */
  datatype Order = Order(id: U128, priceLots: I64, baseLots: I64, sideIsBid: bool, isActive: bool)

  /** `Order::default()`. */
  const DefaultOrder: Order := Order(0, 0, 0, false, false)

  const SLOT_COUNT: nat := 8

  type OrderSlots = s: seq<Order> | |s| == SLOT_COUNT witness seq(8, _ => Order(0, 0, 0, false, false))

  /** Balances and the eight open-order slots of one user in one market. */
  datatype UserAccount = UserAccount(
    owner: Pubkey,
    market: Pubkey,
    basePosition: I64,
    quotePosition: I64,
    lastUpdateTs: I64,
    openOrders: OrderSlots)

  datatype OraclePrice = OraclePrice(price: I64, confidence: U64, lastUpdatedSlot: U64)

  datatype Event =
    | Trade(maker: Pubkey, taker: Pubkey, priceLots: I64, baseLots: I64)
    | FundingUpdate(market: Pubkey, fundingRateBps: I64)

  const MARKET_SIZE: nat := 136
  const ORDER_SIZE: nat := 34
  const USER_SIZE: nat := 360
  const ORACLE_SIZE: nat := 24
  const TRADE_SIZE: nat := 81
  const FUNDING_UPDATE_SIZE: nat := 41

  lemma MarketSlices(s: seq<Byte>)
    requires |s| == MARKET_SIZE
    ensures s == s[0..32] + s[32..64] + s[64..96] + s[96..128] + s[128..130] + [s[130]] + s[131..136]
  {
  }

  lemma OrderSlices(s: seq<Byte>)
    requires |s| == ORDER_SIZE
    ensures s == s[0..16] + s[16..24] + s[24..32] + [s[32], s[33]]
  {
  }

  lemma UserSlices(s: seq<Byte>)
    requires |s| == USER_SIZE
    ensures s == s[0..32] + s[32..64] + s[64..72] + s[72..80] + s[80..88] + s[88..360]
  {
  }

  lemma OracleSlices(s: seq<Byte>)
    requires |s| == ORACLE_SIZE
    ensures s == s[0..8] + s[8..16] + s[16..24]
  {
  }

  lemma TradeSlices(s: seq<Byte>)
    requires |s| == TRADE_SIZE
    ensures s == [s[0]] + s[1..33] + s[33..65] + s[65..73] + s[73..81]
  {
  }

  lemma FundingSlices(s: seq<Byte>)
    requires |s| == FUNDING_UPDATE_SIZE
    ensures s == [s[0]] + s[1..33] + s[33..41]
  {
  }

  // ----- Market -----

  function EncodeMarket(m: Market): (r: seq<Byte>)
    ensures |r| == MARKET_SIZE
  {
    m.admin + m.baseMint + m.quoteMint + m.oracle + EncodeU16(m.feeBps) + [EncodeBool(m.isActive)] + m.padding
  }

  /** `Market::try_from_slice`: every byte must be consumed. */
  function DecodeMarket(s: seq<Byte>): Option<Market>
  {
    if |s| != MARKET_SIZE then None
    else
      var active :- DecodeBool(s[130]);
      Some(Market(s[0..32], s[32..64], s[64..96], s[96..128], DecodeU16(s[128..130]), active, s[131..136]))
  }

  lemma MarketRoundTrip(m: Market)
    ensures DecodeMarket(EncodeMarket(m)) == Some(m)
  {
    var e := EncodeMarket(m);
    assert e[0..32] == m.admin && e[32..64] == m.baseMint;
    assert e[64..96] == m.quoteMint && e[96..128] == m.oracle;
    assert e[128..130] == EncodeU16(m.feeBps) && e[131..136] == m.padding;
    U16RoundTrip(m.feeBps);
  }

  lemma MarketCanonical(s: seq<Byte>)
    requires DecodeMarket(s).Some?
    ensures EncodeMarket(DecodeMarket(s).value) == s
  {
    var m := DecodeMarket(s).value;
    var active := DecodeBool(s[130]).value;
    assert m == Market(s[0..32], s[32..64], s[64..96], s[96..128], DecodeU16(s[128..130]), active, s[131..136]);
    assert EncodeU16(m.feeBps) == s[128..130] by { U16Canonical(s[128..130]); }
    assert [EncodeBool(m.isActive)] == [s[130]];
    MarketSlices(s);
  }

  // ----- Order -----

  function EncodeOrder(o: Order): (r: seq<Byte>)
    ensures |r| == ORDER_SIZE
  {
    EncodeU128(o.id) + EncodeI64(o.priceLots) + EncodeI64(o.baseLots) + [EncodeBool(o.sideIsBid), EncodeBool(o.isActive)]
  }

  function DecodeOrder(s: seq<Byte>): Option<Order>
    requires |s| == ORDER_SIZE
  {
    var side :- DecodeBool(s[32]);
    var active :- DecodeBool(s[33]);
    Some(Order(DecodeU128(s[0..16]), DecodeI64(s[16..24]), DecodeI64(s[24..32]), side, active))
  }

  lemma OrderRoundTrip(o: Order)
    ensures DecodeOrder(EncodeOrder(o)) == Some(o)
  {
    var e := EncodeOrder(o);
    assert e[0..16] == EncodeU128(o.id);
    assert e[16..24] == EncodeI64(o.priceLots);
    assert e[24..32] == EncodeI64(o.baseLots);
    U128RoundTrip(o.id);
    I64RoundTrip(o.priceLots);
    I64RoundTrip(o.baseLots);
  }

  lemma OrderCanonical(s: seq<Byte>)
    requires |s| == ORDER_SIZE && DecodeOrder(s).Some?
    ensures EncodeOrder(DecodeOrder(s).value) == s
  {
    var side := DecodeBool(s[32]).value;
    var active := DecodeBool(s[33]).value;
    var o := DecodeOrder(s).value;
    assert o == Order(DecodeU128(s[0..16]), DecodeI64(s[16..24]), DecodeI64(s[24..32]), side, active);
    assert EncodeU128(o.id) == s[0..16] by { U128Canonical(s[0..16]); }
    assert EncodeI64(o.priceLots) == s[16..24] by { I64Canonical(s[16..24]); }
    assert EncodeI64(o.baseLots) == s[24..32] by { I64Canonical(s[24..32]); }
    assert EncodeBool(side) == s[32] && EncodeBool(active) == s[33];
    OrderSlices(s);
  }

  /** The default order is inactive and encodes to 34 zero bytes. */
  lemma DefaultOrderIsZero()
    ensures !DefaultOrder.isActive && DefaultOrder.baseLots == 0
    ensures EncodeOrder(DefaultOrder) == seq(ORDER_SIZE, _ => 0)
  {
    Pow256Values();
    EncodeZero(16);
    EncodeZero(8);
    assert EncodeOrder(DefaultOrder) == seq(16, _ => 0) + seq(8, _ => 0) + seq(8, _ => 0) + [0, 0];
  }

  function EncodeOrders(os: seq<Order>): (r: seq<Byte>)
    ensures |r| == ORDER_SIZE * |os|
  {
    if os == [] then [] else EncodeOrder(os[0]) + EncodeOrders(os[1..])
  }

  function DecodeOrders(s: seq<Byte>, n: nat): (r: Option<seq<Order>>)
    requires |s| == ORDER_SIZE * n
    ensures r.Some? ==> |r.value| == n
  {
    if n == 0 then Some([])
    else
      var o :- DecodeOrder(s[..ORDER_SIZE]);
      var rest :- DecodeOrders(s[ORDER_SIZE..], n - 1);
      Some([o] + rest)
  }

  lemma {:induction false} OrdersRoundTrip(os: seq<Order>)
    ensures DecodeOrders(EncodeOrders(os), |os|) == Some(os)
  {
    if os != [] {
      var e := EncodeOrders(os);
      assert e[..ORDER_SIZE] == EncodeOrder(os[0]);
      assert e[ORDER_SIZE..] == EncodeOrders(os[1..]);
      OrderRoundTrip(os[0]);
      OrdersRoundTrip(os[1..]);
      assert [os[0]] + os[1..] == os;
    }
  }

  lemma {:induction false} OrdersCanonical(s: seq<Byte>, n: nat)
    requires |s| == ORDER_SIZE * n && DecodeOrders(s, n).Some?
    ensures EncodeOrders(DecodeOrders(s, n).value) == s
  {
    if n > 0 {
      var os := DecodeOrders(s, n).value;
      var first, rest := s[..ORDER_SIZE], s[ORDER_SIZE..];
      assert os[0] == DecodeOrder(first).value && os[1..] == DecodeOrders(rest, n - 1).value;
      assert EncodeOrder(os[0]) == first by { OrderCanonical(first); }
      assert EncodeOrders(os[1..]) == rest by { OrdersCanonical(rest, n - 1); }
      assert s == first + rest;
    }
  }

  // ----- UserAccount -----

  function EncodeUser(u: UserAccount): (r: seq<Byte>)
    ensures |r| == USER_SIZE
  {
    u.owner + u.market + EncodeI64(u.basePosition) + EncodeI64(u.quotePosition) + EncodeI64(u.lastUpdateTs)
      + EncodeOrders(u.openOrders)
  }

  function DecodeUser(s: seq<Byte>): Option<UserAccount>
  {
    if |s| != USER_SIZE then None
    else
      var orders :- DecodeOrders(s[88..360], SLOT_COUNT);
      Some(UserAccount(s[0..32], s[32..64], DecodeI64(s[64..72]), DecodeI64(s[72..80]), DecodeI64(s[80..88]), orders))
  }

  lemma UserRoundTrip(u: UserAccount)
    ensures DecodeUser(EncodeUser(u)) == Some(u)
  {
    var e := EncodeUser(u);
    var head := u.owner + u.market + EncodeI64(u.basePosition) + EncodeI64(u.quotePosition) + EncodeI64(u.lastUpdateTs);
    assert e == head + EncodeOrders(u.openOrders);
    assert e[88..360] == EncodeOrders(u.openOrders);
    assert e[0..32] == u.owner && e[32..64] == u.market;
    assert e[64..72] == EncodeI64(u.basePosition);
    assert e[72..80] == EncodeI64(u.quotePosition);
    assert e[80..88] == EncodeI64(u.lastUpdateTs);
    I64RoundTrip(u.basePosition);
    I64RoundTrip(u.quotePosition);
    I64RoundTrip(u.lastUpdateTs);
    OrdersRoundTrip(u.openOrders);
  }

  lemma UserCanonical(s: seq<Byte>)
    requires DecodeUser(s).Some?
    ensures EncodeUser(DecodeUser(s).value) == s
  {
    var orders := DecodeOrders(s[88..360], SLOT_COUNT).value;
    var u := DecodeUser(s).value;
    assert u == UserAccount(s[0..32], s[32..64], DecodeI64(s[64..72]), DecodeI64(s[72..80]), DecodeI64(s[80..88]), orders);
    assert EncodeI64(u.basePosition) == s[64..72] by { I64Canonical(s[64..72]); }
    assert EncodeI64(u.quotePosition) == s[72..80] by { I64Canonical(s[72..80]); }
    assert EncodeI64(u.lastUpdateTs) == s[80..88] by { I64Canonical(s[80..88]); }
    assert EncodeOrders(u.openOrders) == s[88..360] by { OrdersCanonical(s[88..360], SLOT_COUNT); }
    UserSlices(s);
  }

  // ----- OraclePrice -----

  function EncodeOracle(p: OraclePrice): (r: seq<Byte>)
    ensures |r| == ORACLE_SIZE
  {
    EncodeI64(p.price) + EncodeU64(p.confidence) + EncodeU64(p.lastUpdatedSlot)
  }

  function DecodeOracle(s: seq<Byte>): Option<OraclePrice>
  {
    if |s| != ORACLE_SIZE then None
    else Some(OraclePrice(DecodeI64(s[0..8]), DecodeU64(s[8..16]), DecodeU64(s[16..24])))
  }

  lemma OracleRoundTrip(p: OraclePrice)
    ensures DecodeOracle(EncodeOracle(p)) == Some(p)
  {
    var e := EncodeOracle(p);
    assert e[0..8] == EncodeI64(p.price);
    assert e[8..16] == EncodeU64(p.confidence);
    assert e[16..24] == EncodeU64(p.lastUpdatedSlot);
    I64RoundTrip(p.price);
    U64RoundTrip(p.confidence);
    U64RoundTrip(p.lastUpdatedSlot);
  }

  lemma OracleCanonical(s: seq<Byte>)
    requires DecodeOracle(s).Some?
    ensures EncodeOracle(DecodeOracle(s).value) == s
  {
    var p := DecodeOracle(s).value;
    assert EncodeI64(p.price) == s[0..8] by { I64Canonical(s[0..8]); }
    assert EncodeU64(p.confidence) == s[8..16] by { U64Canonical(s[8..16]); }
    assert EncodeU64(p.lastUpdatedSlot) == s[16..24] by { U64Canonical(s[16..24]); }
    OracleSlices(s);
  }

  // ----- Event -----

  /** A one-byte variant tag followed by the variant's fields. */
  function EncodeEvent(e: Event): (r: seq<Byte>)
    ensures |r| == (if e.Trade? then TRADE_SIZE else FUNDING_UPDATE_SIZE)
  {
    match e
    case Trade(maker, taker, price, lots) => [0] + maker + taker + EncodeI64(price) + EncodeI64(lots)
    case FundingUpdate(market, rate) => [1] + market + EncodeI64(rate)
  }

  function DecodeEvent(s: seq<Byte>): Option<Event>
  {
    if |s| == TRADE_SIZE && s[0] == 0 then
      Some(Trade(s[1..33], s[33..65], DecodeI64(s[65..73]), DecodeI64(s[73..81])))
    else if |s| == FUNDING_UPDATE_SIZE && s[0] == 1 then
      Some(FundingUpdate(s[1..33], DecodeI64(s[33..41])))
    else None
  }

  lemma EventRoundTrip(e: Event)
    ensures DecodeEvent(EncodeEvent(e)) == Some(e)
  {
    var b := EncodeEvent(e);
    match e
    case Trade(maker, taker, price, lots) =>
      assert b[1..33] == maker && b[33..65] == taker;
      assert b[65..73] == EncodeI64(price) && b[73..81] == EncodeI64(lots);
      I64RoundTrip(price);
      I64RoundTrip(lots);
    case FundingUpdate(market, rate) =>
      assert b[1..33] == market && b[33..41] == EncodeI64(rate);
      I64RoundTrip(rate);
  }

  lemma EventCanonical(s: seq<Byte>)
    requires DecodeEvent(s).Some?
    ensures EncodeEvent(DecodeEvent(s).value) == s
  {
    var e := DecodeEvent(s).value;
    if |s| == TRADE_SIZE {
      assert e == Trade(s[1..33], s[33..65], DecodeI64(s[65..73]), DecodeI64(s[73..81]));
      assert EncodeI64(e.priceLots) == s[65..73] by { I64Canonical(s[65..73]); }
      assert EncodeI64(e.baseLots) == s[73..81] by { I64Canonical(s[73..81]); }
      TradeSlices(s);
    } else {
      assert e == FundingUpdate(s[1..33], DecodeI64(s[33..41]));
      assert EncodeI64(e.fundingRateBps) == s[33..41] by { I64Canonical(s[33..41]); }
      FundingSlices(s);
    }
  }

  /** The largest encoding over all event variants. */
  const MAX_EVENT_SIZE: nat := TRADE_SIZE

  lemma EventSizes(e: Event)
    ensures |EncodeEvent(e)| <= MAX_EVENT_SIZE
    ensures |EncodeEvent(Trade(DefaultKey, DefaultKey, 0, 0))| == MAX_EVENT_SIZE
    ensures e.FundingUpdate? ==> |EncodeEvent(e)| == FUNDING_UPDATE_SIZE < TRADE_SIZE
  {
  }
}
