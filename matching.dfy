/** The matching routine: an incoming taker order walks an ordered list of maker accounts
    and each maker's eight order slots, filling against active orders of the opposite side
    at the maker's price. */
module Matching {
  import opened Borsh
  import opened State

  function Abs(x: int): (r: nat)
    ensures r == x || r == -x
  {
    if x < 0 then -x else x
  }

  /** Everything `match_orders` reads and writes: the taker, the makers, the quantity still
      to fill, the running `max_quote_change` and the events emitted so far. */
  datatype MatchState = MatchState(
    taker: UserAccount,
    makers: seq<UserAccount>,
    remaining: I64,
    maxQuoteChange: I64,
    events: seq<Event>)

  /** One pass of the inner loop body, on slot `j` of maker `i`. `None` is a panic on an
      i64 overflow in the position, quote or `max_quote_change` arithmetic. */
  function FillSlot(st: MatchState, i: nat, j: nat, side: bool): (r: Option<MatchState>)
    requires i < |st.makers| && j < SLOT_COUNT
    ensures r.Some? ==> |r.value.makers| == |st.makers|
  {
    var maker := st.makers[i];
    var order := maker.openOrders[j];
    if !order.isActive || order.sideIsBid == side then Some(st)
    else
      var fill := Min(st.remaining, order.baseLots);
      if fill <= 0 then Some(st)
      else
        var quote := fill * order.priceLots;
        var takerBase := if side then st.taker.basePosition + fill else st.taker.basePosition - fill;
        var takerQuote := if side then st.taker.quotePosition - quote else st.taker.quotePosition + quote;
        var makerBase := if side then maker.basePosition - fill else maker.basePosition + fill;
        var makerQuote := if side then maker.quotePosition + quote else maker.quotePosition - quote;
        var change := st.maxQuoteChange + Abs(quote);
        if !(InI64(quote) && InI64(takerBase) && InI64(takerQuote) && InI64(makerBase)
             && InI64(makerQuote) && InI64(Abs(quote)) && InI64(change)) then None
        else
          var left := order.baseLots - fill;
          var filled := order.(baseLots := left, isActive := if left == 0 then false else order.isActive);
          var maker' := maker.(basePosition := makerBase, quotePosition := makerQuote,
                               openOrders := maker.openOrders[j := filled]);
          var taker' := st.taker.(basePosition := takerBase, quotePosition := takerQuote);
          Some(MatchState(taker', st.makers[i := maker'], st.remaining - fill, change,
                          st.events + [Trade(maker.owner, st.taker.owner, order.priceLots, fill)]))
  }

  /** The inner loop over the order slots of maker `i`, from slot `j` on. */
  function SlotsFrom(st: MatchState, i: nat, j: nat, side: bool): (r: Option<MatchState>)
    requires i < |st.makers| && j <= SLOT_COUNT
    ensures r.Some? ==> |r.value.makers| == |st.makers|
    decreases SLOT_COUNT - j, st  // `st` as well, so a literal `j` does not unroll all eight slots
  {
    if j == SLOT_COUNT then Some(st)
    else
      match FillSlot(st, i, j, side)
      case None => None
      case Some(next) => SlotsFrom(next, i, j + 1, side)
  }

  /** The outer loop over the makers from maker `i` on: it stops before a maker once nothing
      remains to fill. */
  function MatchFrom(st: MatchState, i: nat, side: bool): (r: Option<MatchState>)
    requires i <= |st.makers|
    ensures r.Some? ==> |r.value.makers| == |st.makers|
    decreases |st.makers| - i
  {
    if i == |st.makers| || st.remaining <= 0 then Some(st)
    else
      match SlotsFrom(st, i, 0, side)
      case None => None
      case Some(next) => MatchFrom(next, i + 1, side)
  }

  /** `match_orders` from its first maker. */
  function Match(st: MatchState, side: bool): Option<MatchState>
  {
    MatchFrom(st, 0, side)
  }

  /** The successful fill of slot `j` of maker `i`, spelled out. */
  lemma {:induction false} FillSlotFilled(st: MatchState, i: nat, j: nat, side: bool, takerBase: I64, takerQuote: I64,
                       makerBase: I64, makerQuote: I64, change: I64, filled: Order)
    requires i < |st.makers| && j < SLOT_COUNT
    requires var order := st.makers[i].openOrders[j];
      var fill := Min(st.remaining, order.baseLots);
      var quote := fill * order.priceLots;
      && order.isActive && order.sideIsBid != side && fill > 0
      && InI64(quote) && InI64(Abs(quote))
      && takerBase == (if side then st.taker.basePosition + fill else st.taker.basePosition - fill)
      && takerQuote == (if side then st.taker.quotePosition - quote else st.taker.quotePosition + quote)
      && makerBase == (if side then st.makers[i].basePosition - fill else st.makers[i].basePosition + fill)
      && makerQuote == (if side then st.makers[i].quotePosition + quote else st.makers[i].quotePosition - quote)
      && change == st.maxQuoteChange + Abs(quote)
      && filled == order.(baseLots := order.baseLots - fill,
                          isActive := if order.baseLots - fill == 0 then false else order.isActive)
    ensures var maker := st.makers[i];
      var order := maker.openOrders[j];
      var fill := Min(st.remaining, order.baseLots);
      FillSlot(st, i, j, side) == Some(MatchState(
        st.taker.(basePosition := takerBase, quotePosition := takerQuote),
        st.makers[i := maker.(basePosition := makerBase, quotePosition := makerQuote,
                              openOrders := maker.openOrders[j := filled])],
        st.remaining - fill, change,
        st.events + [Trade(maker.owner, st.taker.owner, order.priceLots, fill)]))
  {
  }

  /** `match_orders`, updating the makers in place. `ok` is false when the routine panics. */
  method MatchOrders(taker: UserAccount, makers: array<UserAccount>, remaining: I64,
                     maxQuoteChange: I64, side: bool, events: seq<Event>)
      returns (ok: bool, takerOut: UserAccount, maxQuoteChangeOut: I64, eventsOut: seq<Event>)
    modifies makers
    ensures var r := Match(MatchState(taker, old(makers[..]), remaining, maxQuoteChange, events), side);
      ok == r.Some?
      && (ok ==> takerOut == r.value.taker && makers[..] == r.value.makers
                 && maxQuoteChangeOut == r.value.maxQuoteChange && eventsOut == r.value.events)
  {
    ghost var goal := Match(MatchState(taker, makers[..], remaining, maxQuoteChange, events), side);
    takerOut, maxQuoteChangeOut, eventsOut := taker, maxQuoteChange, events;
    var rest: I64 := remaining;
    var i := 0;
    while i < makers.Length
      invariant 0 <= i <= makers.Length
      invariant MatchFrom(MatchState(takerOut, makers[..], rest, maxQuoteChangeOut, eventsOut), i, side) == goal
    {
      if rest <= 0 {
        break;
      }
      ok, takerOut, rest, maxQuoteChangeOut, eventsOut :=
        MatchMaker(takerOut, makers, i, rest, maxQuoteChangeOut, side, eventsOut);
      if !ok {
        return;
      }
      i := i + 1;
    }
    return true, takerOut, maxQuoteChangeOut, eventsOut;
  }

  /** The body of the outer loop of `match_orders`: the pass over the order slots of maker `i`. */
  method MatchMaker(taker: UserAccount, makers: array<UserAccount>, i: nat, remaining: I64,
                    maxQuoteChange: I64, side: bool, events: seq<Event>)
      returns (ok: bool, takerOut: UserAccount, remainingOut: I64, maxQuoteChangeOut: I64, eventsOut: seq<Event>)
    requires i < makers.Length
    modifies makers
    ensures var r := SlotsFrom(MatchState(taker, old(makers[..]), remaining, maxQuoteChange, events), i, 0, side);
      ok == r.Some?
      && (ok ==> takerOut == r.value.taker && makers[..] == r.value.makers && remainingOut == r.value.remaining
                 && maxQuoteChangeOut == r.value.maxQuoteChange && eventsOut == r.value.events)
  {
    ghost var goal := SlotsFrom(MatchState(taker, makers[..], remaining, maxQuoteChange, events), i, 0, side);
    takerOut, remainingOut, maxQuoteChangeOut, eventsOut := taker, remaining, maxQuoteChange, events;
    var j := 0;
    while j < SLOT_COUNT
      invariant 0 <= j <= SLOT_COUNT
      invariant SlotsFrom(MatchState(takerOut, makers[..], remainingOut, maxQuoteChangeOut, eventsOut), i, j, side) == goal
    {
      ghost var before := MatchState(takerOut, makers[..], remainingOut, maxQuoteChangeOut, eventsOut);
      var maker := makers[i];
      var order := maker.openOrders[j];
      if !order.isActive || order.sideIsBid == side {
        assert FillSlot(before, i, j, side) == Some(before);
        j := j + 1;
        continue;
      }
      var fill := Min(remainingOut, order.baseLots);
      if fill <= 0 {
        assert FillSlot(before, i, j, side) == Some(before);
        j := j + 1;
        continue;
      }
      var quote := fill * order.priceLots;
      var takerBase := if side then takerOut.basePosition + fill else takerOut.basePosition - fill;
      var takerQuote := if side then takerOut.quotePosition - quote else takerOut.quotePosition + quote;
      var makerBase := if side then maker.basePosition - fill else maker.basePosition + fill;
      var makerQuote := if side then maker.quotePosition + quote else maker.quotePosition - quote;
      var change := maxQuoteChangeOut + Abs(quote);
      if !(InI64(quote) && InI64(takerBase) && InI64(takerQuote) && InI64(makerBase)
           && InI64(makerQuote) && InI64(Abs(quote)) && InI64(change)) {
        assert FillSlot(before, i, j, side) == None;
        return false, takerOut, remainingOut, maxQuoteChangeOut, eventsOut;
      }
      var left := order.baseLots - fill;
      var filled := order.(baseLots := left);
      if left == 0 {
        filled := filled.(isActive := false);
      }
      makers[i] := maker.(basePosition := makerBase, quotePosition := makerQuote,
                          openOrders := maker.openOrders[j := filled]);
      eventsOut := eventsOut + [Trade(maker.owner, takerOut.owner, order.priceLots, fill)];
      takerOut := takerOut.(basePosition := takerBase, quotePosition := takerQuote);
      maxQuoteChangeOut := change;
      remainingOut := remainingOut - fill;
      FillSlotFilled(before, i, j, side, takerBase, takerQuote, makerBase, makerQuote, change, filled);
      j := j + 1;
    }
    return true, takerOut, remainingOut, maxQuoteChangeOut, eventsOut;
  }

  /** `find_user`: the index of the first account whose owner is `owner`, if any. */
  method FindUser(users: array<UserAccount>, owner: Pubkey) returns (r: Option<nat>)
    ensures r.Some? ==> r.value < users.Length && users[r.value].owner == owner
                        && forall k :: 0 <= k < r.value ==> users[k].owner != owner
    ensures r.None? ==> forall k :: 0 <= k < users.Length ==> users[k].owner != owner
  {
    var k := 0;
    while k < users.Length
      invariant 0 <= k <= users.Length
      invariant forall m :: 0 <= m < k ==> users[m].owner != owner
    {
      if users[k].owner == owner {
        return Some(k);
      }
      k := k + 1;
    }
    return None;
  }

  // ----- sums -----

  function BaseOf(u: UserAccount): int { u.basePosition }
  function QuoteOf(u: UserAccount): int { u.quotePosition }
  function LotsOf(u: UserAccount): int { OrderLots(u.openOrders) }

  function SumOf(us: seq<UserAccount>, f: UserAccount -> int): int
    decreases |us|
  {
    if us == [] then 0 else SumOf(us[..|us| - 1], f) + f(us[|us| - 1])
  }

  lemma {:induction false} SumOfUpdate(us: seq<UserAccount>, k: nat, u: UserAccount, f: UserAccount -> int)
    requires k < |us|
    ensures SumOf(us[k := u], f) == SumOf(us, f) - f(us[k]) + f(u)
    decreases |us|
  {
    var n := |us| - 1;
    assert us[k := u][..n] == if k == n then us[..n] else us[..n][k := u];
    if k < n {
      SumOfUpdate(us[..n], k, u, f);
    }
  }

  /** Lots still resting in a maker's order slots. */
  function OrderLots(os: seq<Order>): int
    decreases |os|
  {
    if os == [] then 0 else OrderLots(os[..|os| - 1]) + os[|os| - 1].baseLots
  }

  lemma {:induction false} OrderLotsUpdate(os: seq<Order>, k: nat, o: Order)
    requires k < |os|
    ensures OrderLots(os[k := o]) == OrderLots(os) - os[k].baseLots + o.baseLots
    decreases |os|
  {
    var n := |os| - 1;
    assert os[k := o][..n] == if k == n then os[..n] else os[..n][k := o];
    if k < n {
      OrderLotsUpdate(os[..n], k, o);
    }
  }

  function TotalBase(st: MatchState): int { st.taker.basePosition + SumOf(st.makers, BaseOf) }
  function TotalQuote(st: MatchState): int { st.taker.quotePosition + SumOf(st.makers, QuoteOf) }

  /** Lots of all the makers' resting orders. */
  function BookLots(st: MatchState): int { SumOf(st.makers, LotsOf) }

  function EventLots(e: Event): int { if e.Trade? then e.baseLots else 0 }
  function EventNotional(e: Event): int { if e.Trade? then Abs(e.priceLots * e.baseLots) else 0 }

  function SumLots(es: seq<Event>): int
    decreases |es|
  {
    if es == [] then 0 else SumLots(es[..|es| - 1]) + EventLots(es[|es| - 1])
  }

  function SumNotional(es: seq<Event>): int
    decreases |es|
  {
    if es == [] then 0 else SumNotional(es[..|es| - 1]) + EventNotional(es[|es| - 1])
  }

  lemma {:induction false} SumsAppend(es: seq<Event>, e: Event)
    ensures SumLots(es + [e]) == SumLots(es) + EventLots(e)
    ensures SumNotional(es + [e]) == SumNotional(es) + EventNotional(e)
  {
    assert (es + [e])[..|es|] == es;
  }

  // ----- how one state leads to a later one -----

  /** Base and quote summed over the taker and all makers are unchanged: every fill is zero-sum. */
  predicate Conserves(st: MatchState, r: MatchState)
  {
    TotalBase(r) == TotalBase(st) && TotalQuote(r) == TotalQuote(st)
  }

  /** The emitted events account for the fills: the old events are kept, each new one is a
      positive `Trade` against the taker, and the lots they carry are exactly the drop of the
      remaining quantity and of the makers' resting lots; `max_quote_change` grows by their
      absolute quote amounts; the remaining quantity never increases nor drops below 0. */
  predicate Accounts(st: MatchState, r: MatchState)
  {
    && r.remaining <= st.remaining
    && (st.remaining >= 0 ==> r.remaining >= 0)
    && st.remaining - r.remaining == SumLots(r.events) - SumLots(st.events)
    && BookLots(st) - BookLots(r) == SumLots(r.events) - SumLots(st.events)
    && r.maxQuoteChange - st.maxQuoteChange == SumNotional(r.events) - SumNotional(st.events)
    && |st.events| <= |r.events| && r.events[..|st.events|] == st.events
    && (forall k :: |st.events| <= k < |r.events| ==>
          r.events[k].Trade? && r.events[k].taker == st.taker.owner && r.events[k].baseLots > 0)
  }

  /** A slot is either unchanged, or it was active on the opposite side and only its lots
      dropped, staying non-negative, with the slot deactivated exactly when they reached 0. */
  predicate OrderStep(o: Order, o': Order, side: bool)
  {
    o' == o
    || (&& o.isActive && o.sideIsBid != side
        && o'.id == o.id && o'.priceLots == o.priceLots && o'.sideIsBid == o.sideIsBid
        && 0 <= o'.baseLots < o.baseLots && (o'.isActive <==> o'.baseLots != 0))
  }

  predicate MakerStep(m: UserAccount, m': UserAccount, side: bool)
  {
    && m'.owner == m.owner && m'.market == m.market && m'.lastUpdateTs == m.lastUpdateTs
    && forall b :: 0 <= b < SLOT_COUNT ==> OrderStep(m.openOrders[b], m'.openOrders[b], side)
  }

  /** Only positions and order slots change, and slots only as `OrderStep` allows. */
  predicate Evolves(st: MatchState, r: MatchState, side: bool)
  {
    && |r.makers| == |st.makers|
    && r.taker == st.taker.(basePosition := r.taker.basePosition, quotePosition := r.taker.quotePosition)
    && forall k :: 0 <= k < |st.makers| ==> MakerStep(st.makers[k], r.makers[k], side)
  }

  predicate Progress(st: MatchState, r: MatchState, side: bool)
  {
    Conserves(st, r) && Accounts(st, r) && Evolves(st, r, side)
  }

  lemma {:induction false} ProgressRefl(st: MatchState, side: bool)
    ensures Progress(st, st, side)
  {
    assert st.events[..|st.events|] == st.events;
  }

  lemma {:induction false} AccountsTrans(a: MatchState, b: MatchState, c: MatchState)
    requires Accounts(a, b) && Accounts(b, c) && b.taker.owner == a.taker.owner
    ensures Accounts(a, c)
  {
    assert c.events[..|a.events|] == c.events[..|b.events|][..|a.events|];
    forall k | |a.events| <= k < |c.events|
      ensures c.events[k].Trade? && c.events[k].taker == a.taker.owner && c.events[k].baseLots > 0
    {
      if k < |b.events| {
        assert c.events[k] == c.events[..|b.events|][k];
      }
    }
  }

  lemma {:induction false} EvolvesTrans(a: MatchState, b: MatchState, c: MatchState, side: bool)
    requires Evolves(a, b, side) && Evolves(b, c, side)
    ensures Evolves(a, c, side)
  {
    forall k | 0 <= k < |a.makers|
      ensures MakerStep(a.makers[k], c.makers[k], side)
    {
      assert MakerStep(a.makers[k], b.makers[k], side);
      assert MakerStep(b.makers[k], c.makers[k], side);
    }
  }

  lemma {:induction false} ProgressTrans(a: MatchState, b: MatchState, c: MatchState, side: bool)
    requires Progress(a, b, side) && Progress(b, c, side)
    ensures Progress(a, c, side)
  {
    AccountsTrans(a, b, c);
    EvolvesTrans(a, b, c, side);
  }

  // ----- one slot -----

  /** A slot is skipped, leaving the state as it was, exactly when it is inactive, on the
      taker's own side, or offers no positive fill; otherwise it trades
      `min(remaining, base_lots)` lots at the maker's price and emits one `Trade`. */
  lemma {:induction false} FillSlotOutcome(st: MatchState, i: nat, j: nat, side: bool)
    requires i < |st.makers| && j < SLOT_COUNT && FillSlot(st, i, j, side).Some?
    ensures var r := FillSlot(st, i, j, side).value;
      var maker := st.makers[i];
      var o := maker.openOrders[j];
      var fill := Min(st.remaining, o.baseLots);
      && (r == st <==> (!o.isActive || o.sideIsBid == side || fill <= 0))
      && (r != st ==>
            && 0 < fill && fill <= st.remaining && fill <= o.baseLots
            && r.events == st.events + [Trade(maker.owner, st.taker.owner, o.priceLots, fill)]
            && r.remaining == st.remaining - fill
            && r.makers[i].openOrders[j].baseLots == o.baseLots - fill
            && (r.makers[i].openOrders[j].isActive <==> o.baseLots != fill)
            && r.taker.basePosition == st.taker.basePosition + (if side then fill else -fill)
            && r.makers[i].basePosition == maker.basePosition - (if side then fill else -fill))
  {
    var r := FillSlot(st, i, j, side).value;
    if r != st {
      assert |r.events| == |st.events| + 1;
    }
  }

  /** A fill changes only maker `i`, and of its slots only slot `j`. */
  lemma {:induction false} FillSlotFrame(st: MatchState, i: nat, j: nat, side: bool)
    requires i < |st.makers| && j < SLOT_COUNT && FillSlot(st, i, j, side).Some?
    ensures var r := FillSlot(st, i, j, side).value;
      && (forall k :: 0 <= k < |st.makers| && k != i ==> r.makers[k] == st.makers[k])
      && (forall b :: 0 <= b < SLOT_COUNT && b != j ==> r.makers[i].openOrders[b] == st.makers[i].openOrders[b])
  {
  }

  lemma {:induction false} FillSlotProgress(st: MatchState, i: nat, j: nat, side: bool)
    requires i < |st.makers| && j < SLOT_COUNT && FillSlot(st, i, j, side).Some?
    ensures Progress(st, FillSlot(st, i, j, side).value, side)
  {
    var r := FillSlot(st, i, j, side).value;
    if r == st {
      ProgressRefl(st, side);
    } else {
      var m := st.makers[i];
      var o := m.openOrders[j];
      var fill := Min(st.remaining, o.baseLots);
      var m' := r.makers[i];
      assert r.makers == st.makers[i := m'];
      assert m'.openOrders == m.openOrders[j := m'.openOrders[j]];
      SumOfUpdate(st.makers, i, m', BaseOf);
      SumOfUpdate(st.makers, i, m', QuoteOf);
      SumOfUpdate(st.makers, i, m', LotsOf);
      OrderLotsUpdate(m.openOrders, j, m'.openOrders[j]);
      SumsAppend(st.events, r.events[|st.events|]);
      assert r.events == st.events + [r.events[|st.events|]];
      assert r.events[..|st.events|] == st.events;
      assert MakerStep(m, m', side) by {
        forall b | 0 <= b < SLOT_COUNT
          ensures OrderStep(m.openOrders[b], m'.openOrders[b], side)
        {
        }
      }
      assert Evolves(st, r, side) by {
        forall k | 0 <= k < |st.makers|
          ensures MakerStep(st.makers[k], r.makers[k], side)
        {
          if k != i {
            assert r.makers[k] == st.makers[k];
          }
        }
      }
    }
  }

  // ----- the whole routine -----

  lemma {:induction false} SlotsFromProgress(st: MatchState, i: nat, j: nat, side: bool)
    requires i < |st.makers| && j <= SLOT_COUNT && SlotsFrom(st, i, j, side).Some?
    ensures Progress(st, SlotsFrom(st, i, j, side).value, side)
    decreases SLOT_COUNT - j
  {
    if j == SLOT_COUNT {
      ProgressRefl(st, side);
    } else {
      var next := FillSlot(st, i, j, side).value;
      FillSlotProgress(st, i, j, side);
      SlotsFromProgress(next, i, j + 1, side);
      ProgressTrans(st, next, SlotsFrom(st, i, j, side).value, side);
    }
  }

  /** From any maker on, a run of `match_orders` that does not panic conserves base and quote,
      accounts for every fill by one event, and changes order slots only as `OrderStep` allows. */
  lemma {:induction false} MatchFromProgress(st: MatchState, i: nat, side: bool)
    requires i <= |st.makers| && MatchFrom(st, i, side).Some?
    ensures Progress(st, MatchFrom(st, i, side).value, side)
    decreases |st.makers| - i
  {
    if i == |st.makers| || st.remaining <= 0 {
      ProgressRefl(st, side);
    } else {
      var next := SlotsFrom(st, i, 0, side).value;
      SlotsFromProgress(st, i, 0, side);
      MatchFromProgress(next, i + 1, side);
      ProgressTrans(st, next, MatchFrom(st, i, side).value, side);
    }
  }

  /** `match_orders` without a panic: the fills are zero-sum, the events and `max_quote_change`
      account for them, a non-negative quantity stays non-negative, and only resting orders of
      the opposite side are touched. */
  lemma {:induction false} MatchProgress(st: MatchState, side: bool)
    requires Match(st, side).Some?
    ensures Progress(st, Match(st, side).value, side)
  {
    MatchFromProgress(st, 0, side);
  }

  /** Inactive slots and slots on the taker's own side come out of `match_orders` unchanged. */
  lemma {:induction false} MatchSkipsUntouchable(st: MatchState, side: bool, k: nat, b: nat)
    requires Match(st, side).Some? && k < |st.makers| && b < SLOT_COUNT
    requires !st.makers[k].openOrders[b].isActive || st.makers[k].openOrders[b].sideIsBid == side
    ensures Match(st, side).value.makers[k].openOrders[b] == st.makers[k].openOrders[b]
  {
    MatchProgress(st, side);
    assert MakerStep(st.makers[k], Match(st, side).value.makers[k], side);
  }

  /** Once nothing remains to fill, the rest of the slot loop and the outer loop change nothing. */
  lemma {:induction false} FilledStops(st: MatchState, i: nat, j: nat, side: bool)
    requires i < |st.makers| && j <= SLOT_COUNT && st.remaining <= 0
    ensures SlotsFrom(st, i, j, side) == Some(st)
    ensures MatchFrom(st, i, side) == Some(st)
    decreases SLOT_COUNT - j
  {
    if j < SLOT_COUNT {
      assert FillSlot(st, i, j, side) == Some(st);
      FilledStops(st, i, j + 1, side);
    }
  }

  predicate Fillable(o: Order, side: bool)
  {
    o.isActive && o.sideIsBid != side && o.baseLots > 0
  }

  /** Slots `0..count` of every maker in `ks` offer no fill. */
  predicate Exhausted(makers: seq<UserAccount>, k: nat, count: nat, side: bool)
    requires k < |makers| && count <= SLOT_COUNT
  {
    forall b :: 0 <= b < count ==> !Fillable(makers[k].openOrders[b], side)
  }

  lemma {:induction false} SlotsFromFrame(st: MatchState, i: nat, j: nat, side: bool)
    requires i < |st.makers| && j <= SLOT_COUNT && SlotsFrom(st, i, j, side).Some?
    ensures var r := SlotsFrom(st, i, j, side).value;
      && (forall k :: 0 <= k < |st.makers| && k != i ==> r.makers[k] == st.makers[k])
      && (forall b :: 0 <= b < j ==> r.makers[i].openOrders[b] == st.makers[i].openOrders[b])
    decreases SLOT_COUNT - j
  {
    if j < SLOT_COUNT {
      var next := FillSlot(st, i, j, side).value;
      FillSlotFrame(st, i, j, side);
      SlotsFromFrame(next, i, j + 1, side);
    }
  }

  lemma {:induction false} SlotsFromRemaining(st: MatchState, i: nat, j: nat, side: bool)
    requires i < |st.makers| && j <= SLOT_COUNT && SlotsFrom(st, i, j, side).Some?
    ensures SlotsFrom(st, i, j, side).value.remaining <= st.remaining
  {
    SlotsFromProgress(st, i, j, side);
  }

  lemma {:induction false} MatchFromRemaining(st: MatchState, i: nat, side: bool)
    requires i <= |st.makers| && MatchFrom(st, i, side).Some?
    ensures MatchFrom(st, i, side).value.remaining <= st.remaining
  {
    MatchFromProgress(st, i, side);
  }

  lemma {:induction false} SlotsFromExhausts(st: MatchState, i: nat, j: nat, side: bool)
    requires i < |st.makers| && j <= SLOT_COUNT && SlotsFrom(st, i, j, side).Some?
    requires SlotsFrom(st, i, j, side).value.remaining > 0
    requires Exhausted(st.makers, i, j, side)
    ensures Exhausted(SlotsFrom(st, i, j, side).value.makers, i, SLOT_COUNT, side)
    decreases SLOT_COUNT - j
  {
    if j < SLOT_COUNT {
      var next := FillSlot(st, i, j, side).value;
      var r := SlotsFrom(st, i, j, side).value;
      SlotsFromRemaining(next, i, j + 1, side);
      FillSlotOutcome(st, i, j, side);
      FillSlotFrame(st, i, j, side);
      assert Exhausted(next.makers, i, j + 1, side);
      SlotsFromExhausts(next, i, j + 1, side);
    }
  }

  /** One round of the outer loop: maker `i`'s slots, then the makers after it. */
  lemma {:induction false} MatchFromStep(st: MatchState, i: nat, side: bool)
    requires i < |st.makers| && st.remaining > 0 && MatchFrom(st, i, side).Some?
    ensures SlotsFrom(st, i, 0, side).Some?
    ensures MatchFrom(SlotsFrom(st, i, 0, side).value, i + 1, side) == MatchFrom(st, i, side)
  {
  }

  lemma {:induction false} ExhaustsNext(st: MatchState, i: nat, k: nat, b: nat, side: bool)
    requires i < |st.makers| && k < |st.makers| && b < SLOT_COUNT && SlotsFrom(st, i, 0, side).Some?
    requires SlotsFrom(st, i, 0, side).value.remaining > 0
    requires k < i ==> !Fillable(st.makers[k].openOrders[b], side)
    ensures k <= i ==> !Fillable(SlotsFrom(st, i, 0, side).value.makers[k].openOrders[b], side)
  {
    var next := SlotsFrom(st, i, 0, side).value;
    if k < i {
      SlotsFromFrame(st, i, 0, side);
      assert next.makers[k] == st.makers[k];
    } else if k == i {
      SlotsFromExhausts(st, i, 0, side);
      assert Exhausted(next.makers, i, SLOT_COUNT, side);
    }
  }

  lemma {:induction false} MatchFromExhaustsAt(st: MatchState, i: nat, r: MatchState, k: nat, b: nat, side: bool)
    requires i <= |st.makers| && k < |st.makers| && b < SLOT_COUNT
    requires MatchFrom(st, i, side) == Some(r) && r.remaining > 0
    requires k < i ==> !Fillable(st.makers[k].openOrders[b], side)
    ensures k < |r.makers| && !Fillable(r.makers[k].openOrders[b], side)
    decreases |st.makers| - i
  {
    if i == |st.makers| || st.remaining <= 0 {
      assert r == st;
    } else {
      MatchFromStep(st, i, side);
      var next := SlotsFrom(st, i, 0, side).value;
      MatchFromRemaining(next, i + 1, side);
      ExhaustsNext(st, i, k, b, side);
      MatchFromExhaustsAt(next, i + 1, r, k, b, side);
    }
  }

  /** Exhaustion: when `match_orders` ends with quantity left to fill, no maker slot offers a
      fill any more, so the taker took everything the makers offered. */
  lemma {:induction false} MatchExhausts(st: MatchState, side: bool)
    requires Match(st, side).Some? && Match(st, side).value.remaining > 0
    ensures var r := Match(st, side).value;
      forall k, b :: 0 <= k < |r.makers| && 0 <= b < SLOT_COUNT ==> !Fillable(r.makers[k].openOrders[b], side)
  {
    var r := Match(st, side).value;
    forall k, b | 0 <= k < |r.makers| && 0 <= b < SLOT_COUNT
      ensures !Fillable(r.makers[k].openOrders[b], side)
    {
      MatchFromExhaustsAt(st, 0, r, k, b, side);
    }
  }

  /** The engine's matching scenario: a bid for 10 lots against one maker whose eight slots
      all ask 20 lots at 50 fills 10 lots at 50 from the first slot and emits one event. */
  lemma SimpleMatchingFlow(takerKey: Pubkey, makerKey: Pubkey, market: Pubkey)
    ensures var ask := Order(1, 50, 20, false, true);
      var taker := UserAccount(takerKey, market, 0, 0, 0, [DefaultOrder, DefaultOrder, DefaultOrder,
        DefaultOrder, DefaultOrder, DefaultOrder, DefaultOrder, DefaultOrder]);
      var maker := UserAccount(makerKey, market, 100, 0, 0, [ask, ask, ask, ask, ask, ask, ask, ask]);
      var r := Match(MatchState(taker, [maker], 10, 0, []), true);
      && r.Some?
      && r.value.taker.basePosition == 10 && r.value.taker.quotePosition == -500
      && r.value.makers[0].basePosition == 90 && r.value.makers[0].quotePosition == 500
      && |r.value.events| == 1 && r.value.maxQuoteChange == 500
  {
    var ask := Order(1, 50, 20, false, true);
    var taker := UserAccount(takerKey, market, 0, 0, 0, [DefaultOrder, DefaultOrder, DefaultOrder,
      DefaultOrder, DefaultOrder, DefaultOrder, DefaultOrder, DefaultOrder]);
    var maker := UserAccount(makerKey, market, 100, 0, 0, [ask, ask, ask, ask, ask, ask, ask, ask]);
    var st := MatchState(taker, [maker], 10, 0, []);
    var filled := ask.(baseLots := 10);
    var st1 := MatchState(taker.(basePosition := 10, quotePosition := -500),
                          [maker.(basePosition := 90, quotePosition := 500, openOrders := maker.openOrders[0 := filled])],
                          0, 500, [Trade(makerKey, takerKey, 50, 10)]);
    FillSlotFilled(st, 0, 0, true, 10, -500, 90, 500, 500, filled);
    assert st.makers[0 := st1.makers[0]] == st1.makers;
    assert st.events + [Trade(makerKey, takerKey, 50, 10)] == st1.events;
    assert FillSlot(st, 0, 0, true) == Some(st1);
    FilledStops(st1, 0, 1, true);
    assert MatchFrom(st1, 1, true) == Some(st1);
  }

  /** Slots from `j` on that hold no active order leave the state as it is. */
  lemma {:induction false} InactiveSlotsSkip(st: MatchState, i: nat, j: nat, side: bool)
    requires i < |st.makers| && j <= SLOT_COUNT
    requires forall b :: j <= b < SLOT_COUNT ==> !st.makers[i].openOrders[b].isActive
    ensures SlotsFrom(st, i, j, side) == Some(st)
    decreases SLOT_COUNT - j
  {
    if j < SLOT_COUNT {
      assert FillSlot(st, i, j, side) == Some(st);
      InactiveSlotsSkip(st, i, j + 1, side);
    }
  }

  /** A partial fill: a bid for 25 lots against one maker whose only active slot asks 20 lots
      at 50 takes all 20 lots, empties and deactivates that order, and leaves 5 lots unfilled. */
  lemma PartialFillFlow(takerKey: Pubkey, makerKey: Pubkey, market: Pubkey)
    ensures var ask := Order(1, 50, 20, false, true);
      var taker := UserAccount(takerKey, market, 0, 0, 0, [DefaultOrder, DefaultOrder, DefaultOrder,
        DefaultOrder, DefaultOrder, DefaultOrder, DefaultOrder, DefaultOrder]);
      var maker := UserAccount(makerKey, market, 100, 0, 0, [ask, DefaultOrder, DefaultOrder,
        DefaultOrder, DefaultOrder, DefaultOrder, DefaultOrder, DefaultOrder]);
      var r := Match(MatchState(taker, [maker], 25, 0, []), true);
      && r.Some? && r.value.remaining == 5
      && r.value.taker.basePosition == 20 && r.value.taker.quotePosition == -1000
      && r.value.makers[0].basePosition == 80 && r.value.makers[0].quotePosition == 1000
      && r.value.makers[0].openOrders[0] == Order(1, 50, 0, false, false)
      && r.value.events == [Trade(makerKey, takerKey, 50, 20)] && r.value.maxQuoteChange == 1000
  {
    var ask := Order(1, 50, 20, false, true);
    var taker := UserAccount(takerKey, market, 0, 0, 0, [DefaultOrder, DefaultOrder, DefaultOrder,
      DefaultOrder, DefaultOrder, DefaultOrder, DefaultOrder, DefaultOrder]);
    var maker := UserAccount(makerKey, market, 100, 0, 0, [ask, DefaultOrder, DefaultOrder,
      DefaultOrder, DefaultOrder, DefaultOrder, DefaultOrder, DefaultOrder]);
    var st := MatchState(taker, [maker], 25, 0, []);
    var filled := Order(1, 50, 0, false, false);
    var st1 := MatchState(taker.(basePosition := 20, quotePosition := -1000),
                          [maker.(basePosition := 80, quotePosition := 1000, openOrders := maker.openOrders[0 := filled])],
                          5, 1000, [Trade(makerKey, takerKey, 50, 20)]);
    FillSlotFilled(st, 0, 0, true, 20, -1000, 80, 1000, 1000, filled);
    assert st.makers[0 := st1.makers[0]] == st1.makers;
    assert st.events + [Trade(makerKey, takerKey, 50, 20)] == st1.events;
    assert FillSlot(st, 0, 0, true) == Some(st1);
    InactiveSlotsSkip(st1, 0, 1, true);
    assert MatchFrom(st1, 1, true) == Some(st1);
  }
}
