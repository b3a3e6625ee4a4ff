/** The staking bookkeeping of the `vuln_dapp` Anchor program: one pool and one staker's
    position, updated in place by `initialize_pool`, `set_lock_seconds`, `stake` and `unstake`.
    The token transfers the last two make are not part of this model. */
module Staking {
  import opened Borsh

  /** The program's `ErrorCode`, plus the abort of the unchecked `u64` subtraction in
      `unstake` when it would go below zero. */
  datatype StakeError =
    | MathOverflow
    | InvalidUser
    | StillLocked
    | InsufficientStake
    | Underflow

  datatype StakeResult = Success | Failure(error: StakeError)

  /** The fields of a `Pool` account. */
  datatype PoolState = PoolState(admin: Pubkey, totalStaked: U64, lockSeconds: I64, bump: Byte)

  /** The fields of a `UserState` account. */
  datatype Position = Position(user: Pubkey, stakedAmount: U64, lastStakeTs: I64, bump: Byte)

  /** What a handler returns and the two accounts as it left them in memory. */
  datatype Step = Step(result: StakeResult, pool: PoolState, pos: Position)

  /** The default lock period `initialize_pool` sets, in seconds. */
  const DEFAULT_LOCK_SECONDS: I64 := 60

  // ----- The handlers on values -----

  /** `initialize_pool`: the admin is whatever the caller passes. */
  function Initialized(admin: Pubkey, bump: Byte): (p: PoolState)
    ensures p.admin == admin && p.totalStaked == 0 && p.lockSeconds == DEFAULT_LOCK_SECONDS
  {
    PoolState(admin, 0, DEFAULT_LOCK_SECONDS, bump)
  }

  /** `set_lock_seconds`: any value replaces the lock period; nothing else changes. */
  function LockSet(pool: PoolState, newLock: I64): (p: PoolState)
    ensures p.lockSeconds == newLock
    ensures p.admin == pool.admin && p.totalStaked == pool.totalStaked && p.bump == pool.bump
  {
    pool.(lockSeconds := newLock)
  }

  /** `stake` by `signer` at the client-supplied time `now`, in the handler's order: the staker
      is recorded only on an empty position, then the position's amount and the pool's total
      grow by checked additions. A failing addition returns at once, leaving the earlier field
      writes in memory. */
  function StakeStep(pool: PoolState, pos: Position, signer: Pubkey, amount: U64, now: I64, bump: Byte): Step
  {
    var user := if pos.stakedAmount == 0 then signer else pos.user;
    var staked := pos.stakedAmount + amount;
    if staked >= U64_LIMIT then
      Step(Failure(MathOverflow), pool, pos.(user := user))
    else
      var pos' := Position(user, staked, now, bump);
      var total := pool.totalStaked + amount;
      if total >= U64_LIMIT then Step(Failure(MathOverflow), pool, pos')
      else Step(Success, pool.(totalStaked := total), pos')
  }

  /** `unstake` by `signer` at the client-supplied time `now`: the three `require!` gates and
      the checked time difference, in the handler's order, then both amounts drop. */
  function UnstakeStep(pool: PoolState, pos: Position, signer: Pubkey, amount: U64, now: I64): Step
  {
    if pos.user != signer then Step(Failure(InvalidUser), pool, pos)
    else if !InI64(now - pos.lastStakeTs) then Step(Failure(MathOverflow), pool, pos)
    else if now - pos.lastStakeTs < pool.lockSeconds then Step(Failure(StillLocked), pool, pos)
    else if pos.stakedAmount < amount then Step(Failure(InsufficientStake), pool, pos)
    else
      var pos' := pos.(stakedAmount := pos.stakedAmount - amount);
      if pool.totalStaked < amount then Step(Failure(Underflow), pool, pos')
      else Step(Success, pool.(totalStaked := pool.totalStaked - amount), pos')
  }

  /** What the accounts hold after the instruction: Anchor writes its in-memory copies back
      only when the handler returns `Ok`. */
  function Committed(pool: PoolState, pos: Position, s: Step): (c: (PoolState, Position))
    ensures s.result.Success? ==> c == (s.pool, s.pos)
    ensures s.result.Failure? ==> c == (pool, pos)
  {
    if s.result.Success? then (s.pool, s.pos) else (pool, pos)
  }

  // ----- Properties -----

  /** `stake` succeeds exactly when neither sum overflows a `u64`; it then adds `amount` to
      both, stamps the time, records the signer on an empty position, and leaves the pool's
      admin and lock untouched. Every failure is `MathOverflow`. */
  lemma StakeAdds(pool: PoolState, pos: Position, signer: Pubkey, amount: U64, now: I64, bump: Byte)
    ensures var s := StakeStep(pool, pos, signer, amount, now, bump);
      && (s.result.Success? <==>
            pos.stakedAmount + amount < U64_LIMIT && pool.totalStaked + amount < U64_LIMIT)
      && (s.result.Failure? ==> s.result.error == MathOverflow)
      && (s.result.Success? ==>
            && s.pos.stakedAmount == pos.stakedAmount + amount
            && s.pool.totalStaked == pool.totalStaked + amount
            && s.pos.lastStakeTs == now
            && s.pos.user == (if pos.stakedAmount == 0 then signer else pos.user)
            && s.pool.admin == pool.admin && s.pool.lockSeconds == pool.lockSeconds)
  {
  }

  /** The staker recorded on a position never changes once it holds a stake. The account
      derivation from the signer's key, which keeps other signers away from the position, is
      not modelled, so here a stake signed by anyone else leaves the recorded user as it is. */
  lemma StakeKeepsOwner(pool: PoolState, pos: Position, signer: Pubkey, amount: U64, now: I64, bump: Byte)
    requires pos.stakedAmount > 0
    ensures StakeStep(pool, pos, signer, amount, now, bump).pos.user == pos.user
  {
  }

  /** `unstake` gates, in order: the wrong signer is `InvalidUser`, a time difference outside
      `i64` is `MathOverflow`, too little time since the last stake is `StillLocked`, too
      large an amount is `InsufficientStake`; past the gates both amounts drop by `amount`. */
  lemma UnstakeGates(pool: PoolState, pos: Position, signer: Pubkey, amount: U64, now: I64)
    ensures var s := UnstakeStep(pool, pos, signer, amount, now);
      && (pos.user != signer ==> s.result == Failure(InvalidUser))
      && (pos.user == signer && !InI64(now - pos.lastStakeTs) ==> s.result == Failure(MathOverflow))
      && (pos.user == signer && InI64(now - pos.lastStakeTs) && now - pos.lastStakeTs < pool.lockSeconds ==>
            s.result == Failure(StillLocked))
      && (s.result.Success? <==>
            && pos.user == signer && InI64(now - pos.lastStakeTs)
            && now - pos.lastStakeTs >= pool.lockSeconds
            && amount <= pos.stakedAmount && amount <= pool.totalStaked)
      && (s.result.Success? ==>
            && s.pos == pos.(stakedAmount := pos.stakedAmount - amount)
            && s.pool == pool.(totalStaked := pool.totalStaked - amount))
  {
  }

  /** A position's stake is covered by the pool's total. */
  predicate Backed(pool: PoolState, pos: Position)
  {
    pos.stakedAmount <= pool.totalStaked
  }

  /** A new pool backs an empty position. */
  lemma InitializedBacks(admin: Pubkey, bump: Byte, pos: Position)
    requires pos.stakedAmount == 0
    ensures Backed(Initialized(admin, bump), pos)
  {
  }

  /** Every committed `stake`, `unstake` and `set_lock_seconds` keeps a position backed. */
  lemma BackedPreserved(pool: PoolState, pos: Position, signer: Pubkey, amount: U64, now: I64, bump: Byte, newLock: I64)
    requires Backed(pool, pos)
    ensures var c := Committed(pool, pos, StakeStep(pool, pos, signer, amount, now, bump)); Backed(c.0, c.1)
    ensures var c := Committed(pool, pos, UnstakeStep(pool, pos, signer, amount, now)); Backed(c.0, c.1)
    ensures Backed(LockSet(pool, newLock), pos)
  {
    StakeAdds(pool, pos, signer, amount, now, bump);
    UnstakeGates(pool, pos, signer, amount, now);
  }

  /** While the position is backed, the unchecked subtraction from the pool's total cannot
      go below zero. */
  lemma BackedNeverUnderflows(pool: PoolState, pos: Position, signer: Pubkey, amount: U64, now: I64)
    requires Backed(pool, pos)
    ensures UnstakeStep(pool, pos, signer, amount, now).result != Failure(Underflow)
  {
  }

  /** A stake followed, once the lock has passed, by an unstake of the same amount by the same
      signer restores both the position's amount and the pool's total. */
  lemma StakeThenUnstakeRestores(pool: PoolState, pos: Position, signer: Pubkey, amount: U64,
                                 now: I64, bump: Byte, later: I64)
    requires pos.stakedAmount == 0 || pos.user == signer
    requires StakeStep(pool, pos, signer, amount, now, bump).result.Success?
    requires InI64(later - now) && later - now >= pool.lockSeconds
    ensures var s := StakeStep(pool, pos, signer, amount, now, bump);
      var u := UnstakeStep(s.pool, s.pos, signer, amount, later);
      && u.result.Success?
      && u.pos.stakedAmount == pos.stakedAmount
      && u.pool == pool
  {
    StakeAdds(pool, pos, signer, amount, now, bump);
    var s := StakeStep(pool, pos, signer, amount, now, bump);
    UnstakeGates(s.pool, s.pos, signer, amount, later);
  }

  /** With no admin check on `set_lock_seconds`, anyone can set the lock to the smallest `i64`,
      after which `unstake` is never `StillLocked`. */
  lemma MinimalLockNeverLocks(pool: PoolState, pos: Position, signer: Pubkey, amount: U64, now: I64)
    ensures UnstakeStep(LockSet(pool, I64_MIN), pos, signer, amount, now).result != Failure(StillLocked)
  {
  }

  // ----- The accounts, updated in place -----

  /** A `Pool` account as the handler sees it. */
  class Pool {
    var admin: Pubkey
    var totalStaked: U64
    var lockSeconds: I64
    var bump: Byte

    function Value(): PoolState
      reads this
    {
      PoolState(admin, totalStaked, lockSeconds, bump)
    }

    constructor (p: PoolState)
      ensures Value() == p
    {
      admin, totalStaked, lockSeconds, bump := p.admin, p.totalStaked, p.lockSeconds, p.bump;
    }
  }

  /** A `UserState` account as the handler sees it. */
  class UserState {
    var user: Pubkey
    var stakedAmount: U64
    var lastStakeTs: I64
    var bump: Byte

    function Value(): Position
      reads this
    {
      Position(user, stakedAmount, lastStakeTs, bump)
    }

    constructor (p: Position)
      ensures Value() == p
    {
      user, stakedAmount, lastStakeTs, bump := p.user, p.stakedAmount, p.lastStakeTs, p.bump;
    }
  }

  method InitializePool(pool: Pool, admin: Pubkey, bump: Byte)
    modifies pool
    ensures pool.Value() == Initialized(admin, bump)
  {
    pool.admin := admin;
    pool.bump := bump;
    pool.totalStaked := 0;
    pool.lockSeconds := DEFAULT_LOCK_SECONDS;
  }

  method SetLockSeconds(pool: Pool, newLock: I64)
    modifies pool
    ensures pool.Value() == LockSet(old(pool.Value()), newLock)
  {
    pool.lockSeconds := newLock;
  }

  method Stake(pool: Pool, userState: UserState, signer: Pubkey, amount: U64, clientNowTs: I64, bump: Byte)
    returns (r: StakeResult)
    modifies pool, userState
    ensures var s := StakeStep(old(pool.Value()), old(userState.Value()), signer, amount, clientNowTs, bump);
      r == s.result && pool.Value() == s.pool && userState.Value() == s.pos
  {
    if userState.stakedAmount == 0 {
      userState.user := signer;
    }
    if userState.stakedAmount + amount >= U64_LIMIT {
      return Failure(MathOverflow);
    }
    userState.stakedAmount := userState.stakedAmount + amount;
    userState.lastStakeTs := clientNowTs;
    userState.bump := bump;
    if pool.totalStaked + amount >= U64_LIMIT {
      return Failure(MathOverflow);
    }
    pool.totalStaked := pool.totalStaked + amount;
    return Success;
  }

  method Unstake(pool: Pool, userState: UserState, signer: Pubkey, amount: U64, clientNowTs: I64)
    returns (r: StakeResult)
    modifies pool, userState
    ensures var s := UnstakeStep(old(pool.Value()), old(userState.Value()), signer, amount, clientNowTs);
      r == s.result && pool.Value() == s.pool && userState.Value() == s.pos
  {
    if userState.user != signer {
      return Failure(InvalidUser);
    }
    var sinceLast := clientNowTs - userState.lastStakeTs;
    if !InI64(sinceLast) {
      return Failure(MathOverflow);
    }
    if sinceLast < pool.lockSeconds {
      return Failure(StillLocked);
    }
    if userState.stakedAmount < amount {
      return Failure(InsufficientStake);
    }
    userState.stakedAmount := userState.stakedAmount - amount;
    if pool.totalStaked < amount {
      return Failure(Underflow);
    }
    pool.totalStaked := pool.totalStaked - amount;
    return Success;
  }
}
