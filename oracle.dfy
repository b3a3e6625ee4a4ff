/** Reading and writing the price record of an oracle account. */
module Oracle {
  import opened Borsh
  import opened Errors
  import opened State
  import opened Runtime

  /** `read_price`: the account's bytes as an `OraclePrice`; bytes that are not one are the
      engine's `InvalidAccountData`. */
  function ReadPrice(bytes: seq<Byte>): (r: Result<OraclePrice>)
    ensures r.Err? <==> DecodeOracle(bytes).None?
    ensures r.Err? ==> r.error == Custom(EngineError.InvalidAccountData)
    ensures r.Ok? ==> EncodeOracle(r.value) == bytes
  {
    match DecodeOracle(bytes)
    case Some(p) => (OracleCanonical(bytes); Ok(p))
    case None => Err(Custom(EngineError.InvalidAccountData))
  }

  /** The record `write_price` starts from when the account does not hold one. */
  const FallbackPrice: OraclePrice := OraclePrice(0, U64_LIMIT - 1, 0)

  /** `write_price` at clock slot `slot`: the existing record, or the fallback, with its three
      fields replaced, serialized over the account's bytes; a failed write is the engine's
      `InvalidAccountData`. */
  function WritePrice(bytes: seq<Byte>, price: I64, confidence: U64, slot: U64): (Result<()>, seq<Byte>)
  {
    var start := match ReadPrice(bytes) case Ok(p) => p case Err(_) => FallbackPrice;
    var p := start.(price := price, confidence := confidence, lastUpdatedSlot := slot);
    var w := SerializeInto(EncodeOracle(p), bytes);
    (if w.ok then Ok(()) else Err(Custom(EngineError.InvalidAccountData)), w.data)
  }

  /** `write_price` on account `key` of the ledger. */
  method WritePriceTo(ledger: Ledger, key: Pubkey, price: I64, confidence: U64, slot: U64) returns (r: Result<()>)
    requires key in ledger.data
    modifies ledger
    ensures var (res, bytes) := WritePrice(old(ledger.data[key]), price, confidence, slot);
      r == res && ledger.data == old(ledger.data)[key := bytes]
  {
    var read := ReadPrice(ledger.data[key]);
    var oracle := if read.Ok? then read.value else FallbackPrice;
    oracle := oracle.(price := price);
    oracle := oracle.(confidence := confidence);
    oracle := oracle.(lastUpdatedSlot := slot);
    var ok := ledger.Serialize(key, EncodeOracle(oracle));
    r := if ok then Ok(()) else Err(Custom(EngineError.InvalidAccountData));
  }

  /** After a write, the account reads back exactly the given price, confidence and slot;
      the write succeeds exactly when the account is at least a record long. */
  lemma WritePriceReadsBack(bytes: seq<Byte>, price: I64, confidence: U64, slot: U64)
    ensures var (r, out) := WritePrice(bytes, price, confidence, slot);
      && (r.Ok? <==> |bytes| >= ORACLE_SIZE)
      && (r.Err? ==> r == Err(Custom(EngineError.InvalidAccountData)))
      && |out| == |bytes|
      && (r.Ok? ==> ReadPrice(out[..ORACLE_SIZE]) == Ok(OraclePrice(price, confidence, slot)))
  {
    OracleRoundTrip(OraclePrice(price, confidence, slot));
  }

  /** The written bytes do not depend on the record already there: any price and confidence
      are accepted, and nothing of the old record survives. */
  lemma WritePriceForgetsOld(a: seq<Byte>, b: seq<Byte>, price: I64, confidence: U64, slot: U64)
    requires |a| == |b| == ORACLE_SIZE
    ensures WritePrice(a, price, confidence, slot) == WritePrice(b, price, confidence, slot)
  {
  }
}
