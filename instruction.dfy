/** The seven instructions of the matching engine and their Borsh encoding:
    the variant's 0-based declaration index as one byte, then its fields in order. */
module Instruction {
  import opened Borsh
  import opened Errors

  datatype EngineInstruction =
    | InitializeMarket(feeBps: U16)
    | Deposit(amount: U64)
    | Withdraw(amount: U64)
    | PlaceOrder(priceLots: I64, maxBaseLots: I64, sideIsBid: bool)
    | CancelOrder(orderId: U128)
    | UpdateOracle(price: I64, confidence: U64)
    | Liquidate(maxLiqAmount: U64)

  function Tag(ix: EngineInstruction): Byte
  {
    match ix
    case InitializeMarket(_) => 0
    case Deposit(_) => 1
    case Withdraw(_) => 2
    case PlaceOrder(_, _, _) => 3
    case CancelOrder(_) => 4
    case UpdateOracle(_, _) => 5
    case Liquidate(_) => 6
  }

  function EncodeFields(ix: EngineInstruction): seq<Byte>
  {
    match ix
    case InitializeMarket(fee) => EncodeU16(fee)
    case Deposit(amount) => EncodeU64(amount)
    case Withdraw(amount) => EncodeU64(amount)
    case PlaceOrder(price, lots, bid) => EncodeI64(price) + EncodeI64(lots) + [EncodeBool(bid)]
    case CancelOrder(id) => EncodeU128(id)
    case UpdateOracle(price, confidence) => EncodeI64(price) + EncodeU64(confidence)
    case Liquidate(amount) => EncodeU64(amount)
  }

  function Encode(ix: EngineInstruction): (r: seq<Byte>)
    ensures |r| >= 1 && r[0] == Tag(ix) && r[1..] == EncodeFields(ix)
  {
    [Tag(ix)] + EncodeFields(ix)
  }

  /** Borsh decoding of the whole byte string; trailing bytes are rejected. */
  function Decode(s: seq<Byte>): Option<EngineInstruction>
  {
    if |s| == 0 then None
    else
      var body := s[1..];
      if s[0] == 0 && |body| == 2 then Some(InitializeMarket(DecodeU16(body)))
      else if s[0] == 1 && |body| == 8 then Some(Deposit(DecodeU64(body)))
      else if s[0] == 2 && |body| == 8 then Some(Withdraw(DecodeU64(body)))
      else if s[0] == 3 && |body| == 17 then
        var bid :- DecodeBool(body[16]);
        Some(PlaceOrder(DecodeI64(body[0..8]), DecodeI64(body[8..16]), bid))
      else if s[0] == 4 && |body| == 16 then Some(CancelOrder(DecodeU128(body)))
      else if s[0] == 5 && |body| == 16 then Some(UpdateOracle(DecodeI64(body[0..8]), DecodeU64(body[8..16])))
      else if s[0] == 6 && |body| == 8 then Some(Liquidate(DecodeU64(body)))
      else None
  }

  /** `EngineInstruction::unpack`: any decoding failure becomes `InvalidInstruction`. */
  function Unpack(s: seq<Byte>): (r: Result<EngineInstruction>)
    ensures r.Err? ==> r.error == Custom(InvalidInstruction)
  {
    match Decode(s)
    case Some(ix) => Ok(ix)
    case None => Err(Custom(InvalidInstruction))
  }

  lemma FieldsRoundTrip(ix: EngineInstruction)
    ensures Decode(Encode(ix)) == Some(ix)
  {
    var body := Encode(ix)[1..];
    match ix
    case InitializeMarket(fee) => U16RoundTrip(fee);
    case Deposit(amount) => U64RoundTrip(amount);
    case Withdraw(amount) => U64RoundTrip(amount);
    case PlaceOrder(price, lots, bid) =>
      assert body[0..8] == EncodeI64(price) && body[8..16] == EncodeI64(lots);
      I64RoundTrip(price);
      I64RoundTrip(lots);
    case CancelOrder(id) => U128RoundTrip(id);
    case UpdateOracle(price, confidence) =>
      assert body[0..8] == EncodeI64(price) && body[8..16] == EncodeU64(confidence);
      I64RoundTrip(price);
      U64RoundTrip(confidence);
    case Liquidate(amount) => U64RoundTrip(amount);
  }

  /** Decoding the encoding of any instruction yields that instruction. */
  lemma UnpackRoundTrip(ix: EngineInstruction)
    ensures Unpack(Encode(ix)) == Ok(ix)
  {
    FieldsRoundTrip(ix);
  }

  lemma PlaceOrderSlices(body: seq<Byte>)
    requires |body| == 17
    ensures body == body[0..8] + body[8..16] + body[16..]
  {
  }

  lemma UpdateOracleSlices(body: seq<Byte>)
    requires |body| == 16
    ensures body == body[0..8] + body[8..16]
  {
  }

  lemma PlaceOrderFieldsCanonical(body: seq<Byte>, ix: EngineInstruction)
    requires |body| == 17 && body[16] <= 1
    requires ix == PlaceOrder(DecodeI64(body[0..8]), DecodeI64(body[8..16]), DecodeBool(body[16]).value)
    ensures EncodeFields(ix) == body
  {
    assert EncodeI64(ix.priceLots) == body[0..8] by { I64Canonical(body[0..8]); }
    assert EncodeI64(ix.maxBaseLots) == body[8..16] by { I64Canonical(body[8..16]); }
    assert [EncodeBool(ix.sideIsBid)] == body[16..];
    PlaceOrderSlices(body);
  }

  lemma UpdateOracleFieldsCanonical(body: seq<Byte>, ix: EngineInstruction)
    requires |body| == 16
    requires ix == UpdateOracle(DecodeI64(body[0..8]), DecodeU64(body[8..16]))
    ensures EncodeFields(ix) == body
  {
    assert EncodeI64(ix.price) == body[0..8] by { I64Canonical(body[0..8]); }
    assert EncodeU64(ix.confidence) == body[8..16] by { U64Canonical(body[8..16]); }
    UpdateOracleSlices(body);
  }

  /** The encoding is canonical: a byte string that unpacks is the encoding of what it unpacks to. */
  lemma UnpackCanonical(s: seq<Byte>)
    requires Unpack(s).Ok?
    ensures Encode(Unpack(s).value) == s
  {
    var body := s[1..];
    var ix := Unpack(s).value;
    assert s == [s[0]] + body;
    assert Tag(ix) == s[0];
    assert EncodeFields(ix) == body by {
      if s[0] == 0 {
        U16Canonical(body);
      } else if s[0] == 1 || s[0] == 2 || s[0] == 6 {
        U64Canonical(body);
      } else if s[0] == 3 {
        PlaceOrderFieldsCanonical(body, ix);
      } else if s[0] == 4 {
        U128Canonical(body);
      } else {
        UpdateOracleFieldsCanonical(body, ix);
      }
    }
  }

  /** `unpack` fails, with `InvalidInstruction`, exactly on the byte strings that encode no instruction. */
  lemma UnpackFailsExactly(s: seq<Byte>)
    ensures Unpack(s).Err? <==> forall ix :: Encode(ix) != s
    ensures Unpack(s).Err? ==> Unpack(s) == Err(Custom(InvalidInstruction))
  {
    if Unpack(s).Ok? {
      UnpackCanonical(s);
    } else {
      forall ix ensures Encode(ix) != s {
        UnpackRoundTrip(ix);
      }
    }
  }

  /** The encoded length of every variant: the tag byte plus the widths of its fields. */
  lemma EncodedSizes(ix: EngineInstruction)
    ensures |Encode(ix)| == match ix
      case InitializeMarket(_) => 3
      case Deposit(_) => 9
      case Withdraw(_) => 9
      case PlaceOrder(_, _, _) => 18
      case CancelOrder(_) => 17
      case UpdateOracle(_, _) => 17
      case Liquidate(_) => 9
  {
  }

  /** A PlaceOrder instruction keeps its price, size and side through encode and decode. */
  lemma PlaceOrderRoundTripExample()
    ensures var r := Unpack(Encode(PlaceOrder(100, 10, true)));
      r.Ok? && r.value.PlaceOrder? && r.value.priceLots == 100 && r.value.maxBaseLots == 10 && r.value.sideIsBid
  {
    UnpackRoundTrip(PlaceOrder(100, 10, true));
  }
}
