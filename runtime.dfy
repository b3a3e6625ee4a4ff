/** The part of the Solana runtime the engine's handlers rely on: the accounts passed to an
    instruction, their byte contents, and Borsh serialization into an account's bytes. */
module Runtime {
  import opened Borsh
  import opened Errors

  /** What a handler learns about a passed account besides its bytes: its address, its owning
      program and whether it holds enough lamports to be rent exempt. */
  datatype AccountMeta = AccountMeta(key: Pubkey, owner: Pubkey, rentExempt: bool)

  /** The bytes of every account, by address. Two passed accounts with the same address share
      their bytes, as they do in the runtime. */
  type Store = map<Pubkey, seq<Byte>>

  /** Every passed account has bytes in the store. */
  predicate Present(store: Store, accounts: seq<AccountMeta>)
  {
    forall a :: a in accounts ==> a.key in store
  }

  /** `is_zeroed`: every byte is 0 (an empty account counts as zeroed). */
  predicate IsZeroed(s: seq<Byte>)
  {
    forall k :: 0 <= k < |s| ==> s[k] == 0
  }

  /** The bytes of an account after a serialization attempt, and whether it succeeded. */
  datatype Written = Written(ok: bool, data: seq<Byte>)

  /** `value.serialize(&mut &mut data[..])`: Borsh writes the encoding `enc` over the front of
      the account's bytes; the bytes behind it are kept. When `enc` does not fit, the bytes that
      fit are written before the write fails. */
  function SerializeInto(enc: seq<Byte>, data: seq<Byte>): (w: Written)
    ensures |w.data| == |data|
    ensures w.ok <==> |enc| <= |data|
    ensures w.ok ==> w.data[..|enc|] == enc && w.data[|enc|..] == data[|enc|..]
    ensures !w.ok ==> w.data == enc[..|data|]
  {
    if |enc| <= |data| then Written(true, enc + data[|enc|..]) else Written(false, enc[..|data|])
  }

  /** Serializing the same encoding twice leaves the bytes as the first time did. */
  lemma SerializeTwice(enc: seq<Byte>, data: seq<Byte>)
    ensures SerializeInto(enc, SerializeInto(enc, data).data) == SerializeInto(enc, data)
  {
  }

  /** A record of exactly the account's size replaces all of its bytes. */
  lemma SerializeExact(enc: seq<Byte>, data: seq<Byte>)
    requires |enc| == |data|
    ensures SerializeInto(enc, data) == Written(true, enc)
  {
  }

  /** The account store, updated in place by the handlers. */
  class Ledger {
    var data: Store

    constructor (data: Store)
      ensures this.data == data
    {
      this.data := data;
    }

    /** Replaces the bytes of account `key`, as a handler that wrote them through a mutable borrow. */
    method Put(key: Pubkey, bytes: seq<Byte>)
      modifies this
      ensures data == old(data)[key := bytes]
    {
      data := data[key := bytes];
    }

    /** Serializes `enc` into the bytes of account `key`. */
    method Serialize(key: Pubkey, enc: seq<Byte>) returns (ok: bool)
      requires key in data
      modifies this
      ensures var w := SerializeInto(enc, old(data[key]));
        ok == w.ok && data == old(data)[key := w.data]
    {
      var bytes := data[key];
      ok := |enc| <= |bytes|;
      if ok {
        bytes := enc + bytes[|enc|..];
      } else {
        bytes := enc[..|bytes|];
      }
      data := data[key := bytes];
    }
  }
}
