// Values shared by every column of the index.
module Types {

  type byte = x: int | 0 <= x < 256

  /** One more than the largest unsigned 32-bit number. */
  const U32: nat := 0x1_0000_0000

  datatype Option<+T> = None | Some(value: T)

  /** A packed transaction id; the index only ever compares them for equality. */
  datatype TxId = TxId(packed: seq<byte>)

  /** An address descriptor, for Bitcoin-type chains the output script. */
  datatype AddrDesc = AddrDesc(script: seq<byte>)

  type Guid = nat

  /** Syscoin asset carried by an output, next to its satoshi value. */
  datatype AssetInfo = AssetInfo(guid: Guid, value: nat)

  datatype OutPoint = OutPoint(txid: TxId, vout: nat)

  /** A slot of an address's UTXO list. A spent slot stays in the list with vout == -1. */
  datatype Utxo = Utxo(txid: TxId, vout: int, height: nat, value: nat, asset: Option<AssetInfo>)
}
