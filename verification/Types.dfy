/** Values exchanged by every component of the node: transactions, blocks and headers,
    together with the cryptographic functions they rest on. */
module Types {

  datatype Option<+T> = None | Some(value: T)

  type byte = x: int | 0 <= x < 256

  /** A 32-byte SHA-256 digest. The chain only compares digests, so the type is abstract;
      `Crypto.bytes` gives the digest's byte array where the bytes matter. */
  type Hash(==, !new)

  datatype Tx = Tx(id: string, timestamp: int, payload: string)

  datatype Header = Header(
    height: nat, prevHash: Hash, timestamp: int, difficulty: nat, minerId: string, txRoot: Hash)

  datatype Block = Block(header: Header, nonce: nat, hash: Hash, txs: seq<Tx>)

  /** A block without its transactions, as carried by inventories and header replies. */
  datatype BlockMeta = BlockMeta(header: Header, nonce: nat, hash: Hash)

  /** The functions the node takes from its cryptographic library. */
  datatype Crypto = Crypto(
    zero: Hash,                        // the all-zero digest
    bytes: Hash -> seq<byte>,          // the digest as an array
    sha256: string -> Hash,
    hashHeader: (Header, nat) -> Hash  // SHA-256 of the serialized header and nonce
  ) {
    /** No header hashes to the all-zero digest, which the code uses for "hash not filled in". */
    ghost predicate Valid() {
      && (forall hd: Header, n: nat :: hashHeader(hd, n) != zero)
      && (forall h: Hash :: |bytes(h)| == 32)
    }
  }
}
