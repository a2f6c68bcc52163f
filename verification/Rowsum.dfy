/** The digests a row can carry: SHA-3 and BLAKE3 at four lengths each, taken in pieces or at once. */
module Rowsum {
  import opened Blake3Tree
  import opened Blake3Subtree
  import opened Blake3Hasher
  import Sha3
  import Sha3Sponge

  const N_ALGORITHMS: nat := 9

  /** Bytes of each algorithm's digest; algorithm 0 is the empty one. */
  function DigestLength(algorithm: nat): (n: nat)
    requires algorithm < N_ALGORITHMS
    ensures n <= 64 && (n == 0 <==> algorithm == 0)
  {
    [0, 64, 48, 32, 28, 64, 48, 32, 28][algorithm]
  }

  predicate IsSha3(algorithm: nat)
  {
    1 <= algorithm <= 4
  }

  /** The bits SHA3Init is given. */
  function Sha3Bits(algorithm: nat): nat
    requires IsSha3(algorithm)
  {
    [512, 384, 256, 224][algorithm - 1]
  }

  function Sha3Rate(algorithm: nat): (rate: nat)
    requires IsSha3(algorithm)
    ensures Sha3Sponge.IsRate(rate) && DigestLength(algorithm) <= rate
    ensures rate == 200 - 8 * ((Sha3Bits(algorithm) + 31) / 32)
    ensures rate + 2 * DigestLength(algorithm) == 200 && Sha3Bits(algorithm) == 8 * DigestLength(algorithm)
  {
    [72, 104, 136, 144][algorithm - 1]
  }

  /** The digest of some data under an algorithm other than the empty one. */
  function DigestOf(m: Mode, algorithm: nat, data: seq<bv8>): (d: seq<bv8>)
    requires 0 < algorithm < N_ALGORITHMS
    ensures |d| == DigestLength(algorithm)
  {
    if IsSha3(algorithm) then Sha3Sponge.Digest(Sha3Rate(algorithm), data, DigestLength(algorithm))
    else Hash(m, data, 0, DigestLength(algorithm))
  }

  /** Which digest each algorithm is, at which rate and length. */
  lemma DigestsAre(m: Mode, data: seq<bv8>)
    ensures DigestOf(m, 1, data) == Sha3Sponge.Digest(72, data, 64) && DigestOf(m, 5, data) == Hash(m, data, 0, 64)
    ensures DigestOf(m, 2, data) == Sha3Sponge.Digest(104, data, 48) && DigestOf(m, 6, data) == Hash(m, data, 0, 48)
    ensures DigestOf(m, 3, data) == Sha3Sponge.Digest(136, data, 32) && DigestOf(m, 7, data) == Hash(m, data, 0, 32)
    ensures DigestOf(m, 4, data) == Sha3Sponge.Digest(144, data, 28) && DigestOf(m, 8, data) == Hash(m, data, 0, 28)
  {
    hide Sha3Sponge.Digest, Hash;
  }

  lemma DigestFront(rate: nat, data: seq<bv8>, n: nat)
    requires Sha3Sponge.IsRate(rate) && n <= rate
    ensures Sha3Sponge.Digest(rate, data, n) == Sha3Sponge.Digest(rate, data, rate)[..n]
  {
  }

  /** What the hashers are built on: the compression function, the SIMD degree, the byte order. */
  datatype Platform = Platform(mode: Mode, simd: Simd, order: Sha3.ByteOrder, bigEndian: bool)

  predicate GoodPlatform(p: Platform)
  {
    && p.simd.Valid()
    && (p.order == Sha3.Little ==> !p.bigEndian) && (p.order == Sha3.Big ==> p.bigEndian)
  }

  /** A digest being computed. */
  class Digester {
    const algorithm: nat
    const mode: Mode
    const sha3: Sha3.Context?
    const blake3: Hasher?
    ghost var content: seq<bv8>

    ghost function Repr(): set<object>
      reads this, blake3
    {
      {this} + (if sha3 == null then {} else {sha3, sha3.x}) + (if blake3 == null then {} else blake3.Repr())
    }

    ghost predicate Valid()
      reads this, blake3, Repr()
    {
      && 0 < algorithm < N_ALGORITHMS
      && if IsSha3(algorithm) then
           sha3 != null && sha3.Valid() && sha3.content == content && sha3.nRate == Sha3Rate(algorithm)
         else
           && blake3 != null && this !in blake3.Repr() && blake3.Valid() && blake3.Absorbed() == content
           && blake3.mode == mode
    }

    constructor (algorithm: nat, p: Platform)
      requires 0 < algorithm < N_ALGORITHMS && GoodPlatform(p)
      ensures Valid() && content == [] && fresh(Repr())
      ensures this.algorithm == algorithm && this.mode == p.mode
    {
      this.algorithm := algorithm;
      mode := p.mode;
      content := [];
      if IsSha3(algorithm) {
        sha3 := new Sha3.Context(Sha3Bits(algorithm), p.order, p.bigEndian);
        blake3 := null;
      } else {
        sha3 := null;
        blake3 := new Hasher(p.mode, p.simd);
      }
    }

    method Update(piece: seq<bv8>, aligned: bool)
      requires Valid() && |content| + |piece| < SIZE_LIMIT
      modifies Repr()
      ensures Valid() && content == old(content) + piece && Repr() == old(Repr())
    {
      if IsSha3(algorithm) {
        sha3.Update(piece, aligned);
      } else {
        blake3.Update(piece);
      }
      content := content + piece;
    }

    method FinalSha3() returns (digest: seq<bv8>)
      requires Valid() && IsSha3(algorithm)
      modifies Repr()
      ensures digest == DigestOf(mode, algorithm, old(content))
    {
      hide Sha3Sponge.Digest, Sha3Sponge.Streamed, Sha3.Logical;
      DigestFront(Sha3Rate(algorithm), content, DigestLength(algorithm));
      var at := sha3.Final();
      digest := sha3.x[at..at + DigestLength(algorithm)];
      assert digest == sha3.x[at..at + sha3.nRate][..DigestLength(algorithm)];
    }

    method FinalBlake3() returns (digest: seq<bv8>)
      requires Valid() && !IsSha3(algorithm)
      modifies Repr()
      ensures digest == DigestOf(mode, algorithm, old(content))
    {
      hide Hash, Hasher.Valid, Hasher.Absorbed;
      var out := new bv8[DigestLength(algorithm)];
      blake3.Finalize(out);
      digest := out[..];
    }

    method Final() returns (digest: seq<bv8>)
      requires Valid()
      modifies Repr()
      ensures digest == DigestOf(mode, algorithm, old(content))
    {
      hide DigestOf;
      if IsSha3(algorithm) {
        digest := FinalSha3();
      } else {
        digest := FinalBlake3();
      }
    }
  }
}
