/** Values shared by every component of the model. */
module Types {

  /** A validator's account address; only equality matters. */
  type Address = nat

  /** A certificate ID is the hash of the batch header, so it stands for the whole header. */
  type CertificateId = nat

  datatype Option<+T> = None | Some(value: T)

  datatype Result<+T, +E> = Ok(value: T) | Err(error: E)

  /** A transmission ID: the ID of the underlying object, and a checksum of its encoding. */
  datatype TransmissionId =
    | Solution(id: nat, checksum: nat)
    | Transaction(id: nat, checksum: nat)
    | Ratification

  /** A batch certificate, without its signatures: certificates are compared by ID. */
  datatype Certificate = Certificate(
    id: CertificateId,
    author: Address,
    round: nat,
    previous: seq<CertificateId>,
    transmissions: seq<TransmissionId>
  )

  ghost predicate NoDuplicates<T(!new)>(s: seq<T>) {
    forall i, j :: 0 <= i < j < |s| ==> s[i] != s[j]
  }

  /** `p` is a prefix of `q`, or the other way round. */
  ghost predicate PrefixComparable<T>(p: seq<T>, q: seq<T>) {
    p <= q || q <= p
  }

  lemma PrefixOfExtension<T>(p: seq<T>, q: seq<T>, r: seq<T>)
    requires p <= q
    ensures p <= q + r
  {
  }

  lemma PrefixTransitive<T>(p: seq<T>, q: seq<T>, r: seq<T>)
    requires p <= q && q <= r
    ensures p <= r
  {
  }

  lemma PrefixesOfOneCompare<T>(p: seq<T>, q: seq<T>, r: seq<T>)
    requires p <= r && q <= r
    ensures PrefixComparable(p, q)
  {
    if |p| <= |q| {
      assert p == q[..|p|];
    } else {
      assert q == p[..|q|];
    }
  }
}
