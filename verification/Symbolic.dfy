/** One concrete suite that meets every law assumed of cryptography: the hypotheses are consistent. */
module Symbolic {
  import opened Options
  import opened Octets
  import opened Json
  import opened Canonical
  import opened Packets
  import Base64Url
  import Utf8

  function Zeros(n: nat): (r: Bytes)
    ensures |r| == n
  {
    if n == 0 then [] else [0] + Zeros(n - 1)
  }

  /** A sealed text that spells out its additional data and its plaintext. */
  function SealText(plain: Bytes, aad: Bytes): Sealed {
    Sealed([0], Zeros(12), Utf8.Encode(Render(Arr([B64(aad), B64(plain)]))))
  }

  function OpenText(e: Sealed, aad: Bytes): Option<Bytes> {
    match ReadDocument(e.ciphertext)
    case Some(Arr(items)) =>
      if |items| == 2 && items[0] == B64(aad) && items[1].Str? then Base64Url.Decode(items[1].text) else None
    case _ => None
  }

  function SymbolicSuite(): Suite {
    Suite(m => Zeros(64), (m, sig) => sig == Zeros(64), (plain, aad, seed) => SealText(plain, aad), OpenText,
      Base64Url.Encode)
  }

  lemma LawsAreConsistent()
    ensures SignatureLaw(SymbolicSuite()) && SealingLaw(SymbolicSuite())
    ensures BindingLaw(SymbolicSuite()) && CollisionFree(SymbolicSuite())
  {
    var s := SymbolicSuite();
    forall plain, aad, seed
      ensures var e := s.seal(plain, aad, seed);
        |e.nonce| == 12 && e.encryptedKey != [] && e.ciphertext != [] && s.open(e, aad) == Some(plain)
    {
      SealedOpens(plain, aad);
    }
    forall e, a, b | s.open(e, a).Some? && s.open(e, b).Some? ensures a == b {
      OpensOnce(e, a, b);
    }
    forall a, b | s.digest(a) == s.digest(b) ensures a == b {
      Base64Url.EncodeInjective(a, b);
    }
  }

  lemma SealedOpens(plain: Bytes, aad: Bytes)
    ensures SealText(plain, aad).ciphertext != [] && OpenText(SealText(plain, aad), aad) == Some(plain)
  {
    var doc := Arr([B64(aad), B64(plain)]);
    ReadWritten(doc);
    Base64Url.RoundTrip(plain);
    assert ReadDocument([]) == None;
  }

  lemma OpensOnce(e: Sealed, a: Bytes, b: Bytes)
    requires OpenText(e, a).Some? && OpenText(e, b).Some?
    ensures a == b
  {
    Base64Url.EncodeInjective(a, b);
  }
}
