/**
 SHA-256 and zstd are foreign functions: the model receives them as parameters and
 relies only on the laws stated here.
 */
module Codecs {
  import opened Common

  const MIN_ZSTD_VARIANT_BYTES: nat := 65536

  predicate IsHexDigit(ch: char) {
    '0' <= ch <= '9' || 'a' <= ch <= 'f' || 'A' <= ch <= 'F'
  }

  predicate ValidDigest(digest: string) {
    |digest| == 64 && forall i :: 0 <= i < |digest| ==> IsHexDigit(digest[i])
  }

  datatype Codec = Codec(
    sha256: Bytes -> string,
    zstdEncode: Bytes -> Bytes,
    zstdDecode: Bytes -> Option<Bytes>
  ) {
    ghost predicate Lawful() {
      && (forall b: Bytes :: ValidDigest(sha256(b)))
      && (forall b: Bytes :: zstdDecode(zstdEncode(b)) == Some(b))
      && (forall b: Bytes :: zstdEncode(b) != [])
    }

    /** Two byte strings that hash alike are the same. */
    predicate Apart(a: Bytes, b: Bytes) {
      sha256(a) == sha256(b) ==> a == b
    }

    /** No two of these byte strings collide. */
    ghost predicate CollisionFreeOn(pool: set<Bytes>) {
      forall a, b :: a in pool && b in pool ==> Apart(a, b)
    }

    /** Compression is kept when it saves at least ten percent of a payload of 64 KiB or more. */
    function EncodeIfWorthwhile(raw: Bytes): (r: Option<Bytes>)
      ensures r.Some? ==> r.value == zstdEncode(raw) && |r.value| < |raw|
    {
      if |raw| < MIN_ZSTD_VARIANT_BYTES then None
      else
        var encoded := zstdEncode(raw);
        if |encoded| < |raw| && (|raw| - |encoded|) * 100 >= |raw| * 10 then Some(encoded) else None
    }
  }
}
