/** calculate_info_hash of metainfo.c: the digest of a buffer, through the incremental context. */
module InfoHash {
  import opened Bytes
  import Sha1
  import Sha1Spec

  /** The digest of the first len bytes of a buffer. The error codes of the three calls are never set. */
  method CalculateInfoHash(buffer: array<byte>, len: nat) returns (digest: array<byte>)
    requires len <= buffer.Length && len < Sha1.LIMIT
    ensures fresh(digest) && digest[..] == Sha1Spec.Digest(buffer[..len])
  {
    hide Sha1Spec.Digest, Sha1Spec.Fold, Sha1Spec.Pad, Sha1.Context.Valid;
    digest := new byte[20](_ => 0);
    var sha := new Sha1.Context();
    var err := sha.Reset();
    assert err == Sha1.SHA_SUCCESS;
    err := sha.Input(buffer, len);
    assert err == Sha1.SHA_SUCCESS;
    assert sha.phase == Sha1.Absorbing(buffer[..len]);
    err := sha.Result(digest);
    assert err == Sha1.SHA_SUCCESS;
  }

  method HashBytes(data: seq<byte>) returns (digest: seq<byte>)
    requires |data| < Sha1.LIMIT
    ensures digest == Sha1Spec.Digest(data)
  {
    var buffer := new byte[|data|](i requires 0 <= i < |data| => data[i]);
    assert buffer[..|data|] == data;
    var d := CalculateInfoHash(buffer, |data|);
    digest := d[..];
  }
}
