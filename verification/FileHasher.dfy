/** Hashing a transferred body as it arrives, without holding it. */
module FileHashing {
  import opened Base

  const MAX_STREAM_HASH: nat := 64 * 1024 * 1024
  const HEAD_BYTES: nat := 264

  /**
   * What a finished hash reports. MD5 and SHA-256 are functions of the bytes they were given, so
   * the record carries those bytes in place of the two digests; `head` is what typing looks at.
   */
  datatype FileInfo = FileInfo(size: nat, hashed: seq<byte>, truncated: bool, head: seq<byte>)

  /** The report for a body, as a function of the whole body. An empty body is not a file. */
  function Digest(body: seq<byte>): Option<FileInfo> {
    if body == [] then None
    else
      var hashed := Prefix(body, MAX_STREAM_HASH);
      Some(FileInfo(|hashed|, hashed, |body| > MAX_STREAM_HASH, Prefix(body, HEAD_BYTES)))
  }

  /** Of a body, 64 MiB at most are hashed and counted, 264 bytes at most are kept for typing, and a cut is marked. */
  lemma DigestIs(body: seq<byte>)
    ensures Digest(body).None? <==> |body| == 0
    ensures Digest(body).Some? ==>
      var f := Digest(body).value;
      && f.hashed <= body && f.head <= body
      && f.size == |f.hashed| == (if |body| <= 67_108_864 then |body| else 67_108_864)
      && |f.head| == (if |body| <= 264 then |body| else 264)
      && (f.truncated <==> |body| > 67_108_864)
  {
  }

  class FileHasher {
    /** Everything given to `Update` so far. */
    ghost var input: seq<byte>
    /** What the two running digests have consumed. */
    var hashed: seq<byte>
    var size: nat
    const head: array<byte>
    var headLen: nat
    var truncated: bool

    ghost predicate Valid()
      reads this, head
    {
      && head.Length == HEAD_BYTES
      && headLen == Min(|input|, HEAD_BYTES)
      && head[..headLen] == Prefix(input, HEAD_BYTES)
      && hashed == Prefix(input, MAX_STREAM_HASH)
      && size == |hashed|
      && (truncated <==> |input| > MAX_STREAM_HASH)
    }

    constructor ()
      ensures Valid() && fresh(head)
      ensures input == []
    {
      input, hashed, size := [], [], 0;
      headLen, truncated := 0, false;
      head := new byte[HEAD_BYTES](_ => 0);
    }

    /** Copies what of the data still belongs in the head. */
    method KeepHead(data: seq<byte>)
      requires head.Length == HEAD_BYTES && headLen <= HEAD_BYTES
      modifies this`headLen, head
      ensures headLen == Min(old(headLen) + |data|, HEAD_BYTES)
      ensures head[..headLen] == old(head[..headLen]) + Prefix(data, HEAD_BYTES - old(headLen))
    {
      if headLen < head.Length {
        var n := Min(head.Length - headLen, |data|);
        forall i | 0 <= i < n {
          head[headLen + i] := data[i];
        }
        headLen := headLen + n;
      }
    }

    method Update(data: seq<byte>)
      requires Valid()
      modifies this, head
      ensures Valid()
      ensures input == old(input) + data
    {
      PrefixOfConcat(input, data, MAX_STREAM_HASH);
      PrefixOfConcat(input, data, HEAD_BYTES);
      if truncated || data == [] {
        input := input + data;
        return;
      }
      var room := MAX_STREAM_HASH - size;
      var take := Min(|data|, room);
      var dataIn := data[..take];
      KeepHead(dataIn);
      assert dataIn == Prefix(data, room) && Prefix(dataIn, HEAD_BYTES - |Prefix(input, HEAD_BYTES)|) ==
        Prefix(data, HEAD_BYTES - |Prefix(input, HEAD_BYTES)|);
      hashed := hashed + dataIn;
      size := size + take;
      if take < |data| {
        truncated := true;
      }
      input := input + data;
    }

    /** The report on everything hashed; `incomplete` marks a body whose start was never seen. */
    method Finish(incomplete: bool) returns (info: Option<FileInfo>)
      requires Valid()
      ensures info == match Digest(input)
        case None => None
        case Some(f) => Some(f.(truncated := f.truncated || incomplete))
    {
      if size == 0 {
        return None;
      }
      return Some(FileInfo(size, hashed, truncated || incomplete, head[..headLen]));
    }
  }
}
