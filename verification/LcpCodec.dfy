// lcp_addci and lcp_ackci: the writer of our Configure-Request and the checker of
// its Ack.

module LcpCodec {
  import opened Bytes
  import opened OptionMenu
  import opened LcpOptions

  // lcp_addci; `good` is false where it reports "wrong length".
  method AddCi(go: Options, buf: array<byte>, len: int) returns (good: bool)
    requires CiLen(go) <= buf.Length
    modifies buf
    ensures buf[..CiLen(go)] == RequestOf(go)
    ensures good <==> len == CiLen(go)
  {
    CiLenIsLength(go);
    var p := Write(Menu(go), buf);
    good := p == len;
  }

  // lcp_ackci accepts exactly the bytes lcp_addci wrote.
  method AckCi(go: Options, p: seq<byte>) returns (good: bool)
    ensures good <==> p == RequestOf(go)
  {
    good := Check(Menu(go), p);
  }
}
