/** How a request's payload is collected from the event buffer. */
module RequestInput {
  import opened JsonValues

  const RECV_BUF_SIZE := 4097

  /** Each block is appended as a C string, so it counts only up to its first NUL. */
  function Received(data: string): string {
    if data == [] then []
    else
      var n := if |data| < RECV_BUF_SIZE - 1 then |data| else RECV_BUF_SIZE - 1;
      CStr(data[..n]) + Received(data[n..])
  }

  /** `recvReqInput`, up to the parsing: `buf` is the event buffer, drained block by block. */
  method RecvReqInput(data: string) returns (retData: string)
    ensures retData == Received(data)
    ensures retData == data <==> '\0' !in data
  {
    var buf := data;
    retData := "";
    while buf != []
      invariant retData + Received(buf) == Received(data)
      decreases |buf|
    {
      var nrecvd := if |buf| < RECV_BUF_SIZE - 1 then |buf| else RECV_BUF_SIZE - 1;
      Regrouped(retData, CStr(buf[..nrecvd]), Received(buf[nrecvd..]));
      retData := retData + CStr(buf[..nrecvd]);
      buf := buf[nrecvd..];
    }
    assert retData + [] == retData;
    PayloadKept(data);
  }

  lemma Regrouped(a: string, b: string, c: string)
    ensures a + b + c == a + (b + c)
  {
  }

  lemma {:induction false} CStrLength(s: string)
    ensures |CStr(s)| <= |s|
    ensures |CStr(s)| == |s| <==> '\0' !in s
    ensures '\0' !in s ==> CStr(s) == s
  {
    if s != [] && s[0] != '\0' {
      CStrLength(s[1..]);
      assert s == [s[0]] + s[1..];
    }
  }

  lemma {:induction false} ReceivedLength(data: string)
    ensures |Received(data)| <= |data|
    ensures |Received(data)| == |data| <==> '\0' !in data
    ensures '\0' !in data ==> Received(data) == data
    decreases |data|
  {
    if data != [] {
      var n := if |data| < RECV_BUF_SIZE - 1 then |data| else RECV_BUF_SIZE - 1;
      assert data == data[..n] + data[n..];
      CStrLength(data[..n]);
      ReceivedLength(data[n..]);
    }
  }

  /** The payload arrives whole, whatever its length, exactly when it holds no NUL. */
  lemma PayloadKept(data: string)
    ensures Received(data) == data <==> '\0' !in data
  {
    ReceivedLength(data);
  }

  /** What arrives of a payload with NULs in it: of each block of 4096 bytes, and of the last, shorter
      one, what stands before its first NUL. */
  lemma ReceivedByBlocks(before: string, after: string, more: string)
    requires '\0' !in before && |before| + 1 + |after| <= 4096 && (more != "" ==> |before| + 1 + |after| == 4096)
    ensures Received(before + "\0" + after + more) == before + Received(more)
  {
    var block := before + "\0" + after;
    CStrCuts(before, after);
    assert (block + more)[..|block|] == block && (block + more)[|block|..] == more;
  }
}
