/** Echo request packets and their checksum, section 1 of RFC 1071 over the message format "Echo or
    Echo Reply Message" of RFC 792. */
module IcmpPackets {
  import opened Bytes

  const ICMP_HEADER_SIZE := 8
  const ICMP_ECHO: byte := 8

  // ---- One's-complement sums ---------------------------------------------------------------------

  function Word(high: byte, low: byte): (w: nat)
    ensures w <= 0xFFFF
  {
    high as int * 256 + low as int
  }

  /** The 16-bit words of `s`, most significant byte first, a last odd byte padded with zero. */
  function Words(s: seq<byte>): seq<nat> {
    if s == [] then []
    else if |s| == 1 then [Word(s[0], 0)]
    else [Word(s[0], s[1])] + Words(s[2..])
  }

  function Sum(ws: seq<nat>): nat {
    if ws == [] then 0 else ws[0] + Sum(ws[1..])
  }

  /** Addition of 16-bit words with end-around carry. */
  function OnesAdd(a: nat, b: nat): nat {
    if a + b > 0xFFFF then a + b - 0xFFFF else a + b
  }

  function OnesSum(ws: seq<nat>): nat {
    if ws == [] then 0 else OnesAdd(ws[0], OnesSum(ws[1..]))
  }

  /** The word that a plain sum comes to under end-around carry. */
  function Reduce(n: nat): (r: nat)
    ensures r <= 0xFFFF && (n > 0 ==> r > 0) && r <= n && (n - r) % 0xFFFF == 0
  {
    if n == 0 then 0 else (n - 1) % 0xFFFF + 1
  }

  lemma ReduceUnique(n: nat, r: nat)
    requires r <= 0xFFFF && (r == 0 <==> n == 0) && r <= n && (n - r) % 0xFFFF == 0
    ensures r == Reduce(n)
  {
    var d := r - Reduce(n);
    assert d == (n - Reduce(n)) - (n - r);
  }

  lemma {:induction false} OnesSumIsReduced(ws: seq<nat>)
    requires forall k :: 0 <= k < |ws| ==> ws[k] <= 0xFFFF
    ensures OnesSum(ws) == Reduce(Sum(ws))
  {
    if ws != [] {
      OnesSumIsReduced(ws[1..]);
      ReduceUnique(Sum(ws), OnesSum(ws));
    }
  }

  lemma {:induction false} WordsFit(s: seq<byte>)
    ensures |Words(s)| == (|s| + 1) / 2
    ensures forall k :: 0 <= k < |Words(s)| ==> Words(s)[k] <= 0xFFFF
  {
    if |s| > 1 {
      WordsFit(s[2..]);
    }
  }

  lemma {:induction false} SumBound(ws: seq<nat>)
    requires forall k :: 0 <= k < |ws| ==> ws[k] <= 0xFFFF
    ensures Sum(ws) <= 0xFFFF * |ws|
  {
    if ws != [] {
      SumBound(ws[1..]);
    }
  }

  lemma {:induction false} SumAppend(a: seq<nat>, b: seq<nat>)
    ensures Sum(a + b) == Sum(a) + Sum(b)
  {
    if a == [] {
      assert a + b == b;
    } else {
      assert (a + b)[1..] == a[1..] + b;
      SumAppend(a[1..], b);
    }
  }

  lemma {:induction false} WordsAppend(a: seq<byte>, b: seq<byte>)
    requires |a| % 2 == 0
    ensures Words(a + b) == Words(a) + Words(b)
  {
    if a == [] {
      assert a + b == b;
    } else {
      assert (a + b)[2..] == a[2..] + b;
      WordsAppend(a[2..], b);
    }
  }

  /** A zero byte at the end does not change the sum, at either parity. */
  lemma {:induction false} TrailingZero(s: seq<byte>)
    ensures Sum(Words(s + [0])) == Sum(Words(s))
  {
    if |s| > 1 {
      assert (s + [0])[2..] == s[2..] + [0];
      TrailingZero(s[2..]);
      assert Words(s + [0])[1..] == Words(s[2..] + [0]);
    } else if |s| == 1 {
      assert (s + [0])[2..] == [];
    }
  }

  // ---- The packet -----------------------------------------------------------------------------------

  function Add32(a: nat, b: nat): nat {
    (a + b) % 0x1_0000_0000
  }

  /** The folds and the complement at the end of `calcCheckSum`, on a 32-bit sum. */
  function Finish(sum: nat): nat {
    var once := sum / 0x1_0000 + sum % 0x1_0000;
    var twice := Add32(once, once / 0x1_0000);
    (0xFFFF_FFFF - twice % 0x1_0000_0000) % 0x1_0000
  }

  /** Two folds are enough: they reach the one's-complement sum of any 32-bit accumulator. */
  lemma FoldsReduce(sum: nat)
    requires sum < 0x1_0000_0000
    ensures Finish(sum) == 0xFFFF - Reduce(sum)
  {
    var once := sum / 0x1_0000 + sum % 0x1_0000;
    assert sum - once == sum / 0x1_0000 * 0xFFFF;
    var low := if once > 0xFFFF then once - 0xFFFF else once;
    assert (sum - low) % 0xFFFF == 0;
    ReduceUnique(sum, low);
  }

  /** The plain sum the checksum is computed over: the header but for the checksum field, and the
      data but for the last byte. */
  function Covered(p: seq<byte>): nat
    requires |p| > ICMP_HEADER_SIZE
  {
    Sum(Words(p[..2])) + Sum(Words(p[4..ICMP_HEADER_SIZE])) + Sum(Words(p[ICMP_HEADER_SIZE..|p| - 1]))
  }

  class IcmpPacket {
    const buf: array<byte>

    ghost predicate Valid() {
      buf.Length > ICMP_HEADER_SIZE
    }

    /** The request carrying `content`; the type asked for is not looked at. */
    constructor (kind: byte, code: byte, identifier: nat, sequence: nat, content: seq<byte>)
      requires identifier < 0x1_0000 && sequence < 0x1_0000
      ensures Valid() && fresh(buf) && buf.Length == 8 + |content| + 1
      ensures buf[..2] == [8, code]
      ensures buf[4..] == LE(identifier, 2) + LE(sequence, 2) + content + [0]
      ensures |content| <= 131068 ==> OnesSum(Words(buf[..])) == 0xFFFF
    {
      buf := new byte[ICMP_HEADER_SIZE + |content| + 1];
      new;
      forall k | 0 <= k < |content| {
        buf[ICMP_HEADER_SIZE + k] := content[k];
      }
      buf[buf.Length - 1] := 0;
      buf[0], buf[1] := ICMP_ECHO, code;
      buf[4], buf[5] := identifier % 256, identifier / 256;
      buf[6], buf[7] := sequence % 256, sequence / 256;
      ghost var before := buf[..];
      var sum := CalcCheckSum();
      buf[2], buf[3] := sum / 256, sum % 256;
      ghost var after := buf[..];
      assert after[..2] == before[..2] && after[4..] == before[4..];
      Layout(after, code, identifier, sequence, content);
      if |content| <= 131068 {
        PacketChecks(before, after);
      }
    }

    method CalcCheckSum() returns (checksum: nat)
      requires Valid()
      ensures checksum == Finish(Covered(buf[..]) % 0x1_0000_0000)
    {
      var sum: nat := Word(buf[0], buf[1]) + Word(buf[4], buf[5]) + Word(buf[6], buf[7]);
      HeaderSum(buf[..]);
      sum := AddData(sum, Covered(buf[..]));
      checksum := Finish(sum);
    }

    /** One `sum +=`, on 32 bits. */
    static method AddTo(sum: nat, ghost total: nat, a: nat) returns (next: nat)
      requires sum == total % 0x1_0000_0000
      ensures next == (total + a) % 0x1_0000_0000
    {
      AddWraps(total, a);
      next := Add32(sum, a);
    }

    /** The loop of `calcCheckSum` over the data. */
    method AddData(header: nat, ghost goal: nat) returns (sum: nat)
      requires Valid() && header < 0x1_0000_0000
      requires header + Sum(Words(buf[ICMP_HEADER_SIZE..buf.Length - 1])) == goal
      ensures sum == goal % 0x1_0000_0000
    {
      ghost var total: nat, data := header, buf[ICMP_HEADER_SIZE..buf.Length - 1];
      sum := header;
      var iter := ICMP_HEADER_SIZE;
      var dataEnd := buf.Length - 1;
      assert data[0..] == data;
      while iter != dataEnd
        invariant ICMP_HEADER_SIZE <= iter <= dataEnd
        invariant total + Left(data, iter - ICMP_HEADER_SIZE) == goal
        invariant sum == total % 0x1_0000_0000
      {
        sum, iter, total := AddWord(sum, iter, total, data);
      }
    }

    /** One turn of that loop: a word, or the last byte alone. */
    method AddWord(sum: nat, iter: nat, ghost total: nat, ghost data: seq<byte>)
      returns (next: nat, after: nat, ghost added: nat)
      requires Valid() && data == buf[ICMP_HEADER_SIZE..buf.Length - 1] && sum == total % 0x1_0000_0000
      requires ICMP_HEADER_SIZE <= iter < buf.Length - 1
      ensures iter < after <= buf.Length - 1 && next == added % 0x1_0000_0000
      ensures added + Left(data, after - ICMP_HEADER_SIZE) == total + Left(data, iter - ICMP_HEADER_SIZE)
    {
      NextLeft(data, iter - ICMP_HEADER_SIZE);
      next := AddTo(sum, total, buf[iter] as int * 256);
      added := total + buf[iter] as int * 256;
      after := iter + 1;
      if after != buf.Length - 1 {
        next := AddTo(next, added, buf[after] as int);
        added := added + buf[after] as int;
        after := after + 1;
      }
    }
  }

  /** What is still to be added from byte `k` on. */
  function Left(data: seq<byte>, k: int): nat {
    if 0 <= k < |data| then Sum(Words(data[k..])) else 0
  }

  lemma NextLeft(data: seq<byte>, k: nat)
    requires k < |data|
    ensures Left(data, k) ==
      if k + 1 < |data| then data[k] as int * 256 + data[k + 1] as int + Left(data, k + 2) else data[k] as int * 256
    ensures Left(data, |data|) == 0
  {
    NextWord(data, k);
    if k + 2 == |data| {
      assert data[k + 2..] == [];
    }
  }

  lemma AddWraps(total: nat, a: nat)
    ensures Add32(total % 0x1_0000_0000, a) == (total + a) % 0x1_0000_0000
  {
  }

  lemma NextWord(data: seq<byte>, k: nat)
    requires k < |data|
    ensures Sum(Words(data[k..])) ==
      if k + 1 < |data| then Word(data[k], data[k + 1]) + Sum(Words(data[k + 2..])) else data[k] as int * 256
    ensures k + 1 == |data| ==> Sum(Words(data[k + 1..])) == 0
  {
    if k + 1 < |data| {
      assert data[k..][2..] == data[k + 2..];
      assert Words(data[k..])[1..] == Words(data[k + 2..]);
    } else {
      assert Words(data[k..])[1..] == [];
    }
  }

  lemma Layout(p: seq<byte>, code: byte, identifier: nat, sequence: nat, content: seq<byte>)
    requires identifier < 0x1_0000 && sequence < 0x1_0000 && |p| == ICMP_HEADER_SIZE + |content| + 1
    requires p[0] == ICMP_ECHO && p[1] == code && p[|p| - 1] == 0
    requires p[4] == identifier % 256 && p[5] == identifier / 256
    requires p[6] == sequence % 256 && p[7] == sequence / 256
    requires forall k :: 0 <= k < |content| ==> p[ICMP_HEADER_SIZE + k] == content[k]
    ensures p[..2] == [ICMP_ECHO, code]
    ensures p[4..] == LE(identifier, 2) + LE(sequence, 2) + content + [0]
  {
    assert LE(identifier, 2) == [identifier % 256, identifier / 256];
    assert LE(sequence, 2) == [sequence % 256, sequence / 256];
  }

  lemma HeaderSum(p: seq<byte>)
    requires |p| > ICMP_HEADER_SIZE
    ensures Sum(Words(p[..2])) == Word(p[0], p[1])
    ensures Sum(Words(p[4..ICMP_HEADER_SIZE])) == Word(p[4], p[5]) + Word(p[6], p[7])
  {
    NextWord(p[..2], 0);
    NextWord(p[4..ICMP_HEADER_SIZE], 0);
    NextWord(p[4..ICMP_HEADER_SIZE], 2);
  }

  /** Up to 131068 bytes of data, at most 65537 words are summed, and they fit 32 bits. */
  lemma NoOverflow(p: seq<byte>)
    requires ICMP_HEADER_SIZE < |p| <= ICMP_HEADER_SIZE + 131068 + 1
    ensures Covered(p) < 0x1_0000_0000
  {
    HeaderSum(p);
    var data := p[ICMP_HEADER_SIZE..|p| - 1];
    WordsFit(data);
    SumBound(Words(data));
  }

  lemma SubSlice(p: seq<byte>, i: nat, j: nat, k: nat)
    requires i + j <= i + k <= |p|
    ensures p[i..][j..k] == p[i + j..i + k]
  {
  }

  function Ones(n: nat): seq<byte> {
    seq(n, _ => 255)
  }

  lemma {:induction false} OnesAddUp(n: nat)
    ensures Sum(Words(Ones(n))) == n / 2 * 0xFFFF + n % 2 * 0xFF00
  {
    if n > 0 {
      NextWord(Ones(n), 0);
      assert Ones(n)[0..] == Ones(n);
      if n > 1 {
        assert Ones(n)[2..] == Ones(n - 2);
        OnesAddUp(n - 2);
      }
    }
  }

  /** One byte more, and the 32-bit sum can overflow. */
  lemma BoundIsTight()
    ensures Covered([ICMP_ECHO] + Ones(7) + Ones(131069) + [0]) >= 0x1_0000_0000
  {
    var p := [ICMP_ECHO] + Ones(7) + Ones(131069) + [0];
    HeaderSum(p);
    assert p[ICMP_HEADER_SIZE..|p| - 1] == Ones(131069);
    OnesAddUp(131069);
  }

  lemma SameCovered(p: seq<byte>, q: seq<byte>)
    requires |p| == |q| > ICMP_HEADER_SIZE && p[..2] == q[..2] && p[4..] == q[4..]
    ensures Covered(p) == Covered(q)
  {
    SubSlice(p, 4, 0, 4);
    SubSlice(q, 4, 0, 4);
    SubSlice(p, 4, 4, |p| - 5);
    SubSlice(q, 4, 4, |p| - 5);
  }

  lemma Complement(covered: nat)
    requires covered > 0
    ensures Reduce(covered + (0xFFFF - Reduce(covered))) == 0xFFFF
  {
    ReduceUnique(covered + (0xFFFF - Reduce(covered)), 0xFFFF);
  }

  lemma FinishWrapped(covered: nat)
    requires covered < 0x1_0000_0000
    ensures Finish(covered % 0x1_0000_0000) == 0xFFFF - Reduce(covered)
  {
    FoldsReduce(covered);
    assert covered % 0x1_0000_0000 == covered;
  }

  /** The whole packet, checksum and trailing zero included, sums to all ones. */
  lemma PacketChecks(before: seq<byte>, p: seq<byte>)
    requires |before| == |p| && ICMP_HEADER_SIZE < |p| <= ICMP_HEADER_SIZE + 131068 + 1 && p[|p| - 1] == 0
    requires p[..2] == before[..2] && p[4..] == before[4..] && p[0] > 0
    ensures Word(p[2], p[3]) == Finish(Covered(before) % 0x1_0000_0000) ==> OnesSum(Words(p)) == 0xFFFF
  {
    SameCovered(p, before);
    NoOverflow(p);
    PlainSum(p);
    HeaderSum(p);
    FinishWrapped(Covered(before));
    Complement(Covered(before));
    WordsFit(p);
    OnesSumIsReduced(Words(p));
  }

  lemma PlainSum(p: seq<byte>)
    requires |p| > ICMP_HEADER_SIZE && p[|p| - 1] == 0
    ensures Sum(Words(p)) == Covered(p) + Word(p[2], p[3])
  {
    TailSum(p);
    HeaderSum(p);
    HeaderWords(p);
  }

  lemma TailSum(p: seq<byte>)
    requires |p| > ICMP_HEADER_SIZE && p[|p| - 1] == 0
    ensures Sum(Words(p[ICMP_HEADER_SIZE..])) == Sum(Words(p[ICMP_HEADER_SIZE..|p| - 1]))
  {
    assert p[ICMP_HEADER_SIZE..] == p[ICMP_HEADER_SIZE..|p| - 1] + [0];
    TrailingZero(p[ICMP_HEADER_SIZE..|p| - 1]);
  }

  /** The words of the header, and those after it. */
  lemma HeaderWords(p: seq<byte>)
    requires |p| > ICMP_HEADER_SIZE
    ensures Sum(Words(p)) == Word(p[0], p[1]) + Word(p[2], p[3]) + Word(p[4], p[5]) + Word(p[6], p[7])
                             + Sum(Words(p[ICMP_HEADER_SIZE..]))
  {
    NextWord(p, 0);
    NextWord(p, 2);
    NextWord(p, 4);
    NextWord(p, 6);
    assert p[0..] == p;
  }

  /** Each word is two bytes, the first the high one; a last odd byte stands for a high one. */
  lemma {:induction false} WordAt(s: seq<byte>, k: nat)
    requires 2 * k < |s|
    ensures k < |Words(s)|
    ensures Words(s)[k] == s[2 * k] as int * 256 + if 2 * k + 1 < |s| then s[2 * k + 1] as int else 0
  {
    if k > 0 {
      WordAt(s[2..], k - 1);
      assert Words(s)[1..] == Words(s[2..]);
    }
  }
}
