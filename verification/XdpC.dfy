/** The current C source of xdp_drop_prog: an array loop, a call of bpf_loop, a decision. */
module XdpC {
  import opened Word
  import opened Isa
  import opened BpfLoop

  const SIZE: nat := 1024

  type U16 = x: int | 0 <= x < 0x1_0000

  /** The sum of the first n elements i + h. */
  function SumTo(n: nat, h: U16): int {
    if n == 0 then 0 else SumTo(n - 1, h) + (n - 1) + h
  }

  lemma {:induction false} SumIs(n: nat, h: U16)
    ensures 2 * SumTo(n, h) == n * (n - 1) + 2 * n * h
  {
    if n > 0 {
      SumIs(n - 1, h);
      assert n * (n - 1) == (n - 1) * (n - 2) + 2 * (n - 1);
      assert 2 * n * h == 2 * (n - 1) * h + 2 * h;
    }
  }

  lemma {:induction false} SumMonotone(n: nat, m: nat, h: U16)
    requires n <= m
    ensures 0 <= SumTo(n, h) <= SumTo(m, h)
    decreases m
  {
    if n < m {
      SumMonotone(n, m - 1, h);
    } else if n > 0 {
      SumMonotone(n - 1, n - 1, h);
    }
  }

  /** The loop over arr; h is whatever the unset h_proto holds. Every
      assignment to a CInt is checked to fit, so no sum overflows. */
  method FillAndSum(arr: array<CInt>, h: U16) returns (sum: CInt)
    requires arr.Length == 1024
    modifies arr
    ensures forall i :: 0 <= i < 1024 ==> arr[i] == i + h
    ensures sum == 523_776 + 1024 * h
  {
    sum := 0;
    SumIs(SIZE, h);
    var i := 0;
    while i < SIZE
      invariant 0 <= i <= SIZE && sum == SumTo(i, h)
      invariant forall j :: 0 <= j < i ==> arr[j] == j + h
    {
      arr[i] := i + h;
      SumMonotone(i + 1, SIZE, h);
      sum := sum + arr[i];
      i := i + 1;
    }
  }

  datatype Message = ProtoIs(index: nat) | Ipv4AndSum(sum: CInt)

  /** The callback of this program prints each index, and never stops. */
  const PRINTER: Callback<seq<Message>> := (i, log) => (0, log + [ProtoIs(i)])

  /** The 16-bit value htons(0x0800) as a little-endian machine holds it. */
  const IPV4: nat := 8

  /** The program: 100,000,000 loops are more than bpf_loop accepts, so it makes no call at
      all; and the second return is not part of the if before it, so the last one is never
      reached. */
  method XdpDropProg(packet: seq<Byte>, unset: U16) returns (verdict: int, log: seq<Message>)
    ensures verdict == if |packet| < 14 then 1 else 2
    ensures log == if |packet| >= 14 && packet[12] == 8 && packet[13] == 0 then [Ipv4AndSum(523_776 + 1024 * unset)] else []
  {
    log := [];
    var arr := new CInt[SIZE](i => if i == 0 then 1 else 0);
    var sum := FillAndSum(arr, unset);
    if 14 > |packet| {
      return XDP_DROP, log;
    }
    var low: nat, high: nat := packet[12], packet[13];
    var hProto := low + 256 * high;
    var made;
    made, log := Loop(100_000_000, PRINTER, log, 0);
    if hProto == IPV4 {
      log := log + [Ipv4AndSum(sum)];
    }
    return XDP_PASS, log;
  }
}
