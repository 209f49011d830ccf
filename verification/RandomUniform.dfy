/**
  `SystemRandom::uniform` of src/random.cpp: rejection sampling of a 64-bit
  number whose bytes `getrandom` delivers piecemeal.
 */
module RandomUniform {

  import opened LittleEndian

  const MAX64 := 0xFFFF_FFFF_FFFF_FFFF
  const WIDTH := 8

  function RejectionLimit(u: int): int
    requires 0 < u <= MAX64
  {
    MAX64 - MAX64 % u
  }

  // ------------------------------------------------------------ uniformity

  function Below(u: int, bound: int, r: int): set<int>
    requires u > 0
  {
    set s: int | 0 <= s < bound && s % u == r
  }

  lemma ResidueInBlock(u: int, q: nat, r: int, s: int)
    requires 0 <= r < u && q * u <= s < (q + 1) * u
    ensures s % u == r <==> s == q * u + r
  {
    DivideIs(u, q, s);
    assert s == (s / u) * u + s % u;
  }

  lemma DivideIs(u: int, q: nat, s: int)
    requires u > 0 && q * u <= s < (q + 1) * u
    ensures s / u == q
  {
    var d := s / u;
    assert s == d * u + s % u;
    if d > q {
      Scale(q + 1, d, u);
    } else if d < q {
      Scale(d + 1, q, u);
    }
  }

  lemma Scale(a: int, b: int, u: int)
    requires a <= b && u > 0
    ensures a * u <= b * u
  {
  }

  /** A further block of `u` numbers holds one more with the residue. */
  lemma OneBlockMore(u: int, q: nat, low: int, r: int)
    requires 0 <= r < u && low == q * u
    ensures |Below(u, low + u, r)| == |Below(u, low, r)| + 1
  {
    Distribute(q, u);
    forall s | low <= s < low + u
      ensures s % u == r <==> s == low + r
    {
      ResidueInBlock(u, q, r, s);
    }
    Grows(u, low, r);
  }

  lemma Distribute(q: nat, u: int)
    ensures (q + 1) * u == q * u + u
  {
  }

  lemma Grows(u: int, low: int, r: int)
    requires 0 <= r < u && low >= 0
    requires forall s :: low <= s < low + u ==> (s % u == r <==> s == low + r)
    ensures |Below(u, low + u, r)| == |Below(u, low, r)| + 1
  {
    assert low + r !in Below(u, low, r);
    assert Below(u, low + u, r) == Below(u, low, r) + {low + r};
  }

  lemma {:induction false} BlockSize(u: int, q: nat, r: int)
    requires 0 <= r < u
    ensures |Below(u, q * u, r)| == q
  {
    hide Below;
    if q == 0 {
      assert Below(u, 0, r) == {} by { NothingBelowZero(u, r); }
    } else {
      BlockSize(u, q - 1, r);
      OneBlockMore(u, q - 1, (q - 1) * u, r);
      Distribute(q - 1, u);
    }
  }

  lemma NothingBelowZero(u: int, r: int)
    requires u > 0
    ensures Below(u, 0, r) == {}
  {
  }

  /** The accepted samples that yield the residue `r`. */
  function Yielding(u: int, r: int): set<int>
    requires 0 < u <= MAX64
  {
    set s: int | 0 <= s < RejectionLimit(u) && s % u == r
  }

  /** Exactly uniform: every residue comes from equally many accepted samples,
      and the limit is the largest multiple of the bound up to 2^64 - 1. */
  lemma EveryResidueIsEquallyLikely(u: int, r: int)
    requires 0 <= r < u <= MAX64
    ensures |Yielding(u, r)| * u == RejectionLimit(u)
    ensures MAX64 - u < RejectionLimit(u) <= MAX64
  {
    var q := MAX64 / u;
    assert MAX64 == q * u + MAX64 % u;
    assert RejectionLimit(u) == q * u;
    BlockSize(u, q, r);
    assert Yielding(u, r) == Below(u, q * u, r);
  }

  /** At least half of all 2^64 samples are accepted, exactly half only for the
      bound 2^63. */
  lemma AtLeastHalfIsAccepted(u: int)
    requires 0 < u <= MAX64
    ensures 2 * RejectionLimit(u) >= MAX64 + 1
    ensures 2 * RejectionLimit(u) == MAX64 + 1 <==> u == 0x8000_0000_0000_0000
  {
    if u > 0x8000_0000_0000_0000 {
      DivideIs(u, 1, MAX64);
      assert MAX64 == (MAX64 / u) * u + MAX64 % u;
    } else if u == 0x8000_0000_0000_0000 {
      assert RejectionLimit(0x8000_0000_0000_0000) == 0x8000_0000_0000_0000;
    } else {
      assert 0 <= MAX64 % u < u;
    }
  }

  // ------------------------------------------------------------- the draw

  /** What one `getrandom` call does; it delivers at most what was asked for. */
  datatype Call = Received(count: nat) | Interrupted | Failed

  datatype Outcome = Drawn(value: int) | InvalidArgument | SystemError | NoBytes | Blocked

  function Taken(stream: nat -> Byte, from: nat, n: nat): (bytes: seq<Byte>)
    ensures |bytes| == n
  {
    seq(n, i requires 0 <= i => stream(from + i))
  }

  /** The k-th sample: bytes 8k to 8k+7 of the source, in memory order. */
  function Sample(stream: nat -> Byte, k: nat): nat {
    Value(Taken(stream, WIDTH * k, WIDTH))
  }

  predicate Accepted(u: int, stream: nat -> Byte, k: nat)
    requires 0 < u <= MAX64
  {
    Sample(stream, k) < RejectionLimit(u)
  }

  predicate FirstAccepted(u: int, stream: nat -> Byte, k: nat)
    requires 0 < u <= MAX64
  {
    Accepted(u, stream, k) && forall j: nat :: j < k ==> !Accepted(u, stream, j)
  }

  predicate Harmless(call: Call) { call.Interrupted? || (call.Received? && call.count > 0) }

  /** The calls before `m` are harmless, and `m` is the first that is not, if any. */
  ghost predicate HarmlessUntil(calls: seq<Call>, m: nat) {
    && m <= |calls| && (forall j :: 0 <= j < m ==> Harmless(calls[j]))
    && (m < |calls| ==> !Harmless(calls[m]))
  }

  /** Whole samples delivered, and bytes of the next one. */
  datatype Progress = Progress(samples: nat, offset: nat)

  function Fetch(p: Progress, call: Call): Progress
    requires p.offset < WIDTH
  {
    if !call.Received? then p
    else if p.offset + call.count < WIDTH then p.(offset := p.offset + call.count)
    else Progress(p.samples + 1, 0)
  }

  /** What these calls deliver; a call delivers at most the rest of a sample. */
  function Fetched(calls: seq<Call>): (p: Progress)
    ensures p.offset < WIDTH
  {
    if calls == [] then Progress(0, 0) else Fetch(Fetched(calls[..|calls| - 1]), calls[|calls| - 1])
  }

  lemma FetchedOneMore(calls: seq<Call>, n: nat)
    requires n < |calls|
    ensures Fetched(calls[..n + 1]) == Fetch(Fetched(calls[..n]), calls[n])
  {
    assert calls[..n + 1][..n] == calls[..n];
  }

  lemma {:induction false} FetchedGrows(calls: seq<Call>, m: nat, n: nat)
    requires m <= n <= |calls|
    ensures Fetched(calls[..m]).samples <= Fetched(calls[..n]).samples
    decreases n - m
  {
    hide Fetched;
    if m < n {
      FetchedGrows(calls, m, n - 1);
      FetchedOneMore(calls, n - 1);
    }
  }

  /** One of the first `n` samples is accepted. */
  ghost predicate AnyAccepted(u: int, stream: nat -> Byte, n: nat)
    requires 0 < u <= MAX64
  {
    exists k: nat :: k < n && Accepted(u, stream, k)
  }

  /** The draw depends on the bytes alone, not on how the calls deliver or
      interrupt them: it is the first accepted sample, reduced, and there is one
      exactly when the calls deliver one before the first bad call.  `calls` is
      what the kernel does; the draw is still blocked when it runs out. */
  method Uniform(u: int, stream: nat -> Byte, calls: seq<Call>) returns (outcome: Outcome, used: nat)
    requires 0 <= u <= MAX64
    ensures outcome == InvalidArgument <==> u == 0
    ensures outcome.Drawn? ==>
              exists k: nat :: FirstAccepted(u, stream, k) && outcome.value == Sample(stream, k) % u && used == WIDTH * (k + 1)
    ensures outcome.Drawn? ==> 0 <= outcome.value < u
    ensures forall m: nat :: u > 0 && HarmlessUntil(calls, m) ==>
              && (outcome.Drawn? <==> AnyAccepted(u, stream, Fetched(calls[..m]).samples))
              && (outcome.Blocked? ==> m == |calls| && used == WIDTH * Fetched(calls).samples + Fetched(calls).offset)
              && (outcome.SystemError? ==> m < |calls| && calls[m] == Failed)
              && (outcome.NoBytes? ==> m < |calls| && calls[m] == Received(0))
  {
    hide Sample, RejectionLimit, Fetched;
    used := 0;
    if u == 0 {
      return InvalidArgument, used;
    }
    var next, k := 0, 0;
    NothingFetched();
    assert calls[..0] == [] && calls[..|calls|] == calls;
    while true
      invariant next <= |calls| && used == WIDTH * k && Fetched(calls[..next]) == Progress(k, 0)
      invariant forall j :: 0 <= j < next ==> Harmless(calls[j])
      invariant forall j: nat :: j < k ==> !Accepted(u, stream, j)
      decreases |calls| - next
    {
      ghost var start := next;
      var sample := new Byte[WIDTH](_ => 0);
      var offset := 0;
      while offset < WIDTH
        invariant 0 <= offset <= WIDTH && start <= next <= |calls| && fresh(sample)
        invariant offset > 0 ==> start < next
        invariant used == WIDTH * k + offset
        invariant forall i :: 0 <= i < offset ==> sample[i] == stream(WIDTH * k + i)
        invariant forall j :: 0 <= j < next ==> Harmless(calls[j])
        invariant Fetched(calls[..next]) == if offset < WIDTH then Progress(k, offset) else Progress(k + 1, 0)
        decreases |calls| - next
      {
        if next == |calls| {
          return Blocked, used;
        }
        FetchedOneMore(calls, next);
        var call := calls[next];
        next := next + 1;
        match call {
          case Interrupted =>
          case Failed =>
            return SystemError, used;
          case Received(count) =>
            if count == 0 {
              return NoBytes, used;
            }
            var received := if count <= WIDTH - offset then count else WIDTH - offset;
            for i := 0 to received
              invariant forall j :: 0 <= j < offset + i ==> sample[j] == stream(WIDTH * k + j)
            {
              sample[offset + i] := stream(used + i);
            }
            offset, used := offset + received, used + received;
        }
      }
      assert sample[..] == Taken(stream, WIDTH * k, WIDTH);
      var value := Value(sample[..]);
      SampleIs(stream, k);
      if value < RejectionLimit(u) {
        assert FirstAccepted(u, stream, k);
        forall m: nat | HarmlessUntil(calls, m)
          ensures AnyAccepted(u, stream, Fetched(calls[..m]).samples)
        {
          FetchedGrows(calls, next, m);
        }
        return Drawn(value % u), used;
      }
      k := k + 1;
    }
  }

  lemma NothingFetched()
    ensures Fetched([]) == Progress(0, 0)
  {
  }

  function Receipts(calls: seq<Call>): nat {
    if calls == [] then 0
    else Receipts(calls[..|calls| - 1]) + (if calls[|calls| - 1].Received? then 1 else 0)
  }

  /** Harmless calls deliver a sample at least every eight receipts. */
  lemma {:induction false} ReceiptsDeliver(calls: seq<Call>)
    requires forall j :: 0 <= j < |calls| ==> Harmless(calls[j])
    ensures WIDTH * Fetched(calls).samples + Fetched(calls).offset >= Receipts(calls)
  {
    if calls != [] {
      ReceiptsDeliver(calls[..|calls| - 1]);
    }
  }

  /** So an accepted sample `k` is reached once 8(k + 1) receipts have come. */
  lemma AcceptedIsReached(u: int, stream: nat -> Byte, calls: seq<Call>, k: nat)
    requires 0 < u <= MAX64 && Accepted(u, stream, k)
    requires HarmlessUntil(calls, |calls|) && Receipts(calls) >= WIDTH * (k + 1)
    ensures AnyAccepted(u, stream, Fetched(calls).samples)
  {
    hide Sample, RejectionLimit;
    ReceiptsDeliver(calls);
  }

  /** Every list of calls has a first bad one, or none. */
  lemma {:induction false} FirstBad(calls: seq<Call>) returns (m: nat)
    ensures HarmlessUntil(calls, m)
  {
    if calls == [] {
      m := 0;
    } else {
      m := FirstBad(calls[..|calls| - 1]);
    }
    if m == |calls| - 1 && Harmless(calls[m]) {
      m := |calls|;
    }
  }

  lemma SampleIs(stream: nat -> Byte, k: nat)
    ensures Sample(stream, k) == Value(Taken(stream, WIDTH * k, WIDTH))
  {
  }
}
