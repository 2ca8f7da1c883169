/** Congestion and recovery parameters (section 7.2 of RFC 9177). Durations are nanoseconds in
    64-bit integers, so every derived timer has to be shown to fit. */
module Config {
  import opened Base

  const SECOND: int := 1_000_000_000
  const HOUR: int := 3600 * SECOND

  datatype Params = Params(maxPayloads: int, nonTimeout: int, nonReceiveTimeout: int, nonMaxRetransmit: int, maxLatency: int)

  const ZERO := Params(0, 0, 0, 0, 0)
  const DEFAULTS := Params(10, 2 * SECOND, 4 * SECOND, 4, 100 * SECOND)

  datatype Invalid = MaxPayloads | NonTimeout | NonMaxRetransmit | MaxLatency | NonReceiveTimeout

  function Pow2(n: nat): (p: int)
    ensures 1 <= p
  {
    if n == 0 then 1 else 2 * Pow2(n - 1)
  }

  /** A left shift, without the width of the machine word. */
  function Shifted(x: int, n: nat): int {
    x * Pow2(n)
  }

  function Resolve(given: Params): (r: Result<Params, Invalid>) {
    var c := if given == ZERO then DEFAULTS else given;
    if c.maxPayloads < 1 || c.maxPayloads > 256 then Err(MaxPayloads)
    else if c.nonTimeout <= 0 || c.nonTimeout > HOUR then Err(NonTimeout)
    else if c.nonMaxRetransmit < 0 || c.nonMaxRetransmit > 20 then Err(NonMaxRetransmit)
    else if c.maxLatency <= 0 || c.maxLatency > 24 * HOUR then Err(MaxLatency)
    else if c.nonReceiveTimeout < c.nonTimeout + c.nonTimeout / 2 + SECOND
            || c.nonReceiveTimeout > MAX_INT64 / Pow2(c.nonMaxRetransmit) - SECOND then Err(NonReceiveTimeout)
    else Ok(c)
  }

  ghost predicate Resolved(c: Params) {
    exists given :: Resolve(given) == Ok(c)
  }

  function Span(c: Params): int
    requires 0 <= c.nonMaxRetransmit
  {
    c.nonTimeout * (Shifted(1, c.nonMaxRetransmit) - 1)
  }

  function NonPartialTimeout(c: Params): int
    requires 0 <= c.nonMaxRetransmit
  {
    Span(c) + Span(c) / 2 + 2 * c.maxLatency + c.nonTimeout
  }

  function NonProbingWait(c: Params, delay: int): int
    requires 0 <= c.nonMaxRetransmit
  {
    NonPartialTimeout(c) - c.nonTimeout + delay
  }

  predicate Fits(d: int) {
    0 <= d <= MAX_INT64
  }

  lemma {:induction false} Pow2Mono(m: nat, n: nat)
    requires m <= n
    ensures Pow2(m) <= Pow2(n)
  {
    if m < n {
      Pow2Mono(m, n - 1);
    }
  }

  /** What `Resolve` accepts, resolving once more changes nothing, and the receive timeout is
      accepted exactly when the longest backoff, with its second of slack, fits in 64 bits. */
  lemma ResolveIsExact(c: Params)
    ensures Resolve(c).Ok? ==> Resolve(Resolve(c).value) == Resolve(c) && Resolve(c).value != ZERO
    ensures Resolved(c) <==>
            && 1 <= c.maxPayloads <= 256 && 0 < c.nonTimeout <= HOUR && 0 <= c.nonMaxRetransmit <= 20
            && 0 < c.maxLatency <= 24 * HOUR && c.nonTimeout + c.nonTimeout / 2 + SECOND <= c.nonReceiveTimeout
            && Fits(Shifted(c.nonReceiveTimeout + SECOND, c.nonMaxRetransmit))
  {
    if 0 <= c.nonMaxRetransmit {
      ShiftFits(c.nonReceiveTimeout + SECOND, c.nonMaxRetransmit);
      if 0 <= c.nonReceiveTimeout {
        MulMono(0, c.nonReceiveTimeout + SECOND, Pow2(c.nonMaxRetransmit));
      }
    }
    DefaultsAreResolved();
    if Resolved(c) {
      var given :| Resolve(given) == Ok(c);
    } else {
      assert Resolve(c) != Ok(c);
    }
  }

  lemma DefaultsAreResolved()
    ensures Resolve(ZERO) == Ok(DEFAULTS) && Resolve(DEFAULTS) == Ok(DEFAULTS)
  {
    assert Pow2(4) == 16 by {
      assert Pow2(2) == 4;
    }
  }

  /** Comparing with the shifted-down maximum is the exact overflow test of the shift. */
  lemma ShiftFits(x: int, n: nat)
    ensures x <= MAX_INT64 / Pow2(n) <==> Shifted(x, n) <= MAX_INT64
  {
    var p := Pow2(n);
    DivBounds(MAX_INT64, p);
    if x <= MAX_INT64 / p {
      MulMono(x, MAX_INT64 / p, p);
    } else {
      MulMono(MAX_INT64 / p + 1, x, p);
    }
  }

  lemma Pow2At20()
    ensures Pow2(20) == 0x100000
  {
    assert Pow2(4) == 16 by { assert Pow2(2) == 4; }
    assert Pow2(8) == 256 by { assert Pow2(6) == 64; }
    assert Pow2(12) == 4096 by { assert Pow2(10) == 1024; }
    assert Pow2(16) == 65536 by { assert Pow2(14) == 16384; }
    assert Pow2(18) == 0x40000;
  }

  lemma ProductBound(x: int, y: int, maxX: int, maxY: int)
    requires 0 <= x <= maxX && 0 <= y <= maxY
    ensures 0 <= x * y <= maxX * maxY
  {
    MulMono(0, x, y);
    MulMono(x, maxX, y);
    MulMono(y, maxY, maxX);
  }

  /** Every accepted configuration yields timers, and intermediate products, that fit. */
  lemma TimersFit(c: Params, delay: int)
    requires Resolved(c)
    requires c.nonTimeout <= delay <= c.nonTimeout + c.nonTimeout / 2
    ensures Fits(Span(c)) && Fits(Span(c) + Span(c) / 2)
    ensures Fits(NonPartialTimeout(c)) && Fits(NonProbingWait(c, delay))
    ensures c.nonTimeout <= NonPartialTimeout(c) && delay <= NonProbingWait(c, delay)
  {
    hide Pow2, Resolve, Resolved;
    ResolveIsExact(c);
    Pow2Mono(c.nonMaxRetransmit, 20);
    Pow2At20();
    ProductBound(c.nonTimeout, Shifted(1, c.nonMaxRetransmit) - 1, HOUR, 0xfffff);
  }

  /** Backoff of a receiver, and the sender's with its extra second: they fit for as many
      retries as the configuration allows. */
  lemma BackoffFits(c: Params, retries: nat)
    requires Resolved(c) && retries <= c.nonMaxRetransmit
    ensures Fits(Shifted(c.nonReceiveTimeout, retries))
    ensures Fits(Shifted(c.nonReceiveTimeout + SECOND, retries))
  {
    hide Pow2, Resolve, Resolved;
    ResolveIsExact(c);
    Pow2Mono(retries, c.nonMaxRetransmit);
    var longest := c.nonReceiveTimeout + SECOND;
    ProductBound(c.nonReceiveTimeout, Pow2(retries), longest, Pow2(c.nonMaxRetransmit));
    ProductBound(longest, Pow2(retries), longest, Pow2(c.nonMaxRetransmit));
  }

  function Total(waits: seq<int>): int {
    if waits == [] then 0 else Total(waits[..|waits| - 1]) + waits[|waits| - 1]
  }

  /** Waits of a sender that doubles its timeout with every retransmission and stretches each by
      half at most, the random factor of section 7.2 of RFC 9177. */
  ghost predicate Retransmissions(c: Params, waits: seq<int>) {
    forall i :: 0 <= i < |waits| ==> 0 <= 2 * waits[i] <= 3 * Shifted(c.nonTimeout, i)
  }

  lemma {:induction false} WaitsAddUp(c: Params, waits: seq<int>)
    requires Retransmissions(c, waits)
    ensures 2 * Total(waits) <= 3 * (c.nonTimeout * (Pow2(|waits|) - 1))
    ensures (forall i :: 0 <= i < |waits| ==> 2 * waits[i] == 3 * Shifted(c.nonTimeout, i)) ==>
            2 * Total(waits) == 3 * (c.nonTimeout * (Pow2(|waits|) - 1))
    decreases |waits|
  {
    if waits != [] {
      var n := |waits| - 1;
      WaitsAddUp(c, waits[..n]);
      Doubled(c.nonTimeout, Pow2(n));
    }
  }

  lemma Doubled(x: int, p: int)
    ensures x * (2 * p - 1) == x * (p - 1) + x * p
  {
  }

  /** What the partial lifetime is for: it outlasts every schedule of retransmissions, the way there
      and back, and one more timeout, and no shorter one would. */
  lemma PartialOutlastsRetries(c: Params, waits: seq<int>)
    requires 0 <= c.nonMaxRetransmit && Retransmissions(c, waits) && |waits| == c.nonMaxRetransmit
    ensures Total(waits) + 2 * c.maxLatency + c.nonTimeout <= NonPartialTimeout(c)
    ensures (forall i :: 0 <= i < |waits| ==> 2 * waits[i] == 3 * Shifted(c.nonTimeout, i)) ==>
            Total(waits) + 2 * c.maxLatency + c.nonTimeout == NonPartialTimeout(c)
    ensures NonProbingWait(c, c.nonTimeout) == NonPartialTimeout(c)
  {
    hide Pow2, Total;
    WaitsAddUp(c, waits);
    Floor(Span(c), Total(waits));
  }

  lemma Floor(span: int, total: int)
    ensures 2 * total <= 3 * span ==> total <= span + span / 2
    ensures 2 * total == 3 * span ==> total == span + span / 2
  {
  }
}
