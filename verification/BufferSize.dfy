/** The buffer arithmetic of a link, over exact reals: delay in ms, bandwidth in Mbit/s. */
module BufferSize {

  function Ceil(x: real): int {
    -((-x).Floor)
  }

  /** Python's `int` of a float. */
  function Truncate(x: real): int {
    if x >= 0.0 then x.Floor else Ceil(x)
  }

  /** Bytes in flight over one round trip. */
  function BandwidthDelayProduct(delay: real, bandwidth: real): real {
    bandwidth * 125000.0 * (2.0 * delay / 1000.0)
  }

  function PacketsInFlight(delay: real, bandwidth: real): int {
    Ceil(BandwidthDelayProduct(delay, bandwidth) / 1500.0)
  }

  /** The time in ms a full queue takes to drain, at least 1. */
  function QueuingDelay(queueSize: int, bandwidth: real): int
    requires bandwidth != 0.0
  {
    var d := Truncate(queueSize as real * 1500.0 * 8.0 * 1000.0 / (bandwidth * 1024.0 * 1024.0));
    if d >= 1 then d else 1
  }

  function QueueBytes(queueSize: int, bandwidth: real): real
    requires bandwidth != 0.0
  {
    bandwidth * 1000.0 * QueuingDelay(queueSize, bandwidth) as real / 8.0
  }

  function BufferBytes(delay: real, queueSize: int, bandwidth: real): real
    requires bandwidth != 0.0
  {
    1500.0 * PacketsInFlight(delay, bandwidth) as real + QueueBytes(queueSize, bandwidth)
  }

  lemma CeilBounds(x: real)
    ensures x <= Ceil(x) as real < x + 1.0
  {
  }

  lemma CeilMonotone(x: real, y: real)
    requires x <= y
    ensures Ceil(x) <= Ceil(y)
  {
    CeilBounds(x);
    CeilBounds(y);
  }

  lemma ProductMonotone(a: real, x: real, y: real)
    requires a >= 0.0 && x <= y
    ensures a * x <= a * y
  {
  }

  /** The packets in flight are ceil(bandwidth * delay / 6); they cover the round-trip bytes by less than one packet. */
  lemma PacketsCoverRoundTrip(delay: real, bandwidth: real)
    ensures PacketsInFlight(delay, bandwidth) == Ceil(bandwidth * delay / 6.0)
    ensures var bytes := 1500.0 * PacketsInFlight(delay, bandwidth) as real;
            BandwidthDelayProduct(delay, bandwidth) <= bytes < BandwidthDelayProduct(delay, bandwidth) + 1500.0
  {
    assert BandwidthDelayProduct(delay, bandwidth) == bandwidth * delay * 250.0;
    assert BandwidthDelayProduct(delay, bandwidth) / 1500.0 == bandwidth * delay / 6.0;
    CeilBounds(BandwidthDelayProduct(delay, bandwidth) / 1500.0);
  }

  /** The packets in flight grow with the delay and, for delays that are not negative, with the bandwidth. */
  lemma PacketsMonotone(delay: real, delay': real, bandwidth: real, bandwidth': real)
    requires 0.0 <= delay <= delay' && 0.0 <= bandwidth <= bandwidth'
    ensures PacketsInFlight(delay, bandwidth) <= PacketsInFlight(delay', bandwidth')
  {
    PacketsCoverRoundTrip(delay, bandwidth);
    PacketsCoverRoundTrip(delay', bandwidth');
    ProductMonotone(bandwidth, delay, delay');
    ProductMonotone(delay', bandwidth, bandwidth');
    assert bandwidth * delay <= bandwidth' * delay';
    CeilMonotone(bandwidth * delay / 6.0, bandwidth' * delay' / 6.0);
  }

  lemma BufferMonotoneInDelay(delay: real, delay': real, queueSize: int, bandwidth: real)
    requires 0.0 <= delay <= delay' && bandwidth > 0.0
    ensures BufferBytes(delay, queueSize, bandwidth) <= BufferBytes(delay', queueSize, bandwidth)
  {
    PacketsMonotone(delay, delay', bandwidth, bandwidth);
  }

  /** Unless clamped to 1 ms, the queue term lies within 125 * bandwidth bytes below q packets scaled by 10^6 / 2^20,
      so it never exceeds q packets. */
  lemma QueueBytesBounds(queueSize: nat, bandwidth: real)
    requires bandwidth > 0.0
    requires queueSize as real * 12000000.0 >= bandwidth * 1048576.0
    ensures var scaled := queueSize as real * 1500.0 * 1000000.0 / 1048576.0;
            scaled - 125.0 * bandwidth < QueueBytes(queueSize, bandwidth) <= scaled <= queueSize as real * 1500.0
  {
    var q := queueSize as real;
    var x := q * 1500.0 * 8.0 * 1000.0 / (bandwidth * 1024.0 * 1024.0);
    assert q * 1500.0 * 8.0 * 1000.0 == q * 12000000.0;
    assert bandwidth * 1024.0 * 1024.0 == bandwidth * 1048576.0;
    QuotientAtLeastOne(q * 12000000.0, bandwidth * 1048576.0);
    var d := x.Floor;
    assert QueuingDelay(queueSize, bandwidth) == d;
    assert d as real <= x < d as real + 1.0;
    var k := 125.0 * bandwidth;
    DividedByEight(bandwidth, d as real);
    assert QueueBytes(queueSize, bandwidth) == k * d as real;
    var scaled := q * 1500.0 * 1000000.0 / 1048576.0;
    assert k * x == scaled by {
      CancelBandwidth(q * 12000000.0, bandwidth);
    }
    ScaleBetween(k, d as real, x, scaled);
  }

  lemma DividedByEight(b: real, d: real)
    ensures b * 1000.0 * d / 8.0 == 125.0 * b * d
  {
    assert b * 1000.0 * d == 8.0 * (125.0 * b * d);
  }

  lemma QuotientAtLeastOne(a: real, b: real)
    requires b > 0.0 && a >= b
    ensures a / b >= 1.0
  {
  }

  lemma ScaleBetween(k: real, d: real, x: real, scaled: real)
    requires k > 0.0 && d <= x < d + 1.0 && k * x == scaled
    ensures scaled - k < k * d <= scaled
  {
    var e, f := x - d, 1.0 - (x - d);
    assert k * e >= 0.0;
    PositiveProduct(k, f);
    var kf, ke, kx, kd := k * f, k * e, k * x, k * d;
    assert kf == k - ke && kx == kd + ke;
    assert kd > kx - k;
  }

  lemma PositiveProduct(a: real, b: real)
    requires a > 0.0 && b > 0.0
    ensures a * b > 0.0
  {
  }

  lemma CancelBandwidth(a: real, b: real)
    requires b > 0.0
    ensures 125.0 * b * (a / (b * 1048576.0)) == 125.0 * a / 1048576.0
  {
    var y := a / (b * 1048576.0);
    assert y * (b * 1048576.0) == a;
    assert 125.0 * b * y * 1048576.0 == 125.0 * (y * (b * 1048576.0));
  }

  /** A short queue is clamped to 1 ms. */
  lemma ClampedQueueBytes(queueSize: nat, bandwidth: real)
    requires bandwidth > 0.0
    requires queueSize as real * 12000000.0 < bandwidth * 1048576.0
    ensures QueueBytes(queueSize, bandwidth) == 125.0 * bandwidth
  {
    var q := queueSize as real;
    assert q * 1500.0 * 8.0 * 1000.0 == q * 12000000.0;
    assert bandwidth * 1024.0 * 1024.0 == bandwidth * 1048576.0;
    QuotientBelowOne(q * 12000000.0, bandwidth * 1048576.0);
    assert QueuingDelay(queueSize, bandwidth) == 1;
    DividedByEight(bandwidth, 1.0);
  }

  lemma QuotientBelowOne(a: real, b: real)
    requires b > 0.0 && 0.0 <= a < b
    ensures 0.0 <= a / b < 1.0
  {
    var x := a / b;
    assert b * x == a;
    if x >= 1.0 {
      ProductMonotone(b, 1.0, x);
    }
  }

  /** The buffer holds the bytes of one round trip, up to one packet more, and behind them the queue: q packets scaled
      by 10^6 / 2^20 up to 125 * bandwidth bytes less, or what one millisecond carries when that is more. */
  lemma BufferHoldsRoundTripAndQueue(delay: real, queueSize: nat, bandwidth: real)
    requires bandwidth > 0.0
    ensures var bytes := BufferBytes(delay, queueSize, bandwidth);
            var roundTrip := 2.0 * delay * bandwidth * 125.0;
            var scaled := queueSize as real * 1500.0 * 1000000.0 / 1048576.0;
            if queueSize as real * 12000000.0 >= bandwidth * 1048576.0 then
              roundTrip + scaled - 125.0 * bandwidth < bytes < roundTrip + 1500.0 + scaled
            else
              roundTrip + 125.0 * bandwidth <= bytes < roundTrip + 1500.0 + 125.0 * bandwidth
  {
    PacketsCoverRoundTrip(delay, bandwidth);
    assert BandwidthDelayProduct(delay, bandwidth) == 2.0 * delay * bandwidth * 125.0;
    hide PacketsInFlight, QueueBytes, BandwidthDelayProduct;
    if queueSize as real * 12000000.0 >= bandwidth * 1048576.0 {
      QueueBytesBounds(queueSize, bandwidth);
    } else {
      ClampedQueueBytes(queueSize, bandwidth);
    }
  }
}
