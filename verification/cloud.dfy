/** The bandwidth units and the completion-marker name of pkg/snappy/cloud.go, and Go's
    64-bit `int`, in which those units are multiplied. */
module Cloud {

  const BytesPerSecond: int := 1
  /** Kilobits per second, in bytes per second. */
  const Kbps: int := BytesPerSecond * (1024 / 8)
  /** Megabits per second, in bytes per second. */
  const Mbps: int := Kbps * 1024
  /** Gigabits per second, in bytes per second. */
  const Gbps: int := Mbps * 1024
  /** math.MaxInt64. */
  const Unlimited: int := 0x7FFF_FFFF_FFFF_FFFF

  /** Name of the empty object that marks a snapshot as completely uploaded. */
  const SnapshotCompleted: string := "SNAPSHOT_COMPLETED"

  const TwoTo63: int := 0x8000_0000_0000_0000
  const TwoTo64: int := 0x1_0000_0000_0000_0000

  /** The cloud configuration: provider name, region, bucket and throttle in megabits per second. */
  datatype CloudConfig = CloudConfig(provider: string, region: string, bucket: string, throttle: int)

  lemma BandwidthUnits()
    ensures Kbps == 128 && Mbps == 1024 * Kbps && Gbps == 1024 * Mbps
    ensures Mbps == 131072 && Gbps == 134217728
    ensures Gbps < Unlimited && Unlimited == TwoTo63 - 1
  {
  }

  /** Go's two's-complement `int` arithmetic: the 64-bit value congruent to `x`. */
  function WrapInt64(x: int): (r: int)
    ensures -TwoTo63 <= r < TwoTo63
    ensures (x - r) % TwoTo64 == 0
    ensures -TwoTo63 <= x < TwoTo63 ==> r == x
  {
    (x + TwoTo63) % TwoTo64 - TwoTo63
  }
}
