/** The sharded room index: the shard function, the shards as one flat index, and the manager itself. */
module RoomShards {

  /** A UUID is sixteen bytes. */
  type Uuid = b: seq<bv8> | |b| == 16 witness [0, 0, 0, 0, 0, 0, 0, 0, 0, 0, 0, 0, 0, 0, 0, 0]

  datatype Conn = Conn(id: Uuid, handle: int)

  const SHARD_COUNT := 256

  /** The most significant byte comes first. */
  function BigEndian64(b: seq<bv8>): bv64 {
    if b == [] then 0 else (BigEndian64(b[..|b| - 1]) << 8) | (b[|b| - 1] as bv64)
  }

  /** XOR-folds the two halves of the channel id and masks the result. */
  function ShardWord(channel: Uuid): (w: bv64)
    ensures w < 256
  {
    var hi := BigEndian64(channel[0..8]);
    var lo := BigEndian64(channel[8..16]);
    (hi ^ lo) & 255
  }

  function ShardIndex(channel: Uuid): (i: nat)
    ensures i < SHARD_COUNT
  {
    (ShardWord(channel) as bv8) as int
  }

  /** Only the last byte of each half decides, so a time-ordered prefix does not. */
  lemma ShardIndexIsByteXor(channel: Uuid)
    ensures ShardIndex(channel) == (channel[7] ^ channel[15]) as int
  {
    ShardWordIsByteXor(channel);
  }

  lemma ShardWordIsByteXor(channel: Uuid)
    ensures ShardWord(channel) == (channel[7] ^ channel[15]) as bv64
  {
    var high, low := channel[0..8], channel[8..16];
    assert high[7] == channel[7] && low[7] == channel[15];
    FoldedLowBytes(high, low);
  }

  lemma FoldedLowBytes(high: seq<bv8>, low: seq<bv8>)
    requires |high| == |low| == 8
    ensures (BigEndian64(high) ^ BigEndian64(low)) & 255 == (high[7] ^ low[7]) as bv64
  {
    var hi := LowByte(high);
    var lo := LowByte(low);
    MaskXor(hi, lo, high[7], low[7]);
  }

  lemma LowByte(b: seq<bv8>) returns (w: bv64)
    requires |b| > 0
    ensures w == BigEndian64(b)
    ensures w & 255 == b[|b| - 1] as bv64
  {
    w := BigEndian64(b);
    ShiftedLowByte(BigEndian64(b[..|b| - 1]), b[|b| - 1]);
  }

  lemma ShiftedLowByte(high: bv64, low: bv8)
    ensures ((high << 8) | (low as bv64)) & 255 == low as bv64
  {
  }

  lemma MaskXor(hi: bv64, lo: bv64, h: bv8, l: bv8)
    requires hi & 255 == h as bv64 && lo & 255 == l as bv64
    ensures (hi ^ lo) & 255 == (h ^ l) as bv64
  {
  }

  /** Every shard is used: with any bytes elsewhere, the last byte alone reaches each of the 256. */
  lemma EveryShardIsReachable(channel: Uuid, last: bv8)
    ensures ShardIndex(channel[..15] + [last ^ channel[7]]) == last as int
  {
    var other: Uuid := channel[..15] + [last ^ channel[7]];
    ShardIndexIsByteXor(other);
    assert other[7] == channel[7] && other[15] == last ^ channel[7];
    assert channel[7] ^ (last ^ channel[7]) == last;
  }
}
