/** How a payload is laid out as stripes and as the D+P shard files of a part
    (crates/openlake_storage/src/engine.rs, `put_ec` and `open_ec_part_stream`). */
module StripeLayout {
  import opened Bytes
  import opened ErasureCode

  /** `size.div_ceil(stripe_data).max(1)`: one stripe, and one more for every
      further started `stripeData` bytes. */
  function NumStripes(size: nat, stripeData: nat): nat
    requires stripeData > 0
  {
    if size <= stripeData then 1 else 1 + NumStripes(size - stripeData, stripeData)
  }

  /** The stripe count is the least positive number of stripes that hold `size` bytes. */
  lemma {:induction false} NumStripesIsCeiling(size: nat, stripeData: nat)
    requires stripeData > 0
    ensures size <= NumStripes(size, stripeData) * stripeData
    ensures NumStripes(size, stripeData) > 1 ==> (NumStripes(size, stripeData) - 1) * stripeData < size
  {
    if size > stripeData {
      NumStripesIsCeiling(size - stripeData, stripeData);
      var k := NumStripes(size - stripeData, stripeData);
      assert (1 + k) * stripeData == stripeData + k * stripeData;
      if k > 1 {
        assert k * stripeData == stripeData + (k - 1) * stripeData;
      }
    }
  }

  lemma MulAtLeast(b: nat, k: nat)
    requires k >= 1
    ensures b * k >= b
  {
    assert b * k == b + b * (k - 1);
  }

  lemma MulUnique(d: nat, u: nat, q: nat, r: nat)
    requires r < d && d * u == d * q + r
    ensures u == q
  {
    if u > q {
      MulAtLeast(d, u - q);
    } else if q > u {
      MulAtLeast(d, q - u);
    }
  }

  /** Exact division: the quotient of a product is its other factor. */
  lemma MulDiv(d: nat, u: nat)
    requires d > 0
    ensures (d * u) / d == u && (d * u) % d == 0
  {
    MulUnique(d, u, (d * u) / d, (d * u) % d);
  }

  /** The tail of a payload filled up with zero bytes to a whole stripe. */
  function Padded(tail: Bytes, stripeData: nat): (stripe: Bytes)
    requires |tail| <= stripeData
    ensures |stripe| == stripeData && tail <= stripe
  {
    tail + Zeros(stripeData - |tail|)
  }

  /** The next stripe of what is left of a payload. */
  function HeadStripe(rest: Bytes, stripeData: nat): (stripe: Bytes)
    ensures |stripe| == stripeData
  {
    if |rest| <= stripeData then Padded(rest, stripeData) else rest[..stripeData]
  }

  /** Contents of shard file `i` of a part holding `payload`: the i-th shard of
      every stripe, one `unit` after the other. */
  ghost function ShardFile(c: Code, payload: Bytes, unit: nat, i: nat): Bytes
    requires ParityShape(c) && unit > 0 && i < c.Total()
    decreases |payload|
  {
    var stripeData := c.dataShards * unit;
    EncodedShape(c, HeadStripe(payload, stripeData), unit);
    var shard := Encoded(c, HeadStripe(payload, stripeData), unit)[i];
    StripePositive(c.dataShards, unit);
    if |payload| <= stripeData then shard
    else shard + ShardFile(c, payload[stripeData..], unit, i)
  }

  lemma StripePositive(d: nat, unit: nat)
    requires d > 0 && unit > 0
    ensures d * unit >= unit > 0
  {
    assert d * unit == unit + (d - 1) * unit;
  }

  /** Every shard file of a part has exactly stripes * unit bytes. */
  lemma {:induction false} ShardFileLength(c: Code, payload: Bytes, unit: nat, i: nat)
    requires ParityShape(c) && unit > 0 && i < c.Total()
    ensures c.dataShards * unit > 0
    ensures |ShardFile(c, payload, unit, i)| == NumStripes(|payload|, c.dataShards * unit) * unit
    decreases |payload|
  {
    var stripeData := c.dataShards * unit;
    StripePositive(c.dataShards, unit);
    EncodedShape(c, HeadStripe(payload, stripeData), unit);
    if |payload| > stripeData {
      ShardFileLength(c, payload[stripeData..], unit, i);
      var k := NumStripes(|payload| - stripeData, stripeData);
      assert (1 + k) * unit == unit + k * unit;
    }
  }

  /** Past the first stripe, a shard file is the file of the payload past it. */
  lemma ShardFileTail(c: Code, payload: Bytes, unit: nat, i: nat)
    requires ParityShape(c) && unit > 0 && i < c.Total()
    requires |payload| > c.dataShards * unit
    ensures unit <= |ShardFile(c, payload, unit, i)|
    ensures ShardFile(c, payload, unit, i)[unit..] == ShardFile(c, payload[c.dataShards * unit..], unit, i)
  {
    EncodedShape(c, HeadStripe(payload, c.dataShards * unit), unit);
  }

  lemma SplitSlice(s: Bytes, a: nat, b: nat)
    requires a + b <= |s|
    ensures s[a..][b..] == s[a + b..]
  {
  }

  /** Seeking: skipping s stripes of the payload skips s units of every shard
      file and leaves exactly the files of the remaining payload. */
  lemma {:induction false} SeekStripes(c: Code, payload: Bytes, unit: nat, stripeData: nat, i: nat, s: nat)
    requires ParityShape(c) && unit > 0 && i < c.Total()
    requires stripeData == c.dataShards * unit
    requires s == 0 || s * stripeData < |payload|
    ensures s * stripeData <= |payload|
    ensures s * unit <= |ShardFile(c, payload, unit, i)|
    ensures ShardFile(c, payload, unit, i)[s * unit..] == ShardFile(c, payload[s * stripeData..], unit, i)
    decreases s
  {
    var file := ShardFile(c, payload, unit, i);
    if s == 0 {
      assert payload[0..] == payload && file[0..] == file;
    } else {
      MulStep(s, stripeData);
      MulStep(s, unit);
      SeekStripes(c, payload[stripeData..], unit, stripeData, i, s - 1);
      ShardFileTail(c, payload, unit, i);
      SplitSlice(payload, stripeData, (s - 1) * stripeData);
      SplitSlice(file, unit, (s - 1) * unit);
    }
  }

  lemma MulStep(s: nat, k: nat)
    requires s > 0
    ensures s * k == k + (s - 1) * k && (s - 1) * k >= 0
  {
  }

  /** After seeking s stripes, the remaining stripe count is the whole count less s. */
  lemma {:induction false} SeekCount(size: nat, stripeData: nat, s: nat)
    requires stripeData > 0 && (s == 0 || s * stripeData < size)
    ensures s * stripeData <= size
    ensures NumStripes(size, stripeData) == s + NumStripes(size - s * stripeData, stripeData)
    decreases s
  {
    if s > 0 {
      MulStep(s, stripeData);
      SeekCount(size - stripeData, stripeData, s - 1);
    }
  }
}
