/**
 * The colour table: one mean colour per texture, from the texture's
 * downsampled raster, a flat buffer of interleaved red, green and blue
 * bytes. Fetching the raster is done by the texture decoder; here each
 * texture comes with its raster, or with `None` when it cannot be read.
 */
module Colors {
  import opened Wrappers

  type Byte = x: int | 0 <= x < 256

  datatype Rgb = Rgb(r: Byte, g: Byte, b: Byte)

  /** The fill used for a texture that has no entry in the table. */
  const White: Rgb := Rgb(255, 255, 255)

  /** The texture at this position of the level's texture list could not be read. */
  datatype FetchError = TextureFetchError(texture: nat)

  /** The value of channel `c` (0 red, 1 green, 2 blue) of `color`. */
  function Channel(color: Rgb, c: nat): Byte
    requires c < 3
  {
    if c == 0 then color.r else if c == 1 then color.g else color.b
  }

  /** Sum of channel `c` over the first `n` texels of `data`. */
  function ChannelSum(data: seq<Byte>, c: nat, n: nat): int
    requires c < 3 && 3 * n <= |data|
  {
    if n == 0 then 0 else ChannelSum(data, c, n - 1) + data[3 * (n - 1) + c]
  }

  /**
   * The channel's mean as the source computes it, `(sum / (len / 3.0)) as u32`,
   * in exact arithmetic: the sum over the whole texels divided by a third of
   * the buffer's length, truncated. An empty buffer divides by zero; the
   * resulting NaN is cast to 0.
   */
  function MeanChannel(data: seq<Byte>, c: nat): int
    requires c < 3
  {
    if |data| == 0 then 0 else (3 * ChannelSum(data, c, |data| / 3)) / |data|
  }

  lemma {:induction false} ChannelSumRange(data: seq<Byte>, c: nat, n: nat)
    requires c < 3 && 3 * n <= |data|
    ensures 0 <= ChannelSum(data, c, n) <= 255 * n
  {
    if n > 0 {
      ChannelSumRange(data, c, n - 1);
    }
  }

  /** Every mean channel is a byte. */
  lemma MeanChannelRange(data: seq<Byte>, c: nat)
    requires c < 3
    ensures 0 <= MeanChannel(data, c) <= 255
  {
    if |data| > 0 {
      var n := |data| / 3;
      var s := ChannelSum(data, c, n);
      ChannelSumRange(data, c, n);
      assert 3 * s <= 255 * (3 * n) <= 255 * |data|;
      DivBound(3 * s, |data|, 255);
    }
  }

  lemma DivBound(a: int, d: int, q: int)
    requires 0 <= a && 0 < d && 0 <= q && a <= q * d
    ensures 0 <= a / d <= q
  {
    if a / d > q {
      assert d * (a / d) >= d * (q + 1) by {
        MulMono(d, q + 1, a / d);
      }
    }
  }

  lemma MulMono(d: int, x: int, y: int)
    requires 0 < d && x <= y
    ensures d * x <= d * y
  {
  }

  /** The mean colour of a raster, channel by channel. */
  function MeanColorOf(data: seq<Byte>): Rgb
  {
    MeanChannelRange(data, 0);
    MeanChannelRange(data, 1);
    MeanChannelRange(data, 2);
    Rgb(MeanChannel(data, 0), MeanChannel(data, 1), MeanChannel(data, 2))
  }

  /**
   * For a buffer of whole texels, each mean channel is the floor of the
   * channel's average over the texels: n * mean <= sum < n * (mean + 1).
   */
  lemma MeanChannelIsFloor(data: seq<Byte>, c: nat)
    requires c < 3 && |data| > 0 && |data| % 3 == 0
    ensures var n, s, m := |data| / 3, ChannelSum(data, c, |data| / 3), MeanChannel(data, c);
      n * m <= s < n * (m + 1)
  {
    var n := |data| / 3;
    var s := ChannelSum(data, c, n);
    var m := MeanChannel(data, c);
    assert |data| == 3 * n;
    assert m == (3 * s) / (3 * n);
    assert (3 * n) * m <= 3 * s < (3 * n) * (m + 1);
    assert 3 * (n * m) <= 3 * s < 3 * (n * (m + 1));
  }

  /** Every texel of `data` has the colour `color`. */
  predicate Uniform(data: seq<Byte>, color: Rgb)
  {
    forall i :: 0 <= i < |data| ==> data[i] == Channel(color, i % 3)
  }

  lemma {:induction false} UniformChannelSum(data: seq<Byte>, color: Rgb, c: nat, n: nat)
    requires c < 3 && 3 * n <= |data| && Uniform(data, color)
    ensures ChannelSum(data, c, n) == n * Channel(color, c)
  {
    if n > 0 {
      UniformChannelSum(data, color, c, n - 1);
      assert (3 * (n - 1) + c) % 3 == c;
    }
  }

  lemma FloorUnique(n: int, m: int, v: int)
    requires n > 0 && n * m <= n * v < n * (m + 1)
    ensures m == v
  {
    if m < v {
      MulMono(n, m + 1, v);
    } else if m > v {
      MulMono(n, v + 1, m);
    }
  }

  lemma UniformMeanChannel(data: seq<Byte>, color: Rgb, c: nat)
    requires c < 3 && |data| > 0 && |data| % 3 == 0 && Uniform(data, color)
    ensures MeanChannel(data, c) == Channel(color, c)
  {
    var n := |data| / 3;
    UniformChannelSum(data, color, c, n);
    MeanChannelIsFloor(data, c);
    FloorUnique(n, MeanChannel(data, c), Channel(color, c));
  }

  /** A raster of whole texels of one colour averages to exactly that colour. */
  lemma UniformMean(data: seq<Byte>, color: Rgb)
    requires |data| > 0 && |data| % 3 == 0 && Uniform(data, color)
    ensures MeanColorOf(data) == color
  {
    UniformMeanChannel(data, color, 0);
    UniformMeanChannel(data, color, 1);
    UniformMeanChannel(data, color, 2);
  }

  /** The per-texel accumulation loop and the division by a third of the length. */
  method MeanColor(data: seq<Byte>) returns (color: Rgb)
    ensures color == MeanColorOf(data)
  {
    var r, g, b := 0, 0, 0;
    for i := 0 to |data| / 3
      invariant r == ChannelSum(data, 0, i)
      invariant g == ChannelSum(data, 1, i)
      invariant b == ChannelSum(data, 2, i)
    {
      r := r + data[i * 3];
      g := g + data[i * 3 + 1];
      b := b + data[i * 3 + 2];
    }
    if |data| == 0 {
      color := Rgb(0, 0, 0);
    } else {
      MeanChannelRange(data, 0);
      MeanChannelRange(data, 1);
      MeanChannelRange(data, 2);
      color := Rgb(3 * r / |data|, 3 * g / |data|, 3 * b / |data|);
    }
  }

  /** No texture after position `i` and before `n` has the name of texture `i`. */
  predicate LastNameBefore(names: seq<string>, i: int, n: int)
    requires 0 <= i < |names| && n <= |names|
  {
    forall j :: i < j < n ==> names[j] != names[i]
  }

  /**
   * Every raster was read, and `table` maps each texture name to the mean
   * colour of the last texture with that name.
   */
  ghost predicate IsColorTable(names: seq<string>, rasters: seq<Option<seq<Byte>>>, table: map<string, Rgb>)
  {
    && |rasters| == |names|
    && (forall j :: 0 <= j < |rasters| ==> rasters[j].Some?)
    && table.Keys == (set i | 0 <= i < |names| :: names[i])
    && forall i :: 0 <= i < |names| && LastNameBefore(names, i, |names|) ==>
         table[names[i]] == MeanColorOf(rasters[i].value)
  }

  /**
   * The table of mean colours, one entry per texture name (a later texture
   * with the same name overwrites an earlier one). The first texture whose
   * raster cannot be read aborts the whole table.
   */
  method BuildColorTable(names: seq<string>, rasters: seq<Option<seq<Byte>>>)
    returns (res: Result<map<string, Rgb>, FetchError>)
    requires |rasters| == |names|
    ensures res.Failure? <==> exists i :: 0 <= i < |rasters| && rasters[i].None?
    ensures res.Failure? ==>
      var k := res.error.texture;
      k < |rasters| && rasters[k].None? && forall j :: 0 <= j < k ==> rasters[j].Some?
    ensures res.Success? ==> IsColorTable(names, rasters, res.value)
  {
    var table := map[];
    for n := 0 to |names|
      invariant forall j :: 0 <= j < n ==> rasters[j].Some?
      invariant table.Keys == set i | 0 <= i < n :: names[i]
      invariant forall i :: 0 <= i < n && LastNameBefore(names, i, n) ==>
        table[names[i]] == MeanColorOf(rasters[i].value)
    {
      if rasters[n].None? {
        return Failure(TextureFetchError(n));
      }
      var color := MeanColor(rasters[n].value);
      table := table[names[n] := color];
    }
    res := Success(table);
  }
}
