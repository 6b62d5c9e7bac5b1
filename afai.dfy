/** The Alternative Floating Algae Index (AFAI.py): the NIR reflectance minus
    a baseline interpolated linearly between RED and SWIR at NIR's
    wavelength, computed cell by cell.  Reflectances are modelled as exact
    reals; float32 rounding is not modelled. */
module Afai {
  import opened Common
  import opened SargassumIndex

  const Name: string := "AFAI"

  /** The Sentinel-2 channels AFAI reads, in declaration order. */
  const RequiredChannels: seq<string> := ["B04", "B06", "B8A"]

  /** A named band of the index: its Sentinel-2 channel and its reference wavelength in nm. */
  datatype Band = Band(channel: string, wavelength: real)

  const Red: Band := Band("B04", 665.0)
  const Nir: Band := Band("B06", 740.0)
  const Swir: Band := Band("B8A", 865.0)

  function Declared(): (d: Descriptor)
    ensures Overrides(d)
  {
    Descriptor(Some(Name), Some(RequiredChannels))
  }

  /** The band table is consistent with the required channels and its
      wavelengths increase, so the interpolation weight lies strictly
      between 0 and 1. */
  lemma BandTable()
    ensures RequiredChannels == [Red.channel, Nir.channel, Swir.channel]
    ensures Red.wavelength < Nir.wavelength < Swir.wavelength
    ensures (Nir.wavelength - Red.wavelength) / (Swir.wavelength - Red.wavelength) == 75.0 / 200.0
  {
  }

  /** RED interpolated towards SWIR at NIR's wavelength. */
  function Baseline(red: real, swir: real): real {
    red + (swir - red) * (Nir.wavelength - Red.wavelength) / (Swir.wavelength - Red.wavelength)
  }

  /** The index of one cell. */
  function Pixel(red: real, nir: real, swir: real): real {
    nir - Baseline(red, swir)
  }

  /** The worked value: RED 0.1, NIR 0.3, SWIR 0.5 has baseline 0.25 and AFAI 0.05. */
  lemma PixelExample()
    ensures Baseline(0.1, 0.5) == 0.25 && Pixel(0.1, 0.3, 0.5) == 0.05
  {
  }

  /** AFAI vanishes exactly when NIR lies on the RED-SWIR baseline; it is
      positive exactly when NIR lies above it. */
  lemma PixelSign(red: real, nir: real, swir: real)
    ensures Pixel(red, nir, swir) == 0.0 <==> nir == Baseline(red, swir)
    ensures Pixel(red, nir, swir) > 0.0 <==> nir > Baseline(red, swir)
  {
  }

  /** With a flat baseline (RED equal to SWIR) AFAI is NIR minus RED. */
  lemma PixelFlatBaseline(red: real, nir: real, swir: real)
    requires red == swir
    ensures Pixel(red, nir, swir) == nir - red
  {
  }

  /** The three bands are present and share one rectangular shape. */
  predicate Aligned(channels: ChannelMap)
  {
    && Red.channel in channels && Nir.channel in channels && Swir.channel in channels
    && var red := channels[Red.channel];
       IsGrid(red, |red|, Cols(red))
       && IsGrid(channels[Nir.channel], |red|, Cols(red))
       && IsGrid(channels[Swir.channel], |red|, Cols(red))
  }

  /** AFAI_Index.compute: look up RED, NIR and SWIR (in that order, so a
      missing band is reported as the first missing one), then evaluate the
      index cell by cell.  A verbose index then reports the minimum and the
      maximum, which numpy refuses for an empty raster.  The channel
      dictionary is only read. */
  function Compute(channels: ChannelMap, verbose: bool): (r: Result<Grid<real>>)
    ensures Red.channel !in channels ==> r == Failure(KeyError("B04"))
    ensures Red.channel in channels && Nir.channel !in channels ==> r == Failure(KeyError("B06"))
    ensures (Red.channel in channels && Nir.channel in channels && Swir.channel !in channels)
              ==> r == Failure(KeyError("B8A"))
    ensures (Aligned(channels) && verbose && |channels["B04"]| * Cols(channels["B04"]) == 0)
              ==> r == Failure(EmptyReduction)
    ensures r.Success? <==> Aligned(channels) && !(verbose && |channels["B04"]| * Cols(channels["B04"]) == 0)
    ensures r.Success? ==>
              var red, nir, swir := channels["B04"], channels["B06"], channels["B8A"];
              && IsGrid(r.value, |red|, Cols(red))
              && forall x, y :: 0 <= x < |red| && 0 <= y < Cols(red) ==>
                   r.value[x][y] == nir[x][y] - red[x][y] - (swir[x][y] - red[x][y]) * 0.375
  {
    if Red.channel !in channels then Failure(KeyError(Red.channel))
    else if Nir.channel !in channels then Failure(KeyError(Nir.channel))
    else if Swir.channel !in channels then Failure(KeyError(Swir.channel))
    else if !Aligned(channels) then Failure(BroadcastError)
    else
      var red, nir, swir := channels[Red.channel], channels[Nir.channel], channels[Swir.channel];
      var nx, ny := |red|, Cols(red);
      if verbose && nx * ny == 0 then Failure(EmptyReduction)
      else Success(seq(nx, x requires 0 <= x < nx =>
                seq(ny, y requires 0 <= y < ny => Pixel(red[x][y], nir[x][y], swir[x][y]))))
  }

  /** Element-wise: a cell of the result depends only on the three bands at
      that same cell, so two inputs that agree there give the same value,
      whether or not the index is verbose. */
  lemma ComputeIsLocal(c1: ChannelMap, c2: ChannelMap, x: nat, y: nat)
    requires Aligned(c1) && Aligned(c2)
    requires x < |c1["B04"]| && y < Cols(c1["B04"]) && x < |c2["B04"]| && y < Cols(c2["B04"])
    requires forall b :: b in RequiredChannels ==> c1[b][x][y] == c2[b][x][y]
    ensures Compute(c1, false).Success? && Compute(c2, true).Success?
    ensures Compute(c1, false).value[x][y] == Compute(c2, true).value[x][y]
  {
    assert "B04" in RequiredChannels && "B06" in RequiredChannels && "B8A" in RequiredChannels;
  }

  /** The 2 x 2 scene with RED [[0.1,0.2],[0.1,0.2]], NIR 0.3 everywhere and
      SWIR [[0.5,0.4],[0.5,0.4]] gives AFAI 0.05 in the first column and 0.025
      in the second. */
  lemma ComputeExample()
    ensures Compute(map["B04" := [[0.1, 0.2], [0.1, 0.2]],
                        "B06" := [[0.3, 0.3], [0.3, 0.3]],
                        "B8A" := [[0.5, 0.4], [0.5, 0.4]]], true)
            == Success([[0.05, 0.025], [0.05, 0.025]])
  {
    var c := map["B04" := [[0.1, 0.2], [0.1, 0.2]],
                 "B06" := [[0.3, 0.3], [0.3, 0.3]],
                 "B8A" := [[0.5, 0.4], [0.5, 0.4]]];
    assert Aligned(c);
    var r := Compute(c, true).value;
    assert |r| == 2 && r == [r[0], r[1]];
    assert r[0] == [0.05, 0.025];
    assert r[1] == [0.05, 0.025];
  }
}
