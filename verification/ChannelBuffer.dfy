/** `gbcom_common/ns/channel_buffer.h` and the two transposing copies of `gbcom_common/ns/audio_util.h`:
    one block of samples seen through two tables of pointers. A pointer into the block is its offset. */
module ChannelBuffers {

  datatype View = View(start: nat, length: nat)

  // ---------- rows of a fixed width ----------

  /** Column j of row i, in rows of the given width. */
  function Cell(width: nat, i: nat, j: nat): nat {
    i * width + j
  }

  lemma CellInside(width: nat, rows: nat, i: nat, j: nat)
    requires i < rows && j < width
    ensures Cell(width, i, j) < rows * width
  {
    assert (rows - 1 - i) * width >= 0;
    assert (rows - 1 - i) * width == rows * width - width - i * width;
  }

  lemma RowsApart(width: nat, i: nat, k: nat)
    requires i < k
    ensures Cell(width, i, width) <= Cell(width, k, 0)
  {
    assert (k - i - 1) * width >= 0;
    assert (k - i - 1) * width == k * width - i * width - width;
  }

  lemma CellsDiffer(width: nat, i: nat, j: nat, k: nat, l: nat)
    requires j < width && l < width && (i != k || j != l)
    ensures Cell(width, i, j) != Cell(width, k, l)
  {
    if i < k {
      RowsApart(width, i, k);
    } else if k < i {
      RowsApart(width, k, i);
    }
  }

  lemma QuotientBelow(width: nat, rows: nat, x: nat, q: nat)
    requires q * width <= x < rows * width
    ensures q < rows
  {
  }

  /** Every index lies in one row: the quotient's. */
  lemma CellOf(width: nat, rows: nat, x: nat)
    requires x < rows * width
    ensures width > 0 && x / width < rows && x == Cell(width, x / width, x % width)
  {
    QuotientBelow(width, rows, x, x / width);
  }

  lemma QuotientOfCell(width: nat, i: nat, j: nat)
    requires j < width
    ensures Cell(width, i, j) / width == i && Cell(width, i, j) % width == j
  {
    var x := Cell(width, i, j);
    var q, r := x / width, x % width;
    assert x == Cell(width, q, r);
    if q != i || r != j {
      CellsDiffer(width, q, r, i, j);
    }
  }

  // ---------- the buffer ----------

  class ChannelBuffer<T> {
    const data: array<T>
    const channels: array<nat>
    const bands: array<nat>
    const numFrames: nat
    const numFramesPerBand: nat
    const numAllocatedChannels: nat
    var numChannels: nat
    const numBands: nat
    const bandsView: array2<View>
    const channelsView: array2<View>

    /** The documented layout: channels one after the other, each cut into bands of equal length. */
    function Start(band: nat, ch: nat): nat {
      Cell(numFrames, ch, Cell(numFramesPerBand, band, 0))
    }

    ghost predicate Shape() {
      && numBands > 0 && numFramesPerBand == numFrames / numBands
      && data.Length == numAllocatedChannels * numFrames
      && channels.Length == numBands * numAllocatedChannels
      && bands.Length == numAllocatedChannels * numBands
      && channels != bands
      && bandsView.Length0 == numAllocatedChannels && bandsView.Length1 == numBands
      && channelsView.Length0 == numBands && channelsView.Length1 == numAllocatedChannels
      && bandsView != channelsView
    }

    /** The four tables agree on one band of one channel. */
    ghost predicate Entry(band: nat, ch: nat)
      requires Shape() && band < numBands && ch < numAllocatedChannels
      reads channels, bands, bandsView, channelsView
    {
      CellInside(numAllocatedChannels, numBands, band, ch);
      CellInside(numBands, numAllocatedChannels, ch, band);
      && channels[Cell(numAllocatedChannels, band, ch)] == Start(band, ch)
      && bands[Cell(numBands, ch, band)] == Start(band, ch)
      && channelsView[band, ch] == View(Start(band, ch), numFramesPerBand)
      && bandsView[ch, band] == View(Start(band, ch), numFramesPerBand)
    }

    /** All channels before `ch`, and the bands of `ch` before `band`. */
    ghost predicate Filled(ch: nat, band: nat)
      requires Shape() && ch <= numAllocatedChannels
      reads channels, bands, bandsView, channelsView
    {
      forall b: nat, c: nat ::
        b < numBands && c < numAllocatedChannels && (c < ch || (c == ch && b < band)) ==> Entry(b, c)
    }

    ghost predicate Valid()
      reads this, channels, bands, bandsView, channelsView
    {
      Shape() && Filled(numAllocatedChannels, 0) && numChannels <= numAllocatedChannels
    }

    /** The division asks for at least one band. */
    constructor (numFrames: nat, numChannels: nat, numBands: nat, zero: T)
      requires numBands > 0
      ensures Valid() && fresh(data) && fresh(channels) && fresh(bands) && fresh(bandsView) && fresh(channelsView)
      ensures this.numFrames == numFrames && numAllocatedChannels == this.numChannels == numChannels
      ensures this.numBands == numBands
      ensures forall i :: 0 <= i < data.Length ==> data[i] == zero
    {
      data := new T[numChannels * numFrames](_ => zero);
      channels := new nat[numBands * numChannels];
      bands := new nat[numChannels * numBands];
      this.numFrames := numFrames;
      numFramesPerBand := numFrames / numBands;
      numAllocatedChannels := numChannels;
      this.numChannels := numChannels;
      this.numBands := numBands;
      bandsView := new View[numChannels, numBands];
      channelsView := new View[numBands, numChannels];
      new;
      for ch := 0 to numChannels
        invariant Filled(ch, 0) && this.numChannels == numChannels
        invariant forall i :: 0 <= i < data.Length ==> data[i] == zero
      {
        for band := 0 to numBands
          invariant Filled(ch, band) && this.numChannels == numChannels
          invariant forall i :: 0 <= i < data.Length ==> data[i] == zero
        {
          Populate(band, ch);
        }
      }
    }

    /** The body of the nested loop. */
    method Populate(band: nat, ch: nat)
      requires Shape() && band < numBands && ch < numAllocatedChannels && Filled(ch, band)
      modifies channels, bands, bandsView, channelsView
      ensures Filled(ch, band + 1)
    {
      CellInside(numAllocatedChannels, numBands, band, ch);
      CellInside(numBands, numAllocatedChannels, ch, band);
      channelsView[band, ch] := View(ch * numFrames + band * numFramesPerBand, numFramesPerBand);
      bandsView[ch, band] := channelsView[band, ch];
      channels[band * numAllocatedChannels + ch] := channelsView[band, ch].start;
      bands[ch * numBands + band] := channels[band * numAllocatedChannels + ch];
      forall b: nat, c: nat |
        b < numBands && c < numAllocatedChannels && (c < ch || (c == ch && b < band + 1))
        ensures Entry(b, c)
      {
        if c != ch || b != band {
          assert old(Entry(b, c));
          CellInside(numAllocatedChannels, numBands, b, c);
          CellInside(numBands, numAllocatedChannels, c, b);
          CellsDiffer(numAllocatedChannels, b, c, band, ch);
          CellsDiffer(numBands, c, b, ch, band);
        }
      }
    }

    /** `channels(band)[ch]` */
    function Channel(band: nat, ch: nat): (start: nat)
      requires Valid() && band < numBands && ch < numAllocatedChannels
      reads this, channels, bands, bandsView, channelsView
      ensures start + numFramesPerBand <= data.Length
    {
      CellInside(numAllocatedChannels, numBands, band, ch);
      assert Entry(band, ch);
      ViewInside(band, ch);
      channels[band * numAllocatedChannels + ch]
    }

    /** `bands(ch)[band]` */
    function Band(ch: nat, band: nat): (start: nat)
      requires Valid() && band < numBands && ch < numChannels
      reads this, channels, bands, bandsView, channelsView
      ensures start + numFramesPerBand <= data.Length
    {
      CellInside(numBands, numAllocatedChannels, ch, band);
      assert Entry(band, ch);
      ViewInside(band, ch);
      bands[ch * numBands + band]
    }

    lemma BandsFit()
      requires numBands > 0 && numFramesPerBand == numFrames / numBands
      ensures numBands * numFramesPerBand <= numFrames
      ensures numBands * numFramesPerBand == numFrames <==> numFrames % numBands == 0
    {
    }

    lemma ViewInside(band: nat, ch: nat)
      requires Shape() && band < numBands && ch < numAllocatedChannels
      ensures Start(band, ch) + numFramesPerBand <= Cell(numFrames, ch, numFrames) <= data.Length
    {
      BandsFit();
      RowsApart(numFramesPerBand, band, numBands);
      if ch + 1 < numAllocatedChannels {
        RowsApart(numFrames, ch, ch + 1);
      }
      RowsApart(numFrames, ch, numAllocatedChannels);
    }

    /** Both tables and both views name the same stretch of the block, the documented one. */
    lemma SameStorage(band: nat, ch: nat)
      requires Valid() && band < numBands && ch < numChannels
      ensures Channel(band, ch) == Band(ch, band) == ch * numFrames + band * numFramesPerBand
      ensures channelsView[band, ch] == bandsView[ch, band] == View(Channel(band, ch), numFramesPerBand)
    {
      assert Entry(band, ch);
      CellInside(numAllocatedChannels, numBands, band, ch);
      CellInside(numBands, numAllocatedChannels, ch, band);
    }

    lemma ChannelStart(band: nat, ch: nat)
      requires Valid() && band < numBands && ch < numAllocatedChannels
      ensures Channel(band, ch) == Start(band, ch)
    {
      assert Entry(band, ch);
      CellInside(numAllocatedChannels, numBands, band, ch);
    }

    /** Two different views share no sample. */
    lemma Disjoint(band: nat, ch: nat, band': nat, ch': nat, k: nat, k': nat)
      requires Valid() && band < numBands && ch < numAllocatedChannels && k < numFramesPerBand
      requires band' < numBands && ch' < numAllocatedChannels && k' < numFramesPerBand
      requires Channel(band, ch) + k == Channel(band', ch') + k'
      ensures band == band' && ch == ch' && k == k'
    {
      ChannelStart(band, ch);
      ChannelStart(band', ch');
      BandsFit();
      CellInside(numFramesPerBand, numBands, band, k);
      CellInside(numFramesPerBand, numBands, band', k');
      var p, p' := Cell(numFramesPerBand, band, k), Cell(numFramesPerBand, band', k');
      assert Cell(numFrames, ch, p) == Cell(numFrames, ch', p');
      if ch != ch' || p != p' { CellsDiffer(numFrames, ch, p, ch', p'); }
      if band != band' || k != k' { CellsDiffer(numFramesPerBand, band, k, band', k'); }
    }

    ghost predicate Holds(band: nat, ch: nat, i: nat)
      requires Valid()
      reads this, channels, bands, bandsView, channelsView
    {
      && band < numBands && ch < numAllocatedChannels
      && Channel(band, ch) <= i < Channel(band, ch) + numFramesPerBand
    }

    /** Some view holds the sample. */
    ghost predicate InView(i: nat)
      requires Valid()
      reads this, channels, bands, bandsView, channelsView
    {
      exists band: nat, ch: nat :: Holds(band, ch, i)
    }

    lemma CellParts(i: nat) returns (band: nat, ch: nat)
      requires Shape() && i < data.Length && numFrames % numBands == 0
      ensures band < numBands && ch < numAllocatedChannels
      ensures Start(band, ch) <= i < Start(band, ch) + numFramesPerBand
    {
      CellOf(numFrames, numAllocatedChannels, i);
      BandsFit();
      CellOf(numFramesPerBand, numBands, i % numFrames);
      ch, band := i / numFrames, i % numFrames / numFramesPerBand;
    }

    lemma HoldsStart(band: nat, ch: nat, i: nat)
      requires Valid() && band < numBands && ch < numAllocatedChannels
      requires Start(band, ch) <= i < Start(band, ch) + numFramesPerBand
      ensures InView(i)
    {
      ChannelStart(band, ch);
      assert Holds(band, ch, i);
    }

    lemma Covered(i: nat)
      requires Valid() && i < data.Length && numFrames % numBands == 0
      ensures InView(i)
    {
      hide Start;
      var band, ch := CellParts(i);
      HoldsStart(band, ch, i);
    }

    lemma LastNotCovered(band: nat, ch: nat)
      requires Valid() && numFrames % numBands != 0
      ensures numFrames > 0 && !Holds(band, ch, numFrames - 1)
    {
      if band < numBands && ch < numAllocatedChannels {
        BandsFit();
        ChannelStart(band, ch);
        if ch == 0 {
          RowsApart(numFramesPerBand, band, numBands);
        } else {
          RowsApart(numFrames, 0, ch);
        }
      }
    }

    /** The views cover the block exactly when the bands divide the frames (or there is no channel). */
    lemma CoversExactly()
      requires Valid()
      ensures (forall i: nat :: i < data.Length ==> InView(i))
        <==> (numFrames % numBands == 0 || numAllocatedChannels == 0)
    {
      if numFrames % numBands == 0 {
        forall i: nat | i < data.Length ensures InView(i) {
          Covered(i);
        }
      } else if numAllocatedChannels > 0 {
        LastNotCovered(0, 0);
        var last: nat := numFrames - 1;
        forall band: nat, ch: nat ensures !Holds(band, ch, last) {
          LastNotCovered(band, ch);
        }
        RowsApart(numFrames, 0, numAllocatedChannels);
        assert last < data.Length && !InView(last);
      }
    }

    /** `Slice`: pointers a number of frames into each full-band channel the user sees. */
    method Slice(slice: array<nat>, startFrame: nat)
      requires Valid() && startFrame < numFrames && numChannels <= slice.Length
      requires slice != channels && slice != bands
      modifies slice
      ensures forall i :: 0 <= i < numChannels ==> slice[i] == Start(0, i) + startFrame < data.Length
      ensures forall i :: numChannels <= i < slice.Length ==> slice[i] == old(slice[i])
    {
      for i := 0 to numChannels
        invariant Valid()
        invariant forall k :: 0 <= k < i ==> slice[k] == Start(0, k) + startFrame < data.Length
        invariant forall k :: i <= k < slice.Length ==> slice[k] == old(slice[k])
      {
        ChannelStart(0, i);
        CellInside(numFrames, numAllocatedChannels, i, startFrame);
        slice[i] := Channel(0, i) + startFrame;
      }
    }

    /** The full-band channels, as the copies below take them. */
    ghost function FullBand(): (starts: seq<nat>)
      requires Valid()
      reads this, channels, bands, bandsView, channelsView
      ensures |starts| == numAllocatedChannels
    {
      seq(numAllocatedChannels, i requires 0 <= i < numAllocatedChannels && Valid()
            reads this, channels, bands, bandsView, channelsView => Channel(0, i))
    }

    /** They are separate, so a whole recording can be deinterleaved into a buffer. */
    lemma FullBandApart()
      requires Valid()
      ensures Apart(FullBand(), numFrames, data.Length)
    {
      var s := FullBand();
      forall i | 0 <= i < |s| ensures s[i] == Start(0, i) {
        ChannelStart(0, i);
      }
      forall i | 0 <= i < |s| ensures s[i] + numFrames <= data.Length {
        ViewInside(0, i);
      }
      forall i, k | 0 <= i < k < |s| ensures s[i] + numFrames <= s[k] || s[k] + numFrames <= s[i] {
        RowsApart(numFrames, i, k);
      }
    }
  }

  // ---------- the two copies ----------

  /** Stretches of the given length inside the block, no two of which overlap. */
  ghost predicate Apart(starts: seq<nat>, length: nat, size: nat) {
    && (forall i :: 0 <= i < |starts| ==> starts[i] + length <= size)
    && (forall i, k :: 0 <= i < k < |starts| ==>
          starts[i] + length <= starts[k] || starts[k] + length <= starts[i])
  }

  /** Frame after frame, the samples of all channels side by side. */
  function Interleaved<T>(chs: seq<seq<T>>, samples: nat): (s: seq<T>)
    requires forall i :: 0 <= i < |chs| ==> |chs[i]| == samples
    ensures |s| == samples * |chs|
  {
    seq(samples * |chs|, x requires 0 <= x < samples * |chs| =>
      CellOf(|chs|, samples, x);
      chs[x % |chs|][x / |chs|])
  }

  function Deinterleaved<T>(s: seq<T>, samples: nat, n: nat): (chs: seq<seq<T>>)
    requires |s| == samples * n
    ensures |chs| == n && forall i :: 0 <= i < n ==> |chs[i]| == samples
  {
    seq(n, i requires 0 <= i < n =>
      seq(samples, j requires 0 <= j < samples =>
        CellInside(n, samples, j, i);
        s[Cell(n, j, i)]))
  }

  /** Interleaving what was deinterleaved gives the text back. */
  lemma InterleaveBack<T>(s: seq<T>, samples: nat, n: nat)
    requires |s| == samples * n
    ensures Interleaved(Deinterleaved(s, samples, n), samples) == s
  {
    var chs := Deinterleaved(s, samples, n);
    var t := Interleaved(chs, samples);
    forall x | 0 <= x < |s| ensures t[x] == s[x] {
      CellOf(n, samples, x);
      assert t[x] == chs[x % n][x / n];
    }
  }

  /** And the reverse, for any number of channels. */
  lemma DeinterleaveBack<T>(chs: seq<seq<T>>, samples: nat)
    requires forall i :: 0 <= i < |chs| ==> |chs[i]| == samples
    ensures Deinterleaved(Interleaved(chs, samples), samples, |chs|) == chs
  {
    var s := Interleaved(chs, samples);
    var back := Deinterleaved(s, samples, |chs|);
    forall i | 0 <= i < |chs| ensures back[i] == chs[i] {
      forall j | 0 <= j < samples ensures back[i][j] == chs[i][j] {
        CellInside(|chs|, samples, j, i);
        QuotientOfCell(|chs|, j, i);
      }
    }
  }

  ghost function Samples<T>(data: seq<T>, starts: seq<nat>, samples: nat): (chs: seq<seq<T>>)
    requires forall i :: 0 <= i < |starts| ==> starts[i] + samples <= |data|
    ensures |chs| == |starts|
    ensures forall i :: 0 <= i < |starts| ==> chs[i] == data[starts[i]..starts[i] + samples]
  {
    seq(|starts|, i requires 0 <= i < |starts| => data[starts[i]..starts[i] + samples])
  }

  /** In no stretch. */
  ghost predicate Outside(x: int, starts: seq<nat>, length: nat) {
    forall i :: 0 <= i < |starts| ==> x < starts[i] || starts[i] + length <= x
  }

  method Deinterleave<T>(interleaved: array<T>, samplesPerChannel: nat, numChannels: nat,
                         data: array<T>, deinterleaved: seq<nat>)
    requires interleaved != data && |deinterleaved| == numChannels
    requires interleaved.Length >= samplesPerChannel * numChannels
    requires Apart(deinterleaved, samplesPerChannel, data.Length)
    modifies data
    ensures Samples(data[..], deinterleaved, samplesPerChannel)
      == Deinterleaved(interleaved[..samplesPerChannel * numChannels], samplesPerChannel, numChannels)
    ensures forall x :: 0 <= x < data.Length && Outside(x, deinterleaved, samplesPerChannel) ==>
      data[x] == old(data[x])
  {
    ghost var chs := Deinterleaved(interleaved[..samplesPerChannel * numChannels], samplesPerChannel, numChannels);
    for i := 0 to numChannels
      invariant forall c :: 0 <= c < i ==> data[deinterleaved[c]..deinterleaved[c] + samplesPerChannel] == chs[c]
      invariant forall x :: 0 <= x < data.Length && Outside(x, deinterleaved, samplesPerChannel) ==>
        data[x] == old(data[x])
    {
      label before:
      DeinterleaveOne(interleaved, samplesPerChannel, numChannels, data, deinterleaved[i], i);
      forall c | 0 <= c < i
        ensures data[deinterleaved[c]..deinterleaved[c] + samplesPerChannel] == chs[c]
      {
        var s := deinterleaved[c];
        assert data[s..s + samplesPerChannel] == old@before(data[s..s + samplesPerChannel]);
      }
    }
    assert Samples(data[..], deinterleaved, samplesPerChannel) == chs;
  }

  /** The loop over one channel. */
  method DeinterleaveOne<T>(interleaved: array<T>, samples: nat, n: nat, data: array<T>, channel: nat, i: nat)
    requires interleaved != data && i < n && interleaved.Length >= samples * n && channel + samples <= data.Length
    modifies data
    ensures data[channel..channel + samples] == Deinterleaved(interleaved[..samples * n], samples, n)[i]
    ensures forall x :: 0 <= x < data.Length && !(channel <= x < channel + samples) ==> data[x] == old(data[x])
  {
    ghost var row := Deinterleaved(interleaved[..samples * n], samples, n)[i];
    var interleavedIdx := i;
    for j := 0 to samples
      invariant interleavedIdx == Cell(n, j, i)
      invariant data[channel..channel + j] == row[..j]
      invariant forall x :: 0 <= x < data.Length && !(channel <= x < channel + samples) ==> data[x] == old(data[x])
    {
      CellInside(n, samples, j, i);
      data[channel + j] := interleaved[interleavedIdx];
      interleavedIdx := interleavedIdx + n;
      assert row[j] == interleaved[..samples * n][Cell(n, j, i)];
      assert data[channel..channel + j + 1] == data[channel..channel + j] + [row[j]];
    }
  }

  method Interleave<T>(data: array<T>, deinterleaved: seq<nat>, samplesPerChannel: nat, numChannels: nat,
                       interleaved: array<T>)
    requires interleaved != data && |deinterleaved| == numChannels
    requires interleaved.Length >= samplesPerChannel * numChannels
    requires forall i :: 0 <= i < numChannels ==> deinterleaved[i] + samplesPerChannel <= data.Length
    modifies interleaved
    ensures interleaved[..samplesPerChannel * numChannels]
      == Interleaved(Samples(data[..], deinterleaved, samplesPerChannel), samplesPerChannel)
    ensures forall x :: samplesPerChannel * numChannels <= x < interleaved.Length ==>
      interleaved[x] == old(interleaved[x])
  {
    ghost var chs := Samples(data[..], deinterleaved, samplesPerChannel);
    for i := 0 to numChannels
      invariant CopiedBelow(interleaved[..], chs, samplesPerChannel, i)
      invariant forall x :: samplesPerChannel * numChannels <= x < interleaved.Length ==>
        interleaved[x] == old(interleaved[x])
    {
      ghost var was := interleaved[..];
      InterleaveOne(data, deinterleaved[i], samplesPerChannel, numChannels, interleaved, i);
      CopiedOneMore(was, interleaved[..], chs, samplesPerChannel, i);
    }
    CopiedAll(interleaved[..], chs, samplesPerChannel);
  }

  /** Sample j of channel c is in its place. */
  ghost predicate Copied<T>(s: seq<T>, chs: seq<seq<T>>, j: nat, c: nat) {
    && c < |chs| && j < |chs[c]|
    && Cell(|chs|, j, c) < |s| && s[Cell(|chs|, j, c)] == chs[c][j]
  }

  ghost predicate CopiedBelow<T>(s: seq<T>, chs: seq<seq<T>>, samples: nat, i: nat) {
    forall c, j :: 0 <= c < i && 0 <= j < samples ==> Copied(s, chs, j, c)
  }

  lemma CopiedOneMore<T>(s: seq<T>, t: seq<T>, chs: seq<seq<T>>, samples: nat, i: nat)
    requires i < |chs| && |chs[i]| == samples && |s| == |t| && CopiedBelow(s, chs, samples, i)
    requires forall j :: 0 <= j < samples ==> Cell(|chs|, j, i) < |t| && t[Cell(|chs|, j, i)] == chs[i][j]
    requires forall x :: 0 <= x < |s| && x % |chs| != i ==> t[x] == s[x]
    ensures CopiedBelow(t, chs, samples, i + 1)
  {
    forall c, j | 0 <= c < i + 1 && 0 <= j < samples ensures Copied(t, chs, j, c) {
      if c < i {
        assert Copied(s, chs, j, c);
        QuotientOfCell(|chs|, j, c);
      }
    }
  }

  lemma CopiedAll<T>(s: seq<T>, chs: seq<seq<T>>, samples: nat)
    requires forall i :: 0 <= i < |chs| ==> |chs[i]| == samples
    requires samples * |chs| <= |s|
    requires CopiedBelow(s, chs, samples, |chs|)
    ensures s[..samples * |chs|] == Interleaved(chs, samples)
  {
    var n := |chs|;
    var t := Interleaved(chs, samples);
    forall x | 0 <= x < samples * n ensures s[x] == t[x] {
      CellOf(n, samples, x);
      assert Copied(s, chs, x / n, x % n);
    }
  }

  method InterleaveOne<T>(data: array<T>, channel: nat, samples: nat, n: nat, interleaved: array<T>, i: nat)
    requires interleaved != data && i < n && interleaved.Length >= samples * n && channel + samples <= data.Length
    modifies interleaved
    ensures forall j :: 0 <= j < samples ==>
      Cell(n, j, i) < interleaved.Length && interleaved[Cell(n, j, i)] == data[channel + j]
    ensures forall x :: 0 <= x < interleaved.Length && (x >= samples * n || x % n != i) ==>
      interleaved[x] == old(interleaved[x])
  {
    var interleavedIdx := i;
    for j := 0 to samples
      invariant interleavedIdx == Cell(n, j, i)
      invariant forall k :: 0 <= k < j ==>
        Cell(n, k, i) < interleaved.Length && interleaved[Cell(n, k, i)] == data[channel + k]
      invariant forall x :: 0 <= x < interleaved.Length && (x >= samples * n || x % n != i) ==>
        interleaved[x] == old(interleaved[x])
    {
      CellInside(n, samples, j, i);
      QuotientOfCell(n, j, i);
      forall k | 0 <= k < j ensures Cell(n, k, i) != interleavedIdx {
        CellsDiffer(n, k, i, j, i);
      }
      interleaved[interleavedIdx] := data[channel + j];
      interleavedIdx := interleavedIdx + n;
    }
  }
}
