/**
  The bit-decision view of ofdm.py: two fixed analysis windows of one
  symbol each, eight bars for the spectrum bins 1 to 8, and for each bar a
  label ("1" for a negative bar, "0" otherwise), a contrasting text colour
  and a text position kept clear of the axis. The Fourier transform and the
  drawing itself are outside the model.
*/
module OfdmPlot {
  import opened Options

  /** Samples in one analysed symbol. */
  const SymbolLength: nat := 2048
  /** Where the received symbol starts in the received capture. */
  const ReceivedOffset: nat := 1903
  /** The time traces show this fraction of the received capture. */
  const DisplayDivisor: nat := 12
  /** Number of bars, one per carrier. */
  const BarCount: nat := 8
  /** Width of each bar. */
  const BarWidth: real := 0.8
  /** Half the height of the band around the axis that labels stay out of. */
  const Clearance: real := 0.5

  function Min(a: int, b: int): (r: int)
    ensures r <= a && r <= b && (r == a || r == b)
  {
    if a < b then a else b
  }

  /** Python's slice `s[a:b]` for non-negative bounds: clipped to the sequence. */
  function Slice<T>(s: seq<T>, a: nat, b: nat): (r: seq<T>)
    ensures |r| == if a < b && a < |s| then Min(b, |s|) - a else 0
    ensures forall i :: 0 <= i < |r| ==> r[i] == s[a + i]
  {
    var lo, hi := Min(a, |s|), Min(b, |s|);
    if lo < hi then s[lo..hi] else []
  }

  /** How many samples the time traces show: the capture length floor-divided by 12. */
  function ToShow(n: nat): (r: nat)
    ensures DisplayDivisor * r <= n < DisplayDivisor * (r + 1)
  {
    n / DisplayDivisor
  }

  /** The emitted symbol analysed: the first 2048 samples. */
  function EmittedWindow(two: seq<real>): (w: seq<real>)
    ensures |two| >= SymbolLength ==> w == two[..SymbolLength]
    ensures |w| <= SymbolLength
  {
    Slice(two, 0, SymbolLength)
  }

  /** The received symbol analysed: samples 1903 to 3950. */
  function ReceivedWindow(one: seq<real>): (w: seq<real>)
    ensures |one| >= ReceivedOffset + SymbolLength ==>
              w == one[ReceivedOffset .. ReceivedOffset + SymbolLength]
    ensures |w| <= SymbolLength
  {
    Slice(one, ReceivedOffset, ReceivedOffset + SymbolLength)
  }

  /**
    The two time traces: the received capture from the symbol start and the
    emitted capture from its beginning, `ToShow` of the received length each.
    `None` when either capture is too short to supply that many samples,
    where plotting them against `range(to_show)` fails.
  */
  function Traces(one: seq<real>, two: seq<real>): (r: Option<(seq<real>, seq<real>)>)
    ensures r.Some? <==>
              ToShow(|one|) == 0 || (|one| >= ReceivedOffset + ToShow(|one|) && |two| >= ToShow(|one|))
    ensures r.Some? ==> |r.value.0| == ToShow(|one|) && |r.value.1| == ToShow(|one|)
    ensures r.Some? ==> forall i :: 0 <= i < ToShow(|one|) ==>
              r.value.0[i] == one[ReceivedOffset + i] && r.value.1[i] == two[i]
  {
    var n := ToShow(|one|);
    var received, emitted := Slice(one, ReceivedOffset, ReceivedOffset + n), Slice(two, 0, n);
    if |received| == n && |emitted| == n then Some((received, emitted)) else None
  }

  /** A drawn bar: left edge, width and (signed) height. */
  datatype Rect = Rect(x: real, width: real, height: real)

  /** A text placed on the chart: position, the label it shows and its colour. */
  datatype Text = Text(x: real, y: real, caption: string, color: string)

  /**
    The bars for one spectrum: bar `k` stands at position `k + 1`, centred,
    with the height of bin `k + 1`; bin 0 is not drawn. `None` when the
    spectrum has fewer than nine bins, where the bar call fails.
  */
  function Bars(spectrum: seq<real>): (r: Option<seq<Rect>>)
    ensures r.Some? <==> |spectrum| > BarCount
    ensures r.Some? ==> |r.value| == BarCount
    ensures r.Some? ==> forall k :: 0 <= k < BarCount ==>
              r.value[k].height == spectrum[k + 1] && r.value[k].width == BarWidth
              && r.value[k].x + r.value[k].width / 2.0 == (k + 1) as real
  {
    if |spectrum| <= BarCount then None
    else
      var heights := Slice(spectrum, 1, BarCount + 1);
      Some(seq(BarCount, k requires 0 <= k < BarCount =>
        Rect((k + 1) as real - BarWidth / 2.0, BarWidth, heights[k])))
  }

  /** The decided bit shown on a bar: "1" for a negative bar, "0" otherwise. */
  function Label(h: real): (s: string)
    ensures s == "1" <==> h < 0.0
    ensures s == "0" <==> h >= 0.0
  {
    if h < 0.0 then "1" else "0"
  }

  /** The text colour: black on short bars, white on bars reaching beyond the clearance band. */
  function Color(h: real): (c: string)
    ensures c == "black" <==> -Clearance < h < Clearance
    ensures c == "white" <==> h <= -Clearance || h >= Clearance
  {
    if h < 0.0 then
      if h > -Clearance then "black" else "white"
    else
      if h < Clearance then "black" else "white"
  }

  /**
    The height of the text: half the bar, pushed out of the clearance band,
    on the bar's side of the axis.
  */
  function TextY(h: real): (y: real)
    ensures y <= -Clearance || y >= Clearance
    ensures y < 0.0 <==> h < 0.0
    ensures (h <= -2.0 * Clearance || h >= 2.0 * Clearance) ==> y == h / 2.0
    ensures -2.0 * Clearance < h < 2.0 * Clearance ==> y == (if h < 0.0 then -Clearance else Clearance)
  {
    if h < 0.0 then
      if h / 2.0 < -Clearance then h / 2.0 else -Clearance
    else
      if h / 2.0 > Clearance then h / 2.0 else Clearance
  }

  /** The horizontal position of the text: the middle of the bar. */
  function TextX(rect: Rect): (x: real)
    ensures x - rect.x == rect.x + rect.width - x
  {
    rect.x + rect.width / 2.0
  }

  /**
    The text attached to one bar: the decided bit, black on short bars and
    white on tall ones, kept out of the band around the axis on the bar's
    side, centred on the bar.
  */
  function BarText(rect: Rect): (t: Text)
    ensures t.caption == "1" <==> rect.height < 0.0
    ensures t.caption == "0" <==> rect.height >= 0.0
    ensures t.color == "black" <==> -Clearance < rect.height < Clearance
    ensures t.color == "white" <==> rect.height <= -Clearance || rect.height >= Clearance
    ensures t.y <= -Clearance || t.y >= Clearance
    ensures t.y < 0.0 <==> rect.height < 0.0
    ensures t.x - rect.x == rect.x + rect.width - t.x
  {
    Text(TextX(rect), TextY(rect.height), Label(rect.height), Color(rect.height))
  }

  /** Labels every bar, in order, as the drawing loop does. */
  method Autolabel(rects: seq<Rect>) returns (texts: seq<Text>)
    ensures |texts| == |rects|
    ensures forall i :: 0 <= i < |rects| ==> texts[i] == BarText(rects[i])
    ensures forall i :: 0 <= i < |rects| ==> (texts[i].caption == "1" <==> rects[i].height < 0.0)
  {
    texts := [];
    for i := 0 to |rects|
      invariant |texts| == i
      invariant forall j :: 0 <= j < i ==> texts[j] == BarText(rects[j])
    {
      var rect := rects[i];
      var color := "white";
      if rect.height < 0.0 {
        if rect.height > -Clearance {
          color := "black";
        }
        var y := if rect.height / 2.0 < -Clearance then rect.height / 2.0 else -Clearance;
        texts := texts + [Text(rect.x + rect.width / 2.0, y, "1", color)];
      } else {
        if rect.height < Clearance {
          color := "black";
        }
        var y := if rect.height / 2.0 > Clearance then rect.height / 2.0 else Clearance;
        texts := texts + [Text(rect.x + rect.width / 2.0, y, "0", color)];
      }
    }
  }

  /** Each bar's label sits on the harmonic it shows and states that bin's decided bit. */
  lemma LabelsOnHarmonics(spectrum: seq<real>, k: nat)
    requires |spectrum| > BarCount && k < BarCount
    ensures var t := BarText(Bars(spectrum).value[k]);
            && t.x == (k + 1) as real
            && (t.caption == "1" <==> spectrum[k + 1] < 0.0)
  {
  }
}
