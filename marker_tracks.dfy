/** The marker band above the timelines (`drawMarkerTracks` and
    `drawMarkers`): markers are grouped by track, the band is as tall as
    the highest track used (plus a row for the untargetable track), and
    each marker registers a hit area on its track's row. Positions are
    `time * pixelsPerSecond`, the scale the canvas uses throughout. */
module MarkerTracks {
  import opened Wrappers
  import opened Sequences
  import opened Bins
  import opened HitTest

  datatype MarkerKind = Note | Buff | Untargetable

  datatype Marker = Marker(time: real, duration: real, track: int, kind: MarkerKind, description: string,
                           showText: bool)

  /** Layout constants defined outside the timeline canvas
      (`TimelineDimensions.trackHeight`, `UntargetableMarkerTrack`). */
  datatype TrackLayout = TrackLayout(trackHeight: real, untargetableTrack: int)

  function TrackOf(m: Marker): int
  {
    m.track
  }

  function BinKeys(bins: seq<Bin<int, Marker>>): (keys: seq<int>)
    ensures |keys| == |bins| && forall i :: 0 <= i < |bins| ==> keys[i] == bins[i].key
  {
    seq(|bins|, i requires 0 <= i < |bins| => bins[i].key)
  }

  /** The largest `track + 1` over the given tracks, and 0 for none. */
  function MaxTrackEnd(keys: seq<int>): (n: int)
    ensures n >= 0
    ensures forall i :: 0 <= i < |keys| ==> n >= keys[i] + 1
    ensures n == 0 || exists i :: 0 <= i < |keys| && n == keys[i] + 1
  {
    if keys == [] then 0
    else
      var m := MaxTrackEnd(keys[..|keys| - 1]);
      var k := keys[|keys| - 1] + 1;
      if m >= k then m else k
  }

  /** The number of rows of the marker band. */
  function NumTracks(keys: seq<int>, untargetableTrack: int): int
  {
    MaxTrackEnd(keys) + if untargetableTrack in keys then 1 else 0
  }

  /** The height of `n` rows of height `h`. */
  function Rows(n: int, h: real): real
  {
    n as real * h
  }

  /** The top of a track's row: counted upwards from the bottom of the
      band, except the untargetable track, which takes the top row. */
  function TrackTop(track: int, topY: real, bottomY: real, layout: TrackLayout): real
  {
    if track == layout.untargetableTrack then topY
    else bottomY - Rows(track + 1, layout.trackHeight)
  }

  function Max(a: real, b: real): real
  {
    if a >= b then a else b
  }

  /** The hit area of a marker: a bar at least one row wide for a marker
      with a duration, a row-sized square centred on an instant marker. */
  function MarkerRect(m: Marker, top: real, originX: real, countdown: real, pixelsPerSecond: real,
                      trackHeight: real): Rect
  {
    var left := originX + (m.time + countdown) * pixelsPerSecond;
    if m.duration > 0.0 then Rect(left, top, Max(m.duration * pixelsPerSecond, trackHeight), trackHeight)
    else Rect(left - trackHeight / 2.0, top, trackHeight, trackHeight)
  }

  /** The region a marker registers; `tipText` stands for the formatted and
      localised tip text, and a click deletes the marker. */
  function MarkerRegion(m: Marker, top: real, originX: real, countdown: real, pixelsPerSecond: real,
                        trackHeight: real, tipText: Marker -> string): Region
  {
    Region(MarkerRect(m, top, originX, countdown, pixelsPerSecond, trackHeight), Some([tipText(m)]),
           Some(DeleteMarker(m.time, m.track)), false, None)
  }

  /** The regions of all bins, bin by bin, each in marker order. */
  function BinRegions(bins: seq<Bin<int, Marker>>, topY: real, bottomY: real, layout: TrackLayout,
                      originX: real, countdown: real, pixelsPerSecond: real, tipText: Marker -> string)
    : seq<Region>
  {
    if bins == [] then []
    else
      var b := bins[|bins| - 1];
      var top := TrackTop(b.key, topY, bottomY, layout);
      BinRegions(bins[..|bins| - 1], topY, bottomY, layout, originX, countdown, pixelsPerSecond, tipText)
      + seq(|b.elems|, i requires 0 <= i < |b.elems| =>
              MarkerRegion(b.elems[i], top, originX, countdown, pixelsPerSecond, layout.trackHeight, tipText))
  }

  /** The loop over the map keys counting rows. */
  method CountTracks(bins: seq<Bin<int, Marker>>, untargetableTrack: int) returns (numTracks: int)
    ensures numTracks == NumTracks(BinKeys(bins), untargetableTrack)
  {
    numTracks := 0;
    var hasUntargetableTrack := false;
    var keys := BinKeys(bins);
    var i := 0;
    while i < |bins|
      invariant 0 <= i <= |bins|
      invariant numTracks == MaxTrackEnd(keys[..i])
      invariant hasUntargetableTrack == (untargetableTrack in keys[..i])
    {
      assert keys[..i + 1] == keys[..i] + [bins[i].key];
      var k := bins[i].key;
      numTracks := if numTracks >= k + 1 then numTracks else k + 1;
      if k == untargetableTrack {
        hasUntargetableTrack := true;
      }
      i := i + 1;
    }
    assert keys[..i] == keys;
    if hasUntargetableTrack {
      numTracks := numTracks + 1;
    }
  }

  /** `drawMarkers`: every marker of every bin, on its track's row. */
  method DrawMarkers(bins: seq<Bin<int, Marker>>, topY: real, bottomY: real, layout: TrackLayout,
                     originX: real, countdown: real, pixelsPerSecond: real, tipText: Marker -> string)
    returns (regions: seq<Region>)
    ensures regions == BinRegions(bins, topY, bottomY, layout, originX, countdown, pixelsPerSecond, tipText)
  {
    regions := [];
    var i := 0;
    while i < |bins|
      invariant 0 <= i <= |bins|
      invariant regions == BinRegions(bins[..i], topY, bottomY, layout, originX, countdown, pixelsPerSecond, tipText)
    {
      assert bins[..i + 1][..i] == bins[..i];
      var top := bottomY - Rows(bins[i].key + 1, layout.trackHeight);
      if bins[i].key == layout.untargetableTrack {
        top := topY;
      }
      var elems := bins[i].elems;
      ghost var before := regions;
      var j := 0;
      while j < |elems|
        invariant 0 <= j <= |elems|
        invariant regions == before + seq(j, n requires 0 <= n < j =>
          MarkerRegion(elems[n], top, originX, countdown, pixelsPerSecond, layout.trackHeight, tipText))
      {
        regions := regions + [MarkerRegion(elems[j], top, originX, countdown, pixelsPerSecond, layout.trackHeight, tipText)];
        j := j + 1;
      }
      assert top == TrackTop(bins[i].key, topY, bottomY, layout);
      assert bins[..i + 1][i] == bins[i];
      i := i + 1;
    }
    assert bins[..i] == bins;
  }

  /** The height of the marker band: one row per track. */
  function BandHeight(markers: seq<Marker>, layout: TrackLayout): real
  {
    Rows(NumTracks(BinKeys(Binned(markers, TrackOf)), layout.untargetableTrack), layout.trackHeight)
  }

  /** The binning and row counting of `drawMarkerTracks`. */
  method MarkerBand(markers: seq<Marker>, layout: TrackLayout) returns (bins: seq<Bin<int, Marker>>, height: real)
    ensures bins == Binned(markers, TrackOf)
    ensures height == BandHeight(markers, layout)
  {
    bins := BinBy(markers, TrackOf);
    var numTracks := CountTracks(bins, layout.untargetableTrack);
    height := Rows(numTracks, layout.trackHeight);
  }

  /** `drawMarkerTracks`: bin the markers by track, size the band, register
      every marker, and return the band's height. */
  method DrawMarkerTracks(markers: seq<Marker>, originX: real, originY: real, layout: TrackLayout,
                          countdown: real, pixelsPerSecond: real, tipText: Marker -> string)
    returns (height: real, regions: seq<Region>)
    ensures height == BandHeight(markers, layout)
    ensures regions ==
      BinRegions(Binned(markers, TrackOf), originY, originY + height, layout, originX, countdown, pixelsPerSecond, tipText)
  {
    var bins;
    bins, height := MarkerBand(markers, layout);
    var bottom := originY + height;
    regions := DrawMarkers(bins, originY, bottom, layout, originX, countdown, pixelsPerSecond, tipText);
  }

  /** No markers, no band. */
  lemma EmptyBand(layout: TrackLayout)
    ensures BandHeight([], layout) == 0.0
  {
  }

  /** More rows are at least as tall. */
  lemma ScaleMono(a: int, b: int, h: real)
    requires a <= b && h >= 0.0
    ensures Rows(a, h) <= Rows(b, h)
  {
    assert ((b - a) as real) * h >= 0.0;
  }

  /** One more row adds one row height. */
  lemma ScaleSucc(a: int, b: int, h: real)
    requires b == a + 1
    ensures Rows(b, h) == Rows(a, h) + h
  {
  }

  /** A band of at least one row is at least one row tall. */
  lemma OneRowFits(n: int, h: real)
    requires n >= 1 && h >= 0.0
    ensures h <= Rows(n, h)
  {
    ScaleSucc(n - 1, n, h);
    assert ((n - 1) as real) * h >= 0.0;
  }

  /** Every track that is present lies inside the band: the untargetable
      track on its top row, a track `t >= 0` on the `t`-th row from the bottom. */
  lemma TracksInsideBand(keys: seq<int>, layout: TrackLayout, t: int, originY: real)
    requires t in keys && (t >= 0 || t == layout.untargetableTrack)
    requires layout.trackHeight >= 0.0
    ensures var bottom := originY + Rows(NumTracks(keys, layout.untargetableTrack), layout.trackHeight);
      var top := TrackTop(t, originY, bottom, layout);
      originY <= top && top + layout.trackHeight <= bottom
  {
    TrackCounted(keys, layout.untargetableTrack, t);
    RowInsideBand(NumTracks(keys, layout.untargetableTrack), layout, t, originY);
  }

  /** The row of track `t` lies inside a band of `n` rows. */
  lemma RowInsideBand(n: int, layout: TrackLayout, t: int, originY: real)
    requires n >= t + 1 && (t >= 0 || t == layout.untargetableTrack)
    requires t == layout.untargetableTrack ==> n >= 1
    requires layout.trackHeight >= 0.0
    ensures originY <= TrackTop(t, originY, originY + Rows(n, layout.trackHeight), layout)
    ensures TrackTop(t, originY, originY + Rows(n, layout.trackHeight), layout) + layout.trackHeight
            <= originY + Rows(n, layout.trackHeight)
  {
    var h := layout.trackHeight;
    if t == layout.untargetableTrack {
      OneRowFits(n, h);
    } else {
      ScaleMono(t + 1, n, h);
      OneRowFits(t + 1, h);
    }
  }

  /** A present track is counted among the rows. */
  lemma TrackCounted(keys: seq<int>, untargetableTrack: int, t: int)
    requires t in keys && (t >= 0 || t == untargetableTrack)
    ensures NumTracks(keys, untargetableTrack) >= t + 1
    ensures t == untargetableTrack ==> NumTracks(keys, untargetableTrack) >= 1
  {
    var i :| 0 <= i < |keys| && keys[i] == t;
  }

  /** With the untargetable track present, no other track reaches its row. */
  lemma UntargetableRowIsFree(keys: seq<int>, layout: TrackLayout, t: int, originY: real)
    requires layout.untargetableTrack in keys && t in keys && t != layout.untargetableTrack
    requires layout.trackHeight >= 0.0
    ensures var bottom := originY + Rows(NumTracks(keys, layout.untargetableTrack), layout.trackHeight);
      TrackTop(t, originY, bottom, layout) >= originY + layout.trackHeight
  {
    var i :| 0 <= i < |keys| && keys[i] == t;
    BelowTopRow(NumTracks(keys, layout.untargetableTrack), layout, t, originY);
  }

  /** In a band of `n` rows whose top row is taken, track `t` sits below it. */
  lemma BelowTopRow(n: int, layout: TrackLayout, t: int, originY: real)
    requires n >= t + 2 && t != layout.untargetableTrack && layout.trackHeight >= 0.0
    ensures TrackTop(t, originY, originY + Rows(n, layout.trackHeight), layout) >= originY + layout.trackHeight
  {
    ScaleMono(t + 2, n, layout.trackHeight);
    ScaleSucc(t + 1, t + 2, layout.trackHeight);
  }

  /** A marker's hit area is one row high, at least one row wide, starts at
      the marker's time when it has a duration and is centred on it otherwise. */
  lemma MarkerRectShape(m: Marker, top: real, originX: real, countdown: real, pixelsPerSecond: real,
                        trackHeight: real)
    ensures var r := MarkerRect(m, top, originX, countdown, pixelsPerSecond, trackHeight);
      var left := originX + (m.time + countdown) * pixelsPerSecond;
      && r.y == top && r.h == trackHeight && r.w >= trackHeight
      && (m.duration > 0.0 ==> r.x == left && r.w >= m.duration * pixelsPerSecond)
      && (m.duration <= 0.0 ==> r.x + r.w / 2.0 == left)
  {
  }
}
