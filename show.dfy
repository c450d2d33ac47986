/** The `Show` and `ShowPreview` value types (Show.swift). */
module Shows {
  import opened Wrappers
  import opened Arithmetic
  import opened Text
  import opened Tracks
  import opened Concerts

  datatype Show = Show(
    id: string,
    title: string,
    date: Date,
    venue: string,
    location: string,
    description: Option<string>,
    tracks: seq<Track>,
    imageUrl: Option<string>)

  datatype ShowPreview = ShowPreview(
    id: string,
    title: string,
    date: Date,
    venue: string,
    imageUrl: Option<string>,
    location: string)

  /**
   * The preview the explore and home screens build from a search result:
   * the concert's id, title, date, venue and location, and its cover URL as text.
   */
  function PreviewOf(c: Concert): (p: ShowPreview)
    ensures p.id == c.id && p.title == c.title && p.date == c.date
    ensures p.venue == c.venue && p.location == c.location && p.imageUrl == c.coverImageURL
  {
    ShowPreview(c.id, c.title, c.date, c.venue, c.coverImageURL, c.location)
  }

  /** `concerts.map { ShowPreview(...) }`. */
  function PreviewsOf(cs: seq<Concert>): (ps: seq<ShowPreview>)
    ensures |ps| == |cs|
  {
    if cs == [] then [] else [PreviewOf(cs[0])] + PreviewsOf(cs[1..])
  }

  /** Position by position, the previews are the previews of the concerts. */
  lemma {:induction false} PreviewsOfAt(cs: seq<Concert>)
    ensures forall i :: 0 <= i < |cs| ==> PreviewsOf(cs)[i] == PreviewOf(cs[i])
  {
    if cs != [] {
      PreviewsOfAt(cs[1..]);
      forall i | 1 <= i < |cs| ensures PreviewsOf(cs)[i] == PreviewOf(cs[i]) {
        assert PreviewsOf(cs)[i] == PreviewsOf(cs[1..])[i - 1];
        assert cs[1..][i - 1] == cs[i];
      }
    }
  }

  /** Previews distribute over concatenation, so they keep the concerts' order. */
  lemma {:induction false} PreviewsOfAppend(a: seq<Concert>, b: seq<Concert>)
    ensures PreviewsOf(a + b) == PreviewsOf(a) + PreviewsOf(b)
  {
    if a == [] {
      assert a + b == b;
    } else {
      assert (a + b)[0] == a[0] && (a + b)[1..] == a[1..] + b;
      PreviewsOfAppend(a[1..], b);
    }
  }

  /** The tracks of set `k`, in their original order. */
  function TracksInSet(ts: seq<Track>, k: Option<int>): (r: seq<Track>)
    ensures |r| <= |ts|
    ensures forall i :: 0 <= i < |r| ==> r[i].setNumber == k && r[i] in ts
    ensures forall i :: 0 <= i < |ts| && ts[i].setNumber == k ==> ts[i] in r
  {
    if ts == [] then []
    else
      var front := TracksInSet(ts[..|ts| - 1], k);
      var t := ts[|ts| - 1];
      assert forall i :: 0 <= i < |ts| - 1 ==> ts[i] == ts[..|ts| - 1][i];
      if t.setNumber == k then front + [t] else front
  }

  lemma {:induction false} TracksInAbsentSet(ts: seq<Track>, k: Option<int>)
    requires k !in SetNumbers(ts)
    ensures TracksInSet(ts, k) == []
  {
    if ts != [] {
      var front := ts[..|ts| - 1];
      assert forall i :: 0 <= i < |front| ==> front[i] == ts[i];
      assert ts[|ts| - 1].setNumber in SetNumbers(ts);
      TracksInAbsentSet(front, k);
    }
  }

  /** `Dictionary(grouping: tracks, by: { $0.setNumber })`, adding one track at a time. */
  function GroupBySet(ts: seq<Track>): map<Option<int>, seq<Track>> {
    if ts == [] then map[]
    else
      var g := GroupBySet(ts[..|ts| - 1]);
      var t := ts[|ts| - 1];
      g[t.setNumber := (if t.setNumber in g then g[t.setNumber] else []) + [t]]
  }

  /** The set numbers that occur among `ts`. */
  ghost function SetNumbers(ts: seq<Track>): set<Option<int>> {
    set i | 0 <= i < |ts| :: ts[i].setNumber
  }

  /**
   * Grouping makes one group per set number that occurs, and each group
   * holds exactly that set's tracks in their original order.
   */
  lemma {:induction false} GroupBySetSpec(ts: seq<Track>)
    ensures GroupBySet(ts).Keys == SetNumbers(ts)
    ensures forall k :: k in GroupBySet(ts) ==> GroupBySet(ts)[k] == TracksInSet(ts, k)
  {
    if ts != [] {
      var front := ts[..|ts| - 1];
      var t := ts[|ts| - 1];
      GroupBySetSpec(front);
      var g := GroupBySet(front);
      assert forall i :: 0 <= i < |ts| - 1 ==> ts[i] == front[i];
      assert SetNumbers(ts) == SetNumbers(front) + {t.setNumber} by {
        forall k | k in SetNumbers(ts) ensures k in SetNumbers(front) + {t.setNumber} {
          var i :| 0 <= i < |ts| && ts[i].setNumber == k;
          if i < |ts| - 1 { assert front[i].setNumber == k; }
        }
      }
      forall k | k in GroupBySet(ts)
        ensures GroupBySet(ts)[k] == TracksInSet(ts, k)
      {
        if k !in g {
          TracksInAbsentSet(front, k);
        }
      }
    }
  }

  /** `tracksBySet`: every track sits in the group of its own set number, and nowhere else. */
  function TracksBySet(s: Show): (g: map<Option<int>, seq<Track>>)
    ensures forall i :: 0 <= i < |s.tracks| ==>
              s.tracks[i].setNumber in g && s.tracks[i] in g[s.tracks[i].setNumber]
    ensures forall k, t :: k in g && t in g[k] ==> t.setNumber == k && t in s.tracks
  {
    GroupBySetSpec(s.tracks);
    var g := GroupBySet(s.tracks);
    assert forall i :: 0 <= i < |s.tracks| ==> s.tracks[i].setNumber in SetNumbers(s.tracks);
    g
  }

  /** `totalDuration`: the sum of the track durations, 0 for a show without tracks. */
  function TotalDuration(s: Show): (total: real)
    ensures s.tracks == [] ==> total == 0.0
    ensures (forall i :: 0 <= i < |s.tracks| ==> s.tracks[i].duration >= 0.0) ==> total >= 0.0
  {
    SumDurations(s.tracks)
  }

  /**
   * `totalDurationFormatted`: "h:mm:ss" when there is at least one whole hour,
   * otherwise "m:ss". The fields read back as hours, minutes and seconds of
   * the truncated total.
   */
  function TotalDurationFormatted(s: Show): (r: string)
    ensures var n := Truncate(TotalDuration(s));
            var parts := Split(r, ':');
            (|parts| == 3 <==> Quot(n, 3600) > 0) &&
            (|parts| == 2 <==> Quot(n, 3600) <= 0) &&
            (forall i :: 0 <= i < |parts| ==> ParseInt(parts[i]).Some?)
    ensures var n := Truncate(TotalDuration(s));
            var parts := Split(r, ':');
            n >= 0 && |parts| == 3 ==>
              ParseInt(parts[0]).value * 3600 + ParseInt(parts[1]).value * 60 + ParseInt(parts[2]).value == n &&
              0 <= ParseInt(parts[1]).value < 60 && 0 <= ParseInt(parts[2]).value < 60 &&
              |parts[1]| == 2 && |parts[2]| == 2
    ensures var n := Truncate(TotalDuration(s));
            var parts := Split(r, ':');
            n >= 0 && |parts| == 2 ==>
              ParseInt(parts[0]).value * 60 + ParseInt(parts[1]).value == n &&
              0 <= ParseInt(parts[1]).value < 60 && |parts[1]| == 2
  {
    var n := Truncate(TotalDuration(s));
    var hours, minutes, seconds := Quot(n, 3600), Quot(Rem(n, 3600), 60), Rem(n, 60);
    HoursMinutesSeconds(n);
    if hours > 0 then
      ThreeFieldLabel(hours, minutes, seconds);
      IntToString(hours) + ":" + Pad2(minutes) + ":" + Pad2(seconds)
    else
      TwoFieldLabel(minutes, seconds);
      IntToString(minutes) + ":" + Pad2(seconds)
  }
}
