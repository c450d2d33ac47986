/** The `Track` value type (Track.swift). */
module Tracks {
  import opened Wrappers
  import opened Arithmetic
  import opened Text

  /** One playable audio item; `duration` is in seconds, 0 when unknown. */
  datatype Track = Track(
    id: string,
    title: string,
    duration: real,
    audioURL: string,
    trackNumber: int,
    concertId: string,
    setNumber: Option<int>)

  /** The memberwise initializer that leaves `setNumber` at its default. */
  function NewTrack(id: string, title: string, duration: real, audioURL: string,
                    trackNumber: int, concertId: string): (t: Track)
    ensures t.setNumber == None
    ensures t.id == id && t.title == title && t.duration == duration
    ensures t.audioURL == audioURL && t.trackNumber == trackNumber && t.concertId == concertId
  {
    Track(id, title, duration, audioURL, trackNumber, concertId, None)
  }

  /** Track's `==`: two tracks are the same track when their ids are. */
  predicate SameTrack(a: Track, b: Track) {
    a.id == b.id
  }

  /** `==` on tracks looks at the id only, and is an equivalence. */
  lemma SameTrackIsIdEquality(a: Track, b: Track, c: Track)
    ensures SameTrack(a, b) <==> a.id == b.id
    ensures SameTrack(a, a)
    ensures SameTrack(a, b) ==> SameTrack(b, a)
    ensures SameTrack(a, b) && SameTrack(b, c) ==> SameTrack(a, c)
    ensures forall title, d, url, n, sn :: SameTrack(a.(title := title, duration := d, audioURL := url,
                                                          trackNumber := n, setNumber := sn), a)
  {
  }

  /**
   * `formattedDuration`: "%d:%02d" of the whole minutes and the leftover
   * seconds of `Int(duration)`. Reading the two fields back gives the
   * truncated duration again.
   */
  function FormattedDuration(t: Track): (r: string)
    ensures var n := Truncate(t.duration);
            var parts := Split(r, ':');
            |parts| == 2 && |parts[1]| >= 2 &&
            ParseInt(parts[0]).Some? && ParseInt(parts[1]).Some? &&
            ParseInt(parts[0]).value * 60 + ParseInt(parts[1]).value == n &&
            (n >= 0 ==> 0 <= ParseInt(parts[1]).value < 60 && |parts[1]| == 2)
  {
    var n := Truncate(t.duration);
    var minutes, seconds := Quot(n, 60), Rem(n, 60);
    QuotRem(n, 60);
    TwoFieldLabel(minutes, seconds);
    IntToString(minutes) + ":" + Pad2(seconds)
  }

  /** `durationFormatted`, the alias the views use. */
  function DurationFormatted(t: Track): (r: string)
    ensures r == FormattedDuration(t)
  {
    FormattedDuration(t)
  }

  /** `tracks.reduce(0) { $0 + $1.duration }`. */
  function SumDurations(ts: seq<Track>): (total: real)
    ensures ts == [] ==> total == 0.0
    ensures (forall i :: 0 <= i < |ts| ==> ts[i].duration >= 0.0) ==> total >= 0.0
  {
    if ts == [] then 0.0 else SumDurations(ts[..|ts| - 1]) + ts[|ts| - 1].duration
  }

  lemma {:induction false} SumDurationsAppend(a: seq<Track>, b: seq<Track>)
    ensures SumDurations(a + b) == SumDurations(a) + SumDurations(b)
    decreases |b|
  {
    if b == [] {
      assert a + b == a;
    } else {
      assert (a + b)[..|a + b| - 1] == a + b[..|b| - 1];
      SumDurationsAppend(a, b[..|b| - 1]);
    }
  }

  /** `tracks.firstIndex(where: { $0.id == id })`. */
  function IndexOfTrack(ts: seq<Track>, id: string): (r: Option<nat>)
    ensures r.Some? ==> r.value < |ts| && ts[r.value].id == id &&
                        forall j :: 0 <= j < r.value ==> ts[j].id != id
    ensures r.None? <==> forall j :: 0 <= j < |ts| ==> ts[j].id != id
  {
    if ts == [] then None
    else if ts[0].id == id then Some(0)
    else match IndexOfTrack(ts[1..], id)
      case None => None
      case Some(k) => Some(k + 1)
  }
}
