/**
 * The playback controller (MusicPlayer.swift). Every operation is first a
 * function from one snapshot of the player's published state to the next;
 * the `PlayerViewModel` class below changes its fields exactly as those
 * functions say. The media player is reduced to what it was opened on.
 */
module Player {
  import opened Wrappers
  import opened Tracks
  import opened Concerts
  import opened Defaults
  import opened Persistence

  /** The recently-played list keeps at most this many concerts. */
  const MaxRecentlyPlayed := 10

  /** Restarting the current track wins over going back after this many seconds. */
  const RestartThreshold: real := 3.0

  /** What the media player was opened on. */
  datatype MediaSource = LocalFile(path: string) | RemoteStream(url: string)

  datatype PlayerState = PlayerState(
    currentTrack: Option<Track>,
    currentConcert: Option<Concert>,
    isPlaying: bool,
    currentTime: real,
    duration: real,
    isShowingPlayer: bool,
    isFullScreenPlayer: bool,
    isDownloaded: bool,
    recentlyPlayed: seq<Concert>,
    isDownloading: bool,
    player: Option<MediaSource>)

  /** The state right after `init()`, given the history loaded from storage. */
  function Initial(history: seq<Concert>): (s: PlayerState)
    ensures s.currentTrack.None? && s.currentConcert.None? && s.player.None?
    ensures !s.isPlaying && !s.isShowingPlayer && !s.isDownloaded && s.recentlyPlayed == history
  {
    PlayerState(None, None, false, 0.0, 0.0, false, false, false, history, false, None)
  }

  // ---------------------------------------------------------------------
  // Recently played
  // ---------------------------------------------------------------------

  predicate DistinctIds(h: seq<Concert>) {
    forall i, j :: 0 <= i < j < |h| ==> h[i].id != h[j].id
  }

  function IdsOf(h: seq<Concert>): set<string> {
    set c | c in h :: c.id
  }

  lemma {:induction false} DistinctIdsCount(h: seq<Concert>)
    requires DistinctIds(h)
    ensures |IdsOf(h)| == |h|
  {
    if h != [] {
      DistinctIdsCount(h[1..]);
      assert IdsOf(h) == {h[0].id} + IdsOf(h[1..]);
      assert h[0].id !in IdsOf(h[1..]);
    }
  }

  /** `removeAll { $0.id == id }`: the entries with another id, in their order. */
  function WithoutConcert(h: seq<Concert>, id: string): (r: seq<Concert>)
    ensures |r| <= |h|
  {
    if h == [] then []
    else if h[0].id == id then WithoutConcert(h[1..], id)
    else [h[0]] + WithoutConcert(h[1..], id)
  }

  /** Removal keeps exactly the entries with another id. */
  lemma {:induction false} WithoutConcertMembers(h: seq<Concert>, id: string)
    ensures forall c :: c in WithoutConcert(h, id) <==> c in h && c.id != id
  {
    if h != [] {
      WithoutConcertMembers(h[1..], id);
      assert forall c :: c in h <==> c == h[0] || c in h[1..];
    }
  }

  lemma DistinctCons(x: Concert, rest: seq<Concert>)
    requires DistinctIds(rest) && x.id !in IdsOf(rest)
    ensures DistinctIds([x] + rest)
  {
    var l := [x] + rest;
    forall i, j | 0 <= i < j < |l| ensures l[i].id != l[j].id {
      if i == 0 {
        assert l[j] == rest[j - 1] && rest[j - 1] in rest;
      } else {
        assert l[i] == rest[i - 1] && l[j] == rest[j - 1];
      }
    }
  }

  lemma WithoutConcertIds(h: seq<Concert>, id: string)
    ensures IdsOf(WithoutConcert(h, id)) == IdsOf(h) - {id}
  {
    var r := WithoutConcert(h, id);
    WithoutConcertMembers(h, id);
    forall x | x in IdsOf(h) - {id} ensures x in IdsOf(r) {
      var c :| c in h && c.id == x;
      assert c in r;
    }
  }

  lemma {:induction false} WithoutConcertAbsent(h: seq<Concert>, id: string)
    requires id !in IdsOf(h)
    ensures WithoutConcert(h, id) == h
  {
    if h != [] {
      assert h[0] in h && forall c :: c in h[1..] ==> c in h;
      WithoutConcertAbsent(h[1..], id);
      assert h == [h[0]] + h[1..];
    }
  }

  lemma {:induction false} WithoutConcertDistinct(h: seq<Concert>, id: string)
    requires DistinctIds(h)
    ensures DistinctIds(WithoutConcert(h, id))
    ensures |WithoutConcert(h, id)| == if id in IdsOf(h) then |h| - 1 else |h|
  {
    if h != [] {
      var tail := h[1..];
      assert DistinctIds(tail) by {
        forall i, j | 0 <= i < j < |tail| ensures tail[i].id != tail[j].id {
          assert tail[i] == h[i + 1] && tail[j] == h[j + 1];
        }
      }
      assert h[0].id !in IdsOf(tail) by {
        forall c | c in tail ensures c.id != h[0].id {
          var k :| 0 <= k < |tail| && tail[k] == c;
          assert h[k + 1] == c;
        }
      }
      assert IdsOf(h) == {h[0].id} + IdsOf(tail) by {
        assert forall c :: c in h <==> c == h[0] || c in tail;
      }
      WithoutConcertDistinct(tail, id);
      if h[0].id != id {
        WithoutConcertIds(tail, id);
        DistinctCons(h[0], WithoutConcert(tail, id));
      }
    }
  }

  /** Removing an id removes exactly that id, keeps a list without it as it is, and keeps ids distinct. */
  lemma WithoutConcertProperties(h: seq<Concert>, id: string)
    ensures IdsOf(WithoutConcert(h, id)) == IdsOf(h) - {id}
    ensures id !in IdsOf(h) ==> WithoutConcert(h, id) == h
    ensures DistinctIds(h) ==>
              DistinctIds(WithoutConcert(h, id)) &&
              |WithoutConcert(h, id)| == if id in IdsOf(h) then |h| - 1 else |h|
  {
    WithoutConcertIds(h, id);
    if id !in IdsOf(h) {
      WithoutConcertAbsent(h, id);
    }
    if DistinctIds(h) {
      WithoutConcertDistinct(h, id);
    }
  }

  /** `addToRecentlyPlayed`: drop the concert's earlier entry, put it first, keep the first ten. */
  function RecordPlay(h: seq<Concert>, c: Concert): seq<Concert> {
    var l := [c] + WithoutConcert(h, c.id);
    if |l| > MaxRecentlyPlayed then l[..MaxRecentlyPlayed] else l
  }

  function Min(a: int, b: int): int {
    if a < b then a else b
  }

  lemma RecordPlayShape(h: seq<Concert>, c: Concert)
    ensures var r := RecordPlay(h, c);
            1 <= |r| <= MaxRecentlyPlayed && r[0] == c &&
            r[1..] == WithoutConcert(h, c.id)[..|r| - 1] &&
            (forall i :: 1 <= i < |r| ==> r[i] in h && r[i].id != c.id) &&
            IdsOf(r) <= IdsOf(h) + {c.id}
  {
    var w := WithoutConcert(h, c.id);
    var l := [c] + w;
    var r := RecordPlay(h, c);
    WithoutConcertMembers(h, c.id);
    assert r == l[..|r|];
    assert r[1..] == w[..|r| - 1];
    forall i | 1 <= i < |r| ensures r[i] in h && r[i].id != c.id {
      assert r[i] == w[i - 1] && w[i - 1] in w;
    }
    forall x | x in IdsOf(r) ensures x in IdsOf(h) + {c.id} {
      var y :| y in r && y.id == x;
      var i :| 0 <= i < |r| && r[i] == y;
      if i > 0 {
        assert r[i] in h;
      }
    }
  }

  lemma RecordPlayDistinct(h: seq<Concert>, c: Concert)
    requires DistinctIds(h)
    ensures var r := RecordPlay(h, c);
            DistinctIds(r) &&
            |r| == Min(MaxRecentlyPlayed, if c.id in IdsOf(h) then |h| else |h| + 1)
  {
    var w := WithoutConcert(h, c.id);
    var r := RecordPlay(h, c);
    WithoutConcertMembers(h, c.id);
    WithoutConcertDistinct(h, c.id);
    assert r == ([c] + w)[..|r|];
    forall i, j | 0 <= i < j < |r| ensures r[i].id != r[j].id {
      assert r[j] == w[j - 1] && w[j - 1] in w;
      if i > 0 {
        assert r[i] == w[i - 1];
      }
    }
  }

  /**
   * The played concert comes first, the rest is the old list without it in
   * its old order, at most ten entries remain, and a list without repeated
   * ids keeps none.
   */
  lemma RecordPlayProperties(h: seq<Concert>, c: Concert)
    ensures var r := RecordPlay(h, c);
            1 <= |r| <= MaxRecentlyPlayed && r[0] == c &&
            r[1..] == WithoutConcert(h, c.id)[..|r| - 1] &&
            (forall i :: 1 <= i < |r| ==> r[i] in h && r[i].id != c.id) &&
            IdsOf(r) <= IdsOf(h) + {c.id}
    ensures DistinctIds(h) ==>
              var r := RecordPlay(h, c);
              DistinctIds(r) &&
              |r| == Min(MaxRecentlyPlayed, if c.id in IdsOf(h) then |h| else |h| + 1)
  {
    RecordPlayShape(h, c);
    if DistinctIds(h) {
      RecordPlayDistinct(h, c);
    }
  }


  /** The history after a run of plays of new tracks, starting empty. */
  function HistoryOf(plays: seq<Concert>): seq<Concert> {
    if plays == [] then [] else RecordPlay(HistoryOf(plays[..|plays| - 1]), plays[|plays| - 1])
  }

  lemma SubsetSameSize(a: set<string>, b: set<string>)
    requires a <= b && |a| == |b|
    ensures a == b
  {
    assert b == a + (b - a);
    assert |b - a| == 0;
  }

  /** One play keeps the history's relation to the set `seen` of concert ids played so far. */
  lemma HistoryStep(h: seq<Concert>, c: Concert, seen: set<string>)
    requires DistinctIds(h) && |h| == Min(MaxRecentlyPlayed, |seen|) && IdsOf(h) <= seen
    requires |seen| <= MaxRecentlyPlayed ==> IdsOf(h) == seen
    ensures var r := RecordPlay(h, c);
            DistinctIds(r) && |r| == Min(MaxRecentlyPlayed, |seen + {c.id}|) && IdsOf(r) <= seen + {c.id} &&
            r[0] == c &&
            (|seen + {c.id}| <= MaxRecentlyPlayed ==> IdsOf(r) == seen + {c.id})
  {
    var r := RecordPlay(h, c);
    RecordPlayProperties(h, c);
    DistinctIdsCount(h);
    DistinctIdsCount(r);
    if |h| < MaxRecentlyPlayed {
      SubsetSameSize(IdsOf(h), seen);
    }
    if c.id in IdsOf(h) {
      assert seen + {c.id} == seen;
    } else if |h| < MaxRecentlyPlayed {
      assert |seen + {c.id}| == |seen| + 1;
    } else if c.id in seen {
      assert seen + {c.id} == seen;
    } else {
      assert |seen + {c.id}| == |seen| + 1;
    }
    if |seen + {c.id}| <= MaxRecentlyPlayed {
      SubsetSameSize(IdsOf(r), seen + {c.id});
    }
  }

  /**
   * However long the run, the history holds no repeated id, the last
   * concert played is first, and it holds min(10, number of distinct
   * concerts played) entries: while at most ten distinct concerts were
   * played, none of them is missing.
   */
  lemma {:induction false} HistoryBounded(plays: seq<Concert>)
    ensures var h := HistoryOf(plays);
            DistinctIds(h) && |h| == Min(MaxRecentlyPlayed, |IdsOf(plays)|) &&
            IdsOf(h) <= IdsOf(plays) &&
            (plays != [] ==> h[0] == plays[|plays| - 1]) &&
            (|IdsOf(plays)| <= MaxRecentlyPlayed ==> IdsOf(h) == IdsOf(plays))
  {
    if plays != [] {
      var front := plays[..|plays| - 1];
      var c := plays[|plays| - 1];
      HistoryBounded(front);
      assert IdsOf(plays) == IdsOf(front) + {c.id} by {
        assert plays == front + [c];
      }
      HistoryStep(HistoryOf(front), c, IdsOf(front));
    }
  }

  // ---------------------------------------------------------------------
  // Transport
  // ---------------------------------------------------------------------

  /** `currentTrack?.id == track.id`. */
  predicate IsCurrent(s: PlayerState, track: Track) {
    s.currentTrack.Some? && s.currentTrack.value.id == track.id
  }

  /** `togglePlayPause()`: flips the flag, with or without a current track. */
  function AfterToggle(s: PlayerState): PlayerState {
    s.(isPlaying := !s.isPlaying)
  }

  lemma ToggleTwice(s: PlayerState)
    ensures AfterToggle(s).isPlaying == !s.isPlaying
    ensures AfterToggle(AfterToggle(s)) == s
  {
  }

  /**
   * `play(track:from:)`: the current track toggles; any other track is
   * opened from its cached file when there is one, else streamed, and the
   * concert is recorded. The time is not reset; the duration arrives later.
   */
  function AfterPlay(s: PlayerState, track: Track, concert: Concert, disk: Disk): PlayerState {
    if IsCurrent(s, track) then AfterToggle(s)
    else
      var local := LocalURL(disk, track);
      s.(isDownloaded := local.Some?,
         currentTrack := Some(track),
         currentConcert := Some(concert),
         player := Some(if local.Some? then LocalFile(local.value) else RemoteStream(track.audioURL)),
         isPlaying := true,
         recentlyPlayed := RecordPlay(s.recentlyPlayed, concert),
         isShowingPlayer := true)
  }

  lemma PlayProperties(s: PlayerState, track: Track, concert: Concert, disk: Disk)
    ensures IsCurrent(s, track) ==> AfterPlay(s, track, concert, disk) == s.(isPlaying := !s.isPlaying)
    ensures !IsCurrent(s, track) ==>
              var r := AfterPlay(s, track, concert, disk);
              r.currentTrack == Some(track) && r.currentConcert == Some(concert) &&
              r.isPlaying && r.isShowingPlayer &&
              r.isDownloaded == FileExists(disk, track.id) &&
              (r.player == Some(LocalFile(DownloadsDirectory + "/" + FileName(track.id))) <==> FileExists(disk, track.id)) &&
              r.currentTime == s.currentTime && r.duration == s.duration &&
              r.recentlyPlayed[0] == concert && |r.recentlyPlayed| <= MaxRecentlyPlayed &&
              r.recentlyPlayed[1..] == WithoutConcert(s.recentlyPlayed, concert.id)[..|r.recentlyPlayed| - 1] &&
              (DistinctIds(s.recentlyPlayed) ==> DistinctIds(r.recentlyPlayed))
  {
    RecordPlayProperties(s.recentlyPlayed, concert);
  }

  /** `seek(to:)`: no clamping. */
  function AfterSeek(s: PlayerState, time: real): PlayerState {
    s.(currentTime := time)
  }

  function MinReal(a: real, b: real): real {
    if a < b then a else b
  }

  function MaxReal(a: real, b: real): real {
    if a < b then b else a
  }

  /** `skipForward(seconds:)`: nothing without a player. */
  function AfterSkipForward(s: PlayerState, seconds: real): PlayerState {
    if s.player.None? then s else AfterSeek(s, MinReal(s.currentTime + seconds, s.duration))
  }

  /** `skipBackward(seconds:)`. */
  function AfterSkipBackward(s: PlayerState, seconds: real): PlayerState {
    AfterSeek(s, MaxReal(s.currentTime - seconds, 0.0))
  }

  lemma SeekProperties(s: PlayerState, time: real, seconds: real)
    ensures AfterSeek(s, time).currentTime == time && AfterSeek(s, time).(currentTime := s.currentTime) == s
    ensures s.player.None? ==> AfterSkipForward(s, seconds) == s
    ensures s.player.Some? ==>
              var r := AfterSkipForward(s, seconds);
              r.currentTime <= s.duration && r.currentTime <= s.currentTime + seconds &&
              (r.currentTime == s.duration || r.currentTime == s.currentTime + seconds) &&
              r == s.(currentTime := r.currentTime)
    ensures var r := AfterSkipBackward(s, seconds);
            r.currentTime >= 0.0 && r.currentTime >= s.currentTime - seconds &&
            (r.currentTime == 0.0 || r.currentTime == s.currentTime - seconds) &&
            r == s.(currentTime := r.currentTime)
  {
  }

  /** Where the current track sits in the current concert, found by id. */
  function CurrentIndex(s: PlayerState): Option<nat> {
    if s.currentConcert.Some? && s.currentTrack.Some?
    then IndexOfTrack(s.currentConcert.value.tracks, s.currentTrack.value.id)
    else None
  }

  /** `playNextTrack()`: the next track of the concert, or stop and rewind at its end. */
  function AfterNext(s: PlayerState, disk: Disk): PlayerState {
    match CurrentIndex(s)
    case None => s
    case Some(i) =>
      var c := s.currentConcert.value;
      if i + 1 < |c.tracks| then AfterPlay(s, c.tracks[i + 1], c, disk)
      else s.(isPlaying := false, currentTime := 0.0)
  }

  /** `playPreviousTrack()`: restart after three seconds or at the first track, else the previous track. */
  function AfterPrevious(s: PlayerState, disk: Disk): PlayerState {
    match CurrentIndex(s)
    case None => s
    case Some(i) =>
      var c := s.currentConcert.value;
      if s.currentTime > RestartThreshold then AfterSeek(s, 0.0)
      else if i > 0 then AfterPlay(s, c.tracks[i - 1], c, disk)
      else AfterSeek(s, 0.0)
  }

  predicate DistinctTrackIds(ts: seq<Track>) {
    forall i, j :: 0 <= i < j < |ts| ==> ts[i].id != ts[j].id
  }

  /** With the current track at position `i` of a concert whose tracks have distinct ids. */
  predicate At(s: PlayerState, c: Concert, i: nat) {
    s.currentConcert == Some(c) && i < |c.tracks| && s.currentTrack == Some(c.tracks[i]) &&
    DistinctTrackIds(c.tracks)
  }

  lemma IndexAt(s: PlayerState, c: Concert, i: nat)
    requires At(s, c, i)
    ensures CurrentIndex(s) == Some(i)
  {
  }

  /** Next moves to the following track, or stops and rewinds on the last one. */
  lemma NextAdjacency(s: PlayerState, c: Concert, i: nat, disk: Disk)
    requires At(s, c, i)
    ensures i + 1 < |c.tracks| ==>
              var r := AfterNext(s, disk);
              At(r, c, i + 1) && r.isPlaying && r.recentlyPlayed[0] == c
    ensures i + 1 == |c.tracks| ==> AfterNext(s, disk) == s.(isPlaying := false, currentTime := 0.0)
  {
    IndexAt(s, c, i);
    if i + 1 < |c.tracks| {
      RecordPlayProperties(s.recentlyPlayed, c);
    }
  }

  /** Previous restarts after three seconds and on the first track, and otherwise moves back one. */
  lemma PreviousAdjacency(s: PlayerState, c: Concert, i: nat, disk: Disk)
    requires At(s, c, i)
    ensures s.currentTime > RestartThreshold || i == 0 ==> AfterPrevious(s, disk) == s.(currentTime := 0.0)
    ensures s.currentTime <= RestartThreshold && i > 0 ==>
              var r := AfterPrevious(s, disk);
              At(r, c, i - 1) && r.isPlaying && r.recentlyPlayed[0] == c
  {
    IndexAt(s, c, i);
    if s.currentTime <= RestartThreshold && i > 0 {
      RecordPlayProperties(s.recentlyPlayed, c);
    }
  }

  /** Without a current track, or with one the current concert does not hold, next and previous change nothing. */
  lemma NextPreviousOutsideConcert(s: PlayerState, disk: Disk)
    requires s.currentConcert.None? || s.currentTrack.None? ||
             forall k :: 0 <= k < |s.currentConcert.value.tracks| ==>
               s.currentConcert.value.tracks[k].id != s.currentTrack.value.id
    ensures AfterNext(s, disk) == s && AfterPrevious(s, disk) == s
  {
  }

  // ---------------------------------------------------------------------
  // Downloads
  // ---------------------------------------------------------------------

  /** `downloadTrack(_:)`: the transfer's outcome as a flag; `isDownloaded` is raised on success, for any track. */
  function AfterTrackDownload(s: PlayerState, disk: Disk, track: Track, reply: Transfer): (PlayerState, Disk, bool) {
    var (d, r) := Download(disk, track.id, reply);
    var ok := r.Success? && r.value;
    (s.(isDownloading := false, isDownloaded := if ok then true else s.isDownloaded), d, ok)
  }

  /** `downloadConcert(_:)`: every track in turn, whatever the earlier ones gave; true when all gave true. */
  function AfterConcertDownload(s: PlayerState, disk: Disk, tracks: seq<Track>, network: Track -> Transfer)
    : (PlayerState, Disk, bool)
  {
    if tracks == [] then (s, disk, true)
    else
      var (s1, d1, ok1) := AfterConcertDownload(s, disk, tracks[..|tracks| - 1], network);
      var last := tracks[|tracks| - 1];
      var (s2, d2, ok2) := AfterTrackDownload(s1, d1, last, network(last));
      (s2, d2, ok1 && ok2)
  }

  /** `isConcertDownloaded(_:)`: every track is cached (so a concert without tracks is). */
  function ConcertDownloaded(disk: Disk, tracks: seq<Track>): (r: bool)
    ensures r <==> forall i :: 0 <= i < |tracks| ==> FileExists(disk, tracks[i].id)
  {
    tracks == [] || (FileExists(disk, tracks[0].id) && ConcertDownloaded(disk, tracks[1..]))
  }

  /** 200 reply from the network. */
  predicate Delivers(reply: Transfer) {
    reply.Transferred? && reply.statusCode == 200
  }

  /**
   * A concert download only adds files, and only its tracks' files;
   * afterwards every track whose reply was 200 is cached, even after an
   * earlier failure; without the documents directory nothing changes.
   */
  lemma {:induction false} ConcertDownloadFiles(s: PlayerState, disk: Disk, tracks: seq<Track>,
                                                network: Track -> Transfer)
    ensures var (s', d', ok) := AfterConcertDownload(s, disk, tracks, network);
            d'.documentsAvailable == disk.documentsAvailable &&
            (forall id :: FileExists(disk, id) ==> FileExists(d', id)) &&
            (forall id :: (forall i :: 0 <= i < |tracks| ==> tracks[i].id != id) ==>
                            FileExists(d', id) == FileExists(disk, id)) &&
            (disk.documentsAvailable ==>
               forall i :: 0 <= i < |tracks| && Delivers(network(tracks[i])) ==> FileExists(d', tracks[i].id)) &&
            (!disk.documentsAvailable ==> d' == disk)
    decreases |tracks|
  {
    if tracks != [] {
      var front := tracks[..|tracks| - 1];
      var last := tracks[|tracks| - 1];
      ConcertDownloadFiles(s, disk, front, network);
      var (s1, d1, ok1) := AfterConcertDownload(s, disk, front, network);
      DownloadOutcome(d1, last.id, network(last));
      assert forall i :: 0 <= i < |front| ==> tracks[i] == front[i];
    }
  }

  /** A track with a true result was cached, so a true concert result means every track is. */
  lemma {:induction false} ConcertDownloadOkCached(s: PlayerState, disk: Disk, tracks: seq<Track>,
                                                   network: Track -> Transfer)
    ensures var (s', d', ok) := AfterConcertDownload(s, disk, tracks, network);
            ok ==> forall i :: 0 <= i < |tracks| ==> FileExists(d', tracks[i].id)
    decreases |tracks|
  {
    if tracks != [] {
      var front := tracks[..|tracks| - 1];
      var last := tracks[|tracks| - 1];
      ConcertDownloadOkCached(s, disk, front, network);
      var (s1, d1, ok1) := AfterConcertDownload(s, disk, front, network);
      DownloadOutcome(d1, last.id, network(last));
      var (s', d', ok) := AfterConcertDownload(s, disk, tracks, network);
      if ok {
        forall i | 0 <= i < |tracks| ensures FileExists(d', tracks[i].id) {
          if i < |front| {
            assert tracks[i] == front[i] && FileExists(d1, front[i].id);
          }
        }
      }
    }
  }

  /** With the documents directory, when every track is cached or delivered the result is true. */
  lemma {:induction false} ConcertDownloadAllOk(s: PlayerState, disk: Disk, tracks: seq<Track>,
                                                network: Track -> Transfer)
    requires forall i :: 0 <= i < |tracks| ==>
               disk.documentsAvailable && (FileExists(disk, tracks[i].id) || Delivers(network(tracks[i])))
    ensures AfterConcertDownload(s, disk, tracks, network).2
    decreases |tracks|
  {
    if tracks != [] {
      var front := tracks[..|tracks| - 1];
      var last := tracks[|tracks| - 1];
      assert forall i :: 0 <= i < |front| ==> front[i] == tracks[i];
      ConcertDownloadAllOk(s, disk, front, network);
      ConcertDownloadFiles(s, disk, front, network);
      var (s1, d1, ok1) := AfterConcertDownload(s, disk, front, network);
      DownloadOutcome(d1, last.id, network(last));
    }
  }

  /** For distinct track ids, a true result means every track was cached before or delivered. */
  lemma {:induction false} ConcertDownloadOkOnlyIf(s: PlayerState, disk: Disk, tracks: seq<Track>,
                                                   network: Track -> Transfer)
    requires DistinctTrackIds(tracks)
    requires AfterConcertDownload(s, disk, tracks, network).2
    ensures forall i :: 0 <= i < |tracks| ==>
              disk.documentsAvailable && (FileExists(disk, tracks[i].id) || Delivers(network(tracks[i])))
    decreases |tracks|
  {
    if tracks != [] {
      var front := tracks[..|tracks| - 1];
      var last := tracks[|tracks| - 1];
      assert forall i :: 0 <= i < |front| ==> front[i] == tracks[i];
      assert forall i :: 0 <= i < |front| ==> front[i].id != last.id;
      var (s1, d1, ok1) := AfterConcertDownload(s, disk, front, network);
      assert ok1;
      ConcertDownloadOkOnlyIf(s, disk, front, network);
      ConcertDownloadFiles(s, disk, front, network);
      DownloadOutcome(d1, last.id, network(last));
    }
  }

  /**
   * The concert result is true when each track was cached or delivered, and
   * (for distinct ids) only then; a true result means the concert is cached.
   */
  lemma ConcertDownloadResult(s: PlayerState, disk: Disk, tracks: seq<Track>, network: Track -> Transfer)
    ensures var (s', d', ok) := AfterConcertDownload(s, disk, tracks, network);
            ((forall i :: 0 <= i < |tracks| ==>
                disk.documentsAvailable && (FileExists(disk, tracks[i].id) || Delivers(network(tracks[i])))) ==> ok) &&
            (ok && DistinctTrackIds(tracks) ==>
               forall i :: 0 <= i < |tracks| ==>
                 disk.documentsAvailable && (FileExists(disk, tracks[i].id) || Delivers(network(tracks[i])))) &&
            (ok ==> ConcertDownloaded(d', tracks))
  {
    var (s', d', ok) := AfterConcertDownload(s, disk, tracks, network);
    ConcertDownloadOkCached(s, disk, tracks, network);
    if forall i :: 0 <= i < |tracks| ==>
         disk.documentsAvailable && (FileExists(disk, tracks[i].id) || Delivers(network(tracks[i]))) {
      ConcertDownloadAllOk(s, disk, tracks, network);
    }
    if ok && DistinctTrackIds(tracks) {
      ConcertDownloadOkOnlyIf(s, disk, tracks, network);
    }
  }


  /** `deleteDownload(for:)`: the flag drops only when the track is the current one. */
  function AfterDeleteDownload(s: PlayerState, disk: Disk, track: Track): (PlayerState, Disk) {
    (if IsCurrent(s, track) then s.(isDownloaded := false) else s, Delete(disk, track.id))
  }

  /** `deleteAllDownloads(for:)`. */
  function AfterDeleteAll(s: PlayerState, disk: Disk, tracks: seq<Track>): (PlayerState, Disk) {
    if tracks == [] then (s, disk)
    else
      var (s1, d1) := AfterDeleteAll(s, disk, tracks[..|tracks| - 1]);
      AfterDeleteDownload(s1, d1, tracks[|tracks| - 1])
  }

  lemma {:induction false} DeleteAllFiles(s: PlayerState, disk: Disk, tracks: seq<Track>)
    ensures var d' := AfterDeleteAll(s, disk, tracks).1;
            (forall i :: 0 <= i < |tracks| ==> !FileExists(d', tracks[i].id)) &&
            (forall id :: (forall i :: 0 <= i < |tracks| ==> tracks[i].id != id) ==>
                            FileExists(d', id) == FileExists(disk, id))
    decreases |tracks|
  {
    if tracks != [] {
      var front := tracks[..|tracks| - 1];
      var last := tracks[|tracks| - 1];
      DeleteAllFiles(s, disk, front);
      DeleteOutcome(AfterDeleteAll(s, disk, front).1, last.id);
      assert forall i :: 0 <= i < |front| ==> tracks[i] == front[i];
    }
  }

  lemma {:induction false} DeleteAllState(s: PlayerState, disk: Disk, tracks: seq<Track>)
    ensures AfterDeleteAll(s, disk, tracks).0 ==
              s.(isDownloaded := if exists i :: 0 <= i < |tracks| && IsCurrent(s, tracks[i])
                                 then false else s.isDownloaded)
    decreases |tracks|
  {
    if tracks != [] {
      var front := tracks[..|tracks| - 1];
      DeleteAllState(s, disk, front);
      assert forall i :: 0 <= i < |front| ==> tracks[i] == front[i];
      if exists i :: 0 <= i < |front| && IsCurrent(s, front[i]) {
        var i :| 0 <= i < |front| && IsCurrent(s, front[i]);
        assert IsCurrent(s, tracks[i]);
      }
      if exists i :: 0 <= i < |tracks| && IsCurrent(s, tracks[i]) {
        var i :| 0 <= i < |tracks| && IsCurrent(s, tracks[i]);
        if i < |front| {
          assert IsCurrent(s, front[i]);
        }
      }
    }
  }

  /**
   * Deleting a concert's downloads leaves none of its tracks cached and no
   * other file touched, and lowers `isDownloaded` exactly when the current
   * track is one of them.
   */
  lemma DeleteAllOutcome(s: PlayerState, disk: Disk, tracks: seq<Track>)
    ensures var (s', d') := AfterDeleteAll(s, disk, tracks);
            (forall i :: 0 <= i < |tracks| ==> !FileExists(d', tracks[i].id)) &&
            (forall id :: (forall i :: 0 <= i < |tracks| ==> tracks[i].id != id) ==>
                            FileExists(d', id) == FileExists(disk, id)) &&
            s' == s.(isDownloaded := if exists i :: 0 <= i < |tracks| && IsCurrent(s, tracks[i])
                                     then false else s.isDownloaded) &&
            (tracks != [] ==> !ConcertDownloaded(d', tracks))
  {
    DeleteAllFiles(s, disk, tracks);
    DeleteAllState(s, disk, tracks);
    if tracks != [] {
      assert !FileExists(AfterDeleteAll(s, disk, tracks).1, tracks[0].id);
    }
  }


  // ---------------------------------------------------------------------
  // The view model
  // ---------------------------------------------------------------------

  class PlayerViewModel {
    var currentTrack: Option<Track>
    var currentConcert: Option<Concert>
    var isPlaying: bool
    var currentTime: real
    var duration: real
    var isShowingPlayer: bool
    var isFullScreenPlayer: bool
    var isDownloaded: bool
    var recentlyPlayed: seq<Concert>
    var isDownloading: bool
    var player: Option<MediaSource>
    var queue: seq<Track>
    var queueIndex: int
    const persistence: PersistenceManager

    function State(): PlayerState
      reads this
    {
      PlayerState(currentTrack, currentConcert, isPlaying, currentTime, duration, isShowingPlayer,
                  isFullScreenPlayer, isDownloaded, recentlyPlayed, isDownloading, player)
    }

    /** The stored history is the one on screen. */
    predicate HistorySaved()
      reads this, persistence.defaults
    {
      LoadedRecentlyPlayed(persistence.defaults.values) == recentlyPlayed
    }

    constructor (persistence: PersistenceManager)
      ensures this.persistence == persistence
      ensures State() == Initial(LoadedRecentlyPlayed(persistence.defaults.values))
      ensures queue == [] && queueIndex == 0
      ensures HistorySaved()
    {
      currentTrack, currentConcert := None, None;
      isPlaying, currentTime, duration := false, 0.0, 0.0;
      isShowingPlayer, isFullScreenPlayer, isDownloaded := false, false, false;
      isDownloading, player := false, None;
      queue, queueIndex := [], 0;
      this.persistence := persistence;
      new;
      recentlyPlayed := persistence.LoadRecentlyPlayed();
    }

    method Play(track: Track, concert: Concert)
      modifies this, persistence.defaults
      ensures State() == AfterPlay(old(State()), track, concert, persistence.disk)
      ensures queue == old(queue) && queueIndex == old(queueIndex)
      ensures if IsCurrent(old(State()), track)
              then persistence.defaults.values == old(persistence.defaults.values)
              else persistence.defaults.values ==
                     old(persistence.defaults.values)[RecentlyPlayedKey := Data(ConcertList(recentlyPlayed))] &&
                   HistorySaved()
    {
      if currentTrack.Some? && currentTrack.value.id == track.id {
        TogglePlayPause();
        return;
      }
      var localURL := LocalURL(persistence.disk, track);
      if localURL.Some? {
        PlayFromLocalURL(track, concert, localURL.value);
      } else {
        PlayFromRemoteURL(track, concert);
      }
      AddToRecentlyPlayed(concert);
      isShowingPlayer := true;
    }

    /** The track is cached: play the local file. */
    method PlayFromLocalURL(track: Track, concert: Concert, path: string)
      modifies this
      ensures State() == old(State()).(isDownloaded := true, currentTrack := Some(track),
                                       currentConcert := Some(concert), player := Some(LocalFile(path)),
                                       isPlaying := true)
      ensures queue == old(queue) && queueIndex == old(queueIndex)
    {
      isDownloaded := true;
      currentTrack := Some(track);
      currentConcert := Some(concert);
      PreparePlayer(LocalFile(path));
    }

    /** The track is not cached: stream it from its catalog URL. */
    method PlayFromRemoteURL(track: Track, concert: Concert)
      modifies this
      ensures State() == old(State()).(isDownloaded := false, currentTrack := Some(track),
                                       currentConcert := Some(concert), player := Some(RemoteStream(track.audioURL)),
                                       isPlaying := true)
      ensures queue == old(queue) && queueIndex == old(queueIndex)
    {
      isDownloaded := false;
      currentTrack := Some(track);
      currentConcert := Some(concert);
      PreparePlayer(RemoteStream(track.audioURL));
    }

    /** Opens the media player on `source` and starts it. */
    method PreparePlayer(source: MediaSource)
      modifies this
      ensures State() == old(State()).(player := Some(source), isPlaying := true)
      ensures queue == old(queue) && queueIndex == old(queueIndex)
    {
      player := Some(source);
      isPlaying := true;
    }

    method AddToRecentlyPlayed(concert: Concert)
      modifies this, persistence.defaults
      ensures State() == old(State()).(recentlyPlayed := RecordPlay(old(recentlyPlayed), concert))
      ensures queue == old(queue) && queueIndex == old(queueIndex)
      ensures persistence.defaults.values ==
                old(persistence.defaults.values)[RecentlyPlayedKey := Data(ConcertList(recentlyPlayed))]
      ensures HistorySaved()
    {
      recentlyPlayed := WithoutConcert(recentlyPlayed, concert.id);
      recentlyPlayed := [concert] + recentlyPlayed;
      if |recentlyPlayed| > MaxRecentlyPlayed {
        recentlyPlayed := recentlyPlayed[..MaxRecentlyPlayed];
      }
      persistence.SaveRecentlyPlayed(recentlyPlayed);
    }

    method TogglePlayPause()
      modifies this
      ensures State() == AfterToggle(old(State()))
      ensures queue == old(queue) && queueIndex == old(queueIndex)
    {
      isPlaying := !isPlaying;
    }

    method Seek(time: real)
      modifies this
      ensures State() == AfterSeek(old(State()), time)
      ensures queue == old(queue) && queueIndex == old(queueIndex)
    {
      currentTime := time;
    }

    method SkipForward(seconds: real)
      modifies this
      ensures State() == AfterSkipForward(old(State()), seconds)
      ensures queue == old(queue) && queueIndex == old(queueIndex)
    {
      if player.None? {
        return;
      }
      var newTime := MinReal(currentTime + seconds, duration);
      Seek(newTime);
    }

    method SkipBackward(seconds: real)
      modifies this
      ensures State() == AfterSkipBackward(old(State()), seconds)
      ensures queue == old(queue) && queueIndex == old(queueIndex)
    {
      var newTime := MaxReal(currentTime - seconds, 0.0);
      Seek(newTime);
    }

    method SetQueue(tracks: seq<Track>, index: int)
      modifies this
      ensures queue == tracks && queueIndex == index
      ensures State() == old(State())
    {
      queue := tracks;
      queueIndex := index;
    }

    method PlayNextTrack()
      modifies this, persistence.defaults
      ensures State() == AfterNext(old(State()), persistence.disk)
      ensures queue == old(queue) && queueIndex == old(queueIndex)
      ensures persistence.defaults.values == old(persistence.defaults.values) ||
              (persistence.defaults.values ==
                 old(persistence.defaults.values)[RecentlyPlayedKey := Data(ConcertList(recentlyPlayed))] &&
               HistorySaved())
    {
      if currentConcert.None? || currentTrack.None? {
        return;
      }
      var concert := currentConcert.value;
      var currentIndex := IndexOfTrack(concert.tracks, currentTrack.value.id);
      if currentIndex.None? {
        return;
      }
      if currentIndex.value + 1 < |concert.tracks| {
        Play(concert.tracks[currentIndex.value + 1], concert);
      } else {
        isPlaying := false;
        currentTime := 0.0;
      }
    }

    method PlayPreviousTrack()
      modifies this, persistence.defaults
      ensures State() == AfterPrevious(old(State()), persistence.disk)
      ensures queue == old(queue) && queueIndex == old(queueIndex)
      ensures persistence.defaults.values == old(persistence.defaults.values) ||
              (persistence.defaults.values ==
                 old(persistence.defaults.values)[RecentlyPlayedKey := Data(ConcertList(recentlyPlayed))] &&
               HistorySaved())
    {
      if currentConcert.None? || currentTrack.None? {
        return;
      }
      var concert := currentConcert.value;
      var currentIndex := IndexOfTrack(concert.tracks, currentTrack.value.id);
      if currentIndex.None? {
        return;
      }
      if currentTime > RestartThreshold {
        Seek(0.0);
        return;
      }
      if currentIndex.value > 0 {
        Play(concert.tracks[currentIndex.value - 1], concert);
      } else {
        Seek(0.0);
      }
    }

    /** The item played to its end. */
    method PlayerItemDidPlayToEndTime()
      modifies this, persistence.defaults
      ensures State() == AfterNext(old(State()), persistence.disk)
      ensures queue == old(queue) && queueIndex == old(queueIndex)
    {
      PlayNextTrack();
    }

    /** The media player reported the item's duration. */
    method DurationLoaded(seconds: real)
      modifies this
      ensures State() == old(State()).(duration := seconds)
      ensures queue == old(queue) && queueIndex == old(queueIndex)
    {
      duration := seconds;
    }

    /** The periodic time observer fired. */
    method PositionObserved(seconds: real)
      modifies this
      ensures State() == old(State()).(currentTime := seconds)
      ensures queue == old(queue) && queueIndex == old(queueIndex)
    {
      currentTime := seconds;
    }

    method DownloadTrack(track: Track, reply: Transfer) returns (success: bool)
      modifies this, persistence
      ensures (State(), persistence.disk, success) == AfterTrackDownload(old(State()), old(persistence.disk), track, reply)
      ensures queue == old(queue) && queueIndex == old(queueIndex)
    {
      isDownloading := true;
      var r := persistence.DownloadFile(track.audioURL, track.id, reply);
      isDownloading := false;
      if r.Success? {
        success := r.value;
        if success {
          isDownloaded := true;
        }
      } else {
        success := false;
      }
    }

    method DownloadConcert(concert: Concert, network: Track -> Transfer) returns (allSucceeded: bool)
      modifies this, persistence
      ensures (State(), persistence.disk, allSucceeded) ==
                AfterConcertDownload(old(State()), old(persistence.disk), concert.tracks, network)
      ensures queue == old(queue) && queueIndex == old(queueIndex)
    {
      allSucceeded := true;
      for i := 0 to |concert.tracks|
        invariant (State(), persistence.disk, allSucceeded) ==
                    AfterConcertDownload(old(State()), old(persistence.disk), concert.tracks[..i], network)
        invariant queue == old(queue) && queueIndex == old(queueIndex)
      {
        var track := concert.tracks[i];
        assert concert.tracks[..i + 1][..i] == concert.tracks[..i];
        var success := DownloadTrack(track, network(track));
        if !success {
          allSucceeded := false;
        }
      }
      assert concert.tracks[..|concert.tracks|] == concert.tracks;
    }

    method DeleteDownload(track: Track)
      modifies this, persistence
      ensures (State(), persistence.disk) == AfterDeleteDownload(old(State()), old(persistence.disk), track)
      ensures queue == old(queue) && queueIndex == old(queueIndex)
    {
      persistence.DeleteFile(track.id);
      if currentTrack.Some? && currentTrack.value.id == track.id {
        isDownloaded := false;
      }
    }

    method DeleteAllDownloads(concert: Concert)
      modifies this, persistence
      ensures (State(), persistence.disk) == AfterDeleteAll(old(State()), old(persistence.disk), concert.tracks)
      ensures queue == old(queue) && queueIndex == old(queueIndex)
    {
      for i := 0 to |concert.tracks|
        invariant (State(), persistence.disk) == AfterDeleteAll(old(State()), old(persistence.disk), concert.tracks[..i])
        invariant queue == old(queue) && queueIndex == old(queueIndex)
      {
        assert concert.tracks[..i + 1][..i] == concert.tracks[..i];
        DeleteDownload(concert.tracks[i]);
      }
      assert concert.tracks[..|concert.tracks|] == concert.tracks;
    }
  }
}
