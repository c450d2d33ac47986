/**
 * The playlist list and its persistence (PlaylistViewModel.swift).
 * Playlists are found by id, first match first; a playlist's tracks are
 * kept free of repeated track ids by the add operation.
 */
module PlaylistStore {
  import opened Wrappers
  import opened Tracks
  import opened Concerts
  import opened Playlists
  import opened Defaults

  /** The view model's own storage key (the persistence manager uses "playlists"). */
  const SavedPlaylistsKey := "savedPlaylists"

  /** `firstIndex(where: { $0.id == playlistId })`. */
  function IndexOfPlaylist(ps: seq<Playlist>, id: string): (r: Option<nat>)
    ensures r.Some? ==> r.value < |ps| && ps[r.value].id == id &&
                        forall j :: 0 <= j < r.value ==> ps[j].id != id
    ensures r.None? <==> forall j :: 0 <= j < |ps| ==> ps[j].id != id
  {
    if ps == [] then None
    else if ps[0].id == id then Some(0)
    else match IndexOfPlaylist(ps[1..], id)
      case None => None
      case Some(k) => Some(k + 1)
  }

  /** `contains(where: { $0.id == trackId })`. */
  predicate HasTrack(ts: seq<Track>, trackId: string) {
    exists i :: 0 <= i < |ts| && ts[i].id == trackId
  }

  predicate UniqueTrackIds(ts: seq<Track>) {
    forall i, j :: 0 <= i < j < |ts| ==> ts[i].id != ts[j].id
  }

  /** Every playlist is free of repeated track ids. */
  predicate AllUnique(ps: seq<Playlist>) {
    forall k :: 0 <= k < |ps| ==> UniqueTrackIds(ps[k].tracks)
  }

  /** `tracks.removeAll(where: { $0.id == trackId })`. */
  function WithoutTrack(ts: seq<Track>, trackId: string): (r: seq<Track>)
    ensures |r| <= |ts|
  {
    if ts == [] then []
    else if ts[0].id == trackId then WithoutTrack(ts[1..], trackId)
    else [ts[0]] + WithoutTrack(ts[1..], trackId)
  }

  /** Removal keeps exactly the tracks with another id, and is the identity when none has the id. */
  lemma {:induction false} WithoutTrackMembers(ts: seq<Track>, trackId: string)
    ensures forall t :: t in WithoutTrack(ts, trackId) <==> t in ts && t.id != trackId
    ensures !HasTrack(ts, trackId) ==> WithoutTrack(ts, trackId) == ts
  {
    if ts != [] {
      WithoutTrackMembers(ts[1..], trackId);
      assert ts == [ts[0]] + ts[1..];
      assert forall t :: t in ts <==> t == ts[0] || t in ts[1..];
      if !HasTrack(ts, trackId) {
        assert ts[0].id != trackId;
        assert !HasTrack(ts[1..], trackId) by {
          forall i | 0 <= i < |ts[1..]| ensures ts[1..][i].id != trackId {
            assert ts[1..][i] == ts[i + 1];
          }
        }
      }
    }
  }

  /** Removing tracks keeps the rest in order: it distributes over concatenation. */
  lemma {:induction false} WithoutTrackAppend(a: seq<Track>, b: seq<Track>, trackId: string)
    ensures WithoutTrack(a + b, trackId) == WithoutTrack(a, trackId) + WithoutTrack(b, trackId)
  {
    if a == [] {
      assert a + b == b;
    } else {
      var rest := a[1..] + b;
      assert (a + b)[0] == a[0] && (a + b)[1..] == rest;
      WithoutTrackAppend(a[1..], b, trackId);
      if a[0].id == trackId {
        assert WithoutTrack(a + b, trackId) == WithoutTrack(rest, trackId);
        assert WithoutTrack(a, trackId) == WithoutTrack(a[1..], trackId);
      } else {
        assert WithoutTrack(a + b, trackId) == [a[0]] + WithoutTrack(rest, trackId);
        assert WithoutTrack(a, trackId) == [a[0]] + WithoutTrack(a[1..], trackId);
      }
    }
  }

  lemma {:induction false} WithoutTrackUnique(ts: seq<Track>, trackId: string)
    requires UniqueTrackIds(ts)
    ensures UniqueTrackIds(WithoutTrack(ts, trackId))
  {
    if ts != [] {
      var tail := ts[1..];
      assert UniqueTrackIds(tail) by {
        forall i, j | 0 <= i < j < |tail| ensures tail[i].id != tail[j].id {
          assert tail[i] == ts[i + 1] && tail[j] == ts[j + 1];
        }
      }
      WithoutTrackUnique(tail, trackId);
      var rest := WithoutTrack(tail, trackId);
      if ts[0].id != trackId {
        WithoutTrackMembers(tail, trackId);
        var r := [ts[0]] + rest;
        forall i, j | 0 <= i < j < |r| ensures r[i].id != r[j].id {
          if i == 0 {
            assert r[j] == rest[j - 1];
            assert rest[j - 1] in rest;
            assert r[j] in tail;
            var k :| 0 <= k < |tail| && tail[k] == r[j];
            assert ts[k + 1] == r[j];
          } else {
            assert r[i] == rest[i - 1] && r[j] == rest[j - 1];
          }
        }
      }
    }
  }

  /** `createPlaylist(name:)`, given the new UUID string and the creation time. */
  function AfterCreate(ps: seq<Playlist>, name: string, id: string, created: Date): (r: seq<Playlist>)
    ensures |r| == |ps| + 1 && r[..|ps|] == ps
    ensures r[|ps|].name == name && r[|ps|].tracks == [] && r[|ps|].id == id
  {
    ps + [Playlist(id, name, [], None, created)]
  }

  /** `addTrackToPlaylist(track:playlistId:)`. */
  function AfterAddTrack(ps: seq<Playlist>, track: Track, playlistId: string): seq<Playlist> {
    match IndexOfPlaylist(ps, playlistId)
    case None => ps
    case Some(i) =>
      if HasTrack(ps[i].tracks, track.id) then ps
      else ps[i := ps[i].(tracks := ps[i].tracks + [track])]
  }

  /** `removeTrackFromPlaylist(trackId:playlistId:)`. */
  function AfterRemoveTrack(ps: seq<Playlist>, trackId: string, playlistId: string): seq<Playlist> {
    match IndexOfPlaylist(ps, playlistId)
    case None => ps
    case Some(i) => ps[i := ps[i].(tracks := WithoutTrack(ps[i].tracks, trackId))]
  }

  /** `deletePlaylist(playlistId:)`. */
  function AfterDelete(ps: seq<Playlist>, playlistId: string): (r: seq<Playlist>)
    ensures |r| <= |ps|
  {
    if ps == [] then []
    else
      var rest := AfterDelete(ps[1..], playlistId);
      if ps[0].id == playlistId then rest else [ps[0]] + rest
  }

  /**
   * Adding appends the track to the first playlist with that id unless a
   * track with its id is there; an unknown playlist id changes nothing;
   * adding twice is adding once; tracks stay unique by id.
   */
  lemma AddTrackProperties(ps: seq<Playlist>, track: Track, playlistId: string)
    ensures IndexOfPlaylist(ps, playlistId).None? ==> AfterAddTrack(ps, track, playlistId) == ps
    ensures IndexOfPlaylist(ps, playlistId).Some? ==>
              var i := IndexOfPlaylist(ps, playlistId).value;
              var r := AfterAddTrack(ps, track, playlistId);
              |r| == |ps| &&
              (forall k :: 0 <= k < |ps| && k != i ==> r[k] == ps[k]) &&
              r[i].id == ps[i].id && r[i].name == ps[i].name &&
              (HasTrack(ps[i].tracks, track.id) ==> r == ps) &&
              (!HasTrack(ps[i].tracks, track.id) ==> r[i].tracks == ps[i].tracks + [track])
    ensures AfterAddTrack(AfterAddTrack(ps, track, playlistId), track, playlistId) == AfterAddTrack(ps, track, playlistId)
    ensures AllUnique(ps) ==> AllUnique(AfterAddTrack(ps, track, playlistId))
  {
    match IndexOfPlaylist(ps, playlistId)
    case None =>
    case Some(i) =>
      if !HasTrack(ps[i].tracks, track.id) {
        var r := AfterAddTrack(ps, track, playlistId);
        var ts := r[i].tracks;
        assert ts[|ps[i].tracks|].id == track.id;
        assert HasTrack(ts, track.id);
        assert IndexOfPlaylist(r, playlistId) == Some(i) by {
          assert forall j :: 0 <= j < i ==> r[j] == ps[j];
        }
        if AllUnique(ps) {
          forall a, b | 0 <= a < b < |ts| ensures ts[a].id != ts[b].id {
            if b == |ps[i].tracks| {
              assert ts[a] == ps[i].tracks[a];
            }
          }
        }
      }
  }

  /**
   * Removing drops every track with that id from the first playlist with
   * the playlist id, keeps its other tracks in order and every other
   * playlist as it was; an unknown playlist id changes nothing.
   */
  lemma RemoveTrackProperties(ps: seq<Playlist>, trackId: string, playlistId: string)
    ensures IndexOfPlaylist(ps, playlistId).None? ==> AfterRemoveTrack(ps, trackId, playlistId) == ps
    ensures IndexOfPlaylist(ps, playlistId).Some? ==>
              var i := IndexOfPlaylist(ps, playlistId).value;
              var r := AfterRemoveTrack(ps, trackId, playlistId);
              |r| == |ps| &&
              (forall k :: 0 <= k < |ps| && k != i ==> r[k] == ps[k]) &&
              !HasTrack(r[i].tracks, trackId) &&
              (forall t :: t in r[i].tracks <==> t in ps[i].tracks && t.id != trackId) &&
              r[i].id == ps[i].id && r[i].name == ps[i].name
    ensures AllUnique(ps) ==> AllUnique(AfterRemoveTrack(ps, trackId, playlistId))
  {
    match IndexOfPlaylist(ps, playlistId)
    case None =>
    case Some(i) =>
      var r := AfterRemoveTrack(ps, trackId, playlistId);
      WithoutTrackMembers(ps[i].tracks, trackId);
      forall k | 0 <= k < |r[i].tracks| ensures r[i].tracks[k].id != trackId {
        assert r[i].tracks[k] in r[i].tracks;
      }
      if AllUnique(ps) {
        WithoutTrackUnique(ps[i].tracks, trackId);
      }
  }

  /**
   * Deleting keeps exactly the playlists with another id, so none with that
   * id is left; an unknown id changes nothing.
   */
  lemma {:induction false} DeleteProperties(ps: seq<Playlist>, playlistId: string)
    ensures forall p :: p in AfterDelete(ps, playlistId) <==> p in ps && p.id != playlistId
    ensures IndexOfPlaylist(AfterDelete(ps, playlistId), playlistId).None?
    ensures IndexOfPlaylist(ps, playlistId).None? ==> AfterDelete(ps, playlistId) == ps
  {
    if ps != [] {
      DeleteProperties(ps[1..], playlistId);
      assert forall p :: p in ps <==> p == ps[0] || p in ps[1..];
      assert ps == [ps[0]] + ps[1..];
    }
    var r := AfterDelete(ps, playlistId);
    assert forall j :: 0 <= j < |r| ==> r[j] in r;
  }

  /** Deleting keeps the remaining playlists in their order: it distributes over concatenation. */
  lemma {:induction false} DeleteKeepsOrder(a: seq<Playlist>, b: seq<Playlist>, playlistId: string)
    ensures AfterDelete(a + b, playlistId) == AfterDelete(a, playlistId) + AfterDelete(b, playlistId)
  {
    if a != [] {
      DeleteKeepsOrder(a[1..], b, playlistId);
      var ab := a + b;
      assert ab[0] == a[0] && ab[1..] == a[1..] + b;

    } else {
      assert a + b == b;
    }
  }

  /** `loadPlaylists()`: the stored list when it decodes, else the list as it was. */
  function LoadedOr(values: map<string, Stored>, current: seq<Playlist>): (r: seq<Playlist>)
    ensures DataFor(values, SavedPlaylistsKey).None? ==> r == current
    ensures DataFor(values, SavedPlaylistsKey).Some? &&
            DecodePlaylists(DataFor(values, SavedPlaylistsKey).value).None? ==>
              r == current
  {
    match DataFor(values, SavedPlaylistsKey)
    case None => current
    case Some(json) => DecodePlaylists(json).GetOr(current)
  }

  /** What is saved loads back, whatever the list held before. */
  lemma SaveLoadRoundTrip(values: map<string, Stored>, saved: seq<Playlist>, current: seq<Playlist>)
    ensures LoadedOr(values[SavedPlaylistsKey := Data(PlaylistList(saved))], current) == saved
  {
  }

  class PlaylistViewModel {
    var playlists: seq<Playlist>
    const defaults: UserDefaults

    /** The stored list is the one on screen. */
    predicate Saved()
      reads this, defaults
    {
      SavedPlaylistsKey in defaults.values && defaults.values[SavedPlaylistsKey] == Data(PlaylistList(playlists))
    }

    constructor (defaults: UserDefaults)
      ensures this.defaults == defaults
      ensures playlists == LoadedOr(defaults.values, [])
    {
      playlists := [];
      this.defaults := defaults;
      new;
      LoadPlaylists();
    }

    method LoadPlaylists()
      modifies this
      ensures playlists == LoadedOr(defaults.values, old(playlists))
    {
      var data := DataFor(defaults.values, SavedPlaylistsKey);
      if data.Some? {
        var decoded := DecodePlaylists(data.value);
        if decoded.Some? {
          playlists := decoded.value;
        }
      }
    }

    method SavePlaylists()
      modifies defaults
      ensures defaults.values == old(defaults.values)[SavedPlaylistsKey := Data(PlaylistList(playlists))]
      ensures Saved() && LoadedOr(defaults.values, []) == playlists
    {
      defaults.Set(SavedPlaylistsKey, Data(PlaylistList(playlists)));
    }

    method CreatePlaylist(name: string, newId: string, now: Date)
      modifies this, defaults
      ensures playlists == AfterCreate(old(playlists), name, newId, now)
      ensures defaults.values == old(defaults.values)[SavedPlaylistsKey := Data(PlaylistList(playlists))]
    {
      var newPlaylist := Playlist(newId, name, [], None, now);
      playlists := playlists + [newPlaylist];
      SavePlaylists();
    }

    method AddTrackToPlaylist(track: Track, playlistId: string)
      modifies this, defaults
      ensures playlists == AfterAddTrack(old(playlists), track, playlistId)
      ensures defaults.values == old(defaults.values) ||
              defaults.values == old(defaults.values)[SavedPlaylistsKey := Data(PlaylistList(playlists))]
      ensures playlists == old(playlists) ==> defaults.values == old(defaults.values)
    {
      var index := IndexOfPlaylist(playlists, playlistId);
      if index.Some? {
        var i := index.value;
        if !HasTrack(playlists[i].tracks, track.id) {
          playlists := playlists[i := playlists[i].(tracks := playlists[i].tracks + [track])];
          assert playlists[i].tracks != old(playlists)[i].tracks by {
            assert |playlists[i].tracks| == |old(playlists)[i].tracks| + 1;
          }
          SavePlaylists();
        }
      }
    }

    method RemoveTrackFromPlaylist(trackId: string, playlistId: string)
      modifies this, defaults
      ensures playlists == AfterRemoveTrack(old(playlists), trackId, playlistId)
      ensures IndexOfPlaylist(old(playlists), playlistId).Some? ==>
                defaults.values == old(defaults.values)[SavedPlaylistsKey := Data(PlaylistList(playlists))]
      ensures IndexOfPlaylist(old(playlists), playlistId).None? ==> defaults.values == old(defaults.values)
    {
      var index := IndexOfPlaylist(playlists, playlistId);
      if index.Some? {
        var i := index.value;
        playlists := playlists[i := playlists[i].(tracks := WithoutTrack(playlists[i].tracks, trackId))];
        SavePlaylists();
      }
    }

    method DeletePlaylist(playlistId: string)
      modifies this, defaults
      ensures playlists == AfterDelete(old(playlists), playlistId)
      ensures defaults.values == old(defaults.values)[SavedPlaylistsKey := Data(PlaylistList(playlists))]
    {
      playlists := AfterDelete(playlists, playlistId);
      SavePlaylists();
    }
  }
}
