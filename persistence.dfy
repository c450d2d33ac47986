/**
 * The download cache and the saved lists (PersistenceManager.swift). The
 * Downloads directory is a map from file name to file size (absent when the
 * size cannot be read); a track's file is "<track id>.mp3". Whether the
 * documents directory can be found is part of the disk state.
 */
module Persistence {
  import opened Wrappers
  import opened Text
  import opened Tracks
  import opened Concerts
  import opened Playlists
  import opened Defaults

  const DownloadsDirectory := "Downloads"
  const FavoritesKey := "favorites"
  const RecentlyPlayedKey := "recentlyPlayed"
  const PlaylistsKey := "playlists"

  datatype Disk = Disk(documentsAvailable: bool, downloads: map<string, Option<nat>>)

  datatype PersistenceError = DirectoryNotFound | DownloadFailed | TransportError

  /** What the download task ended with: it threw, or a status with the size of the temporary file. */
  datatype Transfer = TransferFailed | Transferred(statusCode: int, size: Option<nat>)

  function FileName(trackId: string): string {
    trackId + ".mp3"
  }

  lemma FileNameInjective(a: string, b: string)
    ensures FileName(a) == FileName(b) ==> a == b
  {
    if FileName(a) == FileName(b) {
      assert |a| == |b|;
      assert a == FileName(a)[..|a|] && b == FileName(b)[..|b|];
    }
  }

  /** `fileExists(for:)`. */
  predicate FileExists(disk: Disk, trackId: string) {
    disk.documentsAvailable && FileName(trackId) in disk.downloads
  }

  /** `getLocalURL(for:)`: the file's path when, and only when, the file exists. */
  function LocalURL(disk: Disk, track: Track): (r: Option<string>)
    ensures r.Some? <==> FileExists(disk, track.id)
    ensures r.Some? ==> r.value == DownloadsDirectory + "/" + FileName(track.id)
  {
    if FileExists(disk, track.id) then Some(DownloadsDirectory + "/" + FileName(track.id)) else None
  }

  /**
   * `downloadFile(from:trackId:progressHandler:)` as a function of the disk
   * and of what the transfer would return: the new disk and the outcome.
   */
  function Download(disk: Disk, trackId: string, reply: Transfer): (Disk, Result<bool, PersistenceError>) {
    if !disk.documentsAvailable then (disk, Failure(DirectoryNotFound))
    else if FileName(trackId) in disk.downloads then (disk, Success(true))
    else match reply
      case TransferFailed => (disk, Failure(TransportError))
      case Transferred(status, size) =>
        if status != 200 then (disk, Failure(DownloadFailed))
        else (disk.(downloads := disk.downloads[FileName(trackId) := size]), Success(true))
  }

  /**
   * A download never reports `false`; it succeeds exactly when the file was
   * already there or a 200 reply was moved into place, and then the file
   * exists; a failure leaves the disk as it was; no other file changes.
   */
  lemma DownloadOutcome(disk: Disk, trackId: string, reply: Transfer)
    ensures var (d, r) := Download(disk, trackId, reply);
            (r.Success? ==> r.value) &&
            (r.Success? <==> disk.documentsAvailable &&
                             (FileExists(disk, trackId) || (reply.Transferred? && reply.statusCode == 200))) &&
            (r.Success? ==> FileExists(d, trackId)) &&
            (r.Failure? ==> d == disk) &&
            d.documentsAvailable == disk.documentsAvailable &&
            (forall id :: id != trackId ==> FileExists(d, id) == FileExists(disk, id))
    ensures reply.Transferred? && reply.statusCode != 200 && !FileExists(disk, trackId) ==>
              Download(disk, trackId, reply).1 == (if disk.documentsAvailable then Failure(DownloadFailed)
                                                   else Failure(DirectoryNotFound)) &&
              !FileExists(Download(disk, trackId, reply).0, trackId)
  {
    forall id | id != trackId ensures FileName(id) != FileName(trackId) {
      FileNameInjective(id, trackId);
    }
  }

  /** A file already present is reported as downloaded without a transfer: the reply plays no part. */
  lemma DownloadIdempotent(disk: Disk, trackId: string, reply: Transfer, reply': Transfer)
    requires Download(disk, trackId, reply).1.Success?
    ensures var d := Download(disk, trackId, reply).0;
            Download(d, trackId, reply') == (d, Success(true))
  {
  }

  /** `deleteFile(for:)`: removes the track's file if it is there. */
  function Delete(disk: Disk, trackId: string): Disk {
    if disk.documentsAvailable && FileName(trackId) in disk.downloads
    then disk.(downloads := disk.downloads - {FileName(trackId)})
    else disk
  }

  /** After a delete the file is gone, every other file is untouched, and deleting an absent file changes nothing. */
  lemma DeleteOutcome(disk: Disk, trackId: string)
    ensures !FileExists(Delete(disk, trackId), trackId)
    ensures forall id :: id != trackId ==> FileExists(Delete(disk, trackId), id) == FileExists(disk, id)
    ensures !FileExists(disk, trackId) ==> Delete(disk, trackId) == disk
  {
    forall id | id != trackId ensures FileName(id) != FileName(trackId) {
      FileNameInjective(id, trackId);
    }
  }

  /** `listing` is the directory's contents, each file once, in the order the file system gives. */
  predicate Enumerates(listing: seq<string>, disk: Disk) {
    multiset(listing) == multiset(disk.downloads.Keys)
  }

  /** The position of the last `.` in `s`. */
  function LastDot(s: string): (r: Option<nat>)
    ensures r.Some? ==> r.value < |s| && s[r.value] == '.' && Free(s[r.value + 1..], '.')
    ensures r.None? ==> Free(s, '.')
  {
    if s == [] then None
    else if s[|s| - 1] == '.' then Some(|s| - 1)
    else
      var r := LastDot(s[..|s| - 1]);
      assert r.Some? ==> s[r.value + 1..] == s[..|s| - 1][r.value + 1..] + [s[|s| - 1]];
      r
  }

  /** `deletingPathExtension()` on a file name: drops the text from the last dot, unless the dot leads the name. */
  function DeletingPathExtension(name: string): string {
    match LastDot(name)
    case Some(i) => if i > 0 then name[..i] else name
    case None => name
  }

  /** The concert id a file name stands for: the extension-less name up to its first `_`. */
  function ConcertIdOfFile(name: string): string {
    PrefixBefore(DeletingPathExtension(name), '_')
  }

  /**
   * For a track id "<identifier>_<file>" whose identifier has no `_`, the
   * cached file's name gives back the identifier.
   */
  lemma ConcertIdRecovered(identifier: string, file: string)
    requires Free(identifier, '_')
    ensures ConcertIdOfFile(FileName(identifier + "_" + file)) == identifier
  {
    var id := identifier + "_" + file;
    var name := FileName(id);
    var d, dm, dmp: string := id + ".", id + ".m", id + ".mp";
    assert LastDot(d) == Some(|id|);
    assert dm[..|dm| - 1] == d && dm[|dm| - 1] != '.';
    assert dmp[..|dmp| - 1] == dm && dmp[|dmp| - 1] != '.';
    assert name[..|name| - 1] == dmp && name[|name| - 1] != '.';
    assert LastDot(name) == Some(|id|);
    assert DeletingPathExtension(name) == id;
    assert id == identifier + ['_'] + file;
    PrefixBeforeAppend(identifier, file, '_');
  }

  /** `getDownloadedConcertIds()`: one entry per cached file, in listing order. */
  function DownloadedConcertIds(disk: Disk, listing: seq<string>): (ids: seq<string>)
    requires Enumerates(listing, disk)
    ensures !disk.documentsAvailable ==> ids == []
    ensures disk.documentsAvailable ==>
              |ids| == |listing| && forall i :: 0 <= i < |listing| ==> ids[i] == ConcertIdOfFile(listing[i])
  {
    if !disk.documentsAvailable then [] else ConcertIdsOf(listing)
  }

  function ConcertIdsOf(names: seq<string>): (ids: seq<string>)
    ensures |ids| == |names| && forall i :: 0 <= i < |names| ==> ids[i] == ConcertIdOfFile(names[i])
  {
    if names == [] then [] else [ConcertIdOfFile(names[0])] + ConcertIdsOf(names[1..])
  }

  /** A cached file's size, 0 when it cannot be read. */
  function SizeOf(disk: Disk, name: string): nat {
    if name in disk.downloads then disk.downloads[name].GetOr(0) else 0
  }

  /** `downloadedFiles.reduce(0) { $0 + size }`. */
  function SumSizes(disk: Disk, names: seq<string>): nat {
    if names == [] then 0 else SumSizes(disk, names[..|names| - 1]) + SizeOf(disk, names[|names| - 1])
  }

  /** `getTotalDownloadSize()`. */
  function TotalDownloadSize(disk: Disk, listing: seq<string>): (total: nat)
    requires Enumerates(listing, disk)
    ensures !disk.documentsAvailable || disk.downloads == map[] ==> total == 0
  {
    assert disk.downloads == map[] ==> |listing| == |multiset(listing)| == 0;
    if !disk.documentsAvailable then 0 else SumSizes(disk, listing)
  }

  lemma {:induction false} SumSizesRemove(disk: Disk, names: seq<string>, j: nat)
    requires j < |names|
    ensures SumSizes(disk, names) == SumSizes(disk, names[..j] + names[j + 1..]) + SizeOf(disk, names[j])
    decreases |names|
  {
    var last := |names| - 1;
    if j < last {
      var front := names[..last];
      SumSizesRemove(disk, front, j);
      var rest := names[..j] + names[j + 1..];
      assert rest[..|rest| - 1] == front[..j] + front[j + 1..];
      assert rest[|rest| - 1] == names[last];
    } else {
      assert names[..j] + names[j + 1..] == names[..last];
    }
  }

  lemma MultisetRemove(s: seq<string>, j: nat)
    requires j < |s|
    ensures multiset(s[..j] + s[j + 1..]) == multiset(s) - multiset{s[j]}
  {
    assert s == s[..j] + [s[j]] + s[j + 1..];
  }

  /** The total does not depend on the order in which the directory is listed. */
  lemma {:induction false} SumSizesPermutation(disk: Disk, a: seq<string>, b: seq<string>)
    requires multiset(a) == multiset(b)
    ensures SumSizes(disk, a) == SumSizes(disk, b)
    decreases |a|
  {
    if a != [] {
      var last := |a| - 1;
      var x := a[last];
      assert x in multiset(b);
      var j :| 0 <= j < |b| && b[j] == x;
      MultisetRemove(a, last);
      MultisetRemove(b, j);
      assert a[..last] + a[last + 1..] == a[..last];
      SumSizesRemove(disk, b, j);
      SumSizesPermutation(disk, a[..last], b[..j] + b[j + 1..]);
    }
  }

  /** Any two listings of the same directory give the same total. */
  lemma TotalDownloadSizeOrderFree(disk: Disk, a: seq<string>, b: seq<string>)
    requires Enumerates(a, disk) && Enumerates(b, disk)
    ensures TotalDownloadSize(disk, a) == TotalDownloadSize(disk, b)
  {
    SumSizesPermutation(disk, a, b);
  }

  /** `loadFavorites()`: the stored string array, or `[]`. */
  function LoadedFavorites(values: map<string, Stored>): (r: seq<string>)
    ensures FavoritesKey !in values ==> r == []
    ensures FavoritesKey in values && values[FavoritesKey].StringArray? ==> r == values[FavoritesKey].strings
  {
    if FavoritesKey in values && values[FavoritesKey].StringArray? then values[FavoritesKey].strings else []
  }

  /** `loadRecentlyPlayed()`: the decoded list, or `[]` when nothing is stored or it does not decode. */
  function LoadedRecentlyPlayed(values: map<string, Stored>): (r: seq<Concert>)
    ensures DataFor(values, RecentlyPlayedKey).None? ==> r == []
    ensures DataFor(values, RecentlyPlayedKey).Some? && DecodeConcerts(DataFor(values, RecentlyPlayedKey).value).None? ==> r == []
  {
    match DataFor(values, RecentlyPlayedKey)
    case None => []
    case Some(json) => DecodeConcerts(json).GetOr([])
  }

  /** `loadPlaylists()`: the decoded list, or `[]` when nothing is stored or it does not decode. */
  function LoadedPlaylists(values: map<string, Stored>): (r: seq<Playlist>)
    ensures DataFor(values, PlaylistsKey).None? ==> r == []
    ensures DataFor(values, PlaylistsKey).Some? && DecodePlaylists(DataFor(values, PlaylistsKey).value).None? ==> r == []
  {
    match DataFor(values, PlaylistsKey)
    case None => []
    case Some(json) => DecodePlaylists(json).GetOr([])
  }

  /** What is saved under each key loads back unchanged, and saving one key leaves the others' loads alone. */
  lemma SaveLoadRoundTrip(values: map<string, Stored>, favorites: seq<string>, concerts: seq<Concert>,
                          playlists: seq<Playlist>)
    ensures LoadedFavorites(values[FavoritesKey := StringArray(favorites)]) == favorites
    ensures LoadedRecentlyPlayed(values[RecentlyPlayedKey := Data(ConcertList(concerts))]) == concerts
    ensures LoadedPlaylists(values[PlaylistsKey := Data(PlaylistList(playlists))]) == playlists
    ensures LoadedPlaylists(values[RecentlyPlayedKey := Data(ConcertList(concerts))]) == LoadedPlaylists(values)
    ensures LoadedRecentlyPlayed(values[PlaylistsKey := Data(PlaylistList(playlists))]) == LoadedRecentlyPlayed(values)
  {
  }

  class PersistenceManager {
    var disk: Disk
    const defaults: UserDefaults

    constructor (disk: Disk, defaults: UserDefaults)
      ensures this.disk == disk && this.defaults == defaults
    {
      this.disk := disk;
      this.defaults := defaults;
    }

    method DownloadFile(url: string, trackId: string, reply: Transfer) returns (r: Result<bool, PersistenceError>)
      modifies this
      ensures (disk, r) == Download(old(disk), trackId, reply)
    {
      if !disk.documentsAvailable {
        return Failure(DirectoryNotFound);
      }
      var destination := FileName(trackId);
      if destination in disk.downloads {
        return Success(true);
      }
      match reply {
        case TransferFailed =>
          return Failure(TransportError);
        case Transferred(status, size) =>
          if status != 200 {
            return Failure(DownloadFailed);
          }
          disk := disk.(downloads := disk.downloads[destination := size]);
          return Success(true);
      }
    }

    method DeleteFile(trackId: string)
      modifies this
      ensures disk == Delete(old(disk), trackId)
    {
      if !disk.documentsAvailable {
        return;
      }
      var name := FileName(trackId);
      if name in disk.downloads {
        disk := disk.(downloads := disk.downloads - {name});
      }
    }

    /** `clearAllDownloads()`: removes every listed file, one at a time. */
    method ClearAllDownloads(listing: seq<string>) returns (r: Result<(), PersistenceError>)
      requires Enumerates(listing, disk)
      modifies this
      ensures !old(disk).documentsAvailable ==> r == Failure(DirectoryNotFound) && disk == old(disk)
      ensures old(disk).documentsAvailable ==> r.Success? && disk == old(disk).(downloads := map[])
    {
      if !disk.documentsAvailable {
        return Failure(DirectoryNotFound);
      }
      ghost var keys := disk.downloads.Keys;
      for i := 0 to |listing|
        invariant disk.documentsAvailable == old(disk).documentsAvailable
        invariant disk.downloads.Keys == keys - set j | 0 <= j < i :: listing[j]
        invariant forall n :: n in disk.downloads ==> disk.downloads[n] == old(disk).downloads[n]
      {
        disk := disk.(downloads := disk.downloads - {listing[i]});
      }
      assert forall n :: n in keys ==> n in multiset(listing);
      assert disk.downloads.Keys == {};
      return Success(());
    }

    method SaveFavorites(favorites: seq<string>)
      modifies defaults
      ensures defaults.values == old(defaults.values)[FavoritesKey := StringArray(favorites)]
      ensures LoadedFavorites(defaults.values) == favorites
    {
      defaults.Set(FavoritesKey, StringArray(favorites));
    }

    method LoadFavorites() returns (favorites: seq<string>)
      ensures favorites == LoadedFavorites(defaults.values)
    {
      if FavoritesKey in defaults.values && defaults.values[FavoritesKey].StringArray? {
        favorites := defaults.values[FavoritesKey].strings;
      } else {
        favorites := [];
      }
    }

    method SaveRecentlyPlayed(concerts: seq<Concert>)
      modifies defaults
      ensures defaults.values == old(defaults.values)[RecentlyPlayedKey := Data(ConcertList(concerts))]
      ensures LoadedRecentlyPlayed(defaults.values) == concerts
    {
      defaults.Set(RecentlyPlayedKey, Data(ConcertList(concerts)));
    }

    method LoadRecentlyPlayed() returns (concerts: seq<Concert>)
      ensures concerts == LoadedRecentlyPlayed(defaults.values)
    {
      var data := DataFor(defaults.values, RecentlyPlayedKey);
      if data.None? {
        return [];
      }
      var decoded := DecodeConcerts(data.value);
      concerts := if decoded.Some? then decoded.value else [];
    }

    method SavePlaylists(playlists: seq<Playlist>)
      modifies defaults
      ensures defaults.values == old(defaults.values)[PlaylistsKey := Data(PlaylistList(playlists))]
      ensures LoadedPlaylists(defaults.values) == playlists
    {
      defaults.Set(PlaylistsKey, Data(PlaylistList(playlists)));
    }

    method LoadPlaylists() returns (playlists: seq<Playlist>)
      ensures playlists == LoadedPlaylists(defaults.values)
    {
      var data := DataFor(defaults.values, PlaylistsKey);
      if data.None? {
        return [];
      }
      var decoded := DecodePlaylists(data.value);
      playlists := if decoded.Some? then decoded.value else [];
    }
  }
}
