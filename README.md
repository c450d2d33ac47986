# JammyJam core, modelled in Dafny

JammyJam is an iOS app for browsing and playing Grateful Dead concert
recordings from the Internet Archive. This project models the app's
non-UI logic and proves properties about it:

- **Value types** (`Tracks`, `Concerts`, `Shows`, `Playlists`): identity by id,
  duration sums, the "m:ss", "h:mm:ss" and "Xh Ym" duration captions with
  their integer hour/minute/second decomposition, and grouping of tracks
  by set number.
- **Catalog mapping** (`Archive`): building the search query, turning
  search hits into concerts, the metadata fallbacks of the concert detail
  call, and the audio-file pipeline (filter, sort by track number, map to
  tracks). The pipeline includes the "M:S" / "H:M:S" length parser.
- **Storage** (`Defaults`, `Persistence`): the key-value store and the
  download cache. The cache is a directory of `<track id>.mp3` files. The
  module also covers the saved favorites, history and playlists.
- **Player** (`Player`): the playback controller. This covers the
  transport (play, toggle, seek, skip, next, previous), the recently
  played history (deduplicated, newest first, at most 10), and download
  bookkeeping for tracks and concerts.
- **Playlist store** (`PlaylistStore`): creating and deleting playlists,
  and adding and removing tracks, with no repeated track id inside a
  playlist.
- **Browsing** (`Explore`, `Home`): the paging and loading state machines
  of the explore and home screens.

Each object the app updates in place is a `class` with the same fields.
Its methods are proved against pure functions of the old state (for
example `State() == AfterPlay(old(State()), track, concert,
persistence.disk)`). The lemmas about those functions state what the app
promises.

Outside effects become parameters:

- the HTTP reply of each catalog call (`Archive.Reply`);
- the outcome of a file transfer (`Persistence.Transfer`);
- the date parser;
- the current date;
- a new playlist's UUID string;
- the order in which the file system lists the Downloads directory.

Every asynchronous view-model operation is split at its `await`. Starting
it yields the request. The reply is applied later as a step of its own.

Conventions:

- Times (`TimeInterval`) are `real` numbers of seconds.
- Swift's `Int(Double)`, `/` and `%` truncate toward zero, and the model
  does the same (`Arithmetic`).
- `split(separator:)` drops empty pieces, and `Text.Split` does the same.

## Model

| member | source | states |
|---|---|---|
| Arithmetic.Truncate | Track.swift:13-14 | `Int(duration)` rounds toward zero: down for non-negative values, up for negative ones |
| Arithmetic.QuotRem | Track.swift:13-14 | Swift's `/` and `%` recompose the dividend; the remainder has the dividend's sign and is smaller than the divisor |
| Arithmetic.HoursMinutesSeconds | Show.swift:32-35 | hours*3600 + minutes*60 + seconds == total seconds, with minutes and seconds in 0..59 for a non-negative total (and in -59..0 otherwise) |
| Text.NatToString | Track.swift:15 | `%d` of a natural number is a non-empty digit string whose value is the number, without a leading zero; it has one digit below 10 and two below 100 |
| Text.ParseIntOfIntToString | Track.swift:15 | `Int(String)` reads back what `%d` printed, negative numbers included |
| Text.ParseIntOfPad2 | Track.swift:15 | `Int(String)` reads back what `%02d` printed |
| Text.ParseInt64 | ArchiveService.swift:123-124 | `Int(String)` gives a value only within the 64-bit `Int` range |
| Text.ParseInt64OfIntToString | ArchiveService.swift:123-124 | `Int(String)` reads back every `Int` that `"\(n)"` printed |
| Text.ParseInt64OutOfRange | ArchiveService.swift:123-124 | a well-formed number outside the `Int` range gives nil |
| Text.TwoFieldLabel | Track.swift:15 | splitting "`%d:%02d`" at ':' gives exactly two fields that read back as the two numbers |
| Text.ThreeFieldLabel | Show.swift:38 | splitting "`%d:%02d:%02d`" at ':' gives exactly three fields that read back as the three numbers |
| Text.SplitJoin | ArchiveService.swift:258 | `split(separator:)` undoes joining non-empty separator-free fields |
| Text.PrefixBefore | PersistenceManager.swift:169-170 | `components(separatedBy:).first` is a prefix free of the separator, followed by the separator when shorter than the string |
| Text.PrefixBeforeAppend | PersistenceManager.swift:169-170 | the first component of `a + "_" + b` is `a` when `a` has no `_` |
| Tracks.NewTrack | Track.swift:3-10 | a new track has no set number and holds the given fields |
| Tracks.SameTrackIsIdEquality | Track.swift:23-25 | two tracks are equal exactly when their ids are; this is an equivalence that ignores every other field |
| Tracks.FormattedDuration | Track.swift:12-16 | the caption splits into two fields m and s with m*60 + s == Int(duration); for a non-negative duration 0 <= s < 60 and s is written with exactly two digits |
| Tracks.DurationFormatted | Track.swift:19-21 | always the same caption as `formattedDuration` |
| Tracks.SumDurationsAppend | Show.swift:26-28 | the duration sum is additive over concatenated track lists |
| Tracks.SumDurations | Playlist.swift:14-16 | the sum is 0 for no tracks and non-negative when every duration is |
| Tracks.IndexOfTrack | MusicPlayer.swift:175 | `firstIndex(where:)` by id: the first position holding the id, or none exactly when no track has it |
| Concerts.NewConcert | Concert.swift:3-13 | a new concert is not a favorite and holds the given fields |
| Concerts.SameConcertIsEquivalence | Concert.swift:21-23 | concert equality is id equality, hence reflexive, symmetric and transitive |
| Concerts.MutableFieldsKeepIdentity | Concert.swift:11-23 | changing `tracks` or `isFavorite` never changes equality with any concert |
| Shows.PreviewOf | ExploreViewModel.swift:42-51 | a preview copies id, title, date, venue, location and image of its concert |
| Shows.PreviewsOf | HomeViewModel.swift:24-33 | one preview per concert |
| Shows.PreviewsOfAt | HomeViewModel.swift:24-33 | the previews are, position by position, the previews of the concerts |
| Shows.TracksInSet | Show.swift:21-23 | a set's group holds exactly the show's tracks with that set number |
| Shows.GroupBySetSpec | Show.swift:21-23 | the grouping has a key for each set number that occurs and no other, and each group is the filter of the tracks by that key |
| Shows.TracksBySet | Show.swift:21-23 | every track is in the group of its own set number, and each group member has that set number and belongs to the show |
| Shows.TotalDuration | Show.swift:26-28 | the total is 0 for no tracks and non-negative when every duration is |
| Shows.TotalDurationFormatted | Show.swift:31-42 | three fields exactly when hours > 0, else two; the fields read back as hours, minutes and seconds that recompose Int(total) |
| Playlists.TrackCount | Playlist.swift:10-12 | the count is the number of tracks |
| Playlists.TotalDuration | Playlist.swift:14-16 | the total is 0 for no tracks and non-negative when every duration is |
| Playlists.FormattedDuration | Playlist.swift:18-28 | the caption reads back as (hours, minutes) with the seconds dropped, and has a space (the "Xh Ym" form) exactly when hours > 0 |
| Playlists.TotalDurationFormatted | Playlist.swift:31-33 | always the same caption as `formattedDuration` |
| Archive.Fetch | ArchiveService.swift:55-59 | a reply is used only with status 200 and a decoded body; any other status is `invalidResponse` |
| Archive.BuildSearchQuery | ArchiveService.swift:21-36 | the `+=` steps build the base query followed by the query, year and venue filters, in that order |
| Archive.SearchQueryShape | ArchiveService.swift:21-36 | the query always starts with `collection:(GratefulDead)`; each filter appears exactly when its argument is given (and non-empty for text); the year filter reads back as the year |
| Archive.SearchItems | ArchiveService.swift:39-46 | six parameters in order: the query, the fields, newest first ("date desc"), 50 rows, a page field that reads back as the page, and JSON output |
| Archive.ConcertFromDoc | ArchiveService.swift:66-93 | a hit becomes a concert exactly when all six fields are present and the date parses; it has the identifier as id, no tracks and the source "Archive.org" |
| Archive.ConcertsFromDocs | ArchiveService.swift:65-94 | the result holds exactly the concerts of the usable hits, each with no tracks and source "Archive.org" |
| Archive.ConcertsFromDocsOne | ArchiveService.swift:65-94 | one hit gives its concert when it maps to one, and nothing otherwise |
| Archive.ConcertsFromDocsAppend | ArchiveService.swift:65-94 | the mapping distributes over concatenated hit lists, so it keeps the hits' order and multiplicity |
| Archive.SearchConcerts | ArchiveService.swift:16-95 | sends the built query; fails exactly when the reply is unusable, else maps the hits |
| Archive.TimeInterval | ArchiveService.swift:255-277 | no length gives none; a parsed length came from two or three fields |
| Archive.TimeIntervalTwoFields | ArchiveService.swift:259-265 | "M:S" for any integers M and S reads as M*60 + S |
| Archive.TimeIntervalThreeFields | ArchiveService.swift:266-273 | "H:M:S" for any integers H, M and S reads as H*3600 + M*60 + S |
| Archive.TimeIntervalDefined | ArchiveService.swift:255-277 | a length has a value exactly when it splits into two or three fields that all read as numbers; any other field count or a non-numeric field gives nil |
| Archive.TimeIntervalReadsTrackLabel | ArchiveService.swift:259-265 | the length parser reads a track's "m:ss" caption back as Int(duration) |
| Archive.TimeIntervalReadsShowLabel | ArchiveService.swift:266-273 | the length parser reads a show's "h:mm:ss" or "m:ss" caption back as Int(total) |
| Archive.AudioCandidates | ArchiveService.swift:162-164 | keeps only "VBR MP3" and "Flac" files with a title, and every such file |
| Archive.AudioCandidatesOne | ArchiveService.swift:162-164 | one file is kept exactly when it is an mp3 or flac file with a title |
| Archive.AudioCandidatesAppend | ArchiveService.swift:162-164 | the filters distribute over concatenated file lists, so they keep the files' order and multiplicity |
| Archive.InsertPermutation | ArchiveService.swift:165 | inserting a file into the list adds exactly that file |
| Archive.InsertSorted | ArchiveService.swift:165 | inserting into a list sorted by track number (a missing number counts as 0) keeps it sorted |
| Archive.SortByTrackSpec | ArchiveService.swift:165 | the sorted list is in ascending track order and is a permutation of the input |
| Archive.TracksFromFiles | ArchiveService.swift:168-185 | at most one track per file |
| Archive.TracksFromFilesSound | ArchiveService.swift:168-185 | every produced track comes from a file with title and name at its enumeration index |
| Archive.TracksFromFilesComplete | ArchiveService.swift:168-185 | every file with title and name produces its track |
| Archive.TracksFromFilesOne | ArchiveService.swift:168-185 | one file at position i gives its track, numbered from i, when it has a title and a name, and nothing otherwise |
| Archive.TracksFromFilesAppend | ArchiveService.swift:168-185 | the map distributes over concatenated file lists, with the positions of the second list continuing after the first; so the tracks follow the sorted file order, one per usable file |
| Archive.TrackOfFields | ArchiveService.swift:169-184 | the id is "<identifier>_<name>" and the concert id is the identifier; the track number is the file's, else index+1; the duration is the parsed length, else 0 |
| Archive.TracksForConcert | ArchiveService.swift:149-186 | fails exactly when the reply is unusable, else runs the filter, sort and map pipeline |
| Archive.First | ArchiveService.swift:115-116 | `.first` is the head of a non-empty list and nothing otherwise |
| Archive.FirstOf | ArchiveService.swift:121-122 | `?.first` of an optional list |
| Archive.ConcertFromMetadata | ArchiveService.swift:114-145 | `invalidData` exactly when metadata, title or date is missing; the venue falls back to coverage and then "Unknown"; location "Unknown"; year 0 when `Int(String)` gives nil, including out of `Int` range; date now when unparsable; source "Unknown Source" |
| Archive.ConcertDetails | ArchiveService.swift:98-146 | a metadata failure wins, then a files failure; with both replies usable it is `invalidData` exactly when metadata, title or date is missing; a success has the identifier and the concert's track list; with both replies usable the result is `ConcertFromMetadata` of the metadata and the tracks |
| Defaults.DecodeConcerts | PersistenceManager.swift:122-124 | decoding gives back an encoded concert list and fails on malformed data |
| Defaults.DecodePlaylists | PlaylistViewModel.swift:14-15 | decoding gives back an encoded playlist list and fails on malformed data |
| Defaults.DataFor | PersistenceManager.swift:118 | `data(forKey:)` is present exactly when the key holds data, and then it is that data |
| Defaults.UserDefaults.constructor | PersistenceManager.swift:97-100 | the store starts with the given contents |
| Defaults.UserDefaults.Set | PersistenceManager.swift:100 | `set(_:forKey:)` changes that key and no other |
| Persistence.FileNameInjective | PersistenceManager.swift:44 | distinct track ids have distinct `<id>.mp3` files |
| Persistence.LocalURL | PersistenceManager.swift:88-95 | a local URL exists exactly when `fileExists` holds, and then it is the `Downloads/<id>.mp3` path |
| Persistence.DownloadOutcome | PersistenceManager.swift:38-62 | the result is never `false`; it succeeds exactly when the file was present or a 200 reply arrived, and then the file exists; a non-200 reply is `downloadFailed` and adds nothing; failures leave the disk unchanged; other files never change |
| Persistence.DownloadIdempotent | PersistenceManager.swift:46-49 | once a download succeeded, downloading again returns true with the disk unchanged, whatever the network would reply |
| Persistence.DeleteOutcome | PersistenceManager.swift:64-77 | afterwards the file is gone and other files are untouched; deleting an absent file changes nothing |
| Persistence.DownloadedConcertIds | PersistenceManager.swift:157-172 | one id per listed file, in listing order: the extension-less name up to its first `_`; none without the documents directory |
| Persistence.ConcertIdRecovered | PersistenceManager.swift:166-171 | for a track id "<identifier>_<file>" with no `_` in the identifier, the cached file's name gives back the identifier |
| Persistence.TotalDownloadSize | PersistenceManager.swift:174-185 | 0 without the documents directory or with no files |
| Persistence.SumSizesPermutation | PersistenceManager.swift:181-184 | the size sum (unreadable sizes count 0) does not depend on the order of the files |
| Persistence.TotalDownloadSizeOrderFree | PersistenceManager.swift:174-185 | any two listings of the same directory give the same total |
| Persistence.LoadedFavorites | PersistenceManager.swift:103-105 | the stored string array, else `[]` |
| Persistence.LoadedRecentlyPlayed | PersistenceManager.swift:117-129 | `[]` when nothing is stored or it does not decode |
| Persistence.LoadedPlaylists | PersistenceManager.swift:141-153 | `[]` when nothing is stored or it does not decode |
| Persistence.SaveLoadRoundTrip | PersistenceManager.swift:99-153 | each save then load gives back what was saved; saving one key leaves the other loads unchanged |
| Persistence.PersistenceManager.constructor | PersistenceManager.swift:12-14 | starts on the given disk and store |
| Persistence.PersistenceManager.DownloadFile | PersistenceManager.swift:38-62 | the new disk and the result are those of `Download` |
| Persistence.PersistenceManager.DeleteFile | PersistenceManager.swift:64-77 | the new disk is that of `Delete` |
| Persistence.PersistenceManager.ClearAllDownloads | PersistenceManager.swift:187-200 | `directoryNotFound` without the documents directory, else no cached file is left |
| Persistence.PersistenceManager.SaveFavorites | PersistenceManager.swift:99-101 | writes the key, and the favorites load back |
| Persistence.PersistenceManager.LoadFavorites | PersistenceManager.swift:103-105 | returns `LoadedFavorites` of the store |
| Persistence.PersistenceManager.SaveRecentlyPlayed | PersistenceManager.swift:107-115 | writes the key, and the history loads back |
| Persistence.PersistenceManager.LoadRecentlyPlayed | PersistenceManager.swift:117-129 | returns `LoadedRecentlyPlayed` of the store |
| Persistence.PersistenceManager.SavePlaylists | PersistenceManager.swift:131-139 | writes the key, and the playlists load back |
| Persistence.PersistenceManager.LoadPlaylists | PersistenceManager.swift:141-153 | returns `LoadedPlaylists` of the store |
| Player.Initial | MusicPlayer.swift:10-24 | nothing current, not playing, player hidden, history as loaded |
| Player.WithoutConcertMembers | MusicPlayer.swift:217 | `removeAll` by id keeps exactly the entries with another id |
| Player.WithoutConcertProperties | MusicPlayer.swift:217 | removes exactly that id; leaves a list without it unchanged; keeps ids distinct and shortens a distinct list by one exactly when the id was there |
| Player.RecordPlayProperties | MusicPlayer.swift:215-225 | the concert comes first; the rest is the old list without its id, in order; there are at most 10 entries; no id repeats if none did before; the length is min(10, old length, plus 1 if the id was new) |
| Player.HistoryStep | MusicPlayer.swift:215-225 | one play keeps the history's relation to the set of concert ids played so far |
| Player.HistoryBounded | MusicPlayer.swift:215-225 | after any run of plays from an empty history: ids are distinct, the last concert is first, there are min(10, distinct concerts played) entries, and none is missing while at most 10 were played |
| Player.ToggleTwice | MusicPlayer.swift:134-142 | toggling flips `isPlaying` even with no track; toggling twice restores the state |
| Player.PlayProperties | MusicPlayer.swift:52-90 | the current track only toggles. Any other track becomes current, with its concert; playing and showing are set; `isDownloaded` equals "the cache holds the track"; the local path is used exactly then; the time and duration are kept; the history is updated |
| Player.SeekProperties | MusicPlayer.swift:144-159 | seek sets exactly that time; skip forward does nothing without a player and otherwise gives min(time+s, duration); skip back gives max(time−s, 0); nothing else changes |
| Player.NextAdjacency | MusicPlayer.swift:172-188 | on track i of n (distinct ids), next plays track i+1 of the same concert, or on the last track stops and rewinds with the track unchanged |
| Player.PreviousAdjacency | MusicPlayer.swift:190-211 | after 3 s, or on the first track, previous rewinds the same track; otherwise it plays track i−1 |
| Player.NextPreviousOutsideConcert | MusicPlayer.swift:172-195 | with no current track or concert, or a track the concert lacks, next and previous change nothing |
| Player.ConcertDownloaded | MusicPlayer.swift:382-384 | true exactly when every track is cached (so true for no tracks) |
| Player.ConcertDownloadFiles | MusicPlayer.swift:350-361 | files are only added, and only the concert's; every track with a 200 reply is cached even after an earlier failure; nothing changes without the documents directory |
| Player.ConcertDownloadResult | MusicPlayer.swift:350-361 | true when each track was cached or delivered, and (for distinct ids) only then; on true every track is cached |
| Player.DeleteAllOutcome | MusicPlayer.swift:363-376 | none of the concert's tracks stays cached and other files are untouched; `isDownloaded` drops exactly when the current track is among them |
| Player.PlayerViewModel.constructor | MusicPlayer.swift:37-48 | the initial state, with the stored history loaded and in sync with the store |
| Player.PlayerViewModel.Play | MusicPlayer.swift:52-70 | the new state is `AfterPlay` on the live cache; a new track stores the new history |
| Player.PlayerViewModel.PlayFromLocalURL | MusicPlayer.swift:72-80 | marks the track downloaded, makes track and concert current, and opens the player on the local file |
| Player.PlayerViewModel.PlayFromRemoteURL | MusicPlayer.swift:82-90 | marks the track not downloaded, makes track and concert current, and opens the player on the catalog URL |
| Player.PlayerViewModel.PreparePlayer | MusicPlayer.swift:92-119 | opens the player on the source and sets playing |
| Player.PlayerViewModel.AddToRecentlyPlayed | MusicPlayer.swift:215-229 | the history becomes `RecordPlay` of the old one and is saved |
| Player.PlayerViewModel.TogglePlayPause | MusicPlayer.swift:134-142 | the new state is `AfterToggle` |
| Player.PlayerViewModel.Seek | MusicPlayer.swift:144-148 | the new state is `AfterSeek` |
| Player.PlayerViewModel.SkipForward | MusicPlayer.swift:150-154 | the new state is `AfterSkipForward` |
| Player.PlayerViewModel.SkipBackward | MusicPlayer.swift:156-159 | the new state is `AfterSkipBackward` |
| Player.PlayerViewModel.SetQueue | MusicPlayer.swift:167-170 | assigns the queue and index, nothing else |
| Player.PlayerViewModel.PlayNextTrack | MusicPlayer.swift:172-188 | the new state is `AfterNext`; the store is unchanged or holds the new history |
| Player.PlayerViewModel.PlayPreviousTrack | MusicPlayer.swift:190-211 | the new state is `AfterPrevious`; the store is unchanged or holds the new history |
| Player.PlayerViewModel.PlayerItemDidPlayToEndTime | MusicPlayer.swift:161-163 | the end of an item acts as next |
| Player.PlayerViewModel.DurationLoaded | MusicPlayer.swift:121-131 | a loaded duration changes only `duration` |
| Player.PlayerViewModel.PositionObserved | MusicPlayer.swift:105-107 | the time observer changes only `currentTime` |
| Player.PlayerViewModel.DownloadTrack | MusicPlayer.swift:320-348 | state, disk and result are those of `AfterTrackDownload`; `isDownloaded` is raised on success for any track |
| Player.PlayerViewModel.DownloadConcert | MusicPlayer.swift:350-361 | the loop over the tracks gives `AfterConcertDownload` |
| Player.PlayerViewModel.DeleteDownload | MusicPlayer.swift:363-370 | state and disk are those of `AfterDeleteDownload` |
| Player.PlayerViewModel.DeleteAllDownloads | MusicPlayer.swift:372-376 | the loop over the tracks gives `AfterDeleteAll` |
| PlaylistStore.IndexOfPlaylist | PlaylistViewModel.swift:33 | `firstIndex(where:)` by id: the first playlist with the id, or none exactly when none has it |
| PlaylistStore.WithoutTrackMembers | PlaylistViewModel.swift:44 | `removeAll` by id keeps exactly the tracks with another id, and changes nothing when none has it |
| PlaylistStore.WithoutTrackAppend | PlaylistViewModel.swift:44 | removal distributes over concatenation, so the remaining tracks keep their order |
| PlaylistStore.WithoutTrackUnique | PlaylistViewModel.swift:44 | removal keeps track ids unique |
| PlaylistStore.AfterCreate | PlaylistViewModel.swift:26-30 | exactly one playlist is appended, with that name, id and no tracks; earlier playlists are unchanged |
| PlaylistStore.AddTrackProperties | PlaylistViewModel.swift:32-40 | appends to the first matching playlist only when the track id is absent; otherwise, or for an unknown playlist, nothing changes; adding is idempotent and keeps track ids unique |
| PlaylistStore.RemoveTrackProperties | PlaylistViewModel.swift:42-47 | the first matching playlist loses exactly the tracks with that id and the others are untouched; an unknown playlist changes nothing; uniqueness is kept |
| PlaylistStore.DeleteProperties | PlaylistViewModel.swift:49-52 | keeps exactly the playlists with another id, so none with the id is left; an unknown id changes nothing |
| PlaylistStore.DeleteKeepsOrder | PlaylistViewModel.swift:49-52 | deletion distributes over concatenation, so the rest keep their order |
| PlaylistStore.LoadedOr | PlaylistViewModel.swift:13-18 | the list is unchanged when nothing is stored or it does not decode |
| PlaylistStore.SaveLoadRoundTrip | PlaylistViewModel.swift:13-24 | a saved list loads back, whatever the list held before |
| PlaylistStore.PlaylistViewModel.constructor | PlaylistViewModel.swift:9-11 | starts from `[]` and loads |
| PlaylistStore.PlaylistViewModel.LoadPlaylists | PlaylistViewModel.swift:13-18 | the list becomes `LoadedOr` of the store and the old list |
| PlaylistStore.PlaylistViewModel.SavePlaylists | PlaylistViewModel.swift:20-24 | writes "savedPlaylists", and the list loads back |
| PlaylistStore.PlaylistViewModel.CreatePlaylist | PlaylistViewModel.swift:26-30 | the list becomes `AfterCreate` and is saved |
| PlaylistStore.PlaylistViewModel.AddTrackToPlaylist | PlaylistViewModel.swift:32-40 | the list becomes `AfterAddTrack`; the store is written only when the list changed |
| PlaylistStore.PlaylistViewModel.RemoveTrackFromPlaylist | PlaylistViewModel.swift:42-47 | the list becomes `AfterRemoveTrack`; it is saved exactly when the playlist exists |
| PlaylistStore.PlaylistViewModel.DeletePlaylist | PlaylistViewModel.swift:49-52 | the list becomes `AfterDelete` and is saved |
| Explore.Initial | ExploreViewModel.swift:5-10 | no shows, not loading, no error, page 1, more pages |
| Explore.StartLoadProperties | ExploreViewModel.swift:27-39 | a load while loading does nothing; otherwise it sets loading and clears the error; it asks for the current page, with no query exactly when the search text is empty; a second start is ignored |
| Explore.LoadOutcomeProperties | ExploreViewModel.swift:55-71 | on success page 1 replaces the shows and later pages append them in order; there are more pages exactly when the reply was non-empty; the page goes up by 1 and loading ends. A failure keeps shows, page and flag, sets the message and ends loading |
| Explore.ResetProperties | ExploreViewModel.swift:76-80 | no shows, page 1, more pages; idempotent; the query and loading flag are kept |
| Explore.PagesAccumulate | ExploreViewModel.swift:55-64 | successive successful pages append their shows in order; the page ends one past the pages loaded; the flag reflects the last page |
| Explore.ExploreViewModel.constructor | ExploreViewModel.swift:5-10 | the initial state |
| Explore.ExploreViewModel.LoadShows | ExploreViewModel.swift:27-39 | the state and the request are those of `StartLoad` |
| Explore.ExploreViewModel.LoadShowsFinished | ExploreViewModel.swift:42-71 | a reply gives `LoadSucceeded`, an error gives `LoadFailed` |
| Explore.ExploreViewModel.ResetSearch | ExploreViewModel.swift:76-80 | the new state is `AfterReset` |
| Explore.ExploreViewModel.LoadMoreShows | ExploreViewModel.swift:82-84 | behaves as `loadShows` |
| Explore.ExploreViewModel.SearchQuerySettled | ExploreViewModel.swift:17-24 | a settled search text resets and then starts a load with that text |
| Home.Initial | HomeViewModel.swift:5-8 | no shows, not loading, no error |
| Home.FeaturedSelection | HomeViewModel.swift:40-45 | the featured shows are the first min(3, n) shows |
| Home.LoadProperties | HomeViewModel.swift:13-54 | a load always starts (no guard) and clears the error. Success lists every concert in order as its preview (all six fields), and features the first min(3, n). Failure keeps both lists, sets the message and ends loading |
| Home.HomeViewModel.constructor | HomeViewModel.swift:5-8 | the initial state |
| Home.HomeViewModel.LoadData | HomeViewModel.swift:13-22 | the new state is `StartLoad`; the catalog call asks for page 1 with the base query and no filters |
| Home.HomeViewModel.LoadDataFinished | HomeViewModel.swift:24-54 | a reply gives `LoadSucceeded`, an error gives `LoadFailed` |
| Home.HomeViewModel.RefreshData | HomeViewModel.swift:59-61 | behaves exactly as `loadData`, with the same request |

## Left out

- Archive.TimeInterval: length fields are read as optionally signed decimal integers. `Double(String)`'s fractions, exponents, `inf` and `nan` are not modelled.
- Archive.ConcertFromMetadata: the year is read as an optional sign and ASCII digits within the 64-bit `Int` range. Other spellings that `Int(String)` might accept are not considered.
- Persistence.TotalDownloadSize: the `Int64` sum is unbounded here, so overflow is not modelled.
- Player.ConcertDownloadResult: the only-if direction is stated for concerts with distinct track ids. A later duplicate id can be satisfied by an earlier delivery.
- Persistence.PersistenceManager.DownloadFile: a failing `moveItem` is not modelled. The progress delegate and its division by an expected size that may be unknown are left out.
- Persistence.PersistenceManager.ClearAllDownloads: failures of `contentsOfDirectory` and `removeItem` are not modelled. The directory listing is a parameter that enumerates the directory.
- `createDirectoryIfNeeded` is left out. The Downloads directory exists whenever the documents directory does.
- JSON encoding is assumed to succeed. Decoding is opaque: an encoded list decodes to itself, and an empty list decodes as a list of either kind.
- `URL(string:)` validity and its force unwraps are not modelled. URLs are strings.
- The date parser (`DateFormatter` with "yyyy-MM-dd") and `Date()` are parameters. `formattedDate` on `Show`, `ShowPreview` and `Concert` is left out because its output depends on the locale.
- AVFoundation is reduced to "which source the player was opened on" and the `isPlaying` flag. That covers `AVPlayer`, `AVPlayerItem`, `AVAudioSession` and the end-of-item notification registration.
- Duration probing is reduced to `DurationLoaded`, with the duration supplied by the environment. That covers `asset.load`, the NaN check and the one-second retry.
- The periodic time observer is reduced to `PositionObserved`.
- `MPRemoteCommandCenter` and the now-playing info are left out. They are OS integration that only calls modelled methods.
- `downloadProgress` is left out (floating-point progress).
- The hops through `DispatchQueue.main.async` and `MainActor.run` are left out. Each asynchronous operation is one step before its `await` and one after.
- The Combine `debounce` and `removeDuplicates` on the search text are left out. `SearchQuerySettled` is the moment a settled text reaches the sink.
- `getRecommendedConcerts` is left out because it uses randomness. `getOnThisDayConcerts` is left out because it uses the clock.
- The SwiftUI views are not part of this model.
- `Show.tracksBySet` is declared `[Int: [Track]]` but groups by the optional `setNumber`. The model keys the groups by `Option<int>`.
- `Playlist.id` is declared as a `UUID`, but the playlist view model builds and compares it as a `String`. The model uses a string.
- ArchiveService.swift:175 reads `file.length?.timeInterval`, but `length` is a `String?` and `timeInterval` is declared on `ArchiveFile` (line 255), so the line does not type-check as written. The model reads it as the file's own `timeInterval`, which parses that same `length`.
- Archive.SortByTrack: Swift's `sorted(by:)` does not promise a stable order. The model is an insertion sort that keeps the input order among files with equal or missing track numbers. For such files the real order, and the `index + 1` numbers derived from it, may differ.
- Player.NextAdjacency, Player.PreviousAdjacency: the adjacency facts are stated only for concerts with distinct track ids. With a repeated id, `firstIndex(where:)` (MusicPlayer.swift:175 and 193) finds the first copy, so next and previous move relative to that copy. `AfterNext` and `AfterPrevious` model this behaviour, but no lemma states it.
- The playlist view model persists under "savedPlaylists", and the persistence manager uses "playlists". Both are modelled, as separate keys.
