/**
 * The catalog client's mapping logic (ArchiveService.swift): the search
 * query, the search-result and metadata mappings with their fallbacks, the
 * audio-file pipeline that yields a concert's tracks, and the "M:S" /
 * "H:M:S" length parser. The HTTP exchange itself is a parameter: the reply
 * the server gave.
 */
module Archive {
  import opened Wrappers
  import opened Arithmetic
  import opened Text
  import opened Tracks
  import opened Concerts
  import Shows

  const BaseURL := "https://archive.org"
  const DownloadEndpoint := "/download"
  const BaseQuery := "collection:(GratefulDead)"
  const SearchFields := "identifier,title,date,venue,coverage,year"
  const ArchiveSource := "Archive.org"

  datatype ServiceError =
    | InvalidResponse   // a status other than 200
    | InvalidData       // metadata without a title or a date
    | DecodingFailed    // the body is not the expected JSON
    | TransportFailed   // the request itself threw

  /** What the server answered: a transport failure, or a status and a body that decodes (or not). */
  datatype Reply<T> = TransportFailure | Reply(statusCode: int, body: Option<T>)

  /** Status check and JSON decoding, as every request of the service does them. */
  function Fetch<T>(reply: Reply<T>): (r: Result<T, ServiceError>)
    ensures r.Success? <==> reply.Reply? && reply.statusCode == 200 && reply.body.Some?
    ensures r.Success? ==> r.value == reply.body.value
    ensures reply.Reply? && reply.statusCode != 200 ==> r == Failure(InvalidResponse)
  {
    match reply
    case TransportFailure => Failure(TransportFailed)
    case Reply(status, body) =>
      if status != 200 then Failure(InvalidResponse)
      else if body.None? then Failure(DecodingFailed)
      else Success(body.value)
  }

  // ---------------------------------------------------------------- search

  function QueryFilter(query: Option<string>): string {
    if query.Some? && query.value != "" then " AND (" + query.value + ")" else ""
  }

  function YearFilter(year: Option<int>): string {
    if year.Some? then " AND year:" + IntToString(year.value) else ""
  }

  function VenueFilter(venue: Option<string>): string {
    if venue.Some? && venue.value != "" then " AND venue:" + venue.value else ""
  }

  /** `searchQuery` in searchConcerts, built by appending one filter after another. */
  method BuildSearchQuery(query: Option<string>, year: Option<int>, venue: Option<string>) returns (q: string)
    ensures q == BaseQuery + QueryFilter(query) + YearFilter(year) + VenueFilter(venue)
  {
    q := BaseQuery;
    if query.Some? && query.value != "" {
      var filter := " AND (" + query.value + ")";
      q := q + filter;
    }
    assert q == BaseQuery + QueryFilter(query);
    if year.Some? {
      var filter := " AND year:" + IntToString(year.value);
      q := q + filter;
    }
    assert q == BaseQuery + QueryFilter(query) + YearFilter(year);
    if venue.Some? && venue.value != "" {
      var filter := " AND venue:" + venue.value;
      q := q + filter;
    }
  }

  /**
   * The query always starts with the collection filter; each further filter is
   * present exactly when its input is given (and, for text, non-empty), and
   * they follow in the order text, year, venue.
   */
  lemma SearchQueryShape(query: Option<string>, year: Option<int>, venue: Option<string>)
    ensures var q := BaseQuery + QueryFilter(query) + YearFilter(year) + VenueFilter(venue);
            BaseQuery <= q &&
            (q == BaseQuery <==> (query.None? || query.value == "") && year.None? && (venue.None? || venue.value == ""))
    ensures QueryFilter(query) != "" <==> query.Some? && query.value != ""
    ensures YearFilter(year) != "" <==> year.Some?
    ensures VenueFilter(venue) != "" <==> venue.Some? && venue.value != ""
    ensures year.Some? ==> ParseInt(YearFilter(year)[|" AND year:"|..]) == Some(year.value)
  {
    QueryPrefix(QueryFilter(query), YearFilter(year), VenueFilter(venue));
    if year.Some? {
      YearFilterReadsBack(year.value);
    }
  }

  lemma QueryPrefix(a: string, b: string, c: string)
    ensures BaseQuery <= BaseQuery + a + b + c
    ensures BaseQuery + a + b + c == BaseQuery <==> a == "" && b == "" && c == ""
  {
    assert |BaseQuery + a + b + c| == |BaseQuery| + |a| + |b| + |c|;
    assert (BaseQuery + a + b + c)[..|BaseQuery|] == BaseQuery;
  }

  lemma YearFilterReadsBack(year: int)
    ensures ParseInt(YearFilter(Some(year))[|" AND year:"|..]) == Some(year)
  {
    assert YearFilter(Some(year))[|" AND year:"|..] == IntToString(year);
    ParseIntOfIntToString(year);
  }

  /** The query items of the search request: 50 rows per page, newest first, as JSON. */
  function SearchItems(q: string, page: int): (items: seq<(string, string)>)
    ensures |items| == 6 && items[0] == ("q", q)
    ensures items[2] == ("sort[]", "date desc") && items[5] == ("output", "json")
    ensures items[3] == ("rows", "50") && items[4].0 == "page" && ParseInt(items[4].1) == Some(page)
  {
    ParseIntOfIntToString(page);
    [("q", q), ("fl[]", SearchFields), ("sort[]", "date desc"), ("rows", "50"),
     ("page", IntToString(page)), ("output", "json")]
  }

  /** One search hit as decoded; any field may be missing. */
  datatype ArchiveDoc = ArchiveDoc(
    identifier: Option<string>,
    title: Option<string>,
    date: Option<string>,
    venue: Option<string>,
    coverage: Option<string>,
    year: Option<int>)

  function CoverURL(identifier: string): string {
    BaseURL + "/services/img/" + identifier
  }

  /** A search hit becomes a placeholder concert, or nothing when a field is missing or the date is unreadable. */
  function ConcertFromDoc(doc: ArchiveDoc, parseDate: string -> Option<Date>): (r: Option<Concert>)
    ensures r.Some? <==> doc.identifier.Some? && doc.title.Some? && doc.date.Some? && doc.venue.Some? &&
                         doc.coverage.Some? && doc.year.Some? && parseDate(doc.date.value).Some?
    ensures r.Some? ==> r.value.id == doc.identifier.value && r.value.tracks == [] &&
                        r.value.source == ArchiveSource && r.value.location == doc.coverage.value &&
                        r.value.venue == doc.venue.value && r.value.title == doc.title.value &&
                        r.value.year == doc.year.value && r.value.date == parseDate(doc.date.value).value &&
                        !r.value.isFavorite
  {
    match doc
    case ArchiveDoc(Some(identifier), Some(title), Some(dateString), Some(venue), Some(coverage), Some(year)) =>
      (match parseDate(dateString)
       case None => None
       case Some(date) =>
         Some(NewConcert(identifier, title, date, venue, coverage, year, Some(CoverURL(identifier)), [], ArchiveSource)))
    case _ => None
  }

  /** `docs.compactMap { ... }`: the hits that map to a concert, in order. */
  function ConcertsFromDocs(docs: seq<ArchiveDoc>, parseDate: string -> Option<Date>): (r: seq<Concert>)
    ensures |r| <= |docs|
    ensures forall i :: 0 <= i < |r| ==>
              r[i].tracks == [] && r[i].source == ArchiveSource &&
              exists j :: 0 <= j < |docs| && ConcertFromDoc(docs[j], parseDate) == Some(r[i])
    ensures forall j :: 0 <= j < |docs| && ConcertFromDoc(docs[j], parseDate).Some? ==>
              ConcertFromDoc(docs[j], parseDate).value in r
  {
    if docs == [] then []
    else
      var rest := ConcertsFromDocs(docs[1..], parseDate);
      assert forall j :: 1 <= j < |docs| ==> docs[j] == docs[1..][j - 1];
      match ConcertFromDoc(docs[0], parseDate)
      case None => rest
      case Some(c) => [c] + rest
  }

  /** A single hit contributes its concert when it maps to one, and nothing otherwise. */
  lemma ConcertsFromDocsOne(doc: ArchiveDoc, parseDate: string -> Option<Date>)
    ensures ConcertsFromDocs([doc], parseDate) ==
            (if ConcertFromDoc(doc, parseDate).Some? then [ConcertFromDoc(doc, parseDate).value] else [])
  {
  }

  /** The mapping keeps the hits' order and multiplicity: it distributes over concatenation. */
  lemma {:induction false} ConcertsFromDocsAppend(a: seq<ArchiveDoc>, b: seq<ArchiveDoc>, parseDate: string -> Option<Date>)
    ensures ConcertsFromDocs(a + b, parseDate) == ConcertsFromDocs(a, parseDate) + ConcertsFromDocs(b, parseDate)
  {
    if a == [] {
      assert a + b == b;
    } else {
      assert (a + b)[0] == a[0];
      assert (a + b)[1..] == a[1..] + b;
      ConcertsFromDocsAppend(a[1..], b, parseDate);
    }
  }

  /**
   * searchConcerts: builds the request from the filters and the page, then
   * maps the reply. Returns the query items sent and the outcome.
   */
  method SearchConcerts(query: Option<string>, year: Option<int>, venue: Option<string>, page: int,
                        reply: Reply<seq<ArchiveDoc>>, parseDate: string -> Option<Date>)
    returns (items: seq<(string, string)>, result: Result<seq<Concert>, ServiceError>)
    ensures items == SearchItems(BaseQuery + QueryFilter(query) + YearFilter(year) + VenueFilter(venue), page)
    ensures result.Failure? <==> Fetch(reply).Failure?
    ensures result.Success? ==> result.value == ConcertsFromDocs(Fetch(reply).value, parseDate)
  {
    var q := BuildSearchQuery(query, year, venue);
    items := SearchItems(q, page);
    match Fetch(reply)
    case Failure(e) => result := Failure(e);
    case Success(docs) => result := Success(ConcertsFromDocs(docs, parseDate));
  }

  // ---------------------------------------------------------------- audio files

  /** One entry of an item's file list. */
  datatype ArchiveFile = ArchiveFile(
    name: Option<string>,
    title: Option<string>,
    format: Option<string>,
    track: Option<int>,
    length: Option<string>)

  /** `ArchiveFile.timeInterval`: "M:S" or "H:M:S" in seconds; anything else is nil. */
  function TimeInterval(length: Option<string>): (r: Option<real>)
    ensures length.None? ==> r.None?
    ensures r.Some? ==> |Split(length.value, ':')| in {2, 3}
  {
    match length
    case None => None
    case Some(s) =>
      var c := Split(s, ':');
      if |c| == 2 then
        match (ParseInt(c[0]), ParseInt(c[1]))
        case (Some(m), Some(sec)) => Some(m as real * 60.0 + sec as real)
        case _ => None
      else if |c| == 3 then
        match (ParseInt(c[0]), ParseInt(c[1]), ParseInt(c[2]))
        case (Some(h), Some(m), Some(sec)) => Some(h as real * 3600.0 + m as real * 60.0 + sec as real)
        case _ => None
      else None
  }

  /** A track's "m:ss" label is a length the parser reads back as the truncated duration. */
  lemma TimeIntervalReadsTrackLabel(t: Track)
    ensures TimeInterval(Some(FormattedDuration(t))) == Some(Truncate(t.duration) as real)
  {
  }

  /** A show's "h:mm:ss" / "m:ss" label reads back as its truncated total duration. */
  lemma TimeIntervalReadsShowLabel(s: Shows.Show)
    requires Shows.TotalDuration(s) >= 0.0
    ensures TimeInterval(Some(Shows.TotalDurationFormatted(s))) == Some(Truncate(Shows.TotalDuration(s)) as real)
  {
  }

  /** "M:S" with any two integers reads as M*60 + S seconds. */
  lemma TimeIntervalTwoFields(m: int, sec: int)
    ensures TimeInterval(Some(IntToString(m) + ":" + IntToString(sec))) == Some(m as real * 60.0 + sec as real)
  {
    var caption := IntToString(m) + ":" + IntToString(sec);
    var fields := [IntToString(m), IntToString(sec)];
    assert Split(caption, ':') == fields by {
      NumberField(m);
      NumberField(sec);
      SplitJoin(fields, ':');
      assert Join(fields, ':') == caption;
    }
    ParseIntOfIntToString(m);
    ParseIntOfIntToString(sec);
  }

  /** A rendered integer is a non-empty field without a colon. */
  lemma NumberField(n: int)
    ensures |IntToString(n)| > 0 && Free(IntToString(n), ':')
  {
  }

  lemma SplitThreeNumbers(h: int, m: int, sec: int)
    ensures Split(IntToString(h) + ":" + IntToString(m) + ":" + IntToString(sec), ':') ==
            [IntToString(h), IntToString(m), IntToString(sec)]
  {
    var fields := [IntToString(h), IntToString(m), IntToString(sec)];
    NumberField(h);
    NumberField(m);
    NumberField(sec);
    assert forall i :: 0 <= i < |fields| ==> |fields[i]| > 0 && Free(fields[i], ':');
    SplitJoin(fields, ':');
    assert Join(fields[2..], ':') == IntToString(sec);
    assert Join(fields[1..], ':') == IntToString(m) + ":" + IntToString(sec);
    assert Join(fields, ':') == IntToString(h) + ":" + IntToString(m) + ":" + IntToString(sec);
  }

  /** "H:M:S" with any three integers reads as H*3600 + M*60 + S seconds. */
  lemma TimeIntervalThreeFields(h: int, m: int, sec: int)
    ensures TimeInterval(Some(IntToString(h) + ":" + IntToString(m) + ":" + IntToString(sec))) ==
            Some(h as real * 3600.0 + m as real * 60.0 + sec as real)
  {
    var fields := [IntToString(h), IntToString(m), IntToString(sec)];
    SplitThreeNumbers(h, m, sec);
    assert ParseInt(fields[0]) == Some(h) && ParseInt(fields[1]) == Some(m) && ParseInt(fields[2]) == Some(sec) by {
      ParseIntOfIntToString(h);
      ParseIntOfIntToString(m);
      ParseIntOfIntToString(sec);
    }
  }

  /**
   * A length has a value exactly when it splits into two or three fields
   * that all read as integers; any other field count, or a field that is
   * not a number, gives nil.
   */
  lemma TimeIntervalDefined(s: string)
    ensures var c := Split(s, ':');
            TimeInterval(Some(s)).Some? <==>
              (|c| == 2 || |c| == 3) && forall i :: 0 <= i < |c| ==> ParseInt(c[i]).Some?
  {
  }

  predicate IsAudio(f: ArchiveFile) {
    f.format == Some("VBR MP3") || f.format == Some("Flac")
  }

  /** The two `filter`s: mp3 or flac files that have a title, in list order. */
  function AudioCandidates(files: seq<ArchiveFile>): (r: seq<ArchiveFile>)
    ensures forall i :: 0 <= i < |r| ==> IsAudio(r[i]) && r[i].title.Some?
    ensures multiset(r) <= multiset(files)
    ensures forall f :: f in files && IsAudio(f) && f.title.Some? ==> f in r
  {
    if files == [] then []
    else
      var rest := AudioCandidates(files[1..]);
      assert files == [files[0]] + files[1..];
      if IsAudio(files[0]) && files[0].title.Some? then [files[0]] + rest else rest
  }

  /** A single file is kept exactly when it is an mp3 or flac file with a title. */
  lemma AudioCandidatesOne(f: ArchiveFile)
    ensures AudioCandidates([f]) == (if IsAudio(f) && f.title.Some? then [f] else [])
  {
  }

  /** The filters keep the files' order and multiplicity: they distribute over concatenation. */
  lemma {:induction false} AudioCandidatesAppend(a: seq<ArchiveFile>, b: seq<ArchiveFile>)
    ensures AudioCandidates(a + b) == AudioCandidates(a) + AudioCandidates(b)
  {
    if a == [] {
      assert a + b == b;
    } else {
      assert (a + b)[0] == a[0];
      assert (a + b)[1..] == a[1..] + b;
      AudioCandidatesAppend(a[1..], b);
    }
  }

  function TrackKey(f: ArchiveFile): int {
    f.track.GetOr(0)
  }

  predicate SortedByTrack(s: seq<ArchiveFile>) {
    forall i, j :: 0 <= i < j < |s| ==> TrackKey(s[i]) <= TrackKey(s[j])
  }

  /** Places `f` after the trailing files whose key is larger: into a sorted `s`, after every file whose key is not larger. */
  function Insert(s: seq<ArchiveFile>, f: ArchiveFile): (r: seq<ArchiveFile>)
    ensures |r| == |s| + 1
  {
    if s == [] || TrackKey(s[|s| - 1]) <= TrackKey(f) then s + [f]
    else Insert(s[..|s| - 1], f) + [s[|s| - 1]]
  }

  /** Inserting adds exactly `f`. */
  lemma {:induction false} InsertPermutation(s: seq<ArchiveFile>, f: ArchiveFile)
    ensures multiset(Insert(s, f)) == multiset(s) + multiset{f}
  {
    if s != [] && TrackKey(s[|s| - 1]) > TrackKey(f) {
      var front := s[..|s| - 1];
      assert s == front + [s[|s| - 1]];
      InsertPermutation(front, f);
    }
  }

  /** Inserting a file no larger than a bound into files no larger than it gives files no larger than it. */
  lemma InsertBounded(s: seq<ArchiveFile>, f: ArchiveFile, bound: int)
    requires forall i :: 0 <= i < |s| ==> TrackKey(s[i]) <= bound
    requires TrackKey(f) <= bound
    ensures forall i :: 0 <= i < |Insert(s, f)| ==> TrackKey(Insert(s, f)[i]) <= bound
  {
    var r := Insert(s, f);
    InsertPermutation(s, f);
    forall i | 0 <= i < |r| ensures TrackKey(r[i]) <= bound {
      assert r[i] in multiset(r);
      if r[i] != f {
        assert r[i] in multiset(s);
        var k :| 0 <= k < |s| && s[k] == r[i];
      }
    }
  }

  /** Inserting into a list sorted by track number keeps it sorted. */
  lemma {:induction false} InsertSorted(s: seq<ArchiveFile>, f: ArchiveFile)
    requires SortedByTrack(s)
    ensures SortedByTrack(Insert(s, f))
  {
    var n := |s|;
    if s == [] || TrackKey(s[n - 1]) <= TrackKey(f) {
      forall i, j | 0 <= i < j < n + 1 ensures TrackKey((s + [f])[i]) <= TrackKey((s + [f])[j]) {
        if j == n { assert TrackKey(s[i]) <= TrackKey(s[n - 1]); }
      }
    } else {
      var last := s[n - 1];
      var front := s[..n - 1];
      assert SortedByTrack(front) by {
        forall i, j | 0 <= i < j < n - 1 ensures TrackKey(front[i]) <= TrackKey(front[j]) {
          assert front[i] == s[i] && front[j] == s[j];
        }
      }
      assert forall i :: 0 <= i < n - 1 ==> TrackKey(front[i]) <= TrackKey(last) by {
        forall i | 0 <= i < n - 1 ensures TrackKey(front[i]) <= TrackKey(last) {
          assert front[i] == s[i];
        }
      }
      InsertSorted(front, f);
      InsertBounded(front, f, TrackKey(last));
      var r := Insert(front, f);
      forall i, j | 0 <= i < j < n + 1 ensures TrackKey((r + [last])[i]) <= TrackKey((r + [last])[j]) {
        assert (r + [last])[i] == r[i];
        if j < n {
          assert (r + [last])[j] == r[j];
        }
      }
    }
  }

  /** `sorted { ($0.track ?? 0) < ($1.track ?? 0) }`: ascending track number, a missing number counting as 0. */
  function SortByTrack(files: seq<ArchiveFile>): seq<ArchiveFile> {
    if files == [] then []
    else Insert(SortByTrack(files[..|files| - 1]), files[|files| - 1])
  }

  /** The sort puts the files in ascending track order and keeps every file. */
  lemma {:induction false} SortByTrackSpec(files: seq<ArchiveFile>)
    ensures SortedByTrack(SortByTrack(files)) && multiset(SortByTrack(files)) == multiset(files)
  {
    if files != [] {
      var front := files[..|files| - 1];
      assert files == front + [files[|files| - 1]];
      SortByTrackSpec(front);
      InsertSorted(SortByTrack(front), files[|files| - 1]);
      InsertPermutation(SortByTrack(front), files[|files| - 1]);
    }
  }

  /** The `Track` built from a sorted audio file, where `index` is its position in that list. */
  function TrackOf(identifier: string, f: ArchiveFile, index: nat): Track
    requires f.title.Some? && f.name.Some?
  {
    Track(identifier + "_" + f.name.value, f.title.value, TimeInterval(f.length).GetOr(0.0),
          BaseURL + DownloadEndpoint + "/" + identifier + "/" + f.name.value,
          f.track.GetOr(index + 1), identifier, None)
  }

  /**
   * `enumerated().compactMap { ... }` over the sorted files, the first of which
   * sits at position `offset`: files without a name are skipped, but still use
   * up their position.
   */
  function TracksFromFiles(identifier: string, files: seq<ArchiveFile>, offset: nat): (r: seq<Track>)
    ensures |r| <= |files|
  {
    if files == [] then []
    else
      var rest := TracksFromFiles(identifier, files[1..], offset + 1);
      var f := files[0];
      if f.title.Some? && f.name.Some? then [TrackOf(identifier, f, offset)] + rest else rest
  }

  /** A named, titled file at position `offset + i` of the list. */
  predicate MakesTrack(files: seq<ArchiveFile>, i: int) {
    0 <= i < |files| && files[i].name.Some? && files[i].title.Some?
  }

  /** A single file at position `offset` gives its track when it has a title and a name, and nothing otherwise. */
  lemma TracksFromFilesOne(identifier: string, f: ArchiveFile, offset: nat)
    ensures TracksFromFiles(identifier, [f], offset) ==
            (if f.title.Some? && f.name.Some? then [TrackOf(identifier, f, offset)] else [])
  {
  }

  /**
   * The map keeps the files' order and multiplicity: the tracks of `a + b`
   * are those of `a` followed by those of `b`, whose positions start after `a`.
   */
  lemma {:induction false} TracksFromFilesAppend(identifier: string, a: seq<ArchiveFile>, b: seq<ArchiveFile>, offset: nat)
    ensures TracksFromFiles(identifier, a + b, offset) ==
            TracksFromFiles(identifier, a, offset) + TracksFromFiles(identifier, b, offset + |a|)
    decreases |a|
  {
    if a == [] {
      assert a + b == b;
    } else {
      var f := a[0];
      var head := if f.title.Some? && f.name.Some? then [TrackOf(identifier, f, offset)] else [];
      assert (a + b)[0] == f && (a + b)[1..] == a[1..] + b;
      var front := TracksFromFiles(identifier, a[1..], offset + 1);
      var back := TracksFromFiles(identifier, b, offset + |a|);
      assert TracksFromFiles(identifier, a + b, offset) == head + TracksFromFiles(identifier, a[1..] + b, offset + 1);
      assert TracksFromFiles(identifier, a, offset) == head + front;
      TracksFromFilesAppend(identifier, a[1..], b, offset + 1);
      assert TracksFromFiles(identifier, a[1..] + b, offset + 1) == front + back;
      assert head + (front + back) == head + front + back;
    }
  }

  /** The track at position `k` of the result comes from a named, titled file, numbered by its position in the list. */
  lemma {:induction false} TracksFromFilesSound(identifier: string, files: seq<ArchiveFile>, offset: nat, k: nat)
    requires k < |TracksFromFiles(identifier, files, offset)|
    ensures exists i :: MakesTrack(files, i) && TracksFromFiles(identifier, files, offset)[k] == TrackOf(identifier, files[i], offset + i)
    decreases |files|
  {
    var r := TracksFromFiles(identifier, files, offset);
    var rest := TracksFromFiles(identifier, files[1..], offset + 1);
    if MakesTrack(files, 0) {
      assert r == [TrackOf(identifier, files[0], offset)] + rest;
      if k == 0 {
        assert r[0] == TrackOf(identifier, files[0], offset + 0);
      } else {
        TracksFromFilesSound(identifier, files[1..], offset + 1, k - 1);
        var i :| MakesTrack(files[1..], i) && rest[k - 1] == TrackOf(identifier, files[1..][i], offset + 1 + i);
        assert files[1..][i] == files[i + 1];
        assert MakesTrack(files, i + 1) && r[k] == TrackOf(identifier, files[i + 1], offset + (i + 1));
      }
    } else {
      assert r == rest;
      TracksFromFilesSound(identifier, files[1..], offset + 1, k);
      var i :| MakesTrack(files[1..], i) && rest[k] == TrackOf(identifier, files[1..][i], offset + 1 + i);
      assert files[1..][i] == files[i + 1];
      assert MakesTrack(files, i + 1) && r[k] == TrackOf(identifier, files[i + 1], offset + (i + 1));
    }
  }

  /** Every named, titled file produces its track, numbered by its position in the list. */
  lemma {:induction false} TracksFromFilesComplete(identifier: string, files: seq<ArchiveFile>, offset: nat)
    ensures var r := TracksFromFiles(identifier, files, offset);
            forall i :: MakesTrack(files, i) ==> TrackOf(identifier, files[i], offset + i) in r
  {
    if files != [] {
      var rest := TracksFromFiles(identifier, files[1..], offset + 1);
      TracksFromFilesComplete(identifier, files[1..], offset + 1);
      var r := TracksFromFiles(identifier, files, offset);
      assert forall x :: x in rest ==> x in r;
      forall i | MakesTrack(files, i) ensures TrackOf(identifier, files[i], offset + i) in r {
        if i > 0 {
          assert files[i] == files[1..][i - 1] && MakesTrack(files[1..], i - 1);
          assert TrackOf(identifier, files[1..][i - 1], offset + 1 + (i - 1)) in rest;
        }
      }
    }
  }

  /** Every track made from a file has id "<identifier>_<file name>", the file's duration or 0, and its number or position. */
  lemma TrackOfFields(identifier: string, f: ArchiveFile, index: nat)
    requires f.title.Some? && f.name.Some?
    ensures var t := TrackOf(identifier, f, index);
            t.id == identifier + "_" + f.name.value && t.concertId == identifier &&
            (f.track.Some? ==> t.trackNumber == f.track.value) &&
            (f.track.None? ==> t.trackNumber == index + 1) &&
            (TimeInterval(f.length).Some? ==> t.duration == TimeInterval(f.length).value) &&
            (TimeInterval(f.length).None? ==> t.duration == 0.0)
  {
  }

  /** getTracksForConcert: fetch the file list, keep titled mp3/flac files, sort them and make tracks. */
  function TracksForConcert(identifier: string, reply: Reply<seq<ArchiveFile>>): (r: Result<seq<Track>, ServiceError>)
    ensures r.Failure? <==> Fetch(reply).Failure?
    ensures r.Success? ==> r.value == TracksFromFiles(identifier, SortByTrack(AudioCandidates(Fetch(reply).value)), 0)
  {
    match Fetch(reply)
    case Failure(e) => Failure(e)
    case Success(files) => Success(TracksFromFiles(identifier, SortByTrack(AudioCandidates(files)), 0))
  }

  // ---------------------------------------------------------------- details

  /** The item metadata as decoded; every field is a list, some may be missing. */
  datatype ArchiveMetadata = ArchiveMetadata(
    identifier: seq<string>,
    title: seq<string>,
    date: seq<string>,
    venue: Option<seq<string>>,
    coverage: Option<seq<string>>,
    year: seq<string>,
    source: Option<seq<string>>)

  /** `list.first`. */
  function First(xs: seq<string>): (r: Option<string>)
    ensures r.Some? <==> |xs| > 0
    ensures r.Some? ==> r.value == xs[0]
  {
    if xs == [] then None else Some(xs[0])
  }

  /** `list?.first`. */
  function FirstOf(xs: Option<seq<string>>): (r: Option<string>)
    ensures r.Some? <==> xs.Some? && |xs.value| > 0
    ensures r.Some? ==> r.value == xs.value[0]
  {
    if xs.None? then None else First(xs.value)
  }

  /** The concert getConcertDetails builds from decoded metadata and the fetched tracks. */
  function ConcertFromMetadata(identifier: string, metadata: Option<ArchiveMetadata>, tracks: seq<Track>,
                               parseDate: string -> Option<Date>, now: Date): (r: Result<Concert, ServiceError>)
    ensures r.Failure? <==> metadata.None? || metadata.value.title == [] || metadata.value.date == []
    ensures r.Failure? ==> r.error == InvalidData
    ensures r.Success? ==>
              var m, c := metadata.value, r.value;
              c.id == identifier && c.title == m.title[0] && c.tracks == tracks && !c.isFavorite &&
              c.venue == (if FirstOf(m.venue).Some? then FirstOf(m.venue).value
                          else if FirstOf(m.coverage).Some? then FirstOf(m.coverage).value
                          else "Unknown") &&
              c.location == (if FirstOf(m.coverage).Some? then FirstOf(m.coverage).value else "Unknown") &&
              c.year == (if m.year != [] && ParseInt64(m.year[0]).Some? then ParseInt64(m.year[0]).value
                         else 0) &&
              c.date == (if parseDate(m.date[0]).Some? then parseDate(m.date[0]).value else now) &&
              c.source == (if FirstOf(m.source).Some? then FirstOf(m.source).value else "Unknown Source")
  {
    if metadata.None? || metadata.value.title == [] || metadata.value.date == [] then Failure(InvalidData)
    else
      var m := metadata.value;
      var venue := FirstOf(m.venue).GetOr(FirstOf(m.coverage).GetOr("Unknown"));
      var coverage := FirstOf(m.coverage).GetOr("Unknown");
      var year := ParseInt64(First(m.year).GetOr("0")).GetOr(0);
      assert ParseInt64("0") == Some(0) by { assert DigitsValue("0") == DigitsValue("") * 10 + 0; }
      var date := parseDate(m.date[0]).GetOr(now);
      var source := FirstOf(m.source).GetOr("Unknown Source");
      Success(NewConcert(identifier, m.title[0], date, venue, coverage, year, Some(CoverURL(identifier)), tracks, source))
  }

  /**
   * getConcertDetails: the metadata request is checked first, then the file
   * list is fetched, and only then are missing title or date reported.
   */
  function ConcertDetails(identifier: string, metadataReply: Reply<Option<ArchiveMetadata>>,
                          filesReply: Reply<seq<ArchiveFile>>, parseDate: string -> Option<Date>,
                          now: Date): (r: Result<Concert, ServiceError>)
    ensures Fetch(metadataReply).Failure? ==> r == Failure(Fetch(metadataReply).error)
    ensures Fetch(metadataReply).Success? && Fetch(filesReply).Failure? ==> r == Failure(Fetch(filesReply).error)
    ensures Fetch(metadataReply).Success? && Fetch(filesReply).Success? ==>
              var m := Fetch(metadataReply).value;
              (r.Failure? <==> m.None? || m.value.title == [] || m.value.date == []) &&
              (r.Failure? ==> r.error == InvalidData)
    ensures r.Success? ==>
              r.value.id == identifier && r.value.tracks == TracksForConcert(identifier, filesReply).value
    ensures Fetch(metadataReply).Success? && TracksForConcert(identifier, filesReply).Success? ==>
              r == ConcertFromMetadata(identifier, Fetch(metadataReply).value,
                                       TracksForConcert(identifier, filesReply).value, parseDate, now)
  {
    match Fetch(metadataReply)
    case Failure(e) => Failure(e)
    case Success(metadata) =>
      match TracksForConcert(identifier, filesReply)
      case Failure(e) => Failure(e)
      case Success(tracks) => ConcertFromMetadata(identifier, metadata, tracks, parseDate, now)
  }
}
