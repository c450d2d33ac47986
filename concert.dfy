/** The `Concert` value type (Concert.swift). */
module Concerts {
  import opened Wrappers
  import opened Tracks

  /** A point in time; how dates are parsed and rendered is left to the environment. */
  datatype Date = Date(secondsSince1970: int)

  datatype Concert = Concert(
    id: string,
    title: string,
    date: Date,
    venue: string,
    location: string,
    year: int,
    coverImageURL: Option<string>,
    tracks: seq<Track>,
    source: string,
    isFavorite: bool)

  /** The memberwise initializer that leaves `isFavorite` at its default. */
  function NewConcert(id: string, title: string, date: Date, venue: string, location: string,
                      year: int, coverImageURL: Option<string>, tracks: seq<Track>,
                      source: string): (c: Concert)
    ensures !c.isFavorite
    ensures c.id == id && c.title == title && c.date == date && c.venue == venue
    ensures c.location == location && c.year == year && c.coverImageURL == coverImageURL
    ensures c.tracks == tracks && c.source == source
  {
    Concert(id, title, date, venue, location, year, coverImageURL, tracks, source, false)
  }

  /** Concert's `==`: two concerts are the same concert when their ids are. */
  predicate SameConcert(a: Concert, b: Concert) {
    a.id == b.id
  }

  /** `==` on concerts is an equivalence that looks at the id only. */
  lemma SameConcertIsEquivalence(a: Concert, b: Concert, c: Concert)
    ensures SameConcert(a, b) <==> a.id == b.id
    ensures SameConcert(a, a)
    ensures SameConcert(a, b) ==> SameConcert(b, a)
    ensures SameConcert(a, b) && SameConcert(b, c) ==> SameConcert(a, c)
  {
  }

  /** Updating the mutable fields `tracks` and `isFavorite` never changes `==` with any concert. */
  lemma MutableFieldsKeepIdentity(a: Concert, b: Concert, ts: seq<Track>, fav: bool)
    ensures SameConcert(a.(tracks := ts, isFavorite := fav), b) == SameConcert(a, b)
    ensures SameConcert(b, a.(tracks := ts, isFavorite := fav)) == SameConcert(b, a)
  {
  }
}
