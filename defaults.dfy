/**
 * The app's key-value store (UserDefaults), shared by the persistence
 * manager and the playlist view model. JSON encoding is opaque: an encoded
 * list decodes back to itself, and an empty list decodes as an empty list of
 * any element type.
 */
module Defaults {
  import opened Wrappers
  import opened Concerts
  import opened Playlists

  /** An encoded JSON document. */
  datatype Json = ConcertList(concerts: seq<Concert>) | PlaylistList(playlists: seq<Playlist>) | Malformed

  /** A stored value: a string array, or raw data. */
  datatype Stored = StringArray(strings: seq<string>) | Data(json: Json)

  /** `JSONDecoder().decode([Concert].self, from: data)`. */
  function DecodeConcerts(json: Json): (r: Option<seq<Concert>>)
    ensures json.ConcertList? ==> r == Some(json.concerts)
    ensures json.Malformed? ==> r.None?
  {
    match json
    case ConcertList(cs) => Some(cs)
    case PlaylistList(ps) => if ps == [] then Some([]) else None
    case Malformed => None
  }

  /** `JSONDecoder().decode([Playlist].self, from: data)`. */
  function DecodePlaylists(json: Json): (r: Option<seq<Playlist>>)
    ensures json.PlaylistList? ==> r == Some(json.playlists)
    ensures json.Malformed? ==> r.None?
  {
    match json
    case PlaylistList(ps) => Some(ps)
    case ConcertList(cs) => if cs == [] then Some([]) else None
    case Malformed => None
  }

  /** `UserDefaults.standard.data(forKey:)`. */
  function DataFor(values: map<string, Stored>, key: string): (r: Option<Json>)
    ensures r.Some? <==> key in values && values[key].Data?
    ensures r.Some? ==> values[key] == Data(r.value)
  {
    if key in values && values[key].Data? then Some(values[key].json) else None
  }

  class UserDefaults {
    var values: map<string, Stored>

    constructor (values: map<string, Stored>)
      ensures this.values == values
    {
      this.values := values;
    }

    /** `set(_:forKey:)`. */
    method Set(key: string, v: Stored)
      modifies this
      ensures values == old(values)[key := v]
    {
      values := values[key := v];
    }
  }
}
