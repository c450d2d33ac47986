/** The `Playlist` value type (Playlist.swift). */
module Playlists {
  import opened Wrappers
  import opened Arithmetic
  import opened Text
  import opened Tracks
  import opened Concerts

  /** A user playlist; the identifier is the text of a UUID. */
  datatype Playlist = Playlist(
    id: string,
    name: string,
    tracks: seq<Track>,
    coverImageURL: Option<string>,
    dateCreated: Date)

  /** `trackCount`. */
  function TrackCount(p: Playlist): (n: nat)
    ensures n == |p.tracks|
  {
    |p.tracks|
  }

  /** `totalDuration`: the sum of the track durations, 0 for an empty playlist. */
  function TotalDuration(p: Playlist): (total: real)
    ensures p.tracks == [] ==> total == 0.0
    ensures (forall i :: 0 <= i < |p.tracks| ==> p.tracks[i].duration >= 0.0) ==> total >= 0.0
  {
    SumDurations(p.tracks)
  }

  /** Drops the unit letter that ends a field such as "12m". */
  function WithoutUnit(field: string, unit: char): Option<string> {
    if |field| > 0 && field[|field| - 1] == unit then Some(field[..|field| - 1]) else None
  }

  /** Reads a "<h>h <m>m" or "<m>m" label back as (hours, minutes); hours are 0 when not shown. */
  function ReadHoursMinutes(caption: string): Option<(int, int)> {
    var fields := Split(caption, ' ');
    if |fields| == 1 then
      match WithoutUnit(fields[0], 'm')
      case None => None
      case Some(m) =>
        match ParseInt(m)
        case None => None
        case Some(minutes) => Some((0, minutes))
    else if |fields| == 2 then
      match (WithoutUnit(fields[0], 'h'), WithoutUnit(fields[1], 'm'))
      case (Some(h), Some(m)) =>
        (match (ParseInt(h), ParseInt(m))
         case (Some(hours), Some(minutes)) => Some((hours, minutes))
         case _ => None)
      case _ => None
    else None
  }

  /** `IntToString(n) + [unit]` ends with its unit and is free of spaces. */
  lemma UnitField(n: int, unit: char)
    requires unit != ' ' && !IsDigit(unit) && unit != '-'
    ensures var f := IntToString(n) + [unit];
            |f| > 0 && Free(f, ' ') && WithoutUnit(f, unit) == Some(IntToString(n))
  {
    var f := IntToString(n) + [unit];
    assert f[..|f| - 1] == IntToString(n);
  }

  /**
   * `formattedDuration`: "<h>h <m>m" when there is at least one whole hour,
   * otherwise "<m>m"; leftover seconds are not shown. Read back, the label
   * gives the whole hours and minutes of the truncated total.
   */
  function FormattedDuration(p: Playlist): (r: string)
    ensures var n := Truncate(TotalDuration(p));
            ReadHoursMinutes(r) ==
              Some((if Quot(n, 3600) > 0 then Quot(n, 3600) else 0, Quot(Rem(n, 3600), 60)))
    ensures var n := Truncate(TotalDuration(p));
            n >= 0 ==>
              var (h, m) := ReadHoursMinutes(r).value;
              0 <= m < 60 && h * 3600 + m * 60 <= n < h * 3600 + m * 60 + 60
    ensures (' ' in r) <==> Quot(Truncate(TotalDuration(p)), 3600) > 0
  {
    var n := Truncate(TotalDuration(p));
    var hours, minutes := Quot(n, 3600), Quot(Rem(n, 3600), 60);
    HoursMinutesSeconds(n);
    UnitField(minutes, 'm');
    ParseIntOfIntToString(minutes);
    if hours > 0 then
      UnitField(hours, 'h');
      ParseIntOfIntToString(hours);
      var fields := [IntToString(hours) + "h", IntToString(minutes) + "m"];
      SplitJoin(fields, ' ');
      var r := IntToString(hours) + "h " + IntToString(minutes) + "m";
      assert Join(fields, ' ') == r;
      assert r[|IntToString(hours)| + 1] == ' ';
      r
    else
      var r := IntToString(minutes) + "m";
      SplitJoin([r], ' ');
      assert Join([r], ' ') == r;
      r
  }

  /** `totalDurationFormatted`, the alias the views use. */
  function TotalDurationFormatted(p: Playlist): (r: string)
    ensures r == FormattedDuration(p)
  {
    FormattedDuration(p)
  }
}
