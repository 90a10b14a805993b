/** The extended-M3U writer and reader of the backend (`commands/m3u.rs`): the `#EXTM3U`
    header and `#EXTINF:<duration>,<display>` lines of section 4.3.1.1 and 4.3.2.1 of RFC 8216,
    with integer durations, followed by one path line per track. */
module M3uCodec {
  import opened Wrappers
  import opened Strings
  import opened Paths
  import opened Entities
  import opened Seqs

  const Header: string := "#EXTM3U"
  const InfPrefix: string := "#EXTINF:"

  // ---------------------------------------------------------------------------------------------
  // Relative paths

  /** The number of leading components two paths share (`zip(..).take_while(a == b).count()`). */
  function CommonPrefixLength(a: seq<string>, b: seq<string>): (n: nat)
    ensures n <= |a| && n <= |b| && a[..n] == b[..n]
    ensures n < |a| && n < |b| ==> a[n] != b[n]
    decreases |a|
  {
    if |a| == 0 || |b| == 0 || a[0] != b[0] then 0
    else
      var n := 1 + CommonPrefixLength(a[1..], b[1..]);
      assert a[..n] == [a[0]] + a[1..][..n - 1];
      assert b[..n] == [b[0]] + b[1..][..n - 1];
      n
  }

  /** `k` parent components. */
  function Ups(k: nat): (r: seq<string>)
    ensures |r| == k && forall i :: 0 <= i < k ==> r[i] == ".."
  {
    if k == 0 then [] else Ups(k - 1) + [".."]
  }

  /** The relative path from a directory to a file: one `..` for every component of the
      directory past their common prefix, then the file's components past it. */
  function RelativePath(fromDir: seq<string>, toFile: seq<string>): seq<string> {
    var c := CommonPrefixLength(fromDir, toFile);
    Ups(|fromDir| - c) + toFile[c..]
  }

  /** `compute_relative_path`. */
  method ComputeRelativePath(fromDir: seq<string>, toFile: seq<string>) returns (r: seq<string>)
    ensures r == RelativePath(fromDir, toFile)
  {
    var common := CommonPrefixLength(fromDir, toFile);
    var upCount := |fromDir| - common;
    r := [];
    for i := 0 to upCount
      invariant r == Ups(i)
    {
      r := r + [".."];
    }
    for j := common to |toFile|
      invariant r == Ups(upCount) + toFile[common..j]
    {
      assert toFile[common..j + 1] == toFile[common..j] + [toFile[j]];
      r := r + [toFile[j]];
    }
  }

  /** A file below the directory is reached without any `..`. */
  lemma RelativePathOfDescendant(fromDir: seq<string>, toFile: seq<string>)
    requires |fromDir| <= |toFile| && toFile[..|fromDir|] == fromDir
    ensures RelativePath(fromDir, toFile) == toFile[|fromDir|..]
    ensures ".." !in toFile ==> ".." !in RelativePath(fromDir, toFile)
  {
    assert forall i :: 0 <= i < |fromDir| ==> fromDir[i] == toFile[i];
  }

  /** Following a relative path from a directory: `..` drops the last component, anything else
      is appended. */
  function Resolve(base: seq<string>, rel: seq<string>): seq<string>
    decreases |rel|
  {
    if |rel| == 0 then base
    else if rel[0] == ".." then Resolve(if |base| == 0 then [] else base[..|base| - 1], rel[1..])
    else Resolve(base + [rel[0]], rel[1..])
  }

  lemma {:induction false} ResolveUps(base: seq<string>, k: nat, rest: seq<string>)
    requires k <= |base|
    ensures Resolve(base, Ups(k) + rest) == Resolve(base[..|base| - k], rest)
    decreases k
  {
    var rel := Ups(k) + rest;
    if k == 0 {
      assert rel == rest;
      assert base[..|base|] == base;
    } else {
      assert rel[0] == "..";
      assert Resolve(base, rel) == Resolve(base[..|base| - 1], rel[1..]);
      assert rel[1..] == Ups(k - 1) + rest by {
        assert forall i :: 0 <= i < k - 1 ==> rel[1..][i] == "..";
      }
      ResolveUps(base[..|base| - 1], k - 1, rest);
      assert base[..|base| - 1][..|base| - 1 - (k - 1)] == base[..|base| - k];
    }
  }

  lemma {:induction false} ResolvePlain(base: seq<string>, rest: seq<string>)
    requires ".." !in rest
    ensures Resolve(base, rest) == base + rest
    decreases |rest|
  {
    if |rest| > 0 {
      assert ".." !in rest[1..];
      ResolvePlain(base + [rest[0]], rest[1..]);
      assert base + [rest[0]] + rest[1..] == base + rest;
    }
  }

  /** The relative path leads from the directory back to the file, for a file path without
      `..` components. */
  lemma RelativePathResolves(fromDir: seq<string>, toFile: seq<string>)
    requires ".." !in toFile
    ensures Resolve(fromDir, RelativePath(fromDir, toFile)) == toFile
  {
    var c := CommonPrefixLength(fromDir, toFile);
    ResolveUps(fromDir, |fromDir| - c, toFile[c..]);
    assert fromDir[..c] == toFile[..c];
    assert ".." !in toFile[c..];
    ResolvePlain(fromDir[..c], toFile[c..]);
    assert toFile[..c] + toFile[c..] == toFile;
  }

  // ---------------------------------------------------------------------------------------------
  // Writing

  /** The display text after the comma: `artist - title`, or the title alone without an artist. */
  function DisplayText(t: Track): string {
    if t.artist != "" then t.artist + " - " + t.title else t.title
  }

  function InfLine(t: Track): string {
    InfPrefix + IntToString(t.duration) + "," + DisplayText(t)
  }

  /** The path line: the track's path relative to the playlist directory, with forward slashes. */
  function PathLine(t: Track, playlistDir: seq<string>): string {
    Slashes(Render(RelativePath(playlistDir, Components(t.absolutePath))))
  }

  /** Two lines per element, `first` then `second`, in order. */
  function LinePairs<T>(xs: seq<T>, first: T -> string, second: T -> string): (r: seq<string>)
    ensures |r| == 2 * |xs|
    decreases |xs|
  {
    if |xs| == 0 then []
    else
      var last := xs[|xs| - 1];
      LinePairs(xs[..|xs| - 1], first, second) + [first(last), second(last)]
  }

  /** Element `i` owns lines `2i` and `2i + 1`. */
  lemma {:induction false} LinePairsAt<T>(xs: seq<T>, first: T -> string, second: T -> string, i: nat)
    requires i < |xs|
    ensures LinePairs(xs, first, second)[2 * i] == first(xs[i])
    ensures LinePairs(xs, first, second)[2 * i + 1] == second(xs[i])
    decreases |xs|
  {
    var n := |xs|;
    var init := xs[..n - 1];
    if i < n - 1 {
      LinePairsAt(init, first, second, i);
      assert init[i] == xs[i];
    }
  }

  /** Two lines per track, in track order: its `#EXTINF` line, then its path line. */
  function TrackLines(tracks: seq<Track>, playlistDir: seq<string>): (r: seq<string>)
    ensures |r| == 2 * |tracks|
  {
    LinePairs(tracks, t => InfLine(t), t => PathLine(t, playlistDir))
  }

  function PlaylistLines(tracks: seq<Track>, playlistDir: seq<string>): seq<string> {
    [Header] + TrackLines(tracks, playlistDir)
  }

  /** Track `i` owns lines `2i` and `2i + 1` of the track lines. */
  lemma TrackLinesAt(tracks: seq<Track>, playlistDir: seq<string>, i: nat)
    requires i < |tracks|
    ensures TrackLines(tracks, playlistDir)[2 * i] == InfLine(tracks[i])
    ensures TrackLines(tracks, playlistDir)[2 * i + 1] == PathLine(tracks[i], playlistDir)
  {
    LinePairsAt(tracks, t => InfLine(t), t => PathLine(t, playlistDir), i);
  }

  /** The lines of a playlist: the header, then for track `i` its `#EXTINF` line at `1 + 2i`
      and its path line at `2 + 2i`; no path line has a backslash. */
  lemma PlaylistLinesLayout(tracks: seq<Track>, playlistDir: seq<string>)
    ensures |PlaylistLines(tracks, playlistDir)| == 1 + 2 * |tracks|
    ensures PlaylistLines(tracks, playlistDir)[0] == Header
    ensures forall i :: 0 <= i < |tracks| ==>
      && PlaylistLines(tracks, playlistDir)[1 + 2 * i] == InfLine(tracks[i])
      && PlaylistLines(tracks, playlistDir)[2 + 2 * i] == PathLine(tracks[i], playlistDir)
      && '\\' !in PlaylistLines(tracks, playlistDir)[2 + 2 * i]
  {
    var lines := PlaylistLines(tracks, playlistDir);
    var body := TrackLines(tracks, playlistDir);
    forall i | 0 <= i < |tracks|
      ensures lines[1 + 2 * i] == InfLine(tracks[i])
      ensures lines[2 + 2 * i] == PathLine(tracks[i], playlistDir)
    {
      TrackLinesAt(tracks, playlistDir, i);
      assert lines[1 + 2 * i] == body[2 * i];
      assert lines[2 + 2 * i] == body[2 * i + 1];
    }
  }

  /** Appending a track appends its two lines. */
  lemma PlaylistLinesSnoc(tracks: seq<Track>, i: nat, playlistDir: seq<string>)
    requires i < |tracks|
    ensures PlaylistLines(tracks[..i + 1], playlistDir)
         == PlaylistLines(tracks[..i], playlistDir) + [InfLine(tracks[i]), PathLine(tracks[i], playlistDir)]
  {
    assert tracks[..i + 1][..i] == tracks[..i];
  }

  /** The last track's two lines close the playlist. */
  lemma PlaylistLinesLast(tracks: seq<Track>, playlistDir: seq<string>)
    requires |tracks| > 0
    ensures PlaylistLines(tracks, playlistDir)
         == PlaylistLines(tracks[..|tracks| - 1], playlistDir)
            + [InfLine(tracks[|tracks| - 1]), PathLine(tracks[|tracks| - 1], playlistDir)]
  {
  }

  /** `build_m3u8`: the lines joined by `\n`, with a final `\n`. */
  method BuildM3u8(tracks: seq<Track>, playlistDir: seq<string>) returns (content: string)
    ensures content == Join(PlaylistLines(tracks, playlistDir), "\n") + "\n"
  {
    var lines := [Header];
    for i := 0 to |tracks|
      invariant lines == PlaylistLines(tracks[..i], playlistDir)
    {
      PlaylistLinesSnoc(tracks, i, playlistDir);
      var track := tracks[i];
      lines := lines + [InfLine(track)];
      var rel := ComputeRelativePath(playlistDir, Components(track.absolutePath));
      lines := lines + [Slashes(Render(rel))];
    }
    assert tracks[..|tracks|] == tracks;
    content := Join(lines, "\n") + "\n";
  }

  // ---------------------------------------------------------------------------------------------
  // Reading

  /** The `#EXTINF` data waiting for the next path line. */
  datatype Pending = Pending(title: string, artist: string, duration: int)

  const NoPending: Pending := Pending("", "", 0)

  /** The reader's state: the tracks so far and the pending data. */
  datatype ParseState = ParseState(tracks: seq<Track>, pending: Pending)

  const Initial: ParseState := ParseState([], NoPending)

  /** A trimmed line that names a track. */
  predicate IsPathLine(line: string) {
    line != "" && line[0] != '#'
  }

  /** The display text split at its first ` - ` into artist and title; without a separator it
      is all title and the artist is empty. */
  function SplitDisplay(display: string): (string, string) {
    match SplitOnce(display, " - ")
    case Some(credit) => credit
    case None => ("", display)
  }

  /** What `#EXTINF:<info>` does to the pending data: the text before the first comma (or all
      of it), trimmed, is the new duration, 0 when it is not an integer; the text after the
      comma, trimmed, replaces artist and title. Without a comma the pending title and artist
      stay. */
  function ReadInf(p: Pending, info: string): Pending {
    match SplitOnce(info, ",")
    case None => p.(duration := ParseI64(Trim(info)).GetOr(0))
    case Some((head, rest)) =>
      var credit := SplitDisplay(Trim(rest));
      Pending(credit.1, credit.0, ParseI64(Trim(head)).GetOr(0))
  }

  /** The track a path line yields. `resolve` stands for joining a relative path to the playlist
      directory and canonicalising it when the file exists. */
  function PathTrack(p: Pending, line: string, resolve: string -> string): Track {
    var rel := Slashes(line);
    var title := if p.title == "" then FileStem(line).GetOr("Unknown") else p.title;
    BareTrack(title, p.artist, p.duration, rel, resolve(rel))
  }

  /** One line of `parse_m3u8`. */
  function Step(st: ParseState, raw: string, resolve: string -> string): ParseState {
    var line := Trim(raw);
    if line == "" || line == Header then st
    else if StartsWith(line, InfPrefix) then ParseState(st.tracks, ReadInf(st.pending, line[|InfPrefix|..]))
    else if IsPathLine(line) then ParseState(st.tracks + [PathTrack(st.pending, line, resolve)], NoPending)
    else st
  }

  /** Blank lines, the header and comments other than `#EXTINF` change nothing. */
  lemma StepSkips(st: ParseState, raw: string, resolve: string -> string)
    requires var line := Trim(raw);
      line == "" || line == Header || (!StartsWith(line, InfPrefix) && !IsPathLine(line))
    ensures Step(st, raw, resolve) == st
  {
  }

  /** An `#EXTINF` line is a comment line other than the header. */
  lemma InfLineIsComment(line: string)
    requires StartsWith(line, InfPrefix)
    ensures line != Header && line != "" && line[0] == '#'
  {
    assert |line| >= 8;
    assert line[0] == line[..8][0];
  }

  /** An `#EXTINF` line is read by `ReadInf` and is not a path line. */
  lemma StepInf(st: ParseState, raw: string, resolve: string -> string)
    requires StartsWith(Trim(raw), InfPrefix)
    ensures !IsPathLine(Trim(raw))
    ensures Step(st, raw, resolve) == ParseState(st.tracks, ReadInf(st.pending, Trim(raw)[|InfPrefix|..]))
  {
    InfLineIsComment(Trim(raw));
  }

  /** A path line appends the track made from the pending data and clears it, so `#EXTINF`
      data applies to the next path only. */
  lemma StepPath(st: ParseState, raw: string, resolve: string -> string)
    requires IsPathLine(Trim(raw))
    ensures Step(st, raw, resolve)
         == ParseState(st.tracks + [PathTrack(st.pending, Trim(raw), resolve)], NoPending)
  {
    var line := Trim(raw);
    assert Header[0] == '#' && InfPrefix[0] == '#';
    assert line != Header && !StartsWith(line, InfPrefix);
  }

  /** The track of a path line has the pending artist and duration, the pending title or else
      the line's file stem (or `Unknown`), and the line with forward slashes as its relative
      path. */
  lemma PathTrackFields(p: Pending, line: string, resolve: string -> string)
    ensures var t := PathTrack(p, line, resolve);
      && t.artist == p.artist && t.duration == p.duration
      && t.title == (if p.title != "" then p.title else FileStem(line).GetOr("Unknown"))
      && t.title != ""
      && t.relativePath == Slashes(line) && '\\' !in t.relativePath
      && t.absolutePath == resolve(t.relativePath)
  {
    match FileStem(line)
    case None =>
    case Some(stem) =>
      assert FileName(line).Some?;
  }

  /** Every line either appends one track (a path line) or none, and earlier tracks stay. */
  lemma StepCount(st: ParseState, raw: string, resolve: string -> string)
    ensures |Step(st, raw, resolve).tracks| == |st.tracks| + (if IsPathLine(Trim(raw)) then 1 else 0)
    ensures Step(st, raw, resolve).tracks[..|st.tracks|] == st.tracks
  {
    var line := Trim(raw);
    if line == "" || line == Header {
      StepSkips(st, raw, resolve);
    } else if StartsWith(line, InfPrefix) {
      StepInf(st, raw, resolve);
    } else if IsPathLine(line) {
      StepPath(st, raw, resolve);
    } else {
      StepSkips(st, raw, resolve);
    }
  }

  /** The reader's state after a sequence of lines. */
  function ParseAll(lines: seq<string>, resolve: string -> string): ParseState
    decreases |lines|
  {
    if |lines| == 0 then Initial
    else Step(ParseAll(lines[..|lines| - 1], resolve), lines[|lines| - 1], resolve)
  }

  /** `parse_m3u8` (without `content.lines()`'s treatment of a final newline and of `\r`, which
      the trimming and the skipping of empty lines make unobservable). */
  method ParseM3u8(content: string, resolve: string -> string) returns (tracks: seq<Track>)
    ensures tracks == ParseAll(Split(content, '\n'), resolve).tracks
  {
    var lines := Split(content, '\n');
    tracks := [];
    var title, artist, duration := "", "", 0;
    for i := 0 to |lines|
      invariant ParseState(tracks, Pending(title, artist, duration)) == ParseAll(lines[..i], resolve)
    {
      assert lines[..i + 1][..i] == lines[..i];
      ghost var st := ParseState(tracks, Pending(title, artist, duration));
      assert ParseAll(lines[..i + 1], resolve) == Step(st, lines[i], resolve);
      var line := Trim(lines[i]);
      if line == "" || line == Header {
        StepSkips(st, lines[i], resolve);
        continue;
      }
      if StartsWith(line, InfPrefix) {
        StepInf(st, lines[i], resolve);
        var info := line[|InfPrefix|..];
        var parts := SplitOnce(info, ",");
        var head := if parts.Some? then parts.value.0 else info;
        duration := ParseI64(Trim(head)).GetOr(0);
        if parts.Some? {
          var display := Trim(parts.value.1);
          var credit := SplitOnce(display, " - ");
          if credit.Some? {
            artist := credit.value.0;
            title := credit.value.1;
          } else {
            title := display;
            artist := "";
          }
        }
        assert Pending(title, artist, duration) == ReadInf(st.pending, info);
      } else if line[0] != '#' {
        StepPath(st, lines[i], resolve);
        var rel := Slashes(line);
        var trackTitle := if title == "" then FileStem(line).GetOr("Unknown") else title;
        tracks := tracks + [BareTrack(trackTitle, artist, duration, rel, resolve(rel))];
        assert tracks == st.tracks + [PathTrack(st.pending, line, resolve)];
        title, artist, duration := "", "", 0;
      } else {
        StepSkips(st, lines[i], resolve);
      }
    }
    assert lines[..|lines|] == lines;
  }

  /** The number of trimmed lines that name a track. */
  function CountPathLines(lines: seq<string>): nat
    decreases |lines|
  {
    if |lines| == 0 then 0
    else CountPathLines(lines[..|lines| - 1]) + (if IsPathLine(Trim(lines[|lines| - 1])) then 1 else 0)
  }

  /** Exactly one track per path line; blank lines, the header and other `#` lines yield none. */
  lemma {:induction false} OneTrackPerPathLine(lines: seq<string>, resolve: string -> string)
    ensures |ParseAll(lines, resolve).tracks| == CountPathLines(lines)
    decreases |lines|
  {
    if |lines| > 0 {
      OneTrackPerPathLine(lines[..|lines| - 1], resolve);
      StepCount(ParseAll(lines[..|lines| - 1], resolve), lines[|lines| - 1], resolve);
    }
  }

  /** The tracks read so far are never rewritten: later lines can only append. */
  lemma {:induction false} ParsePrefixStable(lines: seq<string>, more: seq<string>, resolve: string -> string)
    ensures |ParseAll(lines, resolve).tracks| <= |ParseAll(lines + more, resolve).tracks|
    ensures ParseAll(lines + more, resolve).tracks[..|ParseAll(lines, resolve).tracks|]
         == ParseAll(lines, resolve).tracks
    decreases |more|
  {
    if |more| == 0 {
      assert lines + more == lines;
    } else {
      var init := more[..|more| - 1];
      assert (lines + more)[..|lines + more| - 1] == lines + init;
      ParsePrefixStable(lines, init, resolve);
      var mid := ParseAll(lines + init, resolve);
      StepCount(mid, more[|more| - 1], resolve);
      var a := |ParseAll(lines, resolve).tracks|;
      assert ParseAll(lines + more, resolve).tracks[..a] == mid.tracks[..a];
    }
  }

  /** The first ` - ` of the display text separates artist from title, so the artist read back
      never contains ` - `; without a separator the whole text is the title. */
  lemma SplitDisplayAtFirstSeparator(display: string)
    ensures var (artist, title) := SplitDisplay(display);
      && (!Contains(display, " - ") ==> artist == "" && title == display)
      && (Contains(display, " - ") ==> artist + " - " + title == display && !Contains(artist, " - "))
  {
    SplitOnceFirst(display, " - ");
  }

  /** A duration field that is not an integer is read as 0, and the rest of the line still
      applies. */
  lemma UnparsableDurationIsZero(p: Pending, head: string, rest: string)
    requires !Contains(head, ",") && ParseI64(Trim(head)).None?
    ensures ReadInf(p, head + "," + rest).duration == 0
    ensures ReadInf(p, head + "," + rest).title == SplitDisplay(Trim(rest)).1
  {
    var info := head + "," + rest;
    forall j | 0 <= j < |head|
      ensures !OccursAt(info, ",", j)
    {
      if OccursAt(info, ",", j) {
        assert head[j..j + 1] == info[j..j + 1];
        assert OccursAt(head, ",", j);
      }
    }
    SplitOnceAt(head, ",", rest);
  }

  // ---------------------------------------------------------------------------------------------
  // The round trip

  /** A track whose duration, artist and title survive writing and reading: a 64-bit duration, a
      non-empty title, a display text with no line break and no surrounding whitespace whose
      first ` - ` (if any) is the one the writer inserted, and a path line that is a single line
      not starting with `#`. */
  predicate RoundTrips(t: Track, playlistDir: seq<string>) {
    && IsI64(t.duration)
    && t.title != ""
    && '\n' !in DisplayText(t)
    && NoSurroundingSpace(DisplayText(t))
    && Find(DisplayText(t), " - ") == (if t.artist == "" then None else Some(|t.artist|))
    && '\n' !in PathLine(t, playlistDir)
    && IsPathLine(Trim(PathLine(t, playlistDir)))
  }

  /** What the round trip keeps of a track. */
  datatype Credit = Credit(duration: int, artist: string, title: string)

  function CreditOf(t: Track): Credit {
    Credit(t.duration, t.artist, t.title)
  }

  function Credits(tracks: seq<Track>): (r: seq<Credit>)
    ensures |r| == |tracks|
    decreases |tracks|
  {
    if |tracks| == 0 then [] else Credits(tracks[..|tracks| - 1]) + [CreditOf(tracks[|tracks| - 1])]
  }

  /** One more track adds its credit. */
  lemma CreditsSnoc(tracks: seq<Track>, t: Track)
    ensures Credits(tracks + [t]) == Credits(tracks) + [CreditOf(t)]
  {
    DropLast(tracks, t);
  }

  /** `Credits` lists every track's credit in order. */
  lemma {:induction false} CreditsAt(tracks: seq<Track>, i: nat)
    requires i < |tracks|
    ensures Credits(tracks)[i] == CreditOf(tracks[i])
    decreases |tracks|
  {
    if i < |tracks| - 1 {
      CreditsAt(tracks[..|tracks| - 1], i);
    }
  }

  /** The display text of a track whose first ` - ` is the inserted one splits back into its
      artist and title. */
  lemma SplitDisplayOfWritten(t: Track)
    requires Find(DisplayText(t), " - ") == (if t.artist == "" then None else Some(|t.artist|))
    ensures SplitDisplay(DisplayText(t)) == (t.artist, t.title)
  {
    var disp := DisplayText(t);
    if t.artist != "" {
      assert disp[..|t.artist|] == t.artist;
      assert disp[|t.artist| + 3..] == t.title;
    }
  }

  /** The first comma of `<duration>,<display>` is the one after the duration. */
  lemma SplitDurationComma(v: int, disp: string)
    ensures SplitOnce(IntToString(v) + "," + disp, ",") == Some((IntToString(v), disp))
  {
    var d := IntToString(v);
    IntToStringChars(v);
    var info := d + "," + disp;
    forall j | 0 <= j < |d|
      ensures !OccursAt(info, ",", j)
    {
      assert info[j..j + 1][0] == info[j] == d[j];
    }
    SplitOnceAt(d, ",", disp);
  }

  /** The text after `#EXTINF:` of a written track reads back as its duration, artist and
      title. */
  lemma ReadInfOfWritten(p: Pending, t: Track)
    requires IsI64(t.duration) && NoSurroundingSpace(DisplayText(t))
    requires Find(DisplayText(t), " - ") == (if t.artist == "" then None else Some(|t.artist|))
    ensures ReadInf(p, IntToString(t.duration) + "," + DisplayText(t)) == Pending(t.title, t.artist, t.duration)
  {
    var d := IntToString(t.duration);
    SplitDurationComma(t.duration, DisplayText(t));
    IntToStringChars(t.duration);
    TrimIdentity(d);
    ParseI64OfIntToString(t.duration);
    TrimIdentity(DisplayText(t));
    SplitDisplayOfWritten(t);
  }

  /** A written `#EXTINF` line is already trimmed and carries `<duration>,<display>`. */
  lemma InfLineShape(t: Track)
    requires t.title != "" && NoSurroundingSpace(DisplayText(t))
    ensures Trim(InfLine(t)) == InfLine(t)
    ensures StartsWith(InfLine(t), InfPrefix)
    ensures InfLine(t)[|InfPrefix|..] == IntToString(t.duration) + "," + DisplayText(t)
  {
    var disp := DisplayText(t);
    var line := InfLine(t);
    var info := IntToString(t.duration) + "," + disp;
    assert line == InfPrefix + info;
    assert line[0] == '#' && line[|line| - 1] == disp[|disp| - 1];
    TrimIdentity(line);
    assert line[..|InfPrefix|] == InfPrefix;
  }

  /** Reading a track's `#EXTINF` line leaves exactly its duration, artist and title pending. */
  lemma ReadInfLine(st: ParseState, t: Track, playlistDir: seq<string>, resolve: string -> string)
    requires RoundTrips(t, playlistDir)
    ensures Step(st, InfLine(t), resolve) == ParseState(st.tracks, Pending(t.title, t.artist, t.duration))
  {
    InfLineShape(t);
    StepInf(st, InfLine(t), resolve);
    ReadInfOfWritten(st.pending, t);
  }

  /** The two lines of a written track append one track with its duration, artist and title. */
  lemma ReadTrackLines(st: ParseState, t: Track, playlistDir: seq<string>, resolve: string -> string)
    requires RoundTrips(t, playlistDir)
    ensures var r := Step(Step(st, InfLine(t), resolve), PathLine(t, playlistDir), resolve);
      && r.pending == NoPending && |r.tracks| == |st.tracks| + 1 && r.tracks[..|st.tracks|] == st.tracks
      && CreditOf(r.tracks[|st.tracks|]) == CreditOf(t)
  {
    ReadInfLine(st, t, playlistDir, resolve);
    var st1 := ParseState(st.tracks, Pending(t.title, t.artist, t.duration));
    var pathLine := PathLine(t, playlistDir);
    StepPath(st1, pathLine, resolve);
    PathTrackFields(st1.pending, Trim(pathLine), resolve);
    assert Step(st1, pathLine, resolve).tracks == st.tracks + [PathTrack(st1.pending, Trim(pathLine), resolve)];
  }

  /** Reading one more line is one more step. */
  lemma ParseAllSnoc(before: seq<string>, a: string, resolve: string -> string)
    ensures ParseAll(before + [a], resolve) == Step(ParseAll(before, resolve), a, resolve)
  {
    DropLast(before, a);
  }

  /** Reading two more lines is two more steps. */
  lemma ParseAllSnoc2(before: seq<string>, a: string, b: string, resolve: string -> string)
    ensures ParseAll(before + [a, b], resolve) == Step(Step(ParseAll(before, resolve), a, resolve), b, resolve)
  {
    DropLast2(before, a, b);
    DropLast(before, a);
  }

  /** The header alone leaves the reader in its initial state. */
  lemma ParseHeader(resolve: string -> string)
    ensures ParseAll([Header], resolve) == Initial
  {
    assert [Header][..0] == [];
    TrimIdentity(Header);
    StepSkips(Initial, Header, resolve);
  }

  /** One more round-tripping track after a correctly read playlist is read back too. */
  lemma ReadWrittenSnoc(init: seq<Track>, last: Track, playlistDir: seq<string>, resolve: string -> string)
    requires RoundTrips(last, playlistDir)
    requires var st := ParseAll(PlaylistLines(init, playlistDir), resolve);
      st.pending == NoPending && Credits(st.tracks) == Credits(init)
    ensures var st := ParseAll(PlaylistLines(init + [last], playlistDir), resolve);
      st.pending == NoPending && Credits(st.tracks) == Credits(init + [last])
  {
    var tracks := init + [last];
    DropLast(init, last);
    var before := PlaylistLines(init, playlistDir);
    var inf, path := InfLine(last), PathLine(last, playlistDir);
    PlaylistLinesLast(tracks, playlistDir);
    ParseAllSnoc2(before, inf, path, resolve);
    var st0 := ParseAll(before, resolve);
    ReadTrackLines(st0, last, playlistDir, resolve);
    var r := Step(Step(st0, inf, resolve), path, resolve);
    ExtendsBy(r.tracks, st0.tracks);
    CreditsSnoc(st0.tracks, r.tracks[|st0.tracks|]);
    CreditsSnoc(init, last);
  }

  /** Writing then reading a playlist, line by line, yields one track per written track, in
      order, with the same duration, artist and title. */
  lemma {:induction false} ReadWrittenLines(tracks: seq<Track>, playlistDir: seq<string>,
                                            resolve: string -> string)
    requires forall i :: 0 <= i < |tracks| ==> RoundTrips(tracks[i], playlistDir)
    ensures var st := ParseAll(PlaylistLines(tracks, playlistDir), resolve);
      st.pending == NoPending && Credits(st.tracks) == Credits(tracks)
    decreases |tracks|
  {
    if |tracks| == 0 {
      assert PlaylistLines(tracks, playlistDir) == [Header];
      ParseHeader(resolve);
    } else {
      var n := |tracks|;
      var init := tracks[..n - 1];
      assert forall i :: 0 <= i < |init| ==> init[i] == tracks[i];
      ReadWrittenLines(init, playlistDir, resolve);
      assert RoundTrips(tracks[n - 1], playlistDir);
      ReadWrittenSnoc(init, tracks[n - 1], playlistDir, resolve);
      InitAndLast(tracks);
    }
  }

  lemma {:induction false} JoinSnoc(parts: seq<string>, last: string, sep: string)
    requires |parts| >= 1
    ensures Join(parts + [last], sep) == Join(parts, sep) + sep + last
    decreases |parts|
  {
    if |parts| == 1 {
      assert (parts + [last])[1..] == [last];
    } else {
      assert (parts + [last])[1..] == parts[1..] + [last];
      JoinSnoc(parts[1..], last, sep);
    }
  }

  /** An `#EXTINF` line is one line when the display text is. */
  lemma InfLineSingle(t: Track)
    requires '\n' !in DisplayText(t)
    ensures '\n' !in InfLine(t)
  {
    IntToStringChars(t.duration);
    assert '\n' !in IntToString(t.duration);
  }

  /** No line has a line break. */
  predicate NoBreaks(lines: seq<string>)
    decreases |lines|
  {
    |lines| == 0 || (NoBreaks(lines[..|lines| - 1]) && '\n' !in lines[|lines| - 1])
  }

  lemma {:induction false} NoBreaksAt(lines: seq<string>)
    requires NoBreaks(lines)
    ensures forall k :: 0 <= k < |lines| ==> '\n' !in lines[k]
    decreases |lines|
  {
    if |lines| > 0 {
      NoBreaksAt(lines[..|lines| - 1]);
      assert forall k :: 0 <= k < |lines| - 1 ==> lines[k] == lines[..|lines| - 1][k];
    }
  }

  /** One more line without a break keeps a sequence of lines free of breaks. */
  lemma NoBreaksSnoc(before: seq<string>, a: string)
    requires NoBreaks(before) && '\n' !in a
    ensures NoBreaks(before + [a])
  {
    DropLast(before, a);
  }

  /** Two more lines without a break keep a sequence of lines free of breaks. */
  lemma NoBreaksSnoc2(before: seq<string>, a: string, b: string)
    requires NoBreaks(before) && '\n' !in a && '\n' !in b
    ensures NoBreaks(before + [a, b])
  {
    DropLast2(before, a, b);
    DropLast(before, a);
  }

  /** No line of a playlist whose tracks all round-trip has a line break. */
  lemma {:induction false} PlaylistLinesSingle(tracks: seq<Track>, playlistDir: seq<string>)
    requires forall i :: 0 <= i < |tracks| ==> RoundTrips(tracks[i], playlistDir)
    ensures NoBreaks(PlaylistLines(tracks, playlistDir))
    decreases |tracks|
  {
    if |tracks| == 0 {
      assert PlaylistLines(tracks, playlistDir) == [Header];
      assert [Header][..0] == [];
    } else {
      var n := |tracks|;
      var init := tracks[..n - 1];
      var last := tracks[n - 1];
      assert forall i :: 0 <= i < |init| ==> init[i] == tracks[i];
      PlaylistLinesSingle(init, playlistDir);
      assert RoundTrips(last, playlistDir);
      InfLineSingle(last);
      PlaylistLinesLast(tracks, playlistDir);
      NoBreaksSnoc2(PlaylistLines(init, playlistDir), InfLine(last), PathLine(last, playlistDir));
    }
  }

  /** The empty piece after the final newline is skipped. */
  lemma ParseTrailingEmpty(lines: seq<string>, resolve: string -> string)
    ensures ParseAll(lines + [""], resolve) == ParseAll(lines, resolve)
  {
    ParseAllSnoc(lines, "", resolve);
    StepSkips(ParseAll(lines, resolve), "", resolve);
  }

  /** Lines without breaks, each ended by `\n`, split back into the lines and a final empty
      piece. */
  lemma SplitTerminated(lines: seq<string>)
    requires |lines| >= 1 && NoBreaks(lines)
    ensures Split(Join(lines, "\n") + "\n", '\n') == lines + [""]
  {
    var all := lines + [""];
    JoinSnoc(lines, "", "\n");
    AppendEmpty(Join(lines, "\n") + "\n");
    NoBreaksSnoc(lines, "");
    NoBreaksAt(all);
    SplitJoin(all, '\n');
  }

  /** Conditional round trip: reading what `build_m3u8` wrote gives back, in order, every
      track's duration, artist and title. */
  lemma RoundTrip(tracks: seq<Track>, playlistDir: seq<string>, resolve: string -> string)
    requires forall i :: 0 <= i < |tracks| ==> RoundTrips(tracks[i], playlistDir)
    ensures Credits(ParseAll(Split(Join(PlaylistLines(tracks, playlistDir), "\n") + "\n", '\n'), resolve).tracks)
         == Credits(tracks)
  {
    var lines := PlaylistLines(tracks, playlistDir);
    PlaylistLinesSingle(tracks, playlistDir);
    SplitTerminated(lines);
    ParseTrailingEmpty(lines, resolve);
    ReadWrittenLines(tracks, playlistDir, resolve);
  }
}
