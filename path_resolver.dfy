/** Display helpers: durations as `m:ss` and playlist names from file paths
    (`m3uPathResolver.ts`). */
module PathResolver {
  import opened Strings
  import opened Entities

  /** `padStart(2, "0")` for a seconds value. */
  function Pad2(s: string): (r: string)
  {
    if |s| < 2 then "0" + s else s
  }

  /** `formatDuration` on integer seconds: `--:--` for zero or less, otherwise whole minutes,
      a colon and the seconds as exactly two digits. */
  function FormatDuration(seconds: int): string
  {
    if seconds <= 0 then "--:--"
    else IntToString(seconds / 60) + ":" + Pad2(NatToString(seconds % 60))
  }

  /** A positive duration reads back as its minutes and its two-digit seconds. */
  lemma FormatDurationFields(seconds: int)
    requires seconds > 0
    ensures var r := FormatDuration(seconds);
      && |r| >= 4 && r[|r| - 3] == ':'
      && AllDigits(r[..|r| - 3]) && DigitsValue(r[..|r| - 3]) == seconds / 60
      && AllDigits(r[|r| - 2..]) && DigitsValue(r[|r| - 2..]) == seconds % 60
  {
    var m := IntToString(seconds / 60);
    var sec := NatToString(seconds % 60);
    var r := FormatDuration(seconds);
    assert |sec| <= 2;
    var p := Pad2(sec);
    assert |p| == 2;
    assert r == m + ":" + p;
    assert r[..|r| - 3] == m;
    assert r[|r| - 2..] == p;
    if |sec| == 1 {
      assert p[..1] == "0";
      assert DigitsValue(p[..1]) == 0;
    }
  }

  /** Nothing but `--:--` reports a non-positive duration. */
  lemma FormatDurationNonPositive(seconds: int)
    ensures FormatDuration(seconds) == "--:--" <==> seconds <= 0
  {
    if seconds > 0 {
      FormatDurationFields(seconds);
    }
  }

  /** The last `/`-separated segment after turning backslashes into slashes
      (`split("/").pop()`). */
  function LastSegment(path: string): (r: string)
    ensures '/' !in r && '\\' !in r
  {
    var parts := Split(Slashes(path), '/');
    parts[|parts| - 1]
  }

  /** `.replace(/\.m3u8?$/i, "")`: drops a final `.m3u` or `.m3u8`, in any letter case. */
  function StripPlaylistExtension(f: string): string
  {
    if EndsWith(ToLower(f), ".m3u8") then f[..|f| - 5]
    else if EndsWith(ToLower(f), ".m3u") then f[..|f| - 4]
    else f
  }

  /** `playlistNameFromPath`. */
  function PlaylistNameFromPath(path: string): (r: string)
    ensures '/' !in r && '\\' !in r
  {
    var f := LastSegment(path);
    var r := StripPlaylistExtension(f);
    assert forall c :: c in r ==> c in f;
    r
  }

  /** Only a trailing `.m3u` / `.m3u8` is stripped; any other file name is the name itself. */
  lemma PlaylistNameKeepsOtherExtensions(path: string)
    requires !EndsWith(ToLower(LastSegment(path)), ".m3u")
    requires !EndsWith(ToLower(LastSegment(path)), ".m3u8")
    ensures PlaylistNameFromPath(path) == LastSegment(path)
  {
  }

  /** The last segment of `dir/file` is `file` when `file` has no separator. */
  lemma LastSegmentOfChild(dir: string, file: string)
    requires '/' !in file && '\\' !in file
    ensures LastSegment(dir + "/" + file) == file
  {
    var path := dir + "/" + file;
    assert path == dir + ['/'] + file;
    SlashesAppend(dir + ['/'], file);
    SlashesAppend(dir, ['/']);
    SlashesIdentity(file);
    assert Slashes(path) == Slashes(dir) + ['/'] + file;
    SplitLast(Slashes(dir), '/', file);
  }

  /** Lower-casing a concatenation ends with the lower-cased tail. */
  lemma LowerTail(a: string, b: string)
    ensures |ToLower(a + b)| == |a| + |b|
    ensures ToLower(a + b)[|a|..] == ToLower(b)
  {
  }

  /** A final `.m3u8` is stripped. */
  lemma StripM3u8(name: string)
    ensures StripPlaylistExtension(name + ".m3u8") == name
  {
    var file := name + ".m3u8";
    LowerTail(name, ".m3u8");
    assert ToLower(".m3u8") == ".m3u8";
    assert EndsWith(ToLower(file), ".m3u8");
    assert file[..|file| - 5] == name;
  }

  /** A final `.m3u` is stripped. */
  lemma StripM3u(name: string)
    ensures StripPlaylistExtension(name + ".m3u") == name
  {
    var file := name + ".m3u";
    LowerTail(name, ".m3u");
    var lower := ToLower(file);
    assert ToLower(".m3u") == ".m3u";
    assert lower[|lower| - 1] == 'u';
    assert EndsWith(lower, ".m3u");
    assert file[..|file| - 4] == name;
  }

  /** A name ending in a letter other than `u`/`U` and `8` keeps its extension. */
  lemma KeepOtherExtension(file: string)
    requires |file| > 0 && LowerChar(file[|file| - 1]) != 'u' && file[|file| - 1] != '8'
    ensures StripPlaylistExtension(file) == file
  {
    var lower := ToLower(file);
    assert lower[|lower| - 1] == LowerChar(file[|file| - 1]);
  }

  /** The extension handling of `playlistNameFromPath` on `name.ext` for each save format. */
  lemma StripSavedExtension(name: string, ext: SaveFormat)
    ensures StripPlaylistExtension(name + "." + ext.Text())
         == if ext == M3u8 || ext == M3u then name else name + "." + ext.Text()
  {
    var file := name + "." + ext.Text();
    match ext {
      case M3u8 =>
        assert file == name + ".m3u8";
        StripM3u8(name);
      case M3u =>
        assert file == name + ".m3u";
        StripM3u(name);
      case Txt =>
        assert file[|file| - 1] == 't';
        KeepOtherExtension(file);
      case Csv =>
        assert file[|file| - 1] == 'v';
        KeepOtherExtension(file);
    }
  }

  /** The name shown for a playlist saved as `dir/name.ext`: `name` for the two M3U
      formats, `name.ext` for the others. */
  lemma NameOfSavedPlaylist(dir: string, name: string, ext: SaveFormat)
    requires '/' !in name && '\\' !in name
    ensures PlaylistNameFromPath(dir + "/" + name + "." + ext.Text())
         == if ext == M3u8 || ext == M3u then name else name + "." + ext.Text()
  {
    var file := name + "." + ext.Text();
    assert dir + "/" + name + "." + ext.Text() == dir + "/" + file;
    LastSegmentOfChild(dir, file);
    StripSavedExtension(name, ext);
  }
}
