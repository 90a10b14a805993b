/** The library scan (`fs.rs` `scan_music_directory` and `build_track`): a recursive walk of the
    music root that skips the `Playlists` directory and every directory matching an exclude
    pattern, keeps the files with an allowed extension, reads each one's metadata without its
    cover, and sorts the tracks by absolute path. The directory tree and what each file's tags
    read as are inputs: the tree as a value, the files through a probe function. */
module Scanner {
  import opened Wrappers
  import opened Strings
  import opened Paths
  import opened Entities
  import opened AudioFiles

  /** `MUSIC_EXTENSIONS`: the extensions scanned when the caller names none. */
  const MusicExtensions: seq<string> := ["flac", "mp3", "aac", "wav", "m4a"]

  /** The file system below the root, each directory's entries in listing order. */
  datatype Node = File(name: string) | Dir(name: string, children: seq<Node>)

  /** `Path::join`: a child entry's path below its directory. */
  function ChildPath(dir: string, name: string): (r: string)
    ensures EndsWith(r, name)
  {
    if dir == "" || dir[|dir| - 1] == '/' then dir + name else dir + "/" + name
  }

  /** The name the walk reports for the root entry: its file name, or the whole path when it
      has none. */
  function RootName(path: string): string {
    FileName(path).GetOr(path)
  }

  /** The `filter_entry` test for a directory: it is not called `Playlists`, and its lower-cased
      name contains no lower-cased exclude pattern. */
  predicate DirAllowed(name: string, exclude: seq<string>) {
    name != "Playlists" && forall i :: 0 <= i < |exclude| ==> !Contains(ToLower(name), ToLower(exclude[i]))
  }

  /** The file paths the walk yields below the entry `n` at path `p` named `name`, in
      pre-order; a directory that fails the filter is neither yielded nor entered. */
  function Walk(n: Node, p: string, name: string, exclude: seq<string>): seq<string>
    decreases n, 1
  {
    match n
    case File(_) => [p]
    case Dir(_, children) =>
      if DirAllowed(name, exclude) then WalkChildren(children, p, exclude) else []
  }

  function WalkChildren(children: seq<Node>, dir: string, exclude: seq<string>): seq<string>
    decreases children, 0
  {
    if |children| == 0 then []
    else
      var c := children[0];
      Walk(c, ChildPath(dir, c.name), c.name, exclude) + WalkChildren(children[1..], dir, exclude)
  }

  /** Every file path below `n`, without any filter. */
  function Files(n: Node, p: string): seq<string>
    decreases n, 1
  {
    match n
    case File(_) => [p]
    case Dir(_, children) => FilesOfChildren(children, p)
  }

  function FilesOfChildren(children: seq<Node>, dir: string): seq<string>
    decreases children, 0
  {
    if |children| == 0 then []
    else
      var c := children[0];
      Files(c, ChildPath(dir, c.name)) + FilesOfChildren(children[1..], dir)
  }

  /** Every directory below `n` (the entry itself included, under the name `name`) passes the
      filter. */
  predicate AllDirsAllowed(n: Node, name: string, exclude: seq<string>)
    decreases n, 1
  {
    match n
    case File(_) => true
    case Dir(_, children) => DirAllowed(name, exclude) && AllChildDirsAllowed(children, exclude)
  }

  predicate AllChildDirsAllowed(children: seq<Node>, exclude: seq<string>)
    decreases children, 0
  {
    |children| == 0 ||
    (AllDirsAllowed(children[0], children[0].name, exclude) &&
     AllChildDirsAllowed(children[1..], exclude))
  }

  /** The walk yields only files of the tree. */
  lemma {:induction false} WalkWithinFiles(n: Node, p: string, name: string, exclude: seq<string>)
    ensures forall f :: f in Walk(n, p, name, exclude) ==> f in Files(n, p)
    decreases n, 1
  {
    match n
    case File(_) =>
    case Dir(_, children) =>
      if DirAllowed(name, exclude) {
        WalkChildrenWithinFiles(children, p, exclude);
      }
  }

  lemma {:induction false} WalkChildrenWithinFiles(children: seq<Node>, dir: string, exclude: seq<string>)
    ensures forall f :: f in WalkChildren(children, dir, exclude) ==> f in FilesOfChildren(children, dir)
    decreases children, 0
  {
    if |children| > 0 {
      var c := children[0];
      WalkWithinFiles(c, ChildPath(dir, c.name), c.name, exclude);
      WalkChildrenWithinFiles(children[1..], dir, exclude);
    }
  }

  /** When no directory is filtered out, the walk yields every file, in tree order. */
  lemma {:induction false} WalkUnfiltered(n: Node, p: string, name: string, exclude: seq<string>)
    requires AllDirsAllowed(n, name, exclude)
    ensures Walk(n, p, name, exclude) == Files(n, p)
    decreases n, 1
  {
    match n
    case File(_) =>
    case Dir(_, children) => WalkChildrenUnfiltered(children, p, exclude);
  }

  lemma {:induction false} WalkChildrenUnfiltered(children: seq<Node>, dir: string, exclude: seq<string>)
    requires AllChildDirsAllowed(children, exclude)
    ensures WalkChildren(children, dir, exclude) == FilesOfChildren(children, dir)
    decreases children, 0
  {
    if |children| > 0 {
      var c := children[0];
      WalkUnfiltered(c, ChildPath(dir, c.name), c.name, exclude);
      WalkChildrenUnfiltered(children[1..], dir, exclude);
    }
  }

  /** The filter applies to the root too: a root directory called `Playlists`, or matching an
      exclude pattern, yields no file at all. An empty pattern matches every name. */
  lemma RootFiltered(children: seq<Node>, path: string, exclude: seq<string>)
    requires RootName(path) == "Playlists" ||
             exists i :: 0 <= i < |exclude| && Contains(ToLower(RootName(path)), ToLower(exclude[i]))
    ensures Walk(Dir(RootName(path), children), path, RootName(path), exclude) == []
  {
  }

  /** An empty exclude pattern is contained in every name, so it filters out every
      directory. */
  lemma EmptyPatternExcludesAll(name: string, exclude: seq<string>)
    requires "" in exclude
    ensures !DirAllowed(name, exclude)
  {
    var i :| 0 <= i < |exclude| && exclude[i] == "";
    assert OccursAt(ToLower(name), ToLower(exclude[i]), 0);
  }

  /** The extension test: the file has an extension, and some allowed extension equals its
      lower-cased form up to ASCII case. */
  predicate ExtensionAllowed(p: string, allowed: seq<string>) {
    match Extension(p)
    case None => false
    case Some(e) => exists i :: 0 <= i < |allowed| && EqIgnoreCase(allowed[i], ToLower(e))
  }

  /** `build_track`: the metadata read without the cover, the absolute path as walked, and the
      path relative to the root, or the absolute path when the root is not a prefix of it. */
  function BuildTrack(filePath: string, root: string, outcome: ReadOutcome, codec: Codec): (t: Track)
    ensures t.absolutePath == filePath && t.coverArt == ""
    ensures t.duration >= 0
    ensures StripPrefix(Components(filePath), Components(root)).None? ==> t.relativePath == filePath
  {
    var meta := ReadAudioMetadata(filePath, outcome, false, codec);
    var relative := match StripPrefix(Components(filePath), Components(root))
      case Some(rest) => Render(rest)
      case None => filePath;
    var g := meta.tags;
    Track(g.title, g.artist, g.albumArtist, g.album, g.genre, g.year, g.trackNumber,
          g.totalTracks, g.discNumber, g.totalDiscs, g.composer, g.comment, g.lyrics, g.bpm,
          g.copyright, g.publisher, g.isrc, g.coverArt, meta.duration, relative, filePath)
  }

  /** Below the root, the relative path resolves back to the file: the root's components
      followed by the relative path's give the file's. */
  lemma BuildTrackRelative(filePath: string, root: string, outcome: ReadOutcome, codec: Codec)
    requires StripPrefix(Components(filePath), Components(root)).Some?
    ensures var t := BuildTrack(filePath, root, outcome, codec);
            Components(root) + Components(t.relativePath) == Components(filePath)
  {
    var rest := StripPrefix(Components(filePath), Components(root)).value;
    var file := Components(filePath);
    assert rest == file[|Components(root)|..];
    ComponentsRender(rest);
  }

  /** The extension test as a function of the file path. */
  function Allowed(allowed: seq<string>): string -> bool {
    f => ExtensionAllowed(f, allowed)
  }

  /** `build_track` below `root` as a function of the file path. */
  function Builder(root: string, probe: string -> ReadOutcome, codec: Codec): string -> Track {
    f => BuildTrack(f, root, probe(f), codec)
  }

  /** The tracks built from the walked files that pass `keep`, in walk order. */
  function Collected(files: seq<string>, keep: string -> bool, build: string -> Track): seq<Track>
    decreases |files|
  {
    if |files| == 0 then []
    else
      var last := files[|files| - 1];
      Collected(files[..|files| - 1], keep, build) + (if keep(last) then [build(last)] else [])
  }

  /** A track is collected exactly when it is built from a walked file that passes. */
  lemma {:induction false} CollectedMembers(files: seq<string>, keep: string -> bool, build: string -> Track)
    ensures forall t :: t in Collected(files, keep, build) <==>
              exists i :: 0 <= i < |files| && keep(files[i]) && t == build(files[i])
    decreases |files|
  {
    if |files| > 0 {
      var init := files[..|files| - 1];
      CollectedMembers(init, keep, build);
      assert forall i :: 0 <= i < |init| ==> init[i] == files[i];
    }
  }

  /** Rust's `String` order: lexicographic by character, a proper prefix first. */
  predicate LexLe(a: string, b: string)
    decreases |a|
  {
    |a| == 0 || (|b| > 0 && (a[0] < b[0] || (a[0] == b[0] && LexLe(a[1..], b[1..]))))
  }

  lemma {:induction false} LexTotal(a: string, b: string)
    ensures LexLe(a, b) || LexLe(b, a)
    decreases |a|
  {
    if |a| > 0 && |b| > 0 && a[0] == b[0] {
      LexTotal(a[1..], b[1..]);
    }
  }

  lemma {:induction false} LexTrans(a: string, b: string, c: string)
    requires LexLe(a, b) && LexLe(b, c)
    ensures LexLe(a, c)
    decreases |a|
  {
    if |a| > 0 && a[0] == b[0] && b[0] == c[0] {
      LexTrans(a[1..], b[1..], c[1..]);
    }
  }

  /** Two different strings are ordered one way only. */
  lemma {:induction false} LexAntisymmetric(a: string, b: string)
    requires LexLe(a, b) && LexLe(b, a)
    ensures a == b
    decreases |a|
  {
    if |a| > 0 {
      LexAntisymmetric(a[1..], b[1..]);
      assert a == [a[0]] + a[1..] && b == [b[0]] + b[1..];
    }
  }

  predicate SortedByPath(ts: seq<Track>) {
    forall i, j :: 0 <= i < j < |ts| ==> LexLe(ts[i].absolutePath, ts[j].absolutePath)
  }

  /** A track placed before the first track whose path is not smaller. */
  function InsertByPath(t: Track, ts: seq<Track>): (r: seq<Track>)
    requires SortedByPath(ts)
    ensures SortedByPath(r)
    ensures multiset(r) == multiset(ts) + multiset{t}
    decreases |ts|
  {
    if |ts| == 0 then [t]
    else if LexLe(t.absolutePath, ts[0].absolutePath) then
      assert forall j :: 0 < j < |ts| ==> LexLe(ts[0].absolutePath, ts[j].absolutePath);
      forall j | 0 < j < |ts| ensures LexLe(t.absolutePath, ts[j].absolutePath) {
        LexTrans(t.absolutePath, ts[0].absolutePath, ts[j].absolutePath);
      }
      [t] + ts
    else
      LexTotal(t.absolutePath, ts[0].absolutePath);
      var rest := InsertByPath(t, ts[1..]);
      assert ts == [ts[0]] + ts[1..];
      forall x | x in rest ensures LexLe(ts[0].absolutePath, x.absolutePath) {
        assert x in multiset(rest);
        if x != t {
          assert x in multiset(ts[1..]);
          var j :| 0 <= j < |ts[1..]| && ts[1..][j] == x;
          assert ts[j + 1] == x;
        }
      }
      var r := [ts[0]] + rest;
      assert forall j :: 0 < j < |r| ==> r[j] == rest[j - 1] && rest[j - 1] in rest;
      r
  }

  /** The tracks in path order (`sort_by` on `absolute_path`). */
  function SortByPath(ts: seq<Track>): (r: seq<Track>)
    ensures SortedByPath(r)
    ensures multiset(r) == multiset(ts)
    decreases |ts|
  {
    if |ts| == 0 then []
    else
      assert ts == [ts[0]] + ts[1..];
      InsertByPath(ts[0], SortByPath(ts[1..]))
  }

  /** `scan_music_directory`. `root` is the tree at `path`, absent when the path does not
      exist; `probe` says what each file's tags read as. The scan reads no cover, so `codec`
      is never used. */
  method ScanMusicDirectory(path: string, root: Option<Node>, extensions: Option<seq<string>>,
                            excludePatterns: Option<seq<string>>, probe: string -> ReadOutcome,
                            codec: Codec)
    returns (r: Result<seq<Track>, string>)
    ensures root.None? ==> r == Err("Path does not exist: " + path)
    ensures root.Some? ==> r.Ok?
    ensures r.Ok? ==> SortedByPath(r.value)
    ensures r.Ok? ==>
              var files := Walk(root.value, path, RootName(path), excludePatterns.GetOr([]));
              multiset(r.value) ==
                multiset(Collected(files, Allowed(extensions.GetOr(MusicExtensions)),
                                   Builder(path, probe, codec)))
  {
    if root.None? {
      return Err("Path does not exist: " + path);
    }
    var allowed := extensions.GetOr(MusicExtensions);
    var exclude := excludePatterns.GetOr([]);
    var files := Walk(root.value, path, RootName(path), exclude);
    var tracks: seq<Track> := [];
    for i := 0 to |files|
      invariant tracks == Collected(files[..i], Allowed(allowed), Builder(path, probe, codec))
    {
      var file := files[i];
      assert files[..i + 1][..i] == files[..i];
      if ExtensionAllowed(file, allowed) {
        tracks := tracks + [BuildTrack(file, path, probe(file), codec)];
      }
    }
    assert files[..|files|] == files;
    tracks := SortByPath(tracks);
    return Ok(tracks);
  }
}
