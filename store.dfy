/** The application store (`useLochordStore.ts`): the playlists in memory with their dirty
    flags, the selected playlist, the library, the track open for editing and one error slot.
    Every action is a method; the file-system and tag calls it makes are represented by the
    outcome they report (success or an error text), and the settings store it consults is a
    `SettingsStore` object. Auto-save runs the save right after the change. */
module PlaylistStore {
  import opened Wrappers
  import opened Strings
  import opened Paths
  import opened Entities
  import opened PathResolver
  import Settings

  /** A `string | null` that JavaScript treats as true: present and non-empty. */
  predicate Truthy(s: Option<string>) {
    s.Some? && s.value != ""
  }

  predicate HasTrack(ts: seq<Track>, path: string) {
    exists i :: 0 <= i < |ts| && ts[i].absolutePath == path
  }

  predicate HasPlaylist(ps: seq<Playlist>, path: string) {
    exists i :: 0 <= i < |ps| && ps[i].path == path
  }

  /** No two tracks share an absolute path. */
  predicate DistinctPaths(ts: seq<Track>) {
    forall i, j :: 0 <= i < j < |ts| ==> ts[i].absolutePath != ts[j].absolutePath
  }

  /** `buildPlaylist(path, tracks)`: named after the path, not dirty. */
  function BuildPlaylist(path: string, tracks: seq<Track>): Playlist {
    Playlist(PlaylistNameFromPath(path), path, tracks, false)
  }

  // ---------------------------------------------------------------------------------------------
  // Changes to one playlist

  /** `tracks.filter((t) => t.absolutePath !== path)`. */
  function WithoutPath(ts: seq<Track>, path: string): (r: seq<Track>)
    ensures forall t :: t in r <==> t in ts && t.absolutePath != path
    ensures |r| <= |ts|
    ensures !HasTrack(r, path)
    decreases |ts|
  {
    if |ts| == 0 then []
    else
      var rest := WithoutPath(ts[1..], path);
      assert forall t :: t in ts <==> t == ts[0] || t in ts[1..];
      var r := (if ts[0].absolutePath == path then [] else [ts[0]]) + rest;
      assert forall i :: 0 <= i < |r| ==> r[i] in r;
      r
  }

  /** Filtering out a path no track has keeps the list. */
  lemma {:induction false} WithoutAbsentPath(ts: seq<Track>, path: string)
    requires !HasTrack(ts, path)
    ensures WithoutPath(ts, path) == ts
    decreases |ts|
  {
    if |ts| > 0 {
      assert !HasTrack(ts[1..], path) by {
        forall i | 0 <= i < |ts[1..]| ensures ts[1..][i].absolutePath != path {
          assert ts[1..][i] == ts[i + 1];
        }
      }
      WithoutAbsentPath(ts[1..], path);
      assert [ts[0]] + ts[1..] == ts;
    }
  }

  /** Filtering distributes over appending. */
  lemma {:induction false} WithoutPathAppend(xs: seq<Track>, ys: seq<Track>, path: string)
    ensures WithoutPath(xs + ys, path) == WithoutPath(xs, path) + WithoutPath(ys, path)
    decreases |xs|
  {
    if |xs| == 0 {
      assert xs + ys == ys;
    } else {
      assert (xs + ys)[1..] == xs[1..] + ys;
      WithoutPathAppend(xs[1..], ys, path);
    }
  }

  /** The tail of a list with distinct paths has distinct paths, none of them the head's. */
  lemma DistinctPathsTail(ts: seq<Track>)
    requires |ts| > 0 && DistinctPaths(ts)
    ensures DistinctPaths(ts[1..]) && !HasTrack(ts[1..], ts[0].absolutePath)
  {
    var tail := ts[1..];
    forall i, j | 0 <= i < j < |tail| ensures tail[i].absolutePath != tail[j].absolutePath {
      assert tail[i] == ts[i + 1] && tail[j] == ts[j + 1];
    }
    forall t | t in tail ensures t.absolutePath != ts[0].absolutePath {
      var k :| 0 <= k < |tail| && tail[k] == t;
      assert ts[k + 1] == t;
    }
  }

  /** A head whose path the rest lacks keeps the paths distinct. */
  lemma DistinctPathsCons(t: Track, rest: seq<Track>)
    requires DistinctPaths(rest) && !HasTrack(rest, t.absolutePath)
    ensures DistinctPaths([t] + rest)
  {
    var r := [t] + rest;
    forall i, j | 0 <= i < j < |r| ensures r[i].absolutePath != r[j].absolutePath {
      assert r[j] == rest[j - 1] && rest[j - 1] in rest;
      if i > 0 {
        assert r[i] == rest[i - 1];
      }
    }
  }

  /** Filtering keeps the paths distinct. */
  lemma {:induction false} WithoutPathDistinct(ts: seq<Track>, path: string)
    requires DistinctPaths(ts)
    ensures DistinctPaths(WithoutPath(ts, path))
    decreases |ts|
  {
    if |ts| > 0 {
      DistinctPathsTail(ts);
      WithoutPathDistinct(ts[1..], path);
      if ts[0].absolutePath != path {
        DistinctPathsCons(ts[0], WithoutPath(ts[1..], path));
      }
    }
  }

  /** What an action does to the playlist it targets. */
  datatype Change =
    | AddTrack(track: Track)        // append unless a track with that path is present
    | RemoveTrack(path: string)     // drop every track with that path
    | Reorder(tracks: seq<Track>)   // replace the list
    | MarkSaved                     // clear the dirty flag
    | Reload(loaded: seq<Track>)    // replace the list, as it is on disk
    | MoveTo(newPath: string)       // the save-as rename

  function Apply(p: Playlist, c: Change): Playlist {
    match c
    case AddTrack(t) =>
      if HasTrack(p.tracks, t.absolutePath) then p
      else p.(tracks := p.tracks + [t], isDirty := true)
    case RemoveTrack(path) => p.(tracks := WithoutPath(p.tracks, path), isDirty := true)
    case Reorder(ts) => p.(tracks := ts, isDirty := true)
    case MarkSaved => p.(isDirty := false)
    case Reload(ts) => p.(tracks := ts, isDirty := false)
    case MoveTo(q) => p.(path := q, isDirty := false)
  }

  /** Adding a track whose path is present changes nothing; adding a new one appends it, marks
      the playlist dirty, and keeps the paths distinct. */
  lemma AddTrackCases(p: Playlist, t: Track)
    ensures HasTrack(p.tracks, t.absolutePath) ==> Apply(p, AddTrack(t)) == p
    ensures !HasTrack(p.tracks, t.absolutePath) ==>
              Apply(p, AddTrack(t)).tracks == p.tracks + [t] && Apply(p, AddTrack(t)).isDirty
    ensures DistinctPaths(p.tracks) ==> DistinctPaths(Apply(p, AddTrack(t)).tracks)
    ensures HasTrack(Apply(p, AddTrack(t)).tracks, t.absolutePath)
  {
    var ts := p.tracks + [t];
    assert ts[|ts| - 1] == t;
  }

  /** Adding the same track twice is adding it once. */
  lemma AddTrackIdempotent(p: Playlist, t: Track)
    ensures Apply(Apply(p, AddTrack(t)), AddTrack(t)) == Apply(p, AddTrack(t))
  {
    AddTrackCases(p, t);
  }

  /** Removing a track that was just added restores the original list. */
  lemma AddThenRemove(p: Playlist, t: Track)
    requires !HasTrack(p.tracks, t.absolutePath)
    ensures Apply(Apply(p, AddTrack(t)), RemoveTrack(t.absolutePath)).tracks == p.tracks
  {
    WithoutPathAppend(p.tracks, [t], t.absolutePath);
    WithoutAbsentPath(p.tracks, t.absolutePath);
    assert WithoutPath([t], t.absolutePath) == [];
  }

  /** Only a rename changes the path, and every change keeps the name. */
  lemma ApplyKeepsIdentity(p: Playlist, c: Change)
    ensures Apply(p, c).name == p.name
    ensures !c.MoveTo? ==> Apply(p, c).path == p.path
  {
  }

  /** `playlists.map((p) => p.path === path ? change(p) : p)`. */
  function ApplyAt(ps: seq<Playlist>, path: string, c: Change): (r: seq<Playlist>)
    ensures |r| == |ps|
    ensures forall i :: 0 <= i < |ps| ==> r[i] == if ps[i].path == path then Apply(ps[i], c) else ps[i]
    decreases |ps|
  {
    if |ps| == 0 then []
    else [if ps[0].path == path then Apply(ps[0], c) else ps[0]] + ApplyAt(ps[1..], path, c)
  }

  /** A change that keeps paths keeps the set of playlist paths. */
  lemma ApplyAtKeepsPaths(ps: seq<Playlist>, path: string, c: Change, q: string)
    requires !c.MoveTo?
    ensures HasPlaylist(ApplyAt(ps, path, c), q) <==> HasPlaylist(ps, q)
  {
    var r := ApplyAt(ps, path, c);
    assert forall i :: 0 <= i < |ps| ==> r[i].path == ps[i].path;
  }

  /** Playlists at other paths are untouched, and their dirty flags with them. */
  lemma ApplyAtOthers(ps: seq<Playlist>, path: string, c: Change, i: nat)
    requires i < |ps| && ps[i].path != path
    ensures ApplyAt(ps, path, c)[i] == ps[i]
    ensures ApplyAt(ps, path, c)[i].isDirty == ps[i].isDirty
  {
  }

  /** `playlists.filter((p) => p.path !== path)`. */
  function DropPlaylist(ps: seq<Playlist>, path: string): (r: seq<Playlist>)
    ensures forall p :: p in r <==> p in ps && p.path != path
    ensures !HasPlaylist(r, path)
    decreases |ps|
  {
    if |ps| == 0 then []
    else
      var rest := DropPlaylist(ps[1..], path);
      assert forall p :: p in ps <==> p == ps[0] || p in ps[1..];
      var r := (if ps[0].path == path then [] else [ps[0]]) + rest;
      assert forall i :: 0 <= i < |r| ==> r[i] in r;
      r
  }

  /** Deleting distributes over concatenation, so the remaining playlists keep their order;
      in particular the first remaining playlist is the first one with another path. */
  lemma {:induction false} DropPlaylistAppend(a: seq<Playlist>, b: seq<Playlist>, path: string)
    ensures DropPlaylist(a + b, path) == DropPlaylist(a, path) + DropPlaylist(b, path)
    decreases |a|
  {
    if |a| > 0 {
      assert (a + b)[1..] == a[1..] + b;
      DropPlaylistAppend(a[1..], b, path);
    } else {
      assert a + b == b;
    }
  }

  /** The playlists before the first one with another path all go, and that one is the first
      to remain. */
  lemma {:induction false} DropPlaylistFirst(ps: seq<Playlist>, path: string, j: nat)
    requires j < |ps| && ps[j].path != path
    requires forall k :: 0 <= k < j ==> ps[k].path == path
    ensures |DropPlaylist(ps, path)| > 0 && DropPlaylist(ps, path)[0] == ps[j]
    decreases j
  {
    if j > 0 {
      assert forall k :: 0 <= k < j - 1 ==> ps[1..][k] == ps[k + 1];
      DropPlaylistFirst(ps[1..], path, j - 1);
    }
  }

  /** The first playlist with the path (`playlists.find`). */
  function FindPlaylist(ps: seq<Playlist>, path: string): (r: Option<Playlist>)
    ensures r.Some? <==> HasPlaylist(ps, path)
    ensures r.Some? ==> r.value in ps && r.value.path == path
    ensures r.Some? ==> exists j :: 0 <= j < |ps| && ps[j] == r.value &&
                          forall k :: 0 <= k < j ==> ps[k].path != path
    decreases |ps|
  {
    if |ps| == 0 then None
    else if ps[0].path == path then Some(ps[0])
    else
      var r := FindPlaylist(ps[1..], path);
      assert forall i :: 0 < i < |ps| ==> ps[i] == ps[1..][i - 1];
      r
  }

  /** The six fields a tag write or a tag read updates on a track. */
  function Patch(t: Track, tags: AudioTags): Track {
    t.(title := tags.title, artist := tags.artist, album := tags.album, genre := tags.genre,
       year := tags.year, coverArt := tags.coverArt)
  }

  /** `tracks.map((t) => t.absolutePath === path ? { ...t, ...patch } : t)`. */
  function PatchTracks(ts: seq<Track>, path: string, tags: AudioTags): (r: seq<Track>)
    ensures |r| == |ts|
    ensures forall i :: 0 <= i < |ts| ==> r[i] == if ts[i].absolutePath == path then Patch(ts[i], tags) else ts[i]
    decreases |ts|
  {
    if |ts| == 0 then []
    else [if ts[0].absolutePath == path then Patch(ts[0], tags) else ts[0]] + PatchTracks(ts[1..], path, tags)
  }

  /** The tag update applied to the tracks of every playlist, keeping names, paths and dirty
      flags. */
  function PatchPlaylists(ps: seq<Playlist>, path: string, tags: AudioTags): (r: seq<Playlist>)
    ensures |r| == |ps|
    ensures forall i :: 0 <= i < |ps| ==> r[i] == ps[i].(tracks := PatchTracks(ps[i].tracks, path, tags))
    decreases |ps|
  {
    if |ps| == 0 then []
    else [ps[0].(tracks := PatchTracks(ps[0].tracks, path, tags))] + PatchPlaylists(ps[1..], path, tags)
  }

  /** A patched track keeps its identity and every field outside the six, and carries the six
      new values. */
  lemma PatchFields(t: Track, tags: AudioTags)
    ensures var u := Patch(t, tags);
      && u.absolutePath == t.absolutePath && u.relativePath == t.relativePath
      && u.duration == t.duration && u.albumArtist == t.albumArtist && u.trackNumber == t.trackNumber
      && u.totalTracks == t.totalTracks && u.discNumber == t.discNumber && u.totalDiscs == t.totalDiscs
      && u.composer == t.composer && u.comment == t.comment && u.lyrics == t.lyrics && u.bpm == t.bpm
      && u.copyright == t.copyright && u.publisher == t.publisher && u.isrc == t.isrc
      && u.title == tags.title && u.artist == tags.artist && u.album == tags.album
      && u.genre == tags.genre && u.year == tags.year && u.coverArt == tags.coverArt
  {
  }

  /** Patching twice with the same tags is patching once. */
  lemma PatchTracksIdempotent(ts: seq<Track>, path: string, tags: AudioTags)
    ensures PatchTracks(PatchTracks(ts, path, tags), path, tags) == PatchTracks(ts, path, tags)
  {
    var once := PatchTracks(ts, path, tags);
    assert forall i :: 0 <= i < |ts| ==> once[i].absolutePath == ts[i].absolutePath;
  }

  /** `playlist.path.replace(/\.[^./\\]+$/, "." + ext)`: a final extension (a dot followed by
      at least one character, none of them a dot or a slash of either kind) is replaced;
      a path without one is kept. */
  function ReplaceExtension(path: string, ext: string): string {
    match LastIndexOf(path, '.')
    case None => path
    case Some(k) =>
      var tail := path[k + 1..];
      if tail != "" && '/' !in tail && '\\' !in tail then path[..k] + "." + ext else path
  }

  /** A valid extension: non-empty, with no dot and no slash. */
  predicate IsExtension(e: string) {
    e != "" && '.' !in e && '/' !in e && '\\' !in e
  }

  /** The extension after the last dot is the one replaced. */
  lemma ReplaceExtensionOf(stem: string, previous: string, ext: string)
    requires IsExtension(previous)
    ensures ReplaceExtension(stem + "." + previous, ext) == stem + "." + ext
  {
    var path := stem + "." + previous;
    assert path[|stem|] == '.';
    assert path[|stem| + 1..] == previous;
    assert LastIndexOf(path, '.') == Some(|stem|);
    assert path[..|stem|] == stem;
  }

  /** A path whose last segment has no dot is kept. */
  lemma ReplaceExtensionOfPlain(path: string, ext: string)
    requires '.' !in path
    ensures ReplaceExtension(path, ext) == path
  {
  }

  /** Replacing with the same extension a second time changes nothing more. */
  lemma ReplaceExtensionIdempotent(path: string, ext: string)
    requires IsExtension(ext)
    ensures ReplaceExtension(ReplaceExtension(path, ext), ext) == ReplaceExtension(path, ext)
  {
    var once := ReplaceExtension(path, ext);
    if once != path {
      var k := LastIndexOf(path, '.').value;
      ReplaceExtensionOf(path[..k], ext, ext);
    }
  }

  /** A saved format's extension is always a valid one. */
  lemma FormatIsExtension(f: SaveFormat)
    ensures IsExtension(f.Text())
  {
  }

  /** The path of a playlist created under `dir` with the given name and format. */
  function NewPlaylistPath(dir: string, name: string, format: SaveFormat): string {
    dir + "/" + name + "." + format.Text()
  }

  /** `existingPaths.includes(path)` after turning backslashes into slashes on both sides. */
  predicate PathTaken(ps: seq<Playlist>, path: string) {
    exists i :: 0 <= i < |ps| && Slashes(ps[i].path) == Slashes(path)
  }

  /** The playlists `loadPlaylists` builds from the listed paths: one per path, in order, the
      one already in memory when there is one (so unsaved edits survive), otherwise the file
      as loaded, or empty when it cannot be loaded. */
  function Loaded(paths: seq<string>, existing: seq<Playlist>, load: string -> Result<seq<Track>, string>)
    : (r: seq<Playlist>)
    ensures |r| == |paths|
    ensures forall i :: 0 <= i < |paths| ==> r[i].path == paths[i]
    ensures forall i :: 0 <= i < |paths| && HasPlaylist(existing, paths[i]) ==>
              r[i] == FindPlaylist(existing, paths[i]).value
    ensures forall i :: 0 <= i < |paths| && !HasPlaylist(existing, paths[i]) ==>
              !r[i].isDirty && r[i].tracks == (match load(paths[i]) case Ok(ts) => ts case Err(_) => []) &&
              r[i].name == PlaylistNameFromPath(paths[i])
    decreases |paths|
  {
    if |paths| == 0 then []
    else
      var p := paths[0];
      var first := match FindPlaylist(existing, p)
        case Some(found) => found
        case None =>
          match load(p)
          case Ok(ts) => BuildPlaylist(p, ts)
          case Err(_) => BuildPlaylist(p, []);
      [first] + Loaded(paths[1..], existing, load)
  }

  /** The selection after a deletion: the first remaining playlist when the selected one went,
      otherwise unchanged. */
  function SelectionAfterDelete(selected: Option<string>, path: string, remaining: seq<Playlist>)
    : Option<string>
  {
    if selected == Some(path) then (if |remaining| > 0 then Some(remaining[0].path) else None)
    else selected
  }

  /** What the store's playlists look like after the save that auto-save runs. */
  function AfterSave(ps: seq<Playlist>, selected: Option<string>, saved: Result<(), string>): seq<Playlist> {
    if Truthy(selected) && HasPlaylist(ps, selected.value) && saved.Ok? then ApplyAt(ps, selected.value, MarkSaved)
    else ps
  }

  /** The error slot after that save. */
  function ErrorAfterSave(err: Option<string>, ps: seq<Playlist>, selected: Option<string>,
                          saved: Result<(), string>): Option<string> {
    if Truthy(selected) && HasPlaylist(ps, selected.value) && saved.Err? then Some(SaveErrorText(saved.error))
    else err
  }

  function SaveErrorText(e: string): string { "保存エラー: " + e }

  /** A successful save clears the dirty flag of the saved playlist only; a failed one leaves
      every playlist as it was. */
  lemma AfterSaveFlags(ps: seq<Playlist>, selected: Option<string>, saved: Result<(), string>, i: nat)
    requires i < |ps|
    ensures |AfterSave(ps, selected, saved)| == |ps|
    ensures saved.Err? ==> AfterSave(ps, selected, saved) == ps
    ensures Truthy(selected) && saved.Ok? && ps[i].path == selected.value ==>
              !AfterSave(ps, selected, saved)[i].isDirty &&
              AfterSave(ps, selected, saved)[i].tracks == ps[i].tracks
    ensures !(Truthy(selected) && ps[i].path == selected.value) ==> AfterSave(ps, selected, saved)[i] == ps[i]
  {
  }

  // ---------------------------------------------------------------------------------------------
  // The store

  class LochordStore {
    var musicRoot: Option<string>
    var libraryTracks: seq<Track>
    var isScanning: bool
    var scanError: Option<string>
    var playlists: seq<Playlist>
    var selectedPlaylistPath: Option<string>
    var errorMessage: Option<string>
    var selectedTrackForEdit: Option<Track>
    var isLoadingTags: bool

    constructor()
      ensures musicRoot.None? && libraryTracks == [] && !isScanning && scanError.None?
      ensures playlists == [] && selectedPlaylistPath.None? && errorMessage.None?
      ensures selectedTrackForEdit.None? && !isLoadingTags
    {
      musicRoot := None;
      libraryTracks := [];
      isScanning := false;
      scanError := None;
      playlists := [];
      selectedPlaylistPath := None;
      errorMessage := None;
      selectedTrackForEdit := None;
      isLoadingTags := false;
    }

    method SetMusicRoot(root: string)
      modifies this
      ensures musicRoot == Some(root)
      ensures libraryTracks == old(libraryTracks) && playlists == old(playlists)
      ensures selectedPlaylistPath == old(selectedPlaylistPath) && errorMessage == old(errorMessage)
      ensures selectedTrackForEdit == old(selectedTrackForEdit) && isScanning == old(isScanning)
      ensures scanError == old(scanError) && isLoadingTags == old(isLoadingTags)
    {
      musicRoot := Some(root);
    }

    /** `scanLibrary`: `scanned` is what the scan command reports for the music root. */
    method ScanLibrary(scanned: Result<seq<Track>, string>)
      modifies this
      ensures !Truthy(old(musicRoot)) ==> unchanged(this)
      ensures Truthy(old(musicRoot)) && scanned.Ok? ==>
                libraryTracks == scanned.value && !isScanning && scanError.None? &&
                errorMessage == old(errorMessage)
      ensures Truthy(old(musicRoot)) && scanned.Err? ==>
                libraryTracks == old(libraryTracks) && !isScanning &&
                scanError == Some("スキャンエラー: " + scanned.error) &&
                errorMessage == Some("ライブラリスキャンに失敗しました: " + scanned.error)
      ensures musicRoot == old(musicRoot) && playlists == old(playlists)
      ensures selectedPlaylistPath == old(selectedPlaylistPath)
      ensures selectedTrackForEdit == old(selectedTrackForEdit) && isLoadingTags == old(isLoadingTags)
    {
      if !Truthy(musicRoot) {
        return;
      }
      isScanning := true;
      scanError := None;
      match scanned
      case Ok(tracks) =>
        libraryTracks := tracks;
        isScanning := false;
      case Err(e) =>
        isScanning := false;
        scanError := Some("スキャンエラー: " + e);
        errorMessage := Some("ライブラリスキャンに失敗しました: " + e);
    }

    /** `loadPlaylists`: `listed` is what listing the playlist directory reports, `load` what
        loading each file reports. */
    method LoadPlaylists(listed: Result<seq<string>, string>, load: string -> Result<seq<Track>, string>)
      modifies this
      ensures !Truthy(old(musicRoot)) ==> unchanged(this)
      ensures Truthy(old(musicRoot)) && listed.Ok? ==>
                playlists == Loaded(listed.value, old(playlists), load) && errorMessage == old(errorMessage)
      ensures Truthy(old(musicRoot)) && listed.Err? ==>
                playlists == old(playlists) && errorMessage == Some("プレイリスト読み込みエラー: " + listed.error)
      ensures musicRoot == old(musicRoot) && libraryTracks == old(libraryTracks)
      ensures selectedPlaylistPath == old(selectedPlaylistPath) && isScanning == old(isScanning)
      ensures scanError == old(scanError)
      ensures selectedTrackForEdit == old(selectedTrackForEdit) && isLoadingTags == old(isLoadingTags)
    {
      if !Truthy(musicRoot) {
        return;
      }
      match listed
      case Ok(paths) =>
        playlists := Loaded(paths, playlists, load);
      case Err(e) =>
        errorMessage := Some("プレイリスト読み込みエラー: " + e);
    }

    /** `selectPlaylist`: an unknown path changes nothing; otherwise the playlist is reloaded
        from disk (`loaded`) and selected, and a failed reload still selects it. */
    method SelectPlaylist(path: string, loaded: Result<seq<Track>, string>)
      modifies this
      ensures !HasPlaylist(old(playlists), path) ==> unchanged(this)
      ensures HasPlaylist(old(playlists), path) ==> selectedPlaylistPath == Some(path)
      ensures HasPlaylist(old(playlists), path) && loaded.Ok? ==>
                playlists == ApplyAt(old(playlists), path, Reload(loaded.value)) &&
                errorMessage == old(errorMessage)
      ensures HasPlaylist(old(playlists), path) && loaded.Err? ==>
                playlists == old(playlists) &&
                errorMessage == Some("プレイリスト読み込みエラー: " + loaded.error)
      ensures musicRoot == old(musicRoot) && libraryTracks == old(libraryTracks)
      ensures isScanning == old(isScanning) && scanError == old(scanError)
      ensures selectedTrackForEdit == old(selectedTrackForEdit) && isLoadingTags == old(isLoadingTags)
    {
      if FindPlaylist(playlists, path).None? {
        return;
      }
      match loaded
      case Ok(tracks) =>
        selectedPlaylistPath := Some(path);
        playlists := ApplyAt(playlists, path, Reload(tracks));
      case Err(e) =>
        selectedPlaylistPath := Some(path);
        errorMessage := Some("プレイリスト読み込みエラー: " + e);
    }

    /** `createPlaylist`: needs a music root and a name that is not blank once trimmed; a path
        already taken (comparing with forward slashes) is an error; otherwise the empty playlist
        is written (`saved`) and, on success, appended and selected. Returns the path written. */
    method CreatePlaylist(name: string, config: Settings.SettingsStore, saved: Result<(), string>)
      returns (written: Option<string>)
      modifies this
      ensures var root := old(musicRoot);
        var safeName := Trim(name);
        var path := NewPlaylistPath(config.ResolvePlaylistDir(root.GetOr("")), safeName,
                                    config.settings.saveExtension);
        && (!Truthy(root) || safeName == "" ==> unchanged(this) && written.None?)
        && (Truthy(root) && safeName != "" && PathTaken(old(playlists), path) ==>
              && written.None? && playlists == old(playlists)
              && selectedPlaylistPath == old(selectedPlaylistPath)
              && errorMessage == Some("「" + safeName + "」という名前のプレイリストは既に存在します"))
        && (Truthy(root) && safeName != "" && !PathTaken(old(playlists), path) ==>
              && written == Some(path)
              && (saved.Ok? ==> playlists == old(playlists) + [BuildPlaylist(path, [])] &&
                                selectedPlaylistPath == Some(path) && errorMessage == old(errorMessage))
              && (saved.Err? ==> playlists == old(playlists) &&
                                 selectedPlaylistPath == old(selectedPlaylistPath) &&
                                 errorMessage == Some("プレイリスト作成エラー: " + saved.error)))
      ensures musicRoot == old(musicRoot) && libraryTracks == old(libraryTracks)
      ensures isScanning == old(isScanning) && scanError == old(scanError)
      ensures selectedTrackForEdit == old(selectedTrackForEdit) && isLoadingTags == old(isLoadingTags)
    {
      written := None;
      if !Truthy(musicRoot) {
        return;
      }
      var safeName := Trim(name);
      if safeName == "" {
        return;
      }
      var dir := config.ResolvePlaylistDir(musicRoot.value);
      var path := NewPlaylistPath(dir, safeName, config.settings.saveExtension);
      written := CreateAt(path, safeName, saved);
    }

    /** The part of `createPlaylist` after the name is known: a taken path is refused with a
        message naming the playlist; otherwise the file is written (`saved`) and on success the
        new empty playlist is appended and selected. */
    method CreateAt(path: string, safeName: string, saved: Result<(), string>)
      returns (written: Option<string>)
      modifies this
      ensures PathTaken(old(playlists), path) ==>
              && written.None? && playlists == old(playlists)
              && selectedPlaylistPath == old(selectedPlaylistPath)
              && errorMessage == Some("「" + safeName + "」という名前のプレイリストは既に存在します")
      ensures !PathTaken(old(playlists), path) ==>
              && written == Some(path)
              && (saved.Ok? ==> playlists == old(playlists) + [BuildPlaylist(path, [])] &&
                                selectedPlaylistPath == Some(path) && errorMessage == old(errorMessage))
              && (saved.Err? ==> playlists == old(playlists) &&
                                 selectedPlaylistPath == old(selectedPlaylistPath) &&
                                 errorMessage == Some("プレイリスト作成エラー: " + saved.error))
      ensures musicRoot == old(musicRoot) && libraryTracks == old(libraryTracks)
      ensures isScanning == old(isScanning) && scanError == old(scanError)
      ensures selectedTrackForEdit == old(selectedTrackForEdit) && isLoadingTags == old(isLoadingTags)
    {
      written := None;
      if PathTaken(playlists, path) {
        errorMessage := Some("「" + safeName + "」という名前のプレイリストは既に存在します");
        return;
      }
      written := Some(path);
      match saved
      case Ok(_) =>
        playlists := playlists + [BuildPlaylist(path, [])];
        selectedPlaylistPath := Some(path);
      case Err(e) =>
        errorMessage := Some("プレイリスト作成エラー: " + e);
    }

    /** `deletePlaylist`: on success (`deleted`) every playlist with the path goes, and a
        selection of it moves to the first remaining playlist, or to none. */
    method DeletePlaylist(path: string, deleted: Result<(), string>)
      modifies this
      ensures deleted.Ok? ==>
                && playlists == DropPlaylist(old(playlists), path)
                && selectedPlaylistPath == SelectionAfterDelete(old(selectedPlaylistPath), path, playlists)
                && errorMessage == old(errorMessage)
      ensures deleted.Err? ==>
                playlists == old(playlists) && selectedPlaylistPath == old(selectedPlaylistPath) &&
                errorMessage == Some("プレイリスト削除エラー: " + deleted.error)
      ensures musicRoot == old(musicRoot) && libraryTracks == old(libraryTracks)
      ensures isScanning == old(isScanning) && scanError == old(scanError)
      ensures selectedTrackForEdit == old(selectedTrackForEdit) && isLoadingTags == old(isLoadingTags)
    {
      match deleted
      case Ok(_) =>
        var updated := DropPlaylist(playlists, path);
        selectedPlaylistPath := SelectionAfterDelete(selectedPlaylistPath, path, updated);
        playlists := updated;
      case Err(e) =>
        errorMessage := Some("プレイリスト削除エラー: " + e);
    }

    /** `saveCurrentPlaylist`: with a selected playlist in memory, its tracks are written
        (`saved`); success clears its dirty flag, failure records an error. Returns what was
        written. */
    method SaveCurrentPlaylist(saved: Result<(), string>) returns (written: Option<(string, seq<Track>)>)
      modifies this
      ensures var sel := old(selectedPlaylistPath);
        && playlists == AfterSave(old(playlists), sel, saved)
        && errorMessage == ErrorAfterSave(old(errorMessage), old(playlists), sel, saved)
        && (written.Some? <==> Truthy(sel) && HasPlaylist(old(playlists), sel.value))
        && (written.Some? ==> written.value == (sel.value, FindPlaylist(old(playlists), sel.value).value.tracks))
      ensures musicRoot == old(musicRoot) && libraryTracks == old(libraryTracks)
      ensures selectedPlaylistPath == old(selectedPlaylistPath)
      ensures isScanning == old(isScanning) && scanError == old(scanError)
      ensures selectedTrackForEdit == old(selectedTrackForEdit) && isLoadingTags == old(isLoadingTags)
    {
      written := None;
      if !Truthy(selectedPlaylistPath) {
        return;
      }
      var sel := selectedPlaylistPath.value;
      var playlist := FindPlaylist(playlists, sel);
      if playlist.None? {
        return;
      }
      written := Some((playlist.value.path, playlist.value.tracks));
      match saved
      case Ok(_) =>
        playlists := ApplyAt(playlists, sel, MarkSaved);
      case Err(e) =>
        errorMessage := Some(SaveErrorText(e));
    }

    /** `maybeAutoSave`: the save runs only when auto-save is on. */
    method MaybeAutoSave(config: Settings.SettingsStore, saved: Result<(), string>)
      modifies this
      ensures !config.settings.autoSave ==> unchanged(this)
      ensures config.settings.autoSave ==>
                playlists == AfterSave(old(playlists), old(selectedPlaylistPath), saved) &&
                errorMessage == ErrorAfterSave(old(errorMessage), old(playlists), old(selectedPlaylistPath), saved)
      ensures musicRoot == old(musicRoot) && libraryTracks == old(libraryTracks)
      ensures selectedPlaylistPath == old(selectedPlaylistPath)
      ensures isScanning == old(isScanning) && scanError == old(scanError)
      ensures selectedTrackForEdit == old(selectedTrackForEdit) && isLoadingTags == old(isLoadingTags)
    {
      if config.settings.autoSave {
        var _ := SaveCurrentPlaylist(saved);
      }
    }

    /** The shared shape of the three list edits: with a truthy selection the change is
        applied to the selected playlist, then auto-save may run. */
    method EditSelected(c: Change, config: Settings.SettingsStore, saved: Result<(), string>)
      requires !c.MoveTo?
      modifies this
      ensures !Truthy(old(selectedPlaylistPath)) ==> unchanged(this)
      ensures Truthy(old(selectedPlaylistPath)) ==>
                var sel := old(selectedPlaylistPath);
                var edited := ApplyAt(old(playlists), sel.value, c);
                && playlists == (if config.settings.autoSave then AfterSave(edited, sel, saved) else edited)
                && errorMessage == (if config.settings.autoSave
                                    then ErrorAfterSave(old(errorMessage), edited, sel, saved)
                                    else old(errorMessage))
      ensures musicRoot == old(musicRoot) && libraryTracks == old(libraryTracks)
      ensures selectedPlaylistPath == old(selectedPlaylistPath)
      ensures isScanning == old(isScanning) && scanError == old(scanError)
      ensures selectedTrackForEdit == old(selectedTrackForEdit) && isLoadingTags == old(isLoadingTags)
    {
      if !Truthy(selectedPlaylistPath) {
        return;
      }
      playlists := ApplyAt(playlists, selectedPlaylistPath.value, c);
      MaybeAutoSave(config, saved);
    }

    /** `addTrackToPlaylist`. */
    method AddTrackToPlaylist(track: Track, config: Settings.SettingsStore, saved: Result<(), string>)
      modifies this
      ensures !Truthy(old(selectedPlaylistPath)) ==> unchanged(this)
      ensures Truthy(old(selectedPlaylistPath)) ==>
                var sel := old(selectedPlaylistPath);
                var edited := ApplyAt(old(playlists), sel.value, AddTrack(track));
                && playlists == (if config.settings.autoSave then AfterSave(edited, sel, saved) else edited)
                && errorMessage == (if config.settings.autoSave
                                    then ErrorAfterSave(old(errorMessage), edited, sel, saved)
                                    else old(errorMessage))
      ensures musicRoot == old(musicRoot) && libraryTracks == old(libraryTracks)
      ensures selectedPlaylistPath == old(selectedPlaylistPath)
      ensures isScanning == old(isScanning) && scanError == old(scanError)
      ensures selectedTrackForEdit == old(selectedTrackForEdit) && isLoadingTags == old(isLoadingTags)
    {
      EditSelected(AddTrack(track), config, saved);
    }

    /** `removeTrackFromPlaylist`. */
    method RemoveTrackFromPlaylist(absolutePath: string, config: Settings.SettingsStore,
                                   saved: Result<(), string>)
      modifies this
      ensures !Truthy(old(selectedPlaylistPath)) ==> unchanged(this)
      ensures Truthy(old(selectedPlaylistPath)) ==>
                var sel := old(selectedPlaylistPath);
                var edited := ApplyAt(old(playlists), sel.value, RemoveTrack(absolutePath));
                && playlists == (if config.settings.autoSave then AfterSave(edited, sel, saved) else edited)
                && errorMessage == (if config.settings.autoSave
                                    then ErrorAfterSave(old(errorMessage), edited, sel, saved)
                                    else old(errorMessage))
      ensures musicRoot == old(musicRoot) && libraryTracks == old(libraryTracks)
      ensures selectedPlaylistPath == old(selectedPlaylistPath)
      ensures isScanning == old(isScanning) && scanError == old(scanError)
      ensures selectedTrackForEdit == old(selectedTrackForEdit) && isLoadingTags == old(isLoadingTags)
    {
      EditSelected(RemoveTrack(absolutePath), config, saved);
    }

    /** `reorderTracks`. */
    method ReorderTracks(tracks: seq<Track>, config: Settings.SettingsStore, saved: Result<(), string>)
      modifies this
      ensures !Truthy(old(selectedPlaylistPath)) ==> unchanged(this)
      ensures Truthy(old(selectedPlaylistPath)) ==>
                var sel := old(selectedPlaylistPath);
                var edited := ApplyAt(old(playlists), sel.value, Reorder(tracks));
                && playlists == (if config.settings.autoSave then AfterSave(edited, sel, saved) else edited)
                && errorMessage == (if config.settings.autoSave
                                    then ErrorAfterSave(old(errorMessage), edited, sel, saved)
                                    else old(errorMessage))
      ensures musicRoot == old(musicRoot) && libraryTracks == old(libraryTracks)
      ensures selectedPlaylistPath == old(selectedPlaylistPath)
      ensures isScanning == old(isScanning) && scanError == old(scanError)
      ensures selectedTrackForEdit == old(selectedTrackForEdit) && isLoadingTags == old(isLoadingTags)
    {
      EditSelected(Reorder(tracks), config, saved);
    }

    /** `saveCurrentPlaylistAs`: the selected playlist is written under its path with the new
        extension (`saved`); on success a changed path also deletes the old file (its failure
        ignored) and makes the format the default, and the playlist moves to the new path, clean
        and selected. Returns what was written, and the old path when it was deleted. */
    method SaveCurrentPlaylistAs(ext: SaveFormat, config: Settings.SettingsStore, saved: Result<(), string>)
      returns (written: Option<(string, seq<Track>)>, removed: Option<string>)
      modifies this, config
      ensures var sel := old(selectedPlaylistPath);
        && (!Truthy(sel) || !HasPlaylist(old(playlists), sel.value) ==>
              unchanged(this) && unchanged(config) && written.None? && removed.None?)
        && (Truthy(sel) && HasPlaylist(old(playlists), sel.value) ==>
              var newPath := ReplaceExtension(sel.value, ext.Text());
              && written == Some((newPath, FindPlaylist(old(playlists), sel.value).value.tracks))
              && (saved.Err? ==>
                    && playlists == old(playlists) && selectedPlaylistPath == sel
                    && errorMessage == Some(SaveErrorText(saved.error))
                    && unchanged(config) && removed.None?)
              && (saved.Ok? ==>
                    && playlists == ApplyAt(old(playlists), sel.value, MoveTo(newPath))
                    && selectedPlaylistPath == Some(newPath) && errorMessage == old(errorMessage)
                    && (newPath != sel.value ==>
                          removed == Some(sel.value) &&
                          config.settings == old(config.settings).(saveExtension := ext))
                    && (newPath == sel.value ==> removed.None? && unchanged(config))))
      ensures musicRoot == old(musicRoot) && libraryTracks == old(libraryTracks)
      ensures isScanning == old(isScanning) && scanError == old(scanError)
      ensures selectedTrackForEdit == old(selectedTrackForEdit) && isLoadingTags == old(isLoadingTags)
    {
      written, removed := None, None;
      if !Truthy(selectedPlaylistPath) {
        return;
      }
      var sel := selectedPlaylistPath.value;
      var playlist := FindPlaylist(playlists, sel);
      if playlist.None? {
        return;
      }
      var newPath := ReplaceExtension(playlist.value.path, ext.Text());
      written := Some((newPath, playlist.value.tracks));
      if saved.Err? {
        errorMessage := Some(SaveErrorText(saved.error));
        return;
      }
      removed := CommitSaveAs(sel, newPath, ext, config);
    }

    /** The successful end of a save-as: the old file goes and the format becomes the default
        when the path changed, and the playlist moves to the new path, clean and selected. */
    method CommitSaveAs(sel: string, newPath: string, ext: SaveFormat, config: Settings.SettingsStore)
      returns (removed: Option<string>)
      modifies this, config
      ensures playlists == ApplyAt(old(playlists), sel, MoveTo(newPath))
      ensures selectedPlaylistPath == Some(newPath)
      ensures newPath != sel ==>
                removed == Some(sel) && config.settings == old(config.settings).(saveExtension := ext)
      ensures newPath == sel ==> removed.None? && unchanged(config)
      ensures errorMessage == old(errorMessage)
      ensures musicRoot == old(musicRoot) && libraryTracks == old(libraryTracks)
      ensures isScanning == old(isScanning) && scanError == old(scanError)
      ensures selectedTrackForEdit == old(selectedTrackForEdit) && isLoadingTags == old(isLoadingTags)
    {
      removed := None;
      if newPath != sel {
        removed := Some(sel);
        Settings.MergeSaveExtension(config.settings, ext);
        config.UpdateSettings(Settings.Single(Settings.SaveExtensionKey, Settings.FormatValue(ext)));
      }
      selectedPlaylistPath := Some(newPath);
      playlists := ApplyAt(playlists, sel, MoveTo(newPath));
    }

    method ClearError()
      modifies this
      ensures errorMessage.None?
      ensures musicRoot == old(musicRoot) && libraryTracks == old(libraryTracks)
      ensures playlists == old(playlists) && selectedPlaylistPath == old(selectedPlaylistPath)
      ensures isScanning == old(isScanning) && scanError == old(scanError)
      ensures selectedTrackForEdit == old(selectedTrackForEdit) && isLoadingTags == old(isLoadingTags)
    {
      errorMessage := None;
    }

    /** `selectTrackForEdit`: no track clears the selection; a track is selected at once and
        then merged with the tags read from its file (`read`); a failed read keeps it as it
        was. The two steps are taken together. */
    method SelectTrackForEdit(track: Option<Track>, read: Result<AudioTags, string>)
      modifies this
      ensures track.None? ==> selectedTrackForEdit.None? && isLoadingTags == old(isLoadingTags)
      ensures track.Some? && read.Ok? ==>
                selectedTrackForEdit == Some(Patch(track.value, read.value)) && !isLoadingTags
      ensures track.Some? && read.Err? ==> selectedTrackForEdit == track && !isLoadingTags
      ensures musicRoot == old(musicRoot) && libraryTracks == old(libraryTracks)
      ensures playlists == old(playlists) && selectedPlaylistPath == old(selectedPlaylistPath)
      ensures isScanning == old(isScanning) && scanError == old(scanError)
      ensures errorMessage == old(errorMessage)
    {
      if track.None? {
        selectedTrackForEdit := None;
        return;
      }
      selectedTrackForEdit := track;
      isLoadingTags := true;
      match read
      case Ok(tags) =>
        selectedTrackForEdit := Some(Patch(track.value, tags));
        isLoadingTags := false;
      case Err(_) =>
        isLoadingTags := false;
    }

    /** `updateTrackMetadata`: the tags are written to the file (`written`); on success every
        copy of the track, in the library, in every playlist and in the edit selection, takes
        the six patched fields, and nothing else changes; failure only records an error. */
    method UpdateTrackMetadata(absolutePath: string, tags: AudioTags, written: Result<(), string>)
      modifies this
      ensures written.Ok? ==>
                && libraryTracks == PatchTracks(old(libraryTracks), absolutePath, tags)
                && playlists == PatchPlaylists(old(playlists), absolutePath, tags)
                && selectedTrackForEdit ==
                     (if old(selectedTrackForEdit).Some? && old(selectedTrackForEdit).value.absolutePath == absolutePath
                      then Some(Patch(old(selectedTrackForEdit).value, tags))
                      else old(selectedTrackForEdit))
                && errorMessage == old(errorMessage)
      ensures written.Err? ==>
                libraryTracks == old(libraryTracks) && playlists == old(playlists) &&
                selectedTrackForEdit == old(selectedTrackForEdit) &&
                errorMessage == Some("メタデータ保存エラー: " + written.error)
      ensures musicRoot == old(musicRoot) && selectedPlaylistPath == old(selectedPlaylistPath)
      ensures isScanning == old(isScanning) && scanError == old(scanError)
      ensures isLoadingTags == old(isLoadingTags)
    {
      match written
      case Err(e) =>
        errorMessage := Some("メタデータ保存エラー: " + e);
      case Ok(_) =>
        var selected := selectedTrackForEdit;
        libraryTracks := PatchTracks(libraryTracks, absolutePath, tags);
        playlists := PatchPlaylists(playlists, absolutePath, tags);
        if selected.Some? && selected.value.absolutePath == absolutePath {
          selectedTrackForEdit := Some(Patch(selected.value, tags));
        }
    }
  }

  /** After a playlist is created, creating it again under the same name and settings is
      rejected: its path is taken. */
  lemma CreatedPathTaken(ps: seq<Playlist>, path: string)
    ensures PathTaken(ps + [BuildPlaylist(path, [])], path)
  {
    var r := ps + [BuildPlaylist(path, [])];
    assert r[|ps|].path == path;
  }

  /** A deletion leaves no playlist with the path and keeps every other one; a selection of
      another playlist survives it. */
  lemma DeleteEffect(ps: seq<Playlist>, selected: Option<string>, path: string)
    ensures !HasPlaylist(DropPlaylist(ps, path), path)
    ensures forall p :: p in ps && p.path != path ==> p in DropPlaylist(ps, path)
    ensures selected != Some(path) ==> SelectionAfterDelete(selected, path, DropPlaylist(ps, path)) == selected
    ensures selected == Some(path) ==>
              var s := SelectionAfterDelete(selected, path, DropPlaylist(ps, path));
              s.None? || (s.value != path && HasPlaylist(DropPlaylist(ps, path), s.value))
  {
    var r := DropPlaylist(ps, path);
    if |r| > 0 {
      assert r[0] in r;
    }
  }

  /** The metadata update keeps every list's length and order of identities, and the dirty
      flags, names and paths of every playlist. */
  lemma UpdateKeepsShape(ps: seq<Playlist>, path: string, tags: AudioTags, i: nat)
    requires i < |ps|
    ensures var r := PatchPlaylists(ps, path, tags);
      && r[i].isDirty == ps[i].isDirty && r[i].path == ps[i].path && r[i].name == ps[i].name
      && |r[i].tracks| == |ps[i].tracks|
      && forall j :: 0 <= j < |ps[i].tracks| ==> r[i].tracks[j].absolutePath == ps[i].tracks[j].absolutePath
  {
  }
}
