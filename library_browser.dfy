/** The library view's grouping of tracks by folder (`LibraryBrowser.tsx` `albumGroups`) and
    its add button. */
module LibraryBrowser {
  import Seqs
  import opened Wrappers
  import opened Strings
  import opened Entities
  import Settings
  import PlaylistStore

  /** The label used for tracks directly under the music root. */
  const RootFolder: string := "(root)"

  /** A track's folder: its relative path with backslashes as slashes, minus the last segment,
      or `(root)` when the path has a single segment. */
  function FolderKey(relativePath: string): string {
    var parts := Split(Slashes(relativePath), '/');
    if |parts| > 1 then Join(parts[..|parts| - 1], "/") else RootFolder
  }

  /** A path written from its segments has the leading segments as its folder. */
  lemma FolderKeyOfSegments(parts: seq<string>)
    requires |parts| >= 1
    requires forall i :: 0 <= i < |parts| ==> '/' !in parts[i]
    requires '\\' !in Join(parts, "/")
    ensures FolderKey(Join(parts, "/")) == if |parts| > 1 then Join(parts[..|parts| - 1], "/") else RootFolder
  {
    SlashesIdentity(Join(parts, "/"));
    SplitJoin(parts, '/');
  }

  /** One folder's tracks. */
  datatype AlbumGroup = AlbumGroup(folder: string, tracks: seq<Track>)

  function KeyOf(t: Track): string {
    FolderKey(t.relativePath)
  }

  /** The folders of the tracks in order of first occurrence. */
  function FoldersInOrder(ts: seq<Track>): seq<string>
    decreases |ts|
  {
    if |ts| == 0 then []
    else
      var ks := FoldersInOrder(ts[..|ts| - 1]);
      var k := KeyOf(ts[|ts| - 1]);
      if k in ks then ks else ks + [k]
  }

  /** Each folder is listed once, and exactly the folders of the tracks are listed. */
  lemma {:induction false} FoldersInOrderMembers(ts: seq<Track>)
    ensures forall i, j :: 0 <= i < j < |FoldersInOrder(ts)| ==> FoldersInOrder(ts)[i] != FoldersInOrder(ts)[j]
    ensures forall k :: k in FoldersInOrder(ts) <==> exists i :: 0 <= i < |ts| && KeyOf(ts[i]) == k
    decreases |ts|
  {
    if |ts| > 0 {
      var init := ts[..|ts| - 1];
      FoldersInOrderMembers(init);
      assert forall i :: 0 <= i < |init| ==> init[i] == ts[i];
    }
  }

  /** The tracks of one folder, in library order. */
  function InFolder(ts: seq<Track>, k: string): seq<Track>
    decreases |ts|
  {
    if |ts| == 0 then []
    else
      var last := ts[|ts| - 1];
      InFolder(ts[..|ts| - 1], k) + (if KeyOf(last) == k then [last] else [])
  }

  /** A folder's group holds exactly the library's tracks of that folder. */
  lemma {:induction false} InFolderMembers(ts: seq<Track>, k: string)
    ensures |InFolder(ts, k)| <= |ts|
    ensures forall t :: t in InFolder(ts, k) <==> t in ts && KeyOf(t) == k
    decreases |ts|
  {
    if |ts| > 0 {
      var init := ts[..|ts| - 1];
      InFolderMembers(init, k);
      assert ts == init + [ts[|ts| - 1]];
    }
  }

  /** The grouping as a reference definition: one group per folder in first-occurrence
      order, each holding that folder's tracks in library order. */
  function Grouped(ts: seq<Track>): seq<AlbumGroup> {
    var ks := FoldersInOrder(ts);
    seq(|ks|, j requires 0 <= j < |ks| => AlbumGroup(ks[j], InFolder(ts, ks[j])))
  }

  lemma FoldersSnoc(ts: seq<Track>, t: Track)
    ensures FoldersInOrder(ts + [t]) == if KeyOf(t) in FoldersInOrder(ts) then FoldersInOrder(ts)
                                        else FoldersInOrder(ts) + [KeyOf(t)]
  {
    Seqs.DropLast(ts, t);
  }

  lemma InFolderSnoc(ts: seq<Track>, t: Track, k: string)
    ensures InFolder(ts + [t], k) == InFolder(ts, k) + if KeyOf(t) == k then [t] else []
  {
    Seqs.DropLast(ts, t);
  }

  /** The folder map after `i` tracks: the folders seen so far in insertion order, and for
      each its tracks so far. */
  ghost predicate Filled(ts: seq<Track>, keys: seq<string>, m: map<string, seq<Track>>) {
    && keys == FoldersInOrder(ts)
    && (forall k :: k in m <==> k in keys)
    && (forall k :: k in m ==> m[k] == InFolder(ts, k))
  }

  /** One iteration of the loop: `if (!map.has(folder)) map.set(folder, [])` gives `keys`
      and `m`, then the push. */
  lemma FillStep(all: seq<Track>, i: nat, keys0: seq<string>, m0: map<string, seq<Track>>,
                 keys: seq<string>, m: map<string, seq<Track>>)
    requires i < |all| && Filled(all[..i], keys0, m0)
    requires KeyOf(all[i]) in m0 ==> keys == keys0 && m == m0
    requires KeyOf(all[i]) !in m0 ==> keys == keys0 + [KeyOf(all[i])] && m == m0[KeyOf(all[i]) := []]
    ensures Filled(all[..i + 1], keys, m[KeyOf(all[i]) := m[KeyOf(all[i])] + [all[i]]])
  {
    var ts, track := all[..i], all[i];
    assert all[..i + 1] == ts + [track];
    FillStepSnoc(ts, track, keys0, m0, keys, m);
  }

  lemma FillStepSnoc(ts: seq<Track>, track: Track, keys0: seq<string>, m0: map<string, seq<Track>>,
                     keys: seq<string>, m: map<string, seq<Track>>)
    requires Filled(ts, keys0, m0)
    requires KeyOf(track) in m0 ==> keys == keys0 && m == m0
    requires KeyOf(track) !in m0 ==> keys == keys0 + [KeyOf(track)] && m == m0[KeyOf(track) := []]
    ensures Filled(ts + [track], keys, m[KeyOf(track) := m[KeyOf(track)] + [track]])
  {
    var f := KeyOf(track);
    var ts2 := ts + [track];
    var m2 := m[f := m[f] + [track]];
    FoldersSnoc(ts, track);
    assert f in m0 <==> f in keys0;
    assert keys == FoldersInOrder(ts2);
    assert forall k :: k in m2 <==> k in keys;
    if f !in m0 {
      NewFolderEmpty(ts, f);
    }
    assert m[f] == InFolder(ts, f);
    forall k | k in m2
      ensures m2[k] == InFolder(ts2, k)
    {
      InFolderSnoc(ts, track, k);
      if k != f {
        assert m2[k] == m0[k];
      }
    }
    assert Filled(ts2, keys, m2);
  }

  /** A folder none of the tracks has collects no track. */
  lemma NewFolderEmpty(ts: seq<Track>, f: string)
    requires f !in FoldersInOrder(ts)
    ensures InFolder(ts, f) == []
  {
    FoldersInOrderMembers(ts);
    InFolderMembers(ts, f);
  }

  /** The first pass of `albumGroups`: a `Map` from folder to tracks, filled in library order
      (insertion order kept as `keys`). */
  method FolderMap(libraryTracks: seq<Track>) returns (keys: seq<string>, m: map<string, seq<Track>>)
    ensures Filled(libraryTracks, keys, m)
  {
    keys, m := [], map[];
    for i := 0 to |libraryTracks|
      invariant Filled(libraryTracks[..i], keys, m)
    {
      var track := libraryTracks[i];
      var folder := KeyOf(track);
      ghost var keys0, m0 := keys, m;
      if folder !in m {
        keys := keys + [folder];
        m := m[folder := []];
      }
      FillStep(libraryTracks, i, keys0, m0, keys, m);
      m := m[folder := m[folder] + [track]];
    }
    assert libraryTracks[..|libraryTracks|] == libraryTracks;
  }

  /** `albumGroups`: the folder map listed as groups, in insertion order. */
  method AlbumGroups(libraryTracks: seq<Track>) returns (groups: seq<AlbumGroup>)
    ensures groups == Grouped(libraryTracks)
  {
    var keys, m := FolderMap(libraryTracks);
    groups := [];
    for j := 0 to |keys|
      invariant |groups| == j
      invariant forall n :: 0 <= n < j ==> groups[n] == AlbumGroup(keys[n], m[keys[n]])
    {
      groups := groups + [AlbumGroup(keys[j], m[keys[j]])];
    }
  }

  /** Every track lies in exactly one group: the one named by its own folder. */
  lemma EachTrackInOneGroup(ts: seq<Track>, i: nat)
    requires i < |ts|
    ensures exists j :: 0 <= j < |Grouped(ts)| && Grouped(ts)[j].folder == KeyOf(ts[i])
    ensures forall j :: 0 <= j < |Grouped(ts)| ==>
              (ts[i] in Grouped(ts)[j].tracks <==> Grouped(ts)[j].folder == KeyOf(ts[i]))
  {
    var ks := FoldersInOrder(ts);
    FoldersInOrderMembers(ts);
    forall j | 0 <= j < |ks| { InFolderMembers(ts, ks[j]); }
    assert KeyOf(ts[i]) in ks;
    var j :| 0 <= j < |ks| && ks[j] == KeyOf(ts[i]);
    assert Grouped(ts)[j].folder == KeyOf(ts[i]);
  }

  /** The group names are distinct. */
  lemma FoldersDistinct(ts: seq<Track>)
    ensures forall j, n :: 0 <= j < n < |Grouped(ts)| ==> Grouped(ts)[j].folder != Grouped(ts)[n].folder
  {
    FoldersInOrderMembers(ts);
  }

  /** The sizes of the groups named by `ks`, added up. */
  function Sizes(ks: seq<string>, ts: seq<Track>): nat
    decreases |ks|
  {
    if |ks| == 0 then 0 else Sizes(ks[..|ks| - 1], ts) + |InFolder(ts, ks[|ks| - 1])|
  }

  /** One more track adds one to the size of its own folder only. */
  lemma {:induction false} SizesSnoc(ks: seq<string>, ts: seq<Track>, t: Track)
    requires forall i, j :: 0 <= i < j < |ks| ==> ks[i] != ks[j]
    ensures Sizes(ks, ts + [t]) == Sizes(ks, ts) + (if KeyOf(t) in ks then 1 else 0)
    decreases |ks|
  {
    if |ks| > 0 {
      var init := ks[..|ks| - 1];
      assert (ts + [t])[..|ts + [t]| - 1] == ts;
      SizesSnoc(init, ts, t);
      assert KeyOf(t) in ks <==> KeyOf(t) in init || KeyOf(t) == ks[|ks| - 1];
      assert KeyOf(t) == ks[|ks| - 1] ==> KeyOf(t) !in init;
    }
  }

  /** Folders that none of the tracks has contribute nothing. */
  lemma {:induction false} SizesCover(ks: seq<string>, ts: seq<Track>, t: Track)
    requires forall i, j :: 0 <= i < j < |ks| ==> ks[i] != ks[j]
    requires forall i :: 0 <= i < |ts| ==> KeyOf(ts[i]) in ks
    requires KeyOf(t) in ks
    ensures Sizes(ks, ts + [t]) == Sizes(ks, ts) + 1
  {
    SizesSnoc(ks, ts, t);
  }

  /** Over folders covering every track, the sizes add up to the number of tracks. */
  lemma {:induction false} SizesTotal(ks: seq<string>, ts: seq<Track>)
    requires forall i, j :: 0 <= i < j < |ks| ==> ks[i] != ks[j]
    requires forall i :: 0 <= i < |ts| ==> KeyOf(ts[i]) in ks
    ensures Sizes(ks, ts) == |ts|
    decreases |ts|
  {
    if |ts| == 0 {
      SizesEmpty(ks);
    } else {
      var init := ts[..|ts| - 1];
      assert ts == init + [ts[|ts| - 1]];
      assert forall i :: 0 <= i < |init| ==> KeyOf(init[i]) in ks by {
        assert forall i :: 0 <= i < |init| ==> init[i] == ts[i];
      }
      SizesTotal(ks, init);
      SizesCover(ks, init, ts[|ts| - 1]);
    }
  }

  lemma {:induction false} SizesEmpty(ks: seq<string>)
    ensures Sizes(ks, []) == 0
    decreases |ks|
  {
    if |ks| > 0 {
      SizesEmpty(ks[..|ks| - 1]);
    }
  }

  /** The number of tracks over all groups. */
  function TotalTracks(gs: seq<AlbumGroup>): nat
    decreases |gs|
  {
    if |gs| == 0 then 0 else TotalTracks(gs[..|gs| - 1]) + |gs[|gs| - 1].tracks|
  }

  /** Counting group by group is counting folder by folder. */
  lemma {:induction false} TotalOfGroups(ks: seq<string>, ts: seq<Track>)
    ensures TotalTracks(seq(|ks|, j requires 0 <= j < |ks| => AlbumGroup(ks[j], InFolder(ts, ks[j]))))
         == Sizes(ks, ts)
    decreases |ks|
  {
    if |ks| > 0 {
      var gs := seq(|ks|, j requires 0 <= j < |ks| => AlbumGroup(ks[j], InFolder(ts, ks[j])));
      var init := ks[..|ks| - 1];
      assert gs[..|gs| - 1] == seq(|init|, j requires 0 <= j < |init| => AlbumGroup(init[j], InFolder(ts, init[j])));
      TotalOfGroups(init, ts);
    }
  }

  /** The groups together hold as many tracks as the library. */
  lemma GroupsCount(ts: seq<Track>)
    ensures TotalTracks(Grouped(ts)) == |ts|
  {
    FoldersInOrderMembers(ts);
    SizesTotal(FoldersInOrder(ts), ts);
    TotalOfGroups(FoldersInOrder(ts), ts);
  }

  /** Folders are listed in order of first occurrence: every track of a later group comes
      after some track of each earlier group. */
  lemma {:induction false} FirstOccurrenceOrder(ts: seq<Track>, j: nat, n: nat, b: nat)
    requires j < n < |FoldersInOrder(ts)| && b < |ts|
    requires KeyOf(ts[b]) == FoldersInOrder(ts)[n]
    ensures exists a :: 0 <= a < b && KeyOf(ts[a]) == FoldersInOrder(ts)[j]
    decreases |ts|
  {
    var init := ts[..|ts| - 1];
    var ks0 := FoldersInOrder(init);
    var ks := FoldersInOrder(ts);
    FoldersInOrderMembers(init);
    assert forall i :: 0 <= i < |init| ==> init[i] == ts[i];
    assert ks[..|ks0|] == ks0;
    if n < |ks0| {
      if b < |init| {
        FirstOccurrenceOrder(init, j, n, b);
        var a :| 0 <= a < b && KeyOf(init[a]) == ks0[j];
        assert KeyOf(ts[a]) == ks[j];
      } else {
        assert ks0[n] in ks0;
        var b' :| 0 <= b' < |init| && KeyOf(init[b']) == ks0[n];
        FirstOccurrenceOrder(init, j, n, b');
        var a :| 0 <= a < b' && KeyOf(init[a]) == ks0[j];
        assert KeyOf(ts[a]) == ks[j];
      }
    } else {
      assert ks[n] !in ks0;
      assert b == |init|;
      assert ks[j] == ks0[j];
      assert ks0[j] in ks0;
      var a :| 0 <= a < |init| && KeyOf(init[a]) == ks0[j];
      assert KeyOf(ts[a]) == ks[j];
    }
  }

  /** `handleAdd`: without a selected playlist the user is alerted and the store is left
      alone; otherwise the track goes to `addTrackToPlaylist`. Returns whether the alert was
      shown. */
  method HandleAdd(store: PlaylistStore.LochordStore, track: Track, config: Settings.SettingsStore,
                   saved: Result<(), string>)
    returns (alerted: bool)
    modifies store
    ensures alerted <==> !PlaylistStore.Truthy(old(store.selectedPlaylistPath))
    ensures alerted ==> unchanged(store)
    ensures !alerted ==>
              var sel := old(store.selectedPlaylistPath);
              var edited := PlaylistStore.ApplyAt(old(store.playlists), sel.value, PlaylistStore.AddTrack(track));
              store.playlists == (if config.settings.autoSave then PlaylistStore.AfterSave(edited, sel, saved)
                                  else edited)
  {
    if !PlaylistStore.Truthy(store.selectedPlaylistPath) {
      return true;
    }
    store.AddTrackToPlaylist(track, config, saved);
    return false;
  }
}
