# Lochord core in Dafny

Lochord is a desktop editor for music playlists. A Rust backend scans a music library, reads and writes
audio tags and reads and writes M3U8 playlist files. A TypeScript frontend keeps the library, the
playlists and the selection in a store and edits them through a track list, a library browser, a
metadata editor and a settings dialog. This project models that core and proves what each part
promises.

The modules follow the program:

- `PlaylistStore`: the application store as a class, `LochordStore`, with one field per piece of
  store state. It has one method per action: scan, load, select, create, delete, add, remove, reorder,
  save, save-as, clear error, select for edit and update metadata. Auto-save and the pure playlist
  transformations (`Apply`, `ApplyAt`, `PatchTracks`, `ReplaceExtension`, `Loaded`) are beside it.
- `M3uCodec`: the playlist writer `build_m3u8` and the reader `parse_m3u8`, both as loops. It also
  holds `compute_relative_path` and the round trip, which states that reading a written playlist
  gives back every track's duration, artist and title.
- `AudioFiles`: `parse_data_uri`, the cover extraction, `read_audio_metadata` with its fallbacks,
  `read_audio_tags`, and `write_audio_tags`. The tag write works on a mutable `Tag` class. A
  per-key reference rule (`Rule`) says what every tag item holds after a write.
- `Scanner`: `scan_music_directory` over a modelled directory tree. It covers the `Playlists` and
  exclude-pattern pruning, the extension filter, `build_track` and the sort by absolute path.
- `LibraryBrowser`: `albumGroups`, which groups the library by folder in first-seen order, and
  `handleAdd`.
- `TrackList`: `handleDragEnd` with `arrayMove`.
- `RubberBand`: the rubber-band selection hook as a state machine (`Selector`) over mouse down, move,
  up and the suppressed click.
- `MetadataEditor`: the editor form (eighteen boxes, touched and mixed fields) as a class. It covers
  single-track and multi-track sync, editing, saving, reset and the common-value rules.
- `Settings` and `SettingsModal`: the settings store (`updateSettings` merge, reset, playlist
  directory) and the settings dialog's draft editing.
- `PathResolver`: `formatDuration` and `playlistNameFromPath`.
- Helpers: `Strings` (trim, split, find, case, decimal text), `Paths` (path components, file name,
  stem, extension, prefix stripping), `Entities` (the records) and `Wrappers` (`Option`, `Result`).

File-system and dialog results, tag-library outcomes and the base64 codec are parameters of the
operations that use them. So every branch of the source that an outcome can reach, error paths
included, is a branch of the model.

The `Track` record carries every field of the Rust `Track` struct (`src-tauri/src/commands/fs.rs:8-38`).
The TypeScript type in `src/domain/entities/Track.ts` lists only nine of those fields, but the code
reads the others: the metadata editor, for one, reads `albumArtist`, `trackNumber` and `bpm`. The
model follows the code.

## Model

| member | source | states |
|---|---|---|
| Entities.BareTrack | src-tauri/src/commands/m3u.rs:170-176 | A track built from a playlist line carries exactly the given title, artist, duration and paths, and every other field is empty or zero |
| Entities.SaveFormat.Text | src/domain/entities/AppSettings.ts:2 | Each save format's extension is non-empty and holds no dot and no slash of either kind |
| PlaylistStore.WithoutPath | src/application/store/useLochordStore.ts:241 | Removing a path keeps exactly the tracks with another path and leaves none with that path |
| PlaylistStore.WithoutAbsentPath | src/application/store/useLochordStore.ts:241 | Removing a path that no track has changes nothing |
| PlaylistStore.WithoutPathAppend | src/application/store/useLochordStore.ts:241 | Removal distributes over concatenation, so the surviving tracks keep their order |
| PlaylistStore.WithoutPathDistinct | src/application/store/useLochordStore.ts:241 | Removal keeps a playlist's paths distinct |
| PlaylistStore.AddTrackCases | src/application/store/useLochordStore.ts:220-228 | Adding a track whose path is present leaves the playlist as it was. Adding a new one appends it and marks the playlist dirty. Either way the path is present afterwards and distinct paths stay distinct |
| PlaylistStore.AddTrackIdempotent | src/application/store/useLochordStore.ts:222-226 | Adding the same track twice has the effect of adding it once |
| PlaylistStore.AddThenRemove | src/application/store/useLochordStore.ts:216-247 | Adding a new track and then removing its path restores the track list |
| PlaylistStore.ApplyKeepsIdentity | src/application/store/useLochordStore.ts:220-258 | No edit changes a playlist's name. Only the save-as rename changes its path |
| PlaylistStore.ApplyAt | src/application/store/useLochordStore.ts:220-228 | An edit of the selected playlist changes each playlist with that path and leaves every other playlist as it was |
| PlaylistStore.ApplyAtKeepsPaths | src/application/store/useLochordStore.ts:220-258 | Track edits neither add nor remove a playlist path |
| PlaylistStore.ApplyAtOthers | src/application/store/useLochordStore.ts:221 | A playlist other than the selected one is untouched, including its dirty flag |
| PlaylistStore.DropPlaylist | src/application/store/useLochordStore.ts:203 | Deleting keeps exactly the playlists with another path, and none with the deleted path remains |
| PlaylistStore.DropPlaylistAppend | src/application/store/useLochordStore.ts:203 | Deleting distributes over concatenation, so the remaining playlists keep their order |
| PlaylistStore.DropPlaylistFirst | src/application/store/useLochordStore.ts:203-208 | The first remaining playlist is the first one in the list whose path differs from the deleted one |
| PlaylistStore.FindPlaylist | src/application/store/useLochordStore.ts:150 | The lookup finds a playlist exactly when one has the path, and what it finds is the first playlist in the list with that path |
| PlaylistStore.PatchTracks | src/application/store/useLochordStore.ts:369-371 | Applying a tag patch changes exactly the tracks with the written path and keeps the list's length and order |
| PlaylistStore.PatchPlaylists | src/application/store/useLochordStore.ts:374-379 | Every playlist gets its tracks patched, and nothing else about it changes |
| PlaylistStore.PatchFields | src/application/store/useLochordStore.ts:357-364 | The patch replaces title, artist, album, genre, year and cover, and keeps the paths, the duration and the other tag fields |
| PlaylistStore.PatchTracksIdempotent | src/application/store/useLochordStore.ts:369-371 | Patching twice with the same tags has the effect of patching once |
| PlaylistStore.UpdateKeepsShape | src/application/store/useLochordStore.ts:374-379 | A metadata update keeps each playlist's path, name, dirty flag, length and track identities |
| PlaylistStore.ReplaceExtensionOf | src/application/store/useLochordStore.ts:288 | A path ending in a dot and a valid extension gets exactly that extension replaced |
| PlaylistStore.ReplaceExtensionOfPlain | src/application/store/useLochordStore.ts:288 | A path with no dot is kept as it is |
| PlaylistStore.ReplaceExtensionIdempotent | src/application/store/useLochordStore.ts:288 | Replacing with the same extension a second time changes nothing more |
| PlaylistStore.FormatIsExtension | src/domain/entities/AppSettings.ts:2 | Every save format is an extension the save-as replacement accepts |
| PlaylistStore.CreatedPathTaken | src/application/store/useLochordStore.ts:182-191 | Once a playlist is created, its path counts as taken, so a second creation with the same name is refused |
| PlaylistStore.DeleteEffect | src/application/store/useLochordStore.ts:203-209 | After a delete the path is gone and every other playlist survives. A selection on another playlist stays; a deleted selection moves to a remaining playlist or to none |
| PlaylistStore.Loaded | src/application/store/useLochordStore.ts:129-141 | Loading gives one playlist per listed path, in order. A playlist already in memory is kept, so unsaved edits survive; any other is clean, is named after its file by `playlistNameFromPath`, and holds the loaded tracks, or none when loading fails |
| PlaylistStore.AfterSaveFlags | src/application/store/useLochordStore.ts:271-277 | A successful save clears only the saved playlist's dirty flag and keeps its tracks. A failed save changes no playlist |
| PlaylistStore.LochordStore.constructor | src/application/store/useLochordStore.ts:74-84 | The store starts with no root, no tracks, no playlists, no selection, no errors and not scanning |
| PlaylistStore.LochordStore.SetMusicRoot | src/application/store/useLochordStore.ts:86 | Sets the music root and nothing else |
| PlaylistStore.LochordStore.ScanLibrary | src/application/store/useLochordStore.ts:103-118 | Without a root nothing changes. A successful scan replaces the library and clears the scan error. A failed scan keeps the library and sets both error messages with the backend's text |
| PlaylistStore.LochordStore.LoadPlaylists | src/application/store/useLochordStore.ts:120-146 | Without a root nothing changes. With a listing, the playlists become `Loaded` of it. A failed listing keeps the playlists and reports the error |
| PlaylistStore.LochordStore.SelectPlaylist | src/application/store/useLochordStore.ts:148-167 | An unknown path changes nothing. Otherwise the path becomes selected; the playlist is reloaded and marked clean, or, if loading fails, it is kept and the error is reported |
| PlaylistStore.LochordStore.CreatePlaylist | src/application/store/useLochordStore.ts:169-197 | Without a root, or with a blank trimmed name, nothing changes. The path is the resolved playlist directory, the name and the configured extension. A taken path (compared with backslashes as slashes) is refused with the duplicate message. A successful save appends an empty clean playlist and selects it; a failed one reports the error |
| PlaylistStore.LochordStore.CreateAt | src/application/store/useLochordStore.ts:181-196 | The duplicate check and the save outcome for a computed path, with the same three results as above |
| PlaylistStore.LochordStore.DeletePlaylist | src/application/store/useLochordStore.ts:199-214 | A successful delete drops the playlist, and a deleted selection moves to the first remaining playlist or to none. A failed one keeps everything and reports the error |
| PlaylistStore.LochordStore.SaveCurrentPlaylist | src/application/store/useLochordStore.ts:260-279 | With a selected, present playlist, it writes that playlist's path and tracks, then clears its dirty flag or reports the save error. Otherwise it writes nothing and changes nothing |
| PlaylistStore.LochordStore.MaybeAutoSave | src/application/store/useLochordStore.ts:53-59 | With auto-save off nothing changes. With it on, the effect is that of saving the current playlist |
| PlaylistStore.LochordStore.EditSelected | src/application/store/useLochordStore.ts:216-258 | Without a selection nothing changes. Otherwise the edit is applied to the selected playlist, followed by the auto-save |
| PlaylistStore.LochordStore.AddTrackToPlaylist | src/application/store/useLochordStore.ts:216-231 | Adds the track to the selected playlist unless its path is present, then auto-saves. Without a selection nothing changes |
| PlaylistStore.LochordStore.RemoveTrackFromPlaylist | src/application/store/useLochordStore.ts:233-247 | Drops every track with the path from the selected playlist and marks it dirty, then auto-saves. Without a selection nothing changes |
| PlaylistStore.LochordStore.ReorderTracks | src/application/store/useLochordStore.ts:249-258 | Replaces the selected playlist's tracks and marks it dirty, then auto-saves. Without a selection nothing changes |
| PlaylistStore.LochordStore.SaveCurrentPlaylistAs | src/application/store/useLochordStore.ts:281-320 | Without a selected, present playlist nothing changes. Otherwise it writes the tracks under the path with the extension replaced. On success the playlist moves to the new path, clean, and is selected; when the path changed, the old file is removed and the configured extension is updated. A failed save changes nothing but the error |
| PlaylistStore.LochordStore.CommitSaveAs | src/application/store/useLochordStore.ts:299-316 | After a successful save-as write: the rename and the selection; when the path changed, the old file's removal and the settings update; otherwise neither |
| PlaylistStore.LochordStore.ClearError | src/application/store/useLochordStore.ts:322 | Clears the error message and nothing else |
| PlaylistStore.LochordStore.SelectTrackForEdit | src/application/store/useLochordStore.ts:324-350 | No track clears the selection. Otherwise the track is selected with the read tags merged in, or as it was when reading fails; loading ends in both cases |
| PlaylistStore.LochordStore.UpdateTrackMetadata | src/application/store/useLochordStore.ts:352-395 | After a successful write, the six patched fields are updated in the library, in every playlist and in the edited track if it has the path. A failed write changes nothing but the error |
| M3uCodec.CommonPrefixLength | src-tauri/src/commands/m3u.rs:105-110 | The count is the length of the longest common prefix: the parts agree up to it and differ just after it |
| M3uCodec.Ups | src-tauri/src/commands/m3u.rs:112-116 | Exactly k `..` components |
| M3uCodec.ComputeRelativePath | src-tauri/src/commands/m3u.rs:100-122 | The loop computes the relative path: one `..` per directory part past the common prefix, then the rest of the target |
| M3uCodec.RelativePathOfDescendant | src-tauri/src/commands/m3u.rs:100-122 | A file under the playlist directory is written as its path below that directory, with no `..` |
| M3uCodec.ResolveUps | src-tauri/src/commands/m3u.rs:153 | Each leading `..` climbs one directory when the relative path is resolved |
| M3uCodec.ResolvePlain | src-tauri/src/commands/m3u.rs:153 | A relative path with no `..` resolves to the base followed by it |
| M3uCodec.RelativePathResolves | src-tauri/src/commands/m3u.rs:91-94 | Joining the playlist directory with the computed relative path gives back the track's path |
| M3uCodec.TrackLinesAt | src-tauri/src/commands/m3u.rs:81-95 | Each track contributes its `#EXTINF` line and then its path line, at positions 2i and 2i+1 |
| M3uCodec.PlaylistLinesLayout | src-tauri/src/commands/m3u.rs:77-95 | The written lines are the header and then two lines per track, in order. Path lines use forward slashes only |
| M3uCodec.BuildM3u8 | src-tauri/src/commands/m3u.rs:77-98 | The loop's content is the header and track lines joined with newlines, plus a final newline |
| M3uCodec.StepSkips | src-tauri/src/commands/m3u.rs:131-134 | Empty lines, the header and other comment lines leave the parser state unchanged |
| M3uCodec.InfLineIsComment | src-tauri/src/commands/m3u.rs:136-150 | An `#EXTINF` line is a comment, so it is never taken for a path line |
| M3uCodec.StepInf | src-tauri/src/commands/m3u.rs:136-149 | An `#EXTINF` line updates only the pending duration, artist and title |
| M3uCodec.StepPath | src-tauri/src/commands/m3u.rs:150-180 | A path line appends one track built from the pending information and resets it |
| M3uCodec.PathTrackFields | src-tauri/src/commands/m3u.rs:152-176 | A parsed track has the pending artist and duration. Its title is the pending one, or else the file stem, or else "Unknown", so it is never empty. Its relative path uses forward slashes, and its absolute path is the resolved one |
| M3uCodec.StepCount | src-tauri/src/commands/m3u.rs:130-181 | Each line adds at most one track, exactly when it is a path line, and earlier tracks are never changed |
| M3uCodec.ParseM3u8 | src-tauri/src/commands/m3u.rs:124-185 | The loop computes the fold of the line step over the content's lines |
| M3uCodec.OneTrackPerPathLine | src-tauri/src/commands/m3u.rs:150-176 | A playlist yields exactly one track per path line |
| M3uCodec.ParsePrefixStable | src-tauri/src/commands/m3u.rs:130-181 | More lines only append tracks: the tracks of a prefix are a prefix of the tracks |
| M3uCodec.SplitDisplayAtFirstSeparator | src-tauri/src/commands/m3u.rs:141-148 | Without " - " the whole display is the title and the artist is empty. Otherwise they split at the first separator, and the artist holds none |
| M3uCodec.UnparsableDurationIsZero | src-tauri/src/commands/m3u.rs:138-139 | A duration field that is not an i64 reads as 0, and the display is still read |
| M3uCodec.Credits | src-tauri/src/commands/m3u.rs:170-176 | One credit (duration, artist, title) per track |
| M3uCodec.SplitDisplayOfWritten | src-tauri/src/commands/m3u.rs:83-87 | A written display splits back into the track's artist and title when it reads unambiguously |
| M3uCodec.ReadInfOfWritten | src-tauri/src/commands/m3u.rs:88 | Reading a written `#EXTINF` payload gives back the duration, artist and title |
| M3uCodec.InfLineShape | src-tauri/src/commands/m3u.rs:88 | A written `#EXTINF` line is trimmed already, starts with the prefix and carries duration, comma and display |
| M3uCodec.ReadInfLine | src-tauri/src/commands/m3u.rs:136-149 | The parser reads a written `#EXTINF` line into exactly the track's pending credit |
| M3uCodec.ReadTrackLines | src-tauri/src/commands/m3u.rs:81-95 | A written pair of lines parses into one new track with the original credit, and the state is reset |
| M3uCodec.ParseHeader | src-tauri/src/commands/m3u.rs:132 | The header line alone parses to the initial state |
| M3uCodec.ReadWrittenSnoc | src-tauri/src/commands/m3u.rs:81-95 | Appending one writable track to a playlist that reads back keeps it reading back |
| M3uCodec.ReadWrittenLines | src-tauri/src/commands/m3u.rs:77-95 | The written lines of writable tracks parse back to their credits, with nothing pending |
| M3uCodec.PlaylistLinesSingle | src-tauri/src/commands/m3u.rs:77-95 | No written line of a writable track contains a newline |
| M3uCodec.ParseTrailingEmpty | src-tauri/src/commands/m3u.rs:132 | A final empty line adds nothing to what is read |
| M3uCodec.SplitTerminated | src-tauri/src/commands/m3u.rs:97 | Splitting the joined, newline-terminated content gives the lines back, plus one empty line |
| M3uCodec.RoundTrip | src-tauri/src/commands/m3u.rs:77-185 | Reading what is written for tracks that can be written unambiguously gives back every track's duration, artist and title, in order. A writable track has a non-empty title, a display with no newline and no surrounding space, an artist without " - ", and a path line that is a real path line |
| AudioFiles.MimeText | src-tauri/src/commands/fs.rs:369-376 | Every MIME text written into a data URI is free of `;`, so the `;base64,` marker is found where it was written |
| AudioFiles.ParseDataUriCases | src-tauri/src/commands/fs.rs:528-549 | A URI without `data:` or without the `;base64,` marker gives nothing. A parsed URI splits at the first marker, its bytes are the decoded payload, and its MIME type is that of the header |
| AudioFiles.CoverRoundTrip | src-tauri/src/commands/fs.rs:366-382 | The cover data URI built from a tag's first picture parses back to that picture's bytes and MIME type, with unknown types stored as JPEG |
| AudioFiles.ReadAudioMetadata | src-tauri/src/commands/fs.rs:202-364 | Duration is never negative. An unreadable file gives the fallback with duration 0; a file with no tag gives the fallback with its duration. Without `include_cover` the cover is empty. A tag without a title gets the file stem |
| AudioFiles.FallbackFields | src-tauri/src/commands/fs.rs:206-236 | The fallback's title is the file stem, or "Unknown". Every other text is empty and every number zero |
| AudioFiles.ReadAudioTags | src-tauri/src/commands/fs.rs:384-413 | A missing file is exactly the error "File not found: " and the path. Otherwise the tags are the metadata read with the cover |
| AudioFiles.SetTextsRule | src-tauri/src/commands/fs.rs:441-444 | The four text setters obey the per-key rule for their keys and leave all other keys alone |
| AudioFiles.SetTrackNumbersRule | src-tauri/src/commands/fs.rs:445-459 | Year, track number and track total are set when positive and removed otherwise; other keys are kept |
| AudioFiles.SetDiscNumbersRule | src-tauri/src/commands/fs.rs:460-469 | Disc number and disc total are set when positive and removed otherwise; other keys are kept |
| AudioFiles.SetCreditsRule | src-tauri/src/commands/fs.rs:483-486 | Album artist, composer, comment and lyrics are set when non-empty and removed otherwise |
| AudioFiles.SetPublishingRule | src-tauri/src/commands/fs.rs:487-489 | Copyright, label and ISRC are set when non-empty and removed otherwise |
| AudioFiles.SetBpmRule | src-tauri/src/commands/fs.rs:490-497 | BPM is set to its decimal text when positive and removed otherwise |
| AudioFiles.ItemsAfterRule | src-tauri/src/commands/fs.rs:441-497 | After a tag write, every item key obeys the reference rule: set to the given value, removed, or kept as before |
| AudioFiles.SmallNumbersStored | src-tauri/src/commands/fs.rs:446 | A positive number below 2^32 survives the `as u32` cast unchanged |
| AudioFiles.BpmWriteRead | src-tauri/src/commands/fs.rs:294-297 | A positive BPM that is written reads back as the same number |
| AudioFiles.WithoutType | src-tauri/src/commands/fs.rs:505 | Removing a picture type keeps exactly the pictures of other types |
| AudioFiles.CoverReplaced | src-tauri/src/commands/fs.rs:500-515 | A parsable cover URI replaces every front cover with one new front cover, placed last, and keeps the other pictures |
| AudioFiles.Tag.constructor | src-tauri/src/commands/fs.rs:430-439 | A tag holds the given items and pictures |
| AudioFiles.Tag.Insert | src-tauri/src/commands/fs.rs:477 | Sets one item and nothing else |
| AudioFiles.Tag.RemoveKey | src-tauri/src/commands/fs.rs:448 | Removes one item and nothing else |
| AudioFiles.Tag.SetOrRemoveKey | src-tauri/src/commands/fs.rs:474-482 | `set_or_remove!` on one key |
| AudioFiles.Tag.RemovePictureType | src-tauri/src/commands/fs.rs:505 | Drops the pictures of one type and keeps the items |
| AudioFiles.Tag.PushPicture | src-tauri/src/commands/fs.rs:513 | Appends one picture and keeps the items |
| AudioFiles.Tag.Apply | src-tauri/src/commands/fs.rs:441-515 | The in-place updates leave the items as the reference rule says and the pictures as the cover rule says |
| AudioFiles.Tag.ApplyTrackNumbers | src-tauri/src/commands/fs.rs:445-459 | The year and track-number updates, in place |
| AudioFiles.Tag.ApplyDiscNumbers | src-tauri/src/commands/fs.rs:460-469 | The disc-number updates, in place |
| AudioFiles.Tag.ApplyCredits | src-tauri/src/commands/fs.rs:483-486 | The album artist, composer, comment and lyrics updates, in place |
| AudioFiles.Tag.ApplyPublishing | src-tauri/src/commands/fs.rs:487-497 | The copyright, label, ISRC and BPM updates, in place |
| AudioFiles.WriteAudioTags | src-tauri/src/commands/fs.rs:415-521 | A missing file gives "File not found: " and the path; an unreadable one gives "Failed to read file: " and the reason. In both cases the tag is untouched. An opened file gets the item and picture updates, and the result is the save outcome, a failure prefixed "Failed to save tags: " |
| Scanner.ChildPath | src-tauri/src/commands/fs.rs:122 | An entry's path ends with its name |
| Scanner.WalkWithinFiles | src-tauri/src/commands/fs.rs:101-120 | The walk yields only regular files of the tree |
| Scanner.WalkUnfiltered | src-tauri/src/commands/fs.rs:101-120 | When no directory is pruned, the walk yields every file |
| Scanner.RootFiltered | src-tauri/src/commands/fs.rs:103-118 | A root named `Playlists`, or one whose lower-cased name contains a lower-cased exclude pattern, is pruned, so the walk yields nothing |
| Scanner.EmptyPatternExcludesAll | src-tauri/src/commands/fs.rs:111-115 | An empty exclude pattern prunes every directory |
| Scanner.BuildTrack | src-tauri/src/commands/fs.rs:142-178 | A scanned track's identity is its path, it has no cover and a non-negative duration, and a file outside the root keeps its full path as relative path |
| Scanner.BuildTrackRelative | src-tauri/src/commands/fs.rs:146-150 | Under the root, the relative path is the file's path with the root prefix removed |
| Scanner.CollectedMembers | src-tauri/src/commands/fs.rs:121-134 | The collected tracks are exactly the built tracks of the walked files with an allowed extension |
| Scanner.LexTotal | src-tauri/src/commands/fs.rs:137 | The path order compares any two paths |
| Scanner.LexTrans | src-tauri/src/commands/fs.rs:137 | The path order is transitive |
| Scanner.LexAntisymmetric | src-tauri/src/commands/fs.rs:137 | The path order is antisymmetric |
| Scanner.InsertByPath | src-tauri/src/commands/fs.rs:137 | Inserting into a sorted list keeps it sorted and adds exactly the one track |
| Scanner.SortByPath | src-tauri/src/commands/fs.rs:137 | The sort yields a permutation of its input, ordered by absolute path |
| Scanner.ScanMusicDirectory | src-tauri/src/commands/fs.rs:84-140 | A missing path is exactly the error "Path does not exist: " and the path. Otherwise the result is sorted by absolute path and is a permutation of the tracks built from the walked, extension-filtered files; missing options default to the built-in extensions and no patterns |
| LibraryBrowser.FolderKeyOfSegments | src/presentation/components/LibraryBrowser/LibraryBrowser.tsx:88-89 | A track's folder is its relative path without the last segment, or `(root)` for a single segment |
| LibraryBrowser.FoldersInOrderMembers | src/presentation/components/LibraryBrowser/LibraryBrowser.tsx:85-93 | The folders listed are distinct and are exactly the folders of the tracks |
| LibraryBrowser.InFolderMembers | src/presentation/components/LibraryBrowser/LibraryBrowser.tsx:90-91 | A folder's list holds exactly the library tracks in that folder |
| LibraryBrowser.FolderMap | src/presentation/components/LibraryBrowser/LibraryBrowser.tsx:86-92 | The first loop fills the map: every folder key in first-seen order, each with its tracks in library order |
| LibraryBrowser.AlbumGroups | src/presentation/components/LibraryBrowser/LibraryBrowser.tsx:85-94 | The groups are the folders in first-seen order, each with its tracks in library order |
| LibraryBrowser.EachTrackInOneGroup | src/presentation/components/LibraryBrowser/LibraryBrowser.tsx:85-94 | Every track appears in its own folder's group and in no other |
| LibraryBrowser.FoldersDistinct | src/presentation/components/LibraryBrowser/LibraryBrowser.tsx:90 | No folder has two groups |
| LibraryBrowser.GroupsCount | src/presentation/components/LibraryBrowser/LibraryBrowser.tsx:85-94 | The group sizes add up to the number of library tracks, so nothing is lost or duplicated |
| LibraryBrowser.FirstOccurrenceOrder | src/presentation/components/LibraryBrowser/LibraryBrowser.tsx:93 | A group that comes earlier has a track earlier in the library than any track of a later group |
| LibraryBrowser.HandleAdd | src/presentation/components/LibraryBrowser/LibraryBrowser.tsx:96-102 | Without a selected playlist, the user is alerted and the store is unchanged. Otherwise the track is added to the selected playlist and auto-saved |
| TrackList.FindIndex | src/presentation/components/TrackList/TrackList.tsx:84-85 | The index of the first track with the id, or -1 exactly when none has it |
| TrackList.ArrayMoveLands | src/presentation/components/TrackList/TrackList.tsx:86 | The moved track lands at the target index, and the other tracks keep their relative order |
| TrackList.ArrayMovePermutes | src/presentation/components/TrackList/TrackList.tsx:86 | A move is a permutation |
| TrackList.ArrayMovePositions | src/presentation/components/TrackList/TrackList.tsx:86 | Tracks outside the moved range keep their place, and those inside shift by one toward the source |
| TrackList.ArrayMoveInPlace | src/presentation/components/TrackList/TrackList.tsx:86 | Moving a track onto itself changes nothing |
| TrackList.HandleDragEnd | src/presentation/components/TrackList/TrackList.tsx:81-88 | No reorder when there is no target or the target is the dragged track. Otherwise the new order is a permutation of the same length, with the dragged track at the target's index and the others in their order |
| RubberBand.Span | src/presentation/hooks/useRubberBandSelect.ts:52-55 | The rectangle has a non-negative size, is anchored at one of the two points and contains both points |
| RubberBand.HitPathsMembers | src/presentation/hooks/useRubberBandSelect.ts:64-75 | The collected paths are exactly the non-empty paths of the rows whose boxes intersect the rectangle |
| RubberBand.HitPathsGrow | src/presentation/hooks/useRubberBandSelect.ts:64-75 | A larger rectangle hits every path a smaller one hits |
| RubberBand.FilterByPaths | src/presentation/hooks/useRubberBandSelect.ts:78 | The selection holds exactly the tracks whose paths were hit, in track order |
| RubberBand.FilterByPathsAppend | src/presentation/hooks/useRubberBandSelect.ts:78 | Filtering distributes over concatenation, so the track order is kept |
| RubberBand.Selector.constructor | src/presentation/hooks/useRubberBandSelect.ts:20-22 | No press, no rectangle, no drag, no listeners |
| RubberBand.Selector.MouseDown | src/presentation/hooks/useRubberBandSelect.ts:24-46 | Only a left press on empty space of a mounted container starts a selection. It records the point, clears the rectangle and drag flag, installs the listeners and disables text selection; any other press changes nothing |
| RubberBand.Selector.MouseMove | src/presentation/hooks/useRubberBandSelect.ts:48-81 | With no press, or a move under 4 px on both axes, nothing changes. Otherwise the press became a drag and the rectangle spans the press and the pointer; when any row is hit, the selection is the hit tracks in order |
| RubberBand.Selector.MouseUp | src/presentation/hooks/useRubberBandSelect.ts:83-96 | Ends the press: no rectangle, listeners removed, text selection restored. A press that dragged arms the one-shot click suppression |
| RubberBand.Selector.Click | src/presentation/hooks/useRubberBandSelect.ts:92-95 | A click is swallowed exactly once after a drag, and delivered otherwise |
| MetadataEditor.TagAt | src/presentation/components/MetadataEditor/MetadataEditor.tsx:207-226 | Numeric fields carry numbers and text fields carry text |
| MetadataEditor.CommonValueMeans | src/presentation/components/MetadataEditor/MetadataEditor.tsx:10-14 | There is a common value exactly when the list is non-empty and every element equals it |
| MetadataEditor.MixedMeansDisagreement | src/presentation/components/MetadataEditor/MetadataEditor.tsx:16-26 | A field is mixed exactly when some track's value differs from the first track's, and a mixed field shows an empty box |
| MetadataEditor.CommonOfAgreeing | src/presentation/components/MetadataEditor/MetadataEditor.tsx:16-26 | When all tracks agree, the field is not mixed and shows what a single track shows |
| MetadataEditor.KeepDigits | src/presentation/components/MetadataEditor/MetadataEditor.tsx:393 | A numeric box keeps only the digits typed, and a run of digits is kept as it is |
| MetadataEditor.ParseUnsignedDigits | src/presentation/components/MetadataEditor/MetadataEditor.tsx:149 | A run of digits parses as its decimal value |
| MetadataEditor.NumOfDigits | src/presentation/components/MetadataEditor/MetadataEditor.tsx:149 | A box of digits reads as its value, and an empty box as 0 |
| MetadataEditor.ParseNegative | src/presentation/components/MetadataEditor/MetadataEditor.tsx:149 | A minus sign and digits parse as the negated value |
| MetadataEditor.NumOfRendered | src/presentation/components/MetadataEditor/MetadataEditor.tsx:80-88 | What a numeric box shows for a number reads back as that number, 0 shown as empty included |
| MetadataEditor.NumOfTyped | src/presentation/components/MetadataEditor/MetadataEditor.tsx:393 | The digits kept from typed text read back as their decimal value |
| MetadataEditor.Form.With | src/presentation/components/MetadataEditor/MetadataEditor.tsx:40-57 | Setting one box changes that box only |
| MetadataEditor.FormsEqual | src/presentation/components/MetadataEditor/MetadataEditor.tsx:40-57 | A form is determined by its eighteen boxes |
| MetadataEditor.TagsOfFields | src/presentation/components/MetadataEditor/MetadataEditor.tsx:207-226 | The saved tag set holds each box's value, numbers through `num` |
| MetadataEditor.FormOfFields | src/presentation/components/MetadataEditor/MetadataEditor.tsx:74-92 | Syncing fills each box with the track's rendered value, numbers only when positive |
| MetadataEditor.SaveUneditedForm | src/presentation/components/MetadataEditor/MetadataEditor.tsx:207-227 | Saving a form that was synced and not edited writes the track's own tags back |
| MetadataEditor.ChangedMeansSomeBox | src/presentation/components/MetadataEditor/MetadataEditor.tsx:151-171 | The form differs from the synced one exactly when some box differs from the track's value |
| MetadataEditor.CommonFormFields | src/presentation/components/MetadataEditor/MetadataEditor.tsx:98-121 | The multi-track form shows each field's common value |
| MetadataEditor.SingleTrackCommon | src/presentation/components/MetadataEditor/MetadataEditor.tsx:98-121 | For one track nothing is mixed, and the common form agrees with that track's form |
| MetadataEditor.HasChanges | src/presentation/components/MetadataEditor/MetadataEditor.tsx:151-173 | In multi mode there are changes exactly when some field was touched; in single mode, exactly when a track is selected and some box differs from it |
| MetadataEditor.Partial | src/presentation/components/MetadataEditor/MetadataEditor.tsx:180-198 | The partial update holds exactly the touched fields, with the form's values |
| MetadataEditor.SaveAfterEdit | src/presentation/components/MetadataEditor/MetadataEditor.tsx:338-393 | After editing one box and saving, that field holds the typed text, or the value of its digits, and every other field holds what it held |
| MetadataEditor.Editor.constructor | src/presentation/components/MetadataEditor/MetadataEditor.tsx:40-63 | The editor starts blank, with nothing touched or mixed and no message |
| MetadataEditor.Editor.Touch | src/presentation/components/MetadataEditor/MetadataEditor.tsx:65-72 | Adds the field to the touched set, which is unchanged if it is there already |
| MetadataEditor.Editor.Edit | src/presentation/components/MetadataEditor/MetadataEditor.tsx:338-522 | Typing sets the box, keeping only digits in numeric boxes, and touches the field |
| MetadataEditor.Editor.SelectCover | src/presentation/components/MetadataEditor/MetadataEditor.tsx:246-263 | A chosen image sets the cover box and touches it |
| MetadataEditor.Editor.RemoveCover | src/presentation/components/MetadataEditor/MetadataEditor.tsx:265-268 | Empties the cover box and touches it |
| MetadataEditor.Editor.SyncForm | src/presentation/components/MetadataEditor/MetadataEditor.tsx:74-96 | The form becomes the track's form, with nothing touched or mixed and no message |
| MetadataEditor.Editor.SyncMultiForm | src/presentation/components/MetadataEditor/MetadataEditor.tsx:98-125 | The form becomes the common form, the mixed set becomes the disagreeing fields, and nothing is touched |
| MetadataEditor.Editor.SaveMulti | src/presentation/components/MetadataEditor/MetadataEditor.tsx:179-204 | Sends every selected path with the touched fields' values. Success clears the touched set and reports the count; failure keeps it and reports the error |
| MetadataEditor.Editor.SaveSingle | src/presentation/components/MetadataEditor/MetadataEditor.tsx:205-232 | With a selected track, sends its path and the whole form as tags and shows the success message whatever the write's outcome, because the store's `updateTrackMetadata` catches a failed write and only records it in its own error message. Without one it sends nothing |
| MetadataEditor.Editor.SelectionChanged | src/presentation/components/MetadataEditor/MetadataEditor.tsx:127-138 | One selected track syncs its form; several sync the common form; otherwise only the touched and mixed sets are cleared |
| MetadataEditor.Editor.HandleReset | src/presentation/components/MetadataEditor/MetadataEditor.tsx:238-244 | Reset re-syncs from the selection, and without a track it changes nothing |
| Settings.SettingsStore.constructor | src/application/store/useSettingsStore.ts:22 | Settings start as the defaults |
| Settings.FieldsDetermine | src/domain/entities/AppSettings.ts:6-21 | Settings are determined by their nine fields |
| Settings.MergeGet | src/application/store/useSettingsStore.ts:24-25 | After a merge, a field in the patch has the patch's value and every other field keeps its value |
| Settings.MergeIdempotent | src/application/store/useSettingsStore.ts:24-25 | Merging the same patch twice has the effect of merging it once |
| Settings.MergeEmpty | src/application/store/useSettingsStore.ts:24-25 | An empty patch changes nothing |
| Settings.MergeTwice | src/application/store/useSettingsStore.ts:24-25 | Two merges are one merge of the combined patch, with the later patch winning |
| Settings.AsPatch | src/presentation/components/SettingsModal/SettingsModal.tsx:63 | A whole settings record as a patch names every field with its value |
| Settings.MergeWhole | src/presentation/components/SettingsModal/SettingsModal.tsx:62-65 | Merging a whole settings record replaces the settings with it |
| Settings.Single | src/presentation/components/SettingsModal/SettingsModal.tsx:76 | A one-field patch names exactly that field |
| Settings.MergeScanExtensions | src/presentation/components/SettingsModal/SettingsModal.tsx:86 | A scan-extensions patch replaces that list only |
| Settings.MergeExcludePatterns | src/presentation/components/SettingsModal/SettingsModal.tsx:98 | An exclude-patterns patch replaces that list only |
| Settings.MergePlaylistDir | src/presentation/components/SettingsModal/SettingsModal.tsx:76 | A playlist-directory patch replaces that field only |
| Settings.MergeSaveExtension | src/application/store/useLochordStore.ts:306 | A save-extension patch replaces that field only |
| Settings.SettingsStore.UpdateSettings | src/application/store/useSettingsStore.ts:24-25 | The settings become the merge: patched fields take the patch's values and the others are kept |
| Settings.SettingsStore.ResetSettings | src/application/store/useSettingsStore.ts:27 | The settings become the defaults |
| Settings.SettingsStore.ResolvePlaylistDir | src/application/store/useSettingsStore.ts:29-33 | A non-empty configured directory is used as it is. Otherwise the directory is the root with backslashes as slashes, followed by `/Playlists` |
| Settings.PlaylistDirOfPlainRoot | src/application/store/useSettingsStore.ts:32 | For a root without backslashes, the default directory is the root's `Playlists` child |
| Settings.DefaultPlaylistDir | src/application/store/useSettingsStore.ts:29-33 | With the default settings, the playlist directory is the normalised root's `Playlists` child |
| SettingsModal.NormalizeExtension | src/presentation/components/SettingsModal/SettingsModal.tsx:84 | The extension is lower case: the trimmed, lowered text, less one leading dot |
| SettingsModal.NormalizeCanonical | src/presentation/components/SettingsModal/SettingsModal.tsx:84 | A canonical extension, with or without a leading dot, normalises to itself |
| SettingsModal.AppendNew | src/presentation/components/SettingsModal/SettingsModal.tsx:85-87 | The list is kept as a prefix; a non-empty new value is appended once, and an empty or present one changes nothing |
| SettingsModal.AppendNewDistinct | src/presentation/components/SettingsModal/SettingsModal.tsx:85-87 | Adding keeps a list free of duplicates |
| SettingsModal.RemoveAll | src/presentation/components/SettingsModal/SettingsModal.tsx:92 | Removal drops every copy of the value and keeps every other element, with its multiplicity |
| SettingsModal.RemoveAllAppend | src/presentation/components/SettingsModal/SettingsModal.tsx:92 | Removal distributes over concatenation, so order is kept |
| SettingsModal.RemoveAllAbsent | src/presentation/components/SettingsModal/SettingsModal.tsx:92 | Removing an absent value changes nothing |
| SettingsModal.RemoveAllDistinct | src/presentation/components/SettingsModal/SettingsModal.tsx:92 | Removal keeps a list free of duplicates |
| SettingsModal.DefaultExtensionsDistinct | src/presentation/components/SettingsModal/SettingsModal.tsx:20 | The default extension list has no duplicates |
| SettingsModal.SettingsDialog.constructor | src/presentation/components/SettingsModal/SettingsModal.tsx:44-47 | The draft starts as the store's settings, with empty input boxes |
| SettingsModal.SettingsDialog.Open | src/presentation/components/SettingsModal/SettingsModal.tsx:50-54 | Opening copies the store's settings into the draft |
| SettingsModal.SettingsDialog.UpdateDraft | src/presentation/components/SettingsModal/SettingsModal.tsx:58-60 | The draft becomes the merge of the patch |
| SettingsModal.SettingsDialog.SetNewExtension | src/presentation/components/SettingsModal/SettingsModal.tsx:226 | Sets the extension box only |
| SettingsModal.SettingsDialog.SetNewExclude | src/presentation/components/SettingsModal/SettingsModal.tsx:265 | Sets the exclude box only |
| SettingsModal.SettingsDialog.HandleSave | src/presentation/components/SettingsModal/SettingsModal.tsx:62-65 | Saving makes the store's settings equal to the draft |
| SettingsModal.SettingsDialog.HandleReset | src/presentation/components/SettingsModal/SettingsModal.tsx:67-70 | Reset puts the defaults into the store and copies them into the draft |
| SettingsModal.SettingsDialog.HandleBrowseDir | src/presentation/components/SettingsModal/SettingsModal.tsx:72-81 | A chosen, non-empty directory becomes the draft's playlist directory, and a cancel changes nothing |
| SettingsModal.SettingsDialog.AddExtension | src/presentation/components/SettingsModal/SettingsModal.tsx:83-89 | Appends the normalised extension if it is new and non-empty, and empties the box |
| SettingsModal.SettingsDialog.RemoveExtension | src/presentation/components/SettingsModal/SettingsModal.tsx:91-93 | Drops every copy of the extension from the draft |
| SettingsModal.SettingsDialog.AddExclude | src/presentation/components/SettingsModal/SettingsModal.tsx:95-101 | Appends the trimmed pattern if it is new and non-empty, and empties the box |
| SettingsModal.SettingsDialog.RemoveExclude | src/presentation/components/SettingsModal/SettingsModal.tsx:103-105 | Drops every copy of the pattern from the draft |
| SettingsModal.SettingsDialog.ResetExtensions | src/presentation/components/SettingsModal/SettingsModal.tsx:236 | Restores the default extension list in the draft |
| PathResolver.FormatDurationFields | src/domain/rules/m3uPathResolver.ts:4-9 | A positive duration shows as the minutes, a colon and exactly two digits of seconds |
| PathResolver.FormatDurationNonPositive | src/domain/rules/m3uPathResolver.ts:5 | The placeholder `--:--` is shown exactly for durations that are not positive |
| PathResolver.LastSegment | src/domain/rules/m3uPathResolver.ts:15-16 | The file name after the last slash or backslash contains neither |
| PathResolver.PlaylistNameFromPath | src/domain/rules/m3uPathResolver.ts:14-18 | A playlist's name holds no slash of either kind |
| PathResolver.PlaylistNameKeepsOtherExtensions | src/domain/rules/m3uPathResolver.ts:17 | A file name not ending in `.m3u` or `.m3u8`, in any case, is the name as it is |
| PathResolver.LastSegmentOfChild | src/domain/rules/m3uPathResolver.ts:15-16 | The last segment of a child path is the child's name |
| PathResolver.StripM3u8 | src/domain/rules/m3uPathResolver.ts:17 | A `.m3u8` suffix is removed |
| PathResolver.StripM3u | src/domain/rules/m3uPathResolver.ts:17 | A `.m3u` suffix is removed |
| PathResolver.KeepOtherExtension | src/domain/rules/m3uPathResolver.ts:17 | A name whose last letter rules out both suffixes is kept |
| PathResolver.StripSavedExtension | src/domain/rules/m3uPathResolver.ts:17 | Stripping a saved file name gives back the name for the M3U formats, and keeps other extensions |
| PathResolver.NameOfSavedPlaylist | src/application/store/useLochordStore.ts:179-189 | A created playlist's name is the name typed, for the M3U formats, or that name with its extension otherwise |
| Paths.Components | src-tauri/src/commands/m3u.rs:102-103 | A path's components are non-empty, not `.`, and contain no slash |
| Paths.ComponentsRender | src-tauri/src/commands/m3u.rs:117-121 | Rendering clean components with slashes and splitting again gives them back |
| Paths.FileName | src-tauri/src/commands/m3u.rs:161-164 | A file name is non-empty, not `..`, and has no slash |
| Paths.StemAndExtension | src-tauri/src/commands/fs.rs:206-210 | For a name with one final dot, the stem is before it and the extension after it |
| Paths.ExtensionOf | src-tauri/src/commands/fs.rs:123-126 | An extension contains no dot |
| Paths.StripPrefix | src-tauri/src/commands/fs.rs:146-148 | Stripping succeeds exactly when the root is a component prefix, and the remainder completes the path |
| Strings.Trim | src-tauri/src/commands/m3u.rs:131 | The trimmed text has no surrounding whitespace. It is empty exactly when the text is all whitespace |
| Strings.TrimIdentity | src-tauri/src/commands/m3u.rs:131 | Text without surrounding whitespace is its own trim |
| Strings.Slashes | src-tauri/src/commands/m3u.rs:152 | Replacing backslashes keeps the length and leaves no backslash |
| Strings.Find | src-tauri/src/commands/m3u.rs:142 | The first occurrence of the pattern, or none exactly when it does not occur |
| Strings.SplitOnceFirst | src-tauri/src/commands/fs.rs:533 | Splitting at a pattern fails exactly when it does not occur. Otherwise the halves rejoin to the text, and the first half does not contain the pattern |
| Strings.SplitJoin | src-tauri/src/commands/m3u.rs:97 | Joining lines without the separator and splitting again gives them back |
| Strings.ToLower | src-tauri/src/commands/fs.rs:112 | Lower-casing maps each character and keeps the length |
| Strings.IntToString | src-tauri/src/commands/m3u.rs:88 | The decimal text of an integer: a minus sign exactly for negatives, then digits whose value is the magnitude |
| Strings.ParseI64 | src-tauri/src/commands/m3u.rs:139 | A parsed value always fits in an i64 |
| Strings.ParseI64OfIntToString | src-tauri/src/commands/m3u.rs:88-139 | The decimal text of any i64 parses back to it |

## Left out

- Paths.Components: paths are modelled Unix-style. Only `/` separates components, and the root and `.` components are dropped. Rust's `Path::components` keeps the root and a leading `.`, and on Windows it also splits on `\` and yields a drive prefix. None of that is modelled.
- M3uCodec.ComputeRelativePath: because the root component is dropped, a target with a root that the directory lacks differs from Rust. `compute_relative_path("a", "/b/c")` is `/b/c` in Rust, since pushing a root replaces the path, but `../b/c` in the model. Windows drive prefixes are not modelled either.
- M3uCodec.PathTrackFields: the file stem is taken from `/`-separated components only, so a Windows path with `\` separators is not split as Rust splits it there. The same holds for AudioFiles.DefaultTitle and for the `strip_prefix` in Scanner.BuildTrack.
- RubberBand.Selector.MouseMove: coordinates and rectangle sides are exact reals, not JavaScript doubles. Rounding, NaN and infinities are not modelled.
- MetadataEditor.NumOfDigits: `num` is exact on unbounded integers. JavaScript's `parseInt` loses precision for values above 2^53, and that is not modelled. The same holds for MetadataEditor.NumOfTyped.

- File-system and dialog I/O: the results of `select_music_root`, `select_directory`, `list_playlists`, `load_playlist`, `save_playlist`, `delete_playlist`, of reading and writing files, and of the store's `selectMusicRoot` dialog are parameters of the operations that use them; the store's `selectMusicRoot` action itself is not a separate method.
- The tag library and base64: a file's tags, properties and save outcome are a parameter (`ReadOutcome`, `WriteProbe`, the save result), and base64 is an abstract codec; `CoverRoundTrip` assumes the codec's decode inverts its encode.
- The directory walk is over a modelled tree; walk errors that `filter_map(|e| e.ok())` drops, symbolic links and lossy string conversion are not modelled.
- `canonicalize` in `parse_m3u8` is the `resolve` parameter; it is not modelled how the file system resolves paths.
- `content.lines()` is modelled as a split on `'\n'`; a `'\r'` before the newline and the final empty piece are removed by the trim and the empty-line skip, so what is read is the same.
- Whitespace for `trim` and character case for `toLowerCase` and `to_lowercase` cover ASCII only.
- Concurrency: each store action runs atomically with its I/O outcomes given up front; `Promise.all`, overlapping actions, the fire-and-forget auto-save and the persistence middleware are not modelled.
- React rendering, `setTimeout` for the save message, the `isSaving` flag, the drag-and-drop library's sensors and the DOM events are not modelled.
- `updateMultipleTracksMetadata` and `selectedTracksForEdit` are read by the metadata editor (`MetadataEditor.tsx:30-33`), but `useLochordStore.ts` defines neither. So the editor's multi-track save returns the paths and the partial tags it would send, and the selected tracks are a parameter.
- `buildSaveOptions` and the path-mode and format options are passed to the playlist writer by the frontend but `build_m3u8` ignores them, so they are not modelled.
- `formatDuration` is modelled on whole seconds; fractional durations from floating point are not.
- The tag accessors `year()`, `track()` and `disk()` return `u32`; the model reads these as non-negative integers without an upper bound.
- `write_audio_tags` picks the file's primary tag, or inserts a new empty one of the file type's primary kind (`fs.rs:430-439`); the model is given that tag and does not model the choice of tag kind.
- TrackList.HandleDragEnd: requires the dragged and target ids to be rows of the list, which the drag-and-drop library guarantees; the source's behaviour for an id that `findIndex` misses (-1) is not modelled.
- TrackList.RemoveAt: states only the length; it is a helper for `HandleDragEnd`.
- M3uCodec.RoundTrip: covers only tracks whose display and path lines read back unambiguously (`RoundTrips`); for others, such as an artist containing " - ", the split is stated by `SplitDisplayAtFirstSeparator`.
- PathResolver.PlaylistNameFromPath: the `?? path` fallback of `split("/").pop()` is unreachable in JavaScript and is not modelled.
