/** The persisted settings store (`useSettingsStore.ts`): a settings record replaced by
    patch-merge or reset, and the playlist directory derived from it. */
module Settings {
  import opened Wrappers
  import opened Strings
  import opened Entities

  /** The fields of `AppSettings`, as the keys of a `Partial<AppSettings>`. */
  datatype Key = PathModeKey | PathPrefixKey | PlaylistDirKey | SaveExtensionKey | AutoSaveKey
               | ColorThemeKey | LanguageKey | ScanExtensionsKey | ExcludePatternsKey

  /** A value stored under one key. */
  datatype Value =
    | ModeValue(mode: PathMode)
    | OptionalText(text: Option<string>)
    | FormatValue(format: SaveFormat)
    | Flag(flag: bool)
    | ThemeValue(theme: ColorTheme)
    | LanguageValue(language: Language)
    | TextList(items: seq<string>)

  /** The value a key may hold, as the field's type says. */
  predicate Fits(k: Key, v: Value) {
    match k
    case PathModeKey => v.ModeValue?
    case PathPrefixKey => v.OptionalText?
    case PlaylistDirKey => v.OptionalText?
    case SaveExtensionKey => v.FormatValue?
    case AutoSaveKey => v.Flag?
    case ColorThemeKey => v.ThemeValue?
    case LanguageKey => v.LanguageValue?
    case ScanExtensionsKey => v.TextList?
    case ExcludePatternsKey => v.TextList?
  }

  /** `Partial<AppSettings>`: some keys, each with a value of its field's type. */
  type Patch = map<Key, Value>

  predicate WellTyped(p: Patch) {
    forall k :: k in p ==> Fits(k, p[k])
  }

  /** The value of one field of a settings record. */
  function Get(s: AppSettings, k: Key): (v: Value)
    ensures Fits(k, v)
  {
    match k
    case PathModeKey => ModeValue(s.pathMode)
    case PathPrefixKey => OptionalText(s.pathPrefix)
    case PlaylistDirKey => OptionalText(s.playlistDir)
    case SaveExtensionKey => FormatValue(s.saveExtension)
    case AutoSaveKey => Flag(s.autoSave)
    case ColorThemeKey => ThemeValue(s.colorTheme)
    case LanguageKey => LanguageValue(s.language)
    case ScanExtensionsKey => TextList(s.scanExtensions)
    case ExcludePatternsKey => TextList(s.excludePatterns)
  }

  /** Two records that agree on every field are the same record. */
  lemma FieldsDetermine(a: AppSettings, b: AppSettings)
    requires forall k :: Get(a, k) == Get(b, k)
    ensures a == b
  {
    assert Get(a, PathModeKey) == Get(b, PathModeKey);
    assert Get(a, PathPrefixKey) == Get(b, PathPrefixKey);
    assert Get(a, PlaylistDirKey) == Get(b, PlaylistDirKey);
    assert Get(a, SaveExtensionKey) == Get(b, SaveExtensionKey);
    assert Get(a, AutoSaveKey) == Get(b, AutoSaveKey);
    assert Get(a, ColorThemeKey) == Get(b, ColorThemeKey);
    assert Get(a, LanguageKey) == Get(b, LanguageKey);
    assert Get(a, ScanExtensionsKey) == Get(b, ScanExtensionsKey);
    assert Get(a, ExcludePatternsKey) == Get(b, ExcludePatternsKey);
  }

  /** `{ ...s, ...patch }`. */
  function Merge(s: AppSettings, p: Patch): AppSettings
    requires WellTyped(p)
  {
    AppSettings(
      if PathModeKey in p then p[PathModeKey].mode else s.pathMode,
      if PathPrefixKey in p then p[PathPrefixKey].text else s.pathPrefix,
      if PlaylistDirKey in p then p[PlaylistDirKey].text else s.playlistDir,
      if SaveExtensionKey in p then p[SaveExtensionKey].format else s.saveExtension,
      if AutoSaveKey in p then p[AutoSaveKey].flag else s.autoSave,
      if ColorThemeKey in p then p[ColorThemeKey].theme else s.colorTheme,
      if LanguageKey in p then p[LanguageKey].language else s.language,
      if ScanExtensionsKey in p then p[ScanExtensionsKey].items else s.scanExtensions,
      if ExcludePatternsKey in p then p[ExcludePatternsKey].items else s.excludePatterns)
  }

  /** After a merge every key of the patch has the patch's value and every other field keeps
      the record's. */
  lemma MergeGet(s: AppSettings, p: Patch, k: Key)
    requires WellTyped(p)
    ensures Get(Merge(s, p), k) == if k in p then p[k] else Get(s, k)
  {
    match k {
      case PathModeKey =>
      case PathPrefixKey =>
      case PlaylistDirKey =>
      case SaveExtensionKey =>
      case AutoSaveKey =>
      case ColorThemeKey =>
      case LanguageKey =>
      case ScanExtensionsKey =>
      case ExcludePatternsKey =>
    }
  }

  lemma MergeFields(s: AppSettings, p: Patch)
    requires WellTyped(p)
    ensures forall k :: Get(Merge(s, p), k) == if k in p then p[k] else Get(s, k)
  {
    forall k { MergeGet(s, p, k); }
  }

  /** Applying a patch a second time changes nothing. */
  lemma MergeIdempotent(s: AppSettings, p: Patch)
    requires WellTyped(p)
    ensures Merge(Merge(s, p), p) == Merge(s, p)
  {
    MergeFields(s, p);
    MergeFields(Merge(s, p), p);
    FieldsDetermine(Merge(Merge(s, p), p), Merge(s, p));
  }

  /** The empty patch changes nothing. */
  lemma MergeEmpty(s: AppSettings)
    ensures Merge(s, map[]) == s
  {
    MergeFields(s, map[]);
    FieldsDetermine(Merge(s, map[]), s);
  }

  /** Two patches in a row are one patch whose later keys win. */
  lemma MergeTwice(s: AppSettings, p: Patch, q: Patch)
    requires WellTyped(p) && WellTyped(q)
    ensures WellTyped(p + q)
    ensures Merge(Merge(s, p), q) == Merge(s, p + q)
  {
    MergeFields(s, p);
    MergeFields(Merge(s, p), q);
    MergeFields(s, p + q);
    FieldsDetermine(Merge(Merge(s, p), q), Merge(s, p + q));
  }

  /** A whole record as a patch holding every key. */
  function AsPatch(s: AppSettings): (p: Patch)
    ensures WellTyped(p)
    ensures forall k :: k in p && p[k] == Get(s, k)
  {
    map k: Key | true :: Get(s, k)
  }

  /** Merging a whole record replaces the settings by that record (`updateSettings(draft)`). */
  lemma MergeWhole(s: AppSettings, d: AppSettings)
    ensures Merge(s, AsPatch(d)) == d
  {
    MergeFields(s, AsPatch(d));
    FieldsDetermine(Merge(s, AsPatch(d)), d);
  }

  /** The patch setting one field. */
  function Single(k: Key, v: Value): (p: Patch)
    requires Fits(k, v)
    ensures WellTyped(p) && p.Keys == {k} && p[k] == v
  {
    map[k := v]
  }

  /** Patching only the scan extensions replaces that one list. */
  lemma MergeScanExtensions(s: AppSettings, items: seq<string>)
    ensures Merge(s, Single(ScanExtensionsKey, TextList(items))) == s.(scanExtensions := items)
  {
    MergeFields(s, Single(ScanExtensionsKey, TextList(items)));
    FieldsDetermine(Merge(s, Single(ScanExtensionsKey, TextList(items))), s.(scanExtensions := items));
  }

  /** Patching only the exclude patterns replaces that one list. */
  lemma MergeExcludePatterns(s: AppSettings, items: seq<string>)
    ensures Merge(s, Single(ExcludePatternsKey, TextList(items))) == s.(excludePatterns := items)
  {
    MergeFields(s, Single(ExcludePatternsKey, TextList(items)));
    FieldsDetermine(Merge(s, Single(ExcludePatternsKey, TextList(items))), s.(excludePatterns := items));
  }

  /** Patching only the playlist directory replaces that one field. */
  lemma MergePlaylistDir(s: AppSettings, dir: Option<string>)
    ensures Merge(s, Single(PlaylistDirKey, OptionalText(dir))) == s.(playlistDir := dir)
  {
    MergeFields(s, Single(PlaylistDirKey, OptionalText(dir)));
    FieldsDetermine(Merge(s, Single(PlaylistDirKey, OptionalText(dir))), s.(playlistDir := dir));
  }

  /** Patching only the save format replaces that one field. */
  lemma MergeSaveExtension(s: AppSettings, f: SaveFormat)
    ensures Merge(s, Single(SaveExtensionKey, FormatValue(f))) == s.(saveExtension := f)
  {
    MergeFields(s, Single(SaveExtensionKey, FormatValue(f)));
    FieldsDetermine(Merge(s, Single(SaveExtensionKey, FormatValue(f))), s.(saveExtension := f));
  }

  /** The settings store: one settings record, starting at the defaults. */
  class SettingsStore {
    var settings: AppSettings

    constructor()
      ensures settings == DefaultSettings
    {
      settings := DefaultSettings;
    }

    /** `updateSettings(patch)`. */
    method UpdateSettings(patch: Patch)
      requires WellTyped(patch)
      modifies this
      ensures settings == Merge(old(settings), patch)
      ensures forall k :: Get(settings, k) == if k in patch then patch[k] else Get(old(settings), k)
    {
      MergeFields(settings, patch);
      settings := Merge(settings, patch);
    }

    /** `resetSettings()`. */
    method ResetSettings()
      modifies this
      ensures settings == DefaultSettings
    {
      settings := DefaultSettings;
    }

    /** `resolvePlaylistDir(musicRoot)`: the configured directory when it is set and non-empty,
        otherwise `Playlists` under the music root written with forward slashes. */
    function ResolvePlaylistDir(musicRoot: string): (r: string)
      reads this
      ensures settings.playlistDir.Some? && settings.playlistDir.value != "" ==>
                r == settings.playlistDir.value
      ensures !(settings.playlistDir.Some? && settings.playlistDir.value != "") ==>
                '\\' !in r && r == Slashes(musicRoot) + "/Playlists"
    {
      PlaylistDirFor(settings, musicRoot)
    }
  }

  /** The playlist directory a settings record designates. */
  function PlaylistDirFor(s: AppSettings, musicRoot: string): string {
    match s.playlistDir
    case Some(d) => if d != "" then d else Slashes(musicRoot) + "/Playlists"
    case None => Slashes(musicRoot) + "/Playlists"
  }

  /** A music root already written with forward slashes is used as it is. */
  lemma PlaylistDirOfPlainRoot(s: AppSettings, musicRoot: string)
    requires '\\' !in musicRoot && (s.playlistDir.None? || s.playlistDir.value == "")
    ensures PlaylistDirFor(s, musicRoot) == musicRoot + "/Playlists"
  {
    SlashesIdentity(musicRoot);
  }

  /** With the default settings the playlist directory is `{musicRoot}/Playlists`. */
  lemma DefaultPlaylistDir(musicRoot: string)
    ensures PlaylistDirFor(DefaultSettings, musicRoot) == Slashes(musicRoot) + "/Playlists"
    ensures '\\' !in PlaylistDirFor(DefaultSettings, musicRoot)
  {
  }
}
