/** The records the program passes around: tracks, tag sets, playlists and settings. */
module Entities {
  import opened Wrappers

  /** A scanned or loaded audio file, with the fields both the frontend and the backend use. */
  datatype Track = Track(
    title: string,
    artist: string,
    albumArtist: string,
    album: string,
    genre: string,
    year: int,
    trackNumber: int,
    totalTracks: int,
    discNumber: int,
    totalDiscs: int,
    composer: string,
    comment: string,
    lyrics: string,
    bpm: int,
    copyright: string,
    publisher: string,
    isrc: string,
    coverArt: string,       // a `data:` URI, or "" for no cover
    duration: int,          // seconds
    relativePath: string,   // path as written in the playlist or relative to the library root
    absolutePath: string)   // the track's identity

  /** A track record carrying only the given title, artist, duration and paths; every other
      string is empty and every other number is zero. */
  function BareTrack(title: string, artist: string, duration: int, relativePath: string,
                     absolutePath: string): (t: Track)
    ensures t.title == title && t.artist == artist && t.duration == duration
    ensures t.relativePath == relativePath && t.absolutePath == absolutePath
    ensures t.albumArtist == "" && t.album == "" && t.genre == "" && t.composer == ""
    ensures t.comment == "" && t.lyrics == "" && t.copyright == "" && t.publisher == ""
    ensures t.isrc == "" && t.coverArt == ""
    ensures t.year == 0 && t.trackNumber == 0 && t.totalTracks == 0 && t.discNumber == 0
    ensures t.totalDiscs == 0 && t.bpm == 0
  {
    Track(title, artist, "", "", "", 0, 0, 0, 0, 0, "", "", "", 0, "", "", "", "", duration,
          relativePath, absolutePath)
  }

  /** A full tag set, as read from or written to an audio file. */
  datatype AudioTags = AudioTags(
    title: string,
    artist: string,
    albumArtist: string,
    album: string,
    genre: string,
    year: int,
    trackNumber: int,
    totalTracks: int,
    discNumber: int,
    totalDiscs: int,
    composer: string,
    comment: string,
    lyrics: string,
    bpm: int,
    copyright: string,
    publisher: string,
    isrc: string,
    coverArt: string)

  /** A playlist file held in memory. */
  datatype Playlist = Playlist(name: string, path: string, tracks: seq<Track>, isDirty: bool)

  datatype PathMode = Relative | Absolute | RelativeFromRoot | RelativeFromPrefix
  datatype SaveFormat = M3u8 | M3u | Txt | Csv {
    function Text(): (s: string)
      ensures s != "" && '.' !in s && '/' !in s && '\\' !in s
    {
      match this
      case M3u8 => "m3u8"
      case M3u => "m3u"
      case Txt => "txt"
      case Csv => "csv"
    }
  }
  datatype ColorTheme = Dark | Light | System
  datatype Language = Ja | En | Ko | Zh

  /** The user's settings. */
  datatype AppSettings = AppSettings(
    pathMode: PathMode,
    pathPrefix: Option<string>,
    playlistDir: Option<string>,   // None: `{musicRoot}/Playlists`
    saveExtension: SaveFormat,
    autoSave: bool,
    colorTheme: ColorTheme,
    language: Language,
    scanExtensions: seq<string>,
    excludePatterns: seq<string>)

  const DefaultExtensions: seq<string> := ["flac", "mp3", "aac", "wav", "m4a", "ogg", "opus"]

  /** `DEFAULT_SETTINGS`. */
  const DefaultSettings: AppSettings := AppSettings(
    Relative, None, None, M3u8, false, System, Ja, DefaultExtensions, [])
}
