/** Reading and writing audio tags (`fs.rs`): the metadata record a read produces, with its
    fallback when the file cannot be read, the `data:` URI a cover picture is carried in, and
    the set-or-remove rules a write applies to the file's primary tag. The tag library and the
    base64 engine are kept abstract: a read is described by what the library reports, and the
    engine by an encoder and a decoder. */
module AudioFiles {
  import opened Wrappers
  import opened Strings
  import opened Paths
  import opened Entities

  newtype byte = x: int | 0 <= x < 256

  /** The base64 engine: an encoder and a decoder that may reject its input. */
  datatype Codec = Codec(encode: seq<byte> -> string, decode: string -> Option<seq<byte>>)

  /** Decoding what was encoded gives the bytes back, as section 4 of RFC 4648 requires of a
      base64 engine. */
  ghost predicate Invertible(c: Codec) {
    forall b :: c.decode(c.encode(b)) == Some(b)
  }

  /** The picture formats the commands distinguish; the library knows more, kept as
      `Unknown`. */
  datatype MimeType = Jpeg | Png | Bmp | Gif | Tiff | Unknown(name: string)

  datatype PictureType = CoverFront | OtherPicture(code: nat)

  datatype Picture = Picture(pictureType: PictureType, mime: Option<MimeType>, data: seq<byte>)

  /** The media type written for a picture; anything unrecognised is written as JPEG. */
  function MimeText(m: Option<MimeType>): (s: string)
    ensures ';' !in s
  {
    match m
    case Some(Jpeg) => "image/jpeg"
    case Some(Png) => "image/png"
    case Some(Bmp) => "image/bmp"
    case Some(Gif) => "image/gif"
    case Some(Tiff) => "image/tiff"
    case _ => "image/jpeg"
  }

  /** `extract_cover_from_tag`: the first picture as `data:<mime>;base64,<data>`, or "" when the
      tag has no picture. */
  function ExtractCover(pictures: seq<Picture>, codec: Codec): string {
    if |pictures| == 0 then ""
    else "data:" + MimeText(pictures[0].mime) + ";base64," + codec.encode(pictures[0].data)
  }

  datatype DataUriParts = DataUriParts(mime: MimeType, bytes: seq<byte>)

  /** The media type read from a `data:` header; anything unrecognised is taken as JPEG. */
  function MimeOfHeader(header: string): MimeType {
    if header == "image/jpeg" then Jpeg
    else if header == "image/png" then Png
    else if header == "image/bmp" then Bmp
    else if header == "image/gif" then Gif
    else if header == "image/tiff" then Tiff
    else Jpeg
  }

  const DataPrefix: string := "data:"
  const Base64Marker: string := ";base64,"

  /** `parse_data_uri`: the media type and the decoded bytes of a `data:<mime>;base64,<data>`
      URI, the `;base64` form of section 3 of RFC 2397. */
  function ParseDataUri(uri: string, codec: Codec): Option<DataUriParts> {
    if !StartsWith(uri, DataPrefix) then None
    else
      match SplitOnce(uri[|DataPrefix|..], Base64Marker)
      case None => None
      case Some((header, data)) =>
        match codec.decode(data)
        case None => None
        case Some(bytes) => Some(DataUriParts(MimeOfHeader(header), bytes))
  }

  /** A URI is rejected exactly when it lacks the `data:` prefix, lacks the `;base64,` marker,
      or its data does not decode; otherwise the bytes are the decoded data after the first
      marker. */
  lemma ParseDataUriCases(uri: string, codec: Codec)
    ensures !StartsWith(uri, DataPrefix) ==> ParseDataUri(uri, codec).None?
    ensures StartsWith(uri, DataPrefix) && !Contains(uri[|DataPrefix|..], Base64Marker) ==>
              ParseDataUri(uri, codec).None?
    ensures ParseDataUri(uri, codec).Some? ==>
              StartsWith(uri, DataPrefix) &&
              var (header, data) := SplitOnce(uri[|DataPrefix|..], Base64Marker).value;
              && header + Base64Marker + data == uri[|DataPrefix|..]
              && codec.decode(data) == Some(ParseDataUri(uri, codec).value.bytes)
              && ParseDataUri(uri, codec).value.mime == MimeOfHeader(header)
  {
    if StartsWith(uri, DataPrefix) {
      SplitOnceFirst(uri[|DataPrefix|..], Base64Marker);
    }
  }

  /** What a picture's media type turns into after a write and a read: the five formats stay,
      anything else becomes JPEG. */
  function StoredMime(m: Option<MimeType>): MimeType {
    match m
    case Some(Jpeg) => Jpeg
    case Some(Png) => Png
    case Some(Bmp) => Bmp
    case Some(Gif) => Gif
    case Some(Tiff) => Tiff
    case _ => Jpeg
  }

  /** The cover URI a read produces parses back to the first picture's bytes and its
      (normalised) media type. */
  lemma CoverRoundTrip(pictures: seq<Picture>, codec: Codec)
    requires Invertible(codec)
    requires |pictures| > 0
    ensures ParseDataUri(ExtractCover(pictures, codec), codec) ==
              Some(DataUriParts(StoredMime(pictures[0].mime), pictures[0].data))
  {
    var mime := MimeText(pictures[0].mime);
    var encoded := codec.encode(pictures[0].data);
    var uri := ExtractCover(pictures, codec);
    assert uri == DataPrefix + (mime + Base64Marker + encoded);
    assert uri[|DataPrefix|..] == mime + Base64Marker + encoded;
    var s := mime + Base64Marker + encoded;
    NoMarkerBefore(mime, encoded);
    SplitOnceAt(mime, Base64Marker, encoded);
  }

  /** A text without `;` cannot hold the marker, which starts with one. */
  lemma NoMarkerBefore(a: string, b: string)
    requires ';' !in a
    ensures forall j :: 0 <= j < |a| ==> !OccursAt(a + Base64Marker + b, Base64Marker, j)
  {
    var s := a + Base64Marker + b;
    forall j | 0 <= j < |a| ensures !OccursAt(s, Base64Marker, j) {
      assert s[j] == a[j] && a[j] in a;
      if j + |Base64Marker| <= |s| {
        assert s[j..j + |Base64Marker|][0] == s[j];
      }
    }
  }

  /** What the tag library reports for the file's primary (or first) tag: each accessor's
      value, absent when the item is missing, and the pictures in order. */
  datatype TagReading = TagReading(
    title: Option<string>, artist: Option<string>, albumArtist: Option<string>,
    album: Option<string>, genre: Option<string>, year: Option<nat>, track: Option<nat>,
    trackTotal: Option<nat>, disk: Option<nat>, diskTotal: Option<nat>,
    composer: Option<string>, comment: Option<string>, lyrics: Option<string>,
    bpm: Option<string>, copyright: Option<string>, recordLabel: Option<string>,
    isrc: Option<string>, pictures: seq<Picture>)

  /** The outcome of probing a file: unreadable, or its duration in whole seconds and its
      tag, if it has one. */
  datatype ReadOutcome = Unreadable | Readable(duration: nat, tag: Option<TagReading>)

  /** `AudioMetadata`: the tags and the duration. */
  datatype AudioMetadata = AudioMetadata(tags: AudioTags, duration: int)

  /** The title used when the tag has none: the file stem, or `Unknown` without one. */
  function DefaultTitle(path: string): string {
    FileStem(path).GetOr("Unknown")
  }

  /** The record of a file without readable tags: the default title, empty texts, zeros. */
  function Fallback(path: string, duration: int): AudioMetadata {
    AudioMetadata(AudioTags(DefaultTitle(path), "", "", "", "", 0, 0, 0, 0, 0, "", "", "", 0,
      "", "", "", ""), duration)
  }

  /** `read_audio_metadata`: an unreadable file gives the fallback record with duration 0, a
      file without a tag the fallback record with its duration, and a tagged file each
      accessor's value with "" or 0 for a missing one; the cover is read only on request. */
  function ReadAudioMetadata(path: string, outcome: ReadOutcome, includeCover: bool, codec: Codec)
    : (m: AudioMetadata)
    ensures m.duration >= 0
    ensures outcome.Unreadable? ==> m == Fallback(path, 0)
    ensures outcome.Readable? && outcome.tag.None? ==> m == Fallback(path, outcome.duration)
    ensures !includeCover ==> m.tags.coverArt == ""
    ensures outcome.Readable? && outcome.tag.Some? && outcome.tag.value.title.None? ==>
              m.tags.title == DefaultTitle(path)
  {
    match outcome
    case Unreadable => Fallback(path, 0)
    case Readable(duration, None) => Fallback(path, duration)
    case Readable(duration, Some(tag)) =>
      AudioMetadata(AudioTags(
        tag.title.GetOr(DefaultTitle(path)),
        tag.artist.GetOr(""),
        tag.albumArtist.GetOr(""),
        tag.album.GetOr(""),
        tag.genre.GetOr(""),
        tag.year.GetOr(0),
        tag.track.GetOr(0),
        tag.trackTotal.GetOr(0),
        tag.disk.GetOr(0),
        tag.diskTotal.GetOr(0),
        tag.composer.GetOr(""),
        tag.comment.GetOr(""),
        tag.lyrics.GetOr(""),
        match tag.bpm
        case None => 0
        case Some(text) => ParseI64(text).GetOr(0),
        tag.copyright.GetOr(""),
        tag.recordLabel.GetOr(""),
        tag.isrc.GetOr(""),
        if includeCover then ExtractCover(tag.pictures, codec) else ""), duration)
  }

  /** The fallback record carries the file stem as its title, or `Unknown` when the path has no
      file name, and nothing else. */
  lemma FallbackFields(path: string, duration: int)
    ensures var m := Fallback(path, duration);
      && (FileStem(path).Some? ==> m.tags.title == FileStem(path).value)
      && (FileStem(path).None? ==> m.tags.title == "Unknown")
      && m.tags.artist == "" && m.tags.albumArtist == "" && m.tags.album == "" && m.tags.genre == ""
      && m.tags.composer == "" && m.tags.comment == "" && m.tags.lyrics == ""
      && m.tags.copyright == "" && m.tags.publisher == "" && m.tags.isrc == "" && m.tags.coverArt == ""
      && m.tags.year == 0 && m.tags.trackNumber == 0 && m.tags.totalTracks == 0
      && m.tags.discNumber == 0 && m.tags.totalDiscs == 0 && m.tags.bpm == 0
      && m.duration == duration
  {
  }

  /** `read_audio_tags`: a missing file is an error; otherwise the tags read with the cover. */
  function ReadAudioTags(path: string, exists_: bool, outcome: ReadOutcome, codec: Codec)
    : (r: Result<AudioTags, string>)
    ensures !exists_ <==> r.Err?
    ensures !exists_ ==> r.error == "File not found: " + path
    ensures exists_ ==> r.value == ReadAudioMetadata(path, outcome, true, codec).tags
  {
    if !exists_ then Err("File not found: " + path)
    else Ok(ReadAudioMetadata(path, outcome, true, codec).tags)
  }

  /** The tag items the write touches, and every other item a tag may hold. */
  datatype ItemKey =
    | TrackTitle | TrackArtist | AlbumTitle | Genre | Year | TrackNumber | TrackTotal
    | DiscNumber | DiscTotal | AlbumArtist | Composer | Comment | Lyrics | CopyrightMessage
    | Label | Isrc | Bpm | OtherKey(name: string)

  /** `as u32`: the low 32 bits of a positive number. */
  function U32(n: int): nat {
    (n % 0x1_0000_0000) as nat
  }

  /** An item set to `v` when `keep` holds and removed otherwise. */
  function SetOrRemove(m: map<ItemKey, string>, k: ItemKey, keep: bool, v: string): map<ItemKey, string> {
    if keep then m[k := v] else m - {k}
  }

  /** The four texts the write always sets. */
  function SetTexts(m: map<ItemKey, string>, tags: AudioTags): map<ItemKey, string> {
    m[TrackTitle := tags.title][TrackArtist := tags.artist][AlbumTitle := tags.album]
     [Genre := tags.genre]
  }

  /** The year and the track numbers, each set when positive and removed otherwise. */
  function SetTrackNumbers(m: map<ItemKey, string>, tags: AudioTags): map<ItemKey, string> {
    var m1 := SetOrRemove(m, Year, tags.year > 0, NatToString(U32(tags.year)));
    var m2 := SetOrRemove(m1, TrackNumber, tags.trackNumber > 0, NatToString(U32(tags.trackNumber)));
    SetOrRemove(m2, TrackTotal, tags.totalTracks > 0, NatToString(U32(tags.totalTracks)))
  }

  /** The disc numbers, each set when positive and removed otherwise. */
  function SetDiscNumbers(m: map<ItemKey, string>, tags: AudioTags): map<ItemKey, string> {
    var m1 := SetOrRemove(m, DiscNumber, tags.discNumber > 0, NatToString(U32(tags.discNumber)));
    SetOrRemove(m1, DiscTotal, tags.totalDiscs > 0, NatToString(U32(tags.totalDiscs)))
  }

  /** The optional credits, each set when non-empty and removed otherwise. */
  function SetCredits(m: map<ItemKey, string>, tags: AudioTags): map<ItemKey, string> {
    var m1 := SetOrRemove(m, AlbumArtist, tags.albumArtist != "", tags.albumArtist);
    var m2 := SetOrRemove(m1, Composer, tags.composer != "", tags.composer);
    var m3 := SetOrRemove(m2, Comment, tags.comment != "", tags.comment);
    SetOrRemove(m3, Lyrics, tags.lyrics != "", tags.lyrics)
  }

  /** The optional publishing texts, each set when non-empty and removed otherwise. */
  function SetPublishing(m: map<ItemKey, string>, tags: AudioTags): map<ItemKey, string> {
    var m1 := SetOrRemove(m, CopyrightMessage, tags.copyright != "", tags.copyright);
    var m2 := SetOrRemove(m1, Label, tags.publisher != "", tags.publisher);
    SetOrRemove(m2, Isrc, tags.isrc != "", tags.isrc)
  }

  /** The BPM, set as its decimal text when positive and removed otherwise. */
  function SetBpm(m: map<ItemKey, string>, tags: AudioTags): map<ItemKey, string> {
    SetOrRemove(m, Bpm, tags.bpm > 0, if tags.bpm > 0 then IntToString(tags.bpm) else "")
  }

  /** The items after the write's sequence of setters and removals. */
  function ItemsAfter(m: map<ItemKey, string>, tags: AudioTags): map<ItemKey, string> {
    SetBpm(SetPublishing(SetCredits(SetDiscNumbers(SetTrackNumbers(SetTexts(m, tags), tags), tags),
      tags), tags), tags)
  }

  /** What the write does to one item: `None` leaves it alone, `Some(None)` removes it and
      `Some(Some(v))` sets it to `v`. */
  function Rule(tags: AudioTags, k: ItemKey): Option<Option<string>> {
    match k
    case TrackTitle => Some(Some(tags.title))
    case TrackArtist => Some(Some(tags.artist))
    case AlbumTitle => Some(Some(tags.album))
    case Genre => Some(Some(tags.genre))
    case Year => Some(if tags.year > 0 then Some(NatToString(U32(tags.year))) else None)
    case TrackNumber => Some(if tags.trackNumber > 0 then Some(NatToString(U32(tags.trackNumber))) else None)
    case TrackTotal => Some(if tags.totalTracks > 0 then Some(NatToString(U32(tags.totalTracks))) else None)
    case DiscNumber => Some(if tags.discNumber > 0 then Some(NatToString(U32(tags.discNumber))) else None)
    case DiscTotal => Some(if tags.totalDiscs > 0 then Some(NatToString(U32(tags.totalDiscs))) else None)
    case AlbumArtist => Some(if tags.albumArtist != "" then Some(tags.albumArtist) else None)
    case Composer => Some(if tags.composer != "" then Some(tags.composer) else None)
    case Comment => Some(if tags.comment != "" then Some(tags.comment) else None)
    case Lyrics => Some(if tags.lyrics != "" then Some(tags.lyrics) else None)
    case CopyrightMessage => Some(if tags.copyright != "" then Some(tags.copyright) else None)
    case Label => Some(if tags.publisher != "" then Some(tags.publisher) else None)
    case Isrc => Some(if tags.isrc != "" then Some(tags.isrc) else None)
    case Bpm => Some(if tags.bpm > 0 then Some(IntToString(tags.bpm)) else None)
    case OtherKey(_) => None
  }

  /** Which group of setters names an item: 0 the texts, 1 the year and track numbers, 2 the
      disc numbers, 3 the credits, 4 the publishing texts, 5 the BPM, 6 none. */
  function Group(k: ItemKey): nat {
    match k
    case TrackTitle | TrackArtist | AlbumTitle | Genre => 0
    case Year | TrackNumber | TrackTotal => 1
    case DiscNumber | DiscTotal => 2
    case AlbumArtist | Composer | Comment | Lyrics => 3
    case CopyrightMessage | Label | Isrc => 4
    case Bpm => 5
    case OtherKey(_) => 6
  }

  /** The item `k` went from `before` to `after` as `rule` says. */
  predicate Obeys(before: map<ItemKey, string>, after: map<ItemKey, string>, k: ItemKey,
                  rule: Option<Option<string>>) {
    match rule
    case None => (k in after <==> k in before) && (k in before ==> after[k] == before[k])
    case Some(None) => k !in after
    case Some(Some(v)) => k in after && after[k] == v
  }

  /** The rule of an item within one group of setters. */
  function GroupRule(tags: AudioTags, k: ItemKey, g: nat): Option<Option<string>> {
    if Group(k) == g then Rule(tags, k) else None
  }

  lemma SetTextsRule(m: map<ItemKey, string>, tags: AudioTags, k: ItemKey)
    ensures Obeys(m, SetTexts(m, tags), k, GroupRule(tags, k, 0))
  {
  }

  lemma SetTrackNumbersRule(m: map<ItemKey, string>, tags: AudioTags, k: ItemKey)
    ensures Obeys(m, SetTrackNumbers(m, tags), k, GroupRule(tags, k, 1))
  {
  }

  lemma SetDiscNumbersRule(m: map<ItemKey, string>, tags: AudioTags, k: ItemKey)
    ensures Obeys(m, SetDiscNumbers(m, tags), k, GroupRule(tags, k, 2))
  {
  }

  lemma SetCreditsRule(m: map<ItemKey, string>, tags: AudioTags, k: ItemKey)
    ensures Obeys(m, SetCredits(m, tags), k, GroupRule(tags, k, 3))
  {
  }

  lemma SetPublishingRule(m: map<ItemKey, string>, tags: AudioTags, k: ItemKey)
    ensures Obeys(m, SetPublishing(m, tags), k, GroupRule(tags, k, 4))
  {
  }

  lemma SetBpmRule(m: map<ItemKey, string>, tags: AudioTags, k: ItemKey)
    ensures Obeys(m, SetBpm(m, tags), k, GroupRule(tags, k, 5))
  {
  }

  /** Every item ends up as its rule says: set, removed, or (for items the write does not name)
      exactly as before. */
  lemma ItemsAfterRule(m: map<ItemKey, string>, tags: AudioTags, k: ItemKey)
    ensures Obeys(m, ItemsAfter(m, tags), k, Rule(tags, k))
  {
    var m1 := SetTexts(m, tags);
    var m2 := SetTrackNumbers(m1, tags);
    var m3 := SetDiscNumbers(m2, tags);
    var m4 := SetCredits(m3, tags);
    var m5 := SetPublishing(m4, tags);
    SetTextsRule(m, tags, k);
    SetTrackNumbersRule(m1, tags, k);
    SetDiscNumbersRule(m2, tags, k);
    SetCreditsRule(m3, tags, k);
    SetPublishingRule(m4, tags, k);
    SetBpmRule(m5, tags, k);
  }

  /** A positive number is stored as the decimal text of its low 32 bits, so any year or
      track number below 2^32 is stored as written. */
  lemma SmallNumbersStored(n: int)
    requires 0 < n < 0x1_0000_0000
    ensures NatToString(U32(n)) == NatToString(n)
  {
    assert U32(n) == n;
  }

  /** A positive BPM in the 64-bit range that is written reads back as the same number. */
  lemma BpmWriteRead(m: map<ItemKey, string>, tags: AudioTags)
    requires 0 < tags.bpm && IsI64(tags.bpm)
    ensures Bpm in ItemsAfter(m, tags)
    ensures ParseI64(ItemsAfter(m, tags)[Bpm]) == Some(tags.bpm)
  {
    ItemsAfterRule(m, tags, Bpm);
    ParseI64OfIntToString(tags.bpm);
  }

  /** The pictures after the cover rule: a non-empty cover that parses replaces every front
      cover with one new front cover at the end; otherwise the pictures stay. */
  function PicturesAfter(ps: seq<Picture>, cover: string, codec: Codec): seq<Picture> {
    if cover == "" then ps
    else
      match ParseDataUri(cover, codec)
      case None => ps
      case Some(parts) =>
        WithoutType(ps, CoverFront) + [Picture(CoverFront, Some(parts.mime), parts.bytes)]
  }

  /** `remove_picture_type`: the pictures of other types, in order. */
  function WithoutType(ps: seq<Picture>, t: PictureType): (r: seq<Picture>)
    ensures forall p :: p in r <==> p in ps && p.pictureType != t
    ensures |r| <= |ps|
  {
    if |ps| == 0 then []
    else (if ps[0].pictureType == t then [] else [ps[0]]) + WithoutType(ps[1..], t)
  }

  /** After a write with a parseable cover the tag holds exactly one front cover, the new one,
      and keeps every other picture. */
  lemma CoverReplaced(ps: seq<Picture>, cover: string, codec: Codec)
    requires cover != "" && ParseDataUri(cover, codec).Some?
    ensures var r := PicturesAfter(ps, cover, codec);
      var parts := ParseDataUri(cover, codec).value;
      && r[|r| - 1] == Picture(CoverFront, Some(parts.mime), parts.bytes)
      && (forall i :: 0 <= i < |r| - 1 ==> r[i].pictureType != CoverFront)
      && (forall p :: p in ps && p.pictureType != CoverFront ==> p in r)
  {
    var rest := WithoutType(ps, CoverFront);
    var r := PicturesAfter(ps, cover, codec);
    assert r[..|r| - 1] == rest;
    forall i | 0 <= i < |r| - 1 ensures r[i].pictureType != CoverFront {
      assert r[i] == rest[i];
      assert rest[i] in rest;
    }
  }

  /** The file's primary tag, as the write mutates it. */
  class Tag {
    var items: map<ItemKey, string>
    var pictures: seq<Picture>

    constructor(items: map<ItemKey, string>, pictures: seq<Picture>)
      ensures this.items == items && this.pictures == pictures
    {
      this.items := items;
      this.pictures := pictures;
    }

    method Insert(k: ItemKey, v: string)
      modifies this
      ensures items == old(items)[k := v] && pictures == old(pictures)
    {
      items := items[k := v];
    }

    method RemoveKey(k: ItemKey)
      modifies this
      ensures items == old(items) - {k} && pictures == old(pictures)
    {
      items := items - {k};
    }

    /** The `set_or_remove!` step and the `if x > 0 { set } else { remove }` steps. */
    method SetOrRemoveKey(k: ItemKey, keep: bool, v: string)
      modifies this
      ensures items == SetOrRemove(old(items), k, keep, v) && pictures == old(pictures)
    {
      if keep {
        Insert(k, v);
      } else {
        RemoveKey(k);
      }
    }

    method RemovePictureType(t: PictureType)
      modifies this
      ensures pictures == WithoutType(old(pictures), t) && items == old(items)
    {
      pictures := WithoutType(pictures, t);
    }

    method PushPicture(p: Picture)
      modifies this
      ensures pictures == old(pictures) + [p] && items == old(items)
    {
      pictures := pictures + [p];
    }

    /** The body of `write_audio_tags` between reading the file and saving it. */
    method Apply(tags: AudioTags, codec: Codec)
      modifies this
      ensures items == ItemsAfter(old(items), tags)
      ensures pictures == PicturesAfter(old(pictures), tags.coverArt, codec)
    {
      Insert(TrackTitle, tags.title);
      Insert(TrackArtist, tags.artist);
      Insert(AlbumTitle, tags.album);
      Insert(Genre, tags.genre);
      ApplyTrackNumbers(tags);
      ApplyDiscNumbers(tags);
      ApplyCredits(tags);
      ApplyPublishing(tags);
      SetOrRemoveKey(Bpm, tags.bpm > 0, if tags.bpm > 0 then IntToString(tags.bpm) else "");
      if tags.coverArt != "" {
        var parsed := ParseDataUri(tags.coverArt, codec);
        if parsed.Some? {
          RemovePictureType(CoverFront);
          PushPicture(Picture(CoverFront, Some(parsed.value.mime), parsed.value.bytes));
        }
      }
    }

    /** The year and track number setters. */
    method ApplyTrackNumbers(tags: AudioTags)
      modifies this
      ensures items == SetTrackNumbers(old(items), tags) && pictures == old(pictures)
    {
      SetOrRemoveKey(Year, tags.year > 0, NatToString(U32(tags.year)));
      SetOrRemoveKey(TrackNumber, tags.trackNumber > 0, NatToString(U32(tags.trackNumber)));
      SetOrRemoveKey(TrackTotal, tags.totalTracks > 0, NatToString(U32(tags.totalTracks)));
    }

    /** The disc number setters. */
    method ApplyDiscNumbers(tags: AudioTags)
      modifies this
      ensures items == SetDiscNumbers(old(items), tags) && pictures == old(pictures)
    {
      SetOrRemoveKey(DiscNumber, tags.discNumber > 0, NatToString(U32(tags.discNumber)));
      SetOrRemoveKey(DiscTotal, tags.totalDiscs > 0, NatToString(U32(tags.totalDiscs)));
    }

    /** The `set_or_remove!` steps for the credits. */
    method ApplyCredits(tags: AudioTags)
      modifies this
      ensures items == SetCredits(old(items), tags) && pictures == old(pictures)
    {
      SetOrRemoveKey(AlbumArtist, tags.albumArtist != "", tags.albumArtist);
      SetOrRemoveKey(Composer, tags.composer != "", tags.composer);
      SetOrRemoveKey(Comment, tags.comment != "", tags.comment);
      SetOrRemoveKey(Lyrics, tags.lyrics != "", tags.lyrics);
    }

    /** The `set_or_remove!` steps for copyright, label and ISRC. */
    method ApplyPublishing(tags: AudioTags)
      modifies this
      ensures items == SetPublishing(old(items), tags) && pictures == old(pictures)
    {
      SetOrRemoveKey(CopyrightMessage, tags.copyright != "", tags.copyright);
      SetOrRemoveKey(Label, tags.publisher != "", tags.publisher);
      SetOrRemoveKey(Isrc, tags.isrc != "", tags.isrc);
    }
  }

  /** How far a write gets before touching the tag: the file is missing, cannot be read, or is
      open for writing. */
  datatype WriteProbe = Missing | Unparsable(reason: string) | Opened

  /** `write_audio_tags`: `tag` stands for the file's primary tag, or the empty tag the command
      creates when the file has none; `saved` is the outcome of saving it. A missing or
      unreadable file leaves the tag alone. */
  method WriteAudioTags(path: string, tags: AudioTags, codec: Codec, probe: WriteProbe, tag: Tag,
                        saved: Result<(), string>)
    returns (r: Result<(), string>)
    modifies tag
    ensures probe.Missing? ==> r == Err("File not found: " + path) && unchanged(tag)
    ensures probe.Unparsable? ==> r == Err("Failed to read file: " + probe.reason) && unchanged(tag)
    ensures probe.Opened? ==>
              && tag.items == ItemsAfter(old(tag.items), tags)
              && tag.pictures == PicturesAfter(old(tag.pictures), tags.coverArt, codec)
              && r == (if saved.Ok? then Ok(()) else Err("Failed to save tags: " + saved.error))
  {
    match probe
    case Missing => return Err("File not found: " + path);
    case Unparsable(reason) => return Err("Failed to read file: " + reason);
    case Opened =>
      tag.Apply(tags, codec);
      if saved.Err? {
        return Err("Failed to save tags: " + saved.error);
      }
      return Ok(());
  }
}
