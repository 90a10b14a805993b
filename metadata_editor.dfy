/** The tag editor's form logic (`MetadataEditor.tsx`): one text box per tag field filled from
    one track or from the values several tracks share, the fields the user touched, the fields
    whose values differ across the selection, and the tag record or partial patch a save hands
    to the store. The store calls themselves are the boundary of this model. */
module MetadataEditor {
  import opened Wrappers
  import opened Strings
  import opened Entities

  /** The editable tag fields, in the order the form lists them. */
  datatype Field =
    | Title | Artist | AlbumArtist | Album | Genre | Year | TrackNumber | TotalTracks
    | DiscNumber | TotalDiscs | Composer | Comment | Lyrics | Bpm | Copyright | Publisher
    | Isrc | CoverArt

  /** The fields whose boxes take digits only and whose tags are numbers. */
  predicate IsNumeric(f: Field) {
    f == Year || f == TrackNumber || f == TotalTracks || f == DiscNumber || f == TotalDiscs || f == Bpm
  }

  /** A tag value: text for the string fields, a number for the numeric ones. */
  datatype TagValue = TextTag(text: string) | NumberTag(number: int)

  /** A tag set's value for one field. */
  function TagAt(tags: AudioTags, f: Field): (v: TagValue)
    ensures IsNumeric(f) <==> v.NumberTag?
  {
    match f
    case Title => TextTag(tags.title)
    case Artist => TextTag(tags.artist)
    case AlbumArtist => TextTag(tags.albumArtist)
    case Album => TextTag(tags.album)
    case Genre => TextTag(tags.genre)
    case Year => NumberTag(tags.year)
    case TrackNumber => NumberTag(tags.trackNumber)
    case TotalTracks => NumberTag(tags.totalTracks)
    case DiscNumber => NumberTag(tags.discNumber)
    case TotalDiscs => NumberTag(tags.totalDiscs)
    case Composer => TextTag(tags.composer)
    case Comment => TextTag(tags.comment)
    case Lyrics => TextTag(tags.lyrics)
    case Bpm => NumberTag(tags.bpm)
    case Copyright => TextTag(tags.copyright)
    case Publisher => TextTag(tags.publisher)
    case Isrc => TextTag(tags.isrc)
    case CoverArt => TextTag(tags.coverArt)
  }

  /** A track's own tags. */
  function TagsOfTrack(t: Track): AudioTags {
    AudioTags(t.title, t.artist, t.albumArtist, t.album, t.genre, t.year, t.trackNumber,
      t.totalTracks, t.discNumber, t.totalDiscs, t.composer, t.comment, t.lyrics, t.bpm,
      t.copyright, t.publisher, t.isrc, t.coverArt)
  }

  /** A track's value for one field. */
  function Raw(t: Track, f: Field): TagValue {
    TagAt(TagsOfTrack(t), f)
  }

  /** `n ? String(n) : ""`: zero shows as an empty box. */
  function RenderNumber(n: int): string {
    if n != 0 then IntToString(n) else ""
  }

  /** The box text `syncForm` puts up for a track's field. */
  function Rendered(t: Track, f: Field): string {
    match Raw(t, f)
    case TextTag(s) => s
    case NumberTag(n) => RenderNumber(n)
  }

  /** Every element of the list is `x`. */
  predicate AllAre<T(==)>(values: seq<T>, x: T)
    decreases |values|
  {
    |values| == 0 || (values[0] == x && AllAre(values[1..], x))
  }

  lemma {:induction false} AllAreMeans<T>(values: seq<T>, x: T)
    ensures AllAre(values, x) <==> forall i :: 0 <= i < |values| ==> values[i] == x
    decreases |values|
  {
    if |values| > 0 {
      AllAreMeans(values[1..], x);
      assert forall i :: 1 <= i < |values| ==> values[i] == values[1..][i - 1];
    }
  }

  /** `commonValue`: the value every element has, or `None` for an empty list or one whose
      values differ. */
  function CommonValue<T(==)>(values: seq<T>): Option<T> {
    if |values| == 0 then None
    else if AllAre(values, values[0]) then Some(values[0])
    else None
  }

  /** `x` is the common value exactly when the list is non-empty and every element is `x`. */
  lemma CommonValueMeans<T>(values: seq<T>, x: T)
    ensures CommonValue(values) == Some(x) <==>
              |values| > 0 && forall i :: 0 <= i < |values| ==> values[i] == x
  {
    if |values| > 0 {
      AllAreMeans(values, values[0]);
      AllAreMeans(values, x);
    }
  }

  /** What a field's box shows for several tracks, and whether their values differ. */
  datatype Cell = Cell(value: string, isMixed: bool)

  /** Each track's value for the field, in order. */
  function Values(tracks: seq<Track>, f: Field): seq<TagValue>
    decreases |tracks|
  {
    if |tracks| == 0 then [] else [Raw(tracks[0], f)] + Values(tracks[1..], f)
  }

  lemma {:induction false} ValuesAt(tracks: seq<Track>, f: Field)
    ensures |Values(tracks, f)| == |tracks|
    ensures forall i :: 0 <= i < |tracks| ==> Values(tracks, f)[i] == Raw(tracks[i], f)
    decreases |tracks|
  {
    if |tracks| > 0 {
      ValuesAt(tracks[1..], f);
    }
  }

  /** `commonStr` / `commonNum`: a differing (or absent) value shows an empty mixed box; an agreed
      text shows as it is, an agreed number as its decimal digits when positive and empty
      otherwise. */
  function Common(tracks: seq<Track>, f: Field): Cell {
    var common: Option<TagValue> := CommonValue(Values(tracks, f));
    match common
    case None => Cell("", true)
    case Some(TextTag(s)) => Cell(s, false)
    case Some(NumberTag(n)) => Cell(if n > 0 then IntToString(n) else "", false)
  }

  /** A field is mixed across a non-empty selection exactly when two tracks disagree on it. */
  lemma MixedMeansDisagreement(tracks: seq<Track>, f: Field)
    requires |tracks| > 0
    ensures Common(tracks, f).isMixed <==>
      exists i :: 0 <= i < |tracks| && Raw(tracks[i], f) != Raw(tracks[0], f)
    ensures Common(tracks, f).isMixed ==> Common(tracks, f).value == ""
  {
    var vs := Values(tracks, f);
    ValuesAt(tracks, f);
    CommonValueMeans(vs, vs[0]);
  }

  /** For tracks that agree, the box shows the text that a single-track form would show, except
      that agreed negative numbers show as empty. */
  lemma CommonOfAgreeing(tracks: seq<Track>, f: Field)
    requires |tracks| > 0
    requires forall i :: 0 <= i < |tracks| ==> Raw(tracks[i], f) == Raw(tracks[0], f)
    ensures !Common(tracks, f).isMixed
    ensures Raw(tracks[0], f).TextTag? ==> Common(tracks, f).value == Rendered(tracks[0], f)
    ensures Raw(tracks[0], f).NumberTag? && Raw(tracks[0], f).number >= 0 ==>
              Common(tracks, f).value == Rendered(tracks[0], f)
  {
    var vs := Values(tracks, f);
    ValuesAt(tracks, f);
    CommonValueMeans(vs, Raw(tracks[0], f));
  }

  /** `replace(/\D/g, "")`: the digits of the typed text, in order. */
  function KeepDigits(s: string): (r: string)
    ensures AllDigits(r) && |r| <= |s|
    ensures AllDigits(s) ==> r == s
    decreases |s|
  {
    if |s| == 0 then ""
    else
      var rest := KeepDigits(s[..|s| - 1]);
      if IsDigit(s[|s| - 1]) then
        assert AllDigits(s) ==> s == s[..|s| - 1] + [s[|s| - 1]];
        rest + [s[|s| - 1]]
      else rest
  }

  /** The longest run of digits at the start of `s`. */
  function DigitPrefix(s: string): (r: string)
    ensures AllDigits(r) && |r| <= |s| && r == s[..|r|]
    ensures |r| < |s| ==> !IsDigit(s[|r|])
    decreases |s|
  {
    if |s| > 0 && IsDigit(s[0]) then
      var rest := DigitPrefix(s[1..]);
      [s[0]] + rest
    else ""
  }

  /** The leading digits of `b` as a number, or `None` when `b` does not start with a digit. */
  function ParseUnsigned(b: string): (r: Option<int>)
    ensures r.Some? ==> r.value >= 0
  {
    var digits := DigitPrefix(b);
    if digits == "" then None else Some(DigitsValue(digits))
  }

  /** `parseInt(t, 10)` once leading whitespace is gone: an optional sign, then digits. */
  function ParseSigned(t: string): Option<int> {
    if |t| > 0 && t[0] == '-' then
      match ParseUnsigned(t[1..])
      case None => None
      case Some(v) => Some(-v)
    else if |t| > 0 && t[0] == '+' then ParseUnsigned(t[1..])
    else ParseUnsigned(t)
  }

  /** `parseInt(s, 10)`: leading whitespace skipped, an optional sign, then the leading digits;
      no digits is `NaN` (`None`). */
  function ParseInt(s: string): Option<int> {
    ParseSigned(TrimStart(s))
  }

  /** `num`: `s ? parseInt(s, 10) || 0 : 0`. */
  function Num(s: string): int {
    if s == "" then 0 else ParseInt(s).GetOr(0)
  }

  /** A run of digits parses as its value. */
  lemma ParseUnsignedDigits(b: string)
    requires b != "" && AllDigits(b)
    ensures ParseUnsigned(b) == Some(DigitsValue(b) as int)
  {
    AllDigitsPrefix(b);
  }

  /** A run of digits reads as its decimal value, and an empty box as 0. */
  lemma NumOfDigits(s: string)
    requires AllDigits(s)
    ensures Num(s) == DigitsValue(s)
  {
    if s != "" {
      assert TrimStart(s) == s;
      ParseUnsignedDigits(s);
    }
  }

  lemma {:induction false} AllDigitsPrefix(s: string)
    requires AllDigits(s)
    ensures DigitPrefix(s) == s
    decreases |s|
  {
    if |s| > 0 {
      assert AllDigits(s[1..]) by {
        assert forall i :: 0 <= i < |s| - 1 ==> s[1..][i] == s[i + 1];
      }
      AllDigitsPrefix(s[1..]);
      assert [s[0]] + s[1..] == s;
    }
  }

  /** A minus sign followed by digits parses as the negated value. */
  lemma ParseNegative(m: string)
    requires |m| > 1 && m[0] == '-' && AllDigits(m[1..])
    ensures ParseInt(m) == Some(-(DigitsValue(m[1..]) as int))
  {
    assert TrimStart(m) == m;
    ParseUnsignedDigits(m[1..]);
  }

  /** What a numeric box shows reads back as the number: saving an unedited form writes the
      numbers it was filled from. */
  lemma NumOfRendered(n: int)
    ensures Num(RenderNumber(n)) == n
  {
    if n > 0 {
      NumOfDigits(IntToString(n));
    } else if n < 0 {
      ParseNegative(IntToString(n));
    }
  }

  /** The digits kept from any typed text read back as their decimal value. */
  lemma NumOfTyped(text: string)
    ensures Num(KeepDigits(text)) == DigitsValue(KeepDigits(text))
  {
    NumOfDigits(KeepDigits(text));
  }

  /** The eighteen text boxes of the form, one state variable each. */
  datatype Form = Form(
    title: string, artist: string, albumArtist: string, album: string, genre: string,
    year: string, trackNumber: string, totalTracks: string, discNumber: string,
    totalDiscs: string, composer: string, comment: string, lyrics: string, bpm: string,
    copyright: string, publisher: string, isrc: string, coverArt: string)
  {
    /** The text in one field's box. */
    function Get(f: Field): string {
      match f
      case Title => title
      case Artist => artist
      case AlbumArtist => albumArtist
      case Album => album
      case Genre => genre
      case Year => year
      case TrackNumber => trackNumber
      case TotalTracks => totalTracks
      case DiscNumber => discNumber
      case TotalDiscs => totalDiscs
      case Composer => composer
      case Comment => comment
      case Lyrics => lyrics
      case Bpm => bpm
      case Copyright => copyright
      case Publisher => publisher
      case Isrc => isrc
      case CoverArt => coverArt
    }

    /** The form with one box's setter called. */
    function With(f: Field, v: string): (r: Form)
      ensures r.Get(f) == v
      ensures forall g :: g != f ==> r.Get(g) == Get(g)
    {
      match f
      case Title => this.(title := v)
      case Artist => this.(artist := v)
      case AlbumArtist => this.(albumArtist := v)
      case Album => this.(album := v)
      case Genre => this.(genre := v)
      case Year => this.(year := v)
      case TrackNumber => this.(trackNumber := v)
      case TotalTracks => this.(totalTracks := v)
      case DiscNumber => this.(discNumber := v)
      case TotalDiscs => this.(totalDiscs := v)
      case Composer => this.(composer := v)
      case Comment => this.(comment := v)
      case Lyrics => this.(lyrics := v)
      case Bpm => this.(bpm := v)
      case Copyright => this.(copyright := v)
      case Publisher => this.(publisher := v)
      case Isrc => this.(isrc := v)
      case CoverArt => this.(coverArt := v)
    }
  }

  /** The initial form: every box empty. */
  const Blank: Form := Form("", "", "", "", "", "", "", "", "", "", "", "", "", "", "", "", "", "")

  /** Two forms with the same text in every box are the same form. */
  lemma FormsEqual(a: Form, b: Form)
    requires forall f :: a.Get(f) == b.Get(f)
    ensures a == b
  {
    assert a.Get(Title) == b.Get(Title) && a.Get(Artist) == b.Get(Artist);
    assert a.Get(AlbumArtist) == b.Get(AlbumArtist) && a.Get(Album) == b.Get(Album);
    assert a.Get(Genre) == b.Get(Genre) && a.Get(Year) == b.Get(Year);
    assert a.Get(TrackNumber) == b.Get(TrackNumber) && a.Get(TotalTracks) == b.Get(TotalTracks);
    assert a.Get(DiscNumber) == b.Get(DiscNumber) && a.Get(TotalDiscs) == b.Get(TotalDiscs);
    assert a.Get(Composer) == b.Get(Composer) && a.Get(Comment) == b.Get(Comment);
    assert a.Get(Lyrics) == b.Get(Lyrics) && a.Get(Bpm) == b.Get(Bpm);
    assert a.Get(Copyright) == b.Get(Copyright) && a.Get(Publisher) == b.Get(Publisher);
    assert a.Get(Isrc) == b.Get(Isrc) && a.Get(CoverArt) == b.Get(CoverArt);
  }

  /** The form's value for a field as a tag value: numbers through `num`. */
  function FormValue(form: Form, f: Field): TagValue {
    if IsNumeric(f) then NumberTag(Num(form.Get(f))) else TextTag(form.Get(f))
  }

  /** The full tag record a single-track save writes. */
  function TagsOf(form: Form): AudioTags {
    AudioTags(form.title, form.artist, form.albumArtist, form.album, form.genre,
      Num(form.year), Num(form.trackNumber), Num(form.totalTracks), Num(form.discNumber),
      Num(form.totalDiscs), form.composer, form.comment, form.lyrics, Num(form.bpm),
      form.copyright, form.publisher, form.isrc, form.coverArt)
  }

  /** The tag record agrees field by field with the form's values. */
  lemma TagsOfFields(form: Form, f: Field)
    ensures TagAt(TagsOf(form), f) == FormValue(form, f)
  {
    match f
    case Title =>
    case Artist =>
    case AlbumArtist =>
    case Album =>
    case Genre =>
    case Year =>
    case TrackNumber =>
    case TotalTracks =>
    case DiscNumber =>
    case TotalDiscs =>
    case Composer =>
    case Comment =>
    case Lyrics =>
    case Bpm =>
    case Copyright =>
    case Publisher =>
    case Isrc =>
    case CoverArt =>
  }

  /** The form `syncForm` fills from a track. */
  function FormOf(t: Track): Form {
    Form(t.title, t.artist, t.albumArtist, t.album, t.genre, RenderNumber(t.year),
      RenderNumber(t.trackNumber), RenderNumber(t.totalTracks), RenderNumber(t.discNumber),
      RenderNumber(t.totalDiscs), t.composer, t.comment, t.lyrics, RenderNumber(t.bpm),
      t.copyright, t.publisher, t.isrc, t.coverArt)
  }

  /** Each box of a synced form shows the track's value, zero numbers as empty boxes. */
  lemma FormOfFields(t: Track, f: Field)
    ensures FormOf(t).Get(f) == Rendered(t, f)
  {
    match f
    case Title =>
    case Artist =>
    case AlbumArtist =>
    case Album =>
    case Genre =>
    case Year =>
    case TrackNumber =>
    case TotalTracks =>
    case DiscNumber =>
    case TotalDiscs =>
    case Composer =>
    case Comment =>
    case Lyrics =>
    case Bpm =>
    case Copyright =>
    case Publisher =>
    case Isrc =>
    case CoverArt =>
  }

  /** Saving a form just filled from a track writes back exactly the track's tags. */
  lemma SaveUneditedForm(t: Track)
    ensures TagsOf(FormOf(t)) == TagsOfTrack(t)
  {
    NumOfRendered(t.year);
    NumOfRendered(t.trackNumber);
    NumOfRendered(t.totalTracks);
    NumOfRendered(t.discNumber);
    NumOfRendered(t.totalDiscs);
    NumOfRendered(t.bpm);
  }

  /** `hasChangesSingle` compares all eighteen boxes with the track; the form differs from the
      synced one exactly when some box does. */
  lemma ChangedMeansSomeBox(form: Form, t: Track)
    ensures form != FormOf(t) <==> exists f :: form.Get(f) != Rendered(t, f)
  {
    if forall f :: form.Get(f) == Rendered(t, f) {
      forall f ensures form.Get(f) == FormOf(t).Get(f) {
        FormOfFields(t, f);
      }
      FormsEqual(form, FormOf(t));
    } else {
      var f :| form.Get(f) != Rendered(t, f);
      FormOfFields(t, f);
    }
  }

  /** The form `syncMultiForm` fills from several tracks. */
  function CommonForm(tracks: seq<Track>): Form {
    Form(Common(tracks, Title).value, Common(tracks, Artist).value,
      Common(tracks, AlbumArtist).value, Common(tracks, Album).value,
      Common(tracks, Genre).value, Common(tracks, Year).value,
      Common(tracks, TrackNumber).value, Common(tracks, TotalTracks).value,
      Common(tracks, DiscNumber).value, Common(tracks, TotalDiscs).value,
      Common(tracks, Composer).value, Common(tracks, Comment).value,
      Common(tracks, Lyrics).value, Common(tracks, Bpm).value,
      Common(tracks, Copyright).value, Common(tracks, Publisher).value,
      Common(tracks, Isrc).value, Common(tracks, CoverArt).value)
  }

  /** Each box of a multi-track form shows that field's common value, empty when mixed. */
  lemma CommonFormFields(tracks: seq<Track>, f: Field)
    ensures CommonForm(tracks).Get(f) == Common(tracks, f).value
  {
    match f
    case Title =>
    case Artist =>
    case AlbumArtist =>
    case Album =>
    case Genre =>
    case Year =>
    case TrackNumber =>
    case TotalTracks =>
    case DiscNumber =>
    case TotalDiscs =>
    case Composer =>
    case Comment =>
    case Lyrics =>
    case Bpm =>
    case Copyright =>
    case Publisher =>
    case Isrc =>
    case CoverArt =>
  }

  /** The fields whose values differ across the tracks. */
  function MixedFields(tracks: seq<Track>): set<Field> {
    set f: Field | Common(tracks, f).isMixed
  }

  /** With one track selected nothing is mixed, and the common form is the single-track form
      except for negative numbers, which it leaves blank. */
  lemma SingleTrackCommon(t: Track, f: Field)
    ensures !Common([t], f).isMixed
    ensures !IsNumeric(f) || Raw(t, f).number >= 0 ==> CommonForm([t]).Get(f) == FormOf(t).Get(f)
  {
    CommonOfAgreeing([t], f);
    CommonFormFields([t], f);
    FormOfFields(t, f);
  }

  /** `ph(field)`: the "multiple values" placeholder shows on a mixed field nobody has touched
      yet, and only with several tracks selected. */
  predicate ShowsMultipleValues(multi: bool, mixed: set<Field>, touched: set<Field>, f: Field) {
    multi && f in mixed && f !in touched
  }

  /** `hasChanges`: with several tracks selected, whether anything was touched; with one,
      whether some box differs from what the track would show. */
  function HasChanges(multi: bool, form: Form, touched: set<Field>, selected: Option<Track>): (r: bool)
    ensures multi ==> (r <==> touched != {})
    ensures !multi ==> (r <==> selected.Some? && exists f :: form.Get(f) != Rendered(selected.value, f))
  {
    if multi then |touched| > 0
    else if selected.Some? then
      ChangedMeansSomeBox(form, selected.value);
      form != FormOf(selected.value)
    else false
  }

  /** The partial tag patch of a multi-track save: exactly the touched fields, each with the
      form's value. */
  function Partial(form: Form, touched: set<Field>): (partial: map<Field, TagValue>)
    ensures partial.Keys == touched
    ensures forall f :: f in partial ==> partial[f] == FormValue(form, f)
  {
    map f | f in touched :: FormValue(form, f)
  }

  /** The fixed lines the editor shows after a save. */
  datatype Message = Saved | MultiSaved(count: nat) | SaveError

  /** The editor's state: the form, the touched and mixed fields, and the message line. */
  class Editor {
    var form: Form
    var touched: set<Field>
    var mixed: set<Field>
    var message: Option<Message>

    constructor()
      ensures form == Blank && touched == {} && mixed == {} && message.None?
    {
      form := Blank;
      touched := {};
      mixed := {};
      message := None;
    }

    /** `touch(f)`: the field joins the touched set; touching it again changes nothing. */
    method Touch(f: Field)
      modifies this
      ensures touched == old(touched) + {f}
      ensures old(f in touched) ==> touched == old(touched)
      ensures form == old(form) && mixed == old(mixed) && message == old(message)
    {
      if f in touched { return; }
      touched := touched + {f};
    }

    /** Typing into a box: numeric boxes keep only the digits; the field is touched. */
    method Edit(f: Field, text: string)
      modifies this
      ensures form == old(form).With(f, if IsNumeric(f) then KeepDigits(text) else text)
      ensures touched == old(touched) + {f}
      ensures mixed == old(mixed) && message == old(message)
    {
      form := form.With(f, if IsNumeric(f) then KeepDigits(text) else text);
      Touch(f);
    }

    /** `handleCoverSelect` once the file reader delivers the image as a data URL. */
    method SelectCover(dataUrl: string)
      modifies this
      ensures form == old(form).(coverArt := dataUrl) && touched == old(touched) + {CoverArt}
      ensures mixed == old(mixed) && message == old(message)
    {
      form := form.(coverArt := dataUrl);
      Touch(CoverArt);
    }

    /** `handleCoverRemove`. */
    method RemoveCover()
      modifies this
      ensures form == old(form).(coverArt := "") && touched == old(touched) + {CoverArt}
      ensures mixed == old(mixed) && message == old(message)
    {
      form := form.(coverArt := "");
      Touch(CoverArt);
    }

    /** `syncForm(track)`: every box shows the track's value and nothing is touched or
        mixed. */
    method SyncForm(t: Track)
      modifies this
      ensures form == FormOf(t) && touched == {} && mixed == {} && message.None?
    {
      form := FormOf(t);
      message := None;
      touched := {};
      mixed := {};
    }

    /** `syncMultiForm(tracks)`: each box gets the tracks' common value, the fields whose values
        differ are the mixed ones, and nothing is touched. */
    method SyncMultiForm(tracks: seq<Track>)
      modifies this
      ensures form == CommonForm(tracks) && mixed == MixedFields(tracks)
      ensures touched == {} && message.None?
    {
      form := CommonForm(tracks);
      message := None;
      touched := {};
      mixed := MixedFields(tracks);
    }

    /** `handleSave` with several tracks selected: the touched fields and the paths go to the
        store; on success the touched set is cleared, on failure only the error line shows. */
    method SaveMulti(selectedTracks: seq<Track>, succeeded: bool)
      returns (paths: seq<string>, partial: map<Field, TagValue>)
      modifies this
      ensures |paths| == |selectedTracks| &&
              forall i :: 0 <= i < |paths| ==> paths[i] == selectedTracks[i].absolutePath
      ensures partial.Keys == old(touched)
      ensures forall f :: f in partial ==> partial[f] == FormValue(old(form), f)
      ensures form == old(form) && mixed == old(mixed)
      ensures succeeded ==> touched == {} && message == Some(MultiSaved(|selectedTracks|))
      ensures !succeeded ==> touched == old(touched) && message == Some(SaveError)
    {
      message := None;
      partial := Partial(form, touched);
      paths := seq(|selectedTracks|, i requires 0 <= i < |selectedTracks| => selectedTracks[i].absolutePath);
      if succeeded {
        message := Some(MultiSaved(|selectedTracks|));
        touched := {};
      } else {
        message := Some(SaveError);
      }
    }

    /** `handleSave` with one track: without a track nothing is sent; otherwise the full tag
        record built from the form goes to the store for that track's path. The store's
        `updateTrackMetadata` catches a failed write itself and only records it in the store's
        error message, so the editor shows its success message whatever the write's outcome. */
    method SaveSingle(selected: Option<Track>)
      returns (request: Option<(string, AudioTags)>)
      modifies this
      ensures selected.None? ==> request.None? && message.None?
      ensures selected.Some? ==> request == Some((selected.value.absolutePath, TagsOf(old(form))))
      ensures selected.Some? ==> message == Some(Saved)
      ensures form == old(form) && touched == old(touched) && mixed == old(mixed)
    {
      message := None;
      if selected.None? {
        return None;
      }
      request := Some((selected.value.absolutePath, TagsOf(form)));
      message := Some(Saved);
    }

    /** The selection-change effect: one track fills the form from it, several fill it with
        their common values, none clears the touched and mixed sets. */
    method SelectionChanged(selected: Option<Track>, selectedTracks: seq<Track>)
      modifies this
      ensures |selectedTracks| == 1 && selected.Some? ==>
                form == FormOf(selected.value) && touched == {} && mixed == {}
      ensures |selectedTracks| > 1 ==>
                form == CommonForm(selectedTracks) && touched == {} && mixed == MixedFields(selectedTracks)
      ensures |selectedTracks| == 0 || (|selectedTracks| == 1 && selected.None?) ==>
                form == old(form) && touched == {} && mixed == {} && message == old(message)
    {
      if |selectedTracks| == 1 && selected.Some? {
        SyncForm(selected.value);
      } else if |selectedTracks| > 1 {
        SyncMultiForm(selectedTracks);
      } else {
        touched := {};
        mixed := {};
      }
    }

    /** `handleReset`: the form is filled again from the selection. */
    method HandleReset(selected: Option<Track>, selectedTracks: seq<Track>)
      modifies this
      ensures |selectedTracks| > 1 ==>
                form == CommonForm(selectedTracks) && touched == {} && mixed == MixedFields(selectedTracks)
      ensures |selectedTracks| <= 1 && selected.Some? ==>
                form == FormOf(selected.value) && touched == {} && mixed == {}
      ensures |selectedTracks| <= 1 && selected.None? ==>
                form == old(form) && touched == old(touched) && mixed == old(mixed) &&
                message == old(message)
    {
      if |selectedTracks| > 1 {
        SyncMultiForm(selectedTracks);
      } else if selected.Some? {
        SyncForm(selected.value);
      }
    }
  }

  /** Typing into a box changes only that field of the saved record: a numeric field saves the
      value of the digits typed, a text field the text itself. */
  lemma SaveAfterEdit(form: Form, f: Field, text: string)
    ensures var edited := form.With(f, if IsNumeric(f) then KeepDigits(text) else text);
      && TagAt(TagsOf(edited), f) ==
           (if IsNumeric(f) then NumberTag(DigitsValue(KeepDigits(text))) else TextTag(text))
      && forall g :: g != f ==> TagAt(TagsOf(edited), g) == TagAt(TagsOf(form), g)
  {
    var edited := form.With(f, if IsNumeric(f) then KeepDigits(text) else text);
    TagsOfFields(edited, f);
    NumOfTyped(text);
    forall g | g != f ensures TagAt(TagsOf(edited), g) == TagAt(TagsOf(form), g) {
      TagsOfFields(edited, g);
      TagsOfFields(form, g);
    }
  }
}
