/** The settings dialog (`SettingsModal.tsx`): a draft copy of the settings edited field by
    field, with duplicate-free add and remove on the extension and exclude lists, written back
    to the store on save. */
module SettingsModal {
  import opened Wrappers
  import opened Strings
  import opened Entities
  import opened Settings

  /** `trim().toLowerCase().replace(/^\./, "")`: an extension typed by the user, trimmed,
      lower-cased and stripped of one leading dot. */
  function NormalizeExtension(text: string): (r: string)
    ensures ToLower(r) == r
    ensures var t := ToLower(Trim(text)); r == t || "." + r == t
  {
    var t := ToLower(Trim(text));
    LowerIdempotent(Trim(text));
    if |t| > 0 && t[0] == '.' then
      LowerDropFirst(t);
      t[1..]
    else t
  }

  lemma LowerDropFirst(t: string)
    requires |t| > 0 && t[0] == '.' && ToLower(t) == t
    ensures ToLower(t[1..]) == t[1..] && "." + t[1..] == t
  {
    assert forall i :: 0 <= i < |t| - 1 ==> t[1..][i] == t[i + 1];
  }

  lemma LowerIdempotent(s: string)
    ensures ToLower(ToLower(s)) == ToLower(s)
  {
  }

  /** An extension already written the canonical way, with or without its leading dot,
      normalises to itself. */
  lemma NormalizeCanonical(ext: string)
    requires ext != "" && ext[0] != '.' && NoSurroundingSpace(ext) && ToLower(ext) == ext
    ensures NormalizeExtension(ext) == ext
    ensures NormalizeExtension("." + ext) == ext
  {
    TrimIdentity(ext);
    var dotted := "." + ext;
    assert NoSurroundingSpace(dotted);
    TrimIdentity(dotted);
    assert ToLower(dotted) == dotted by {
      assert forall i :: 0 < i < |dotted| ==> dotted[i] == ext[i - 1];
    }
    assert dotted[1..] == ext;
  }

  /** `[...xs, v]` when `v` is non-empty and not yet in `xs`, otherwise `xs`. */
  function AppendNew(xs: seq<string>, v: string): (r: seq<string>)
    ensures |xs| <= |r| <= |xs| + 1 && r[..|xs|] == xs
    ensures forall x :: x in r <==> x in xs || (x == v && v != "")
    ensures v != "" && v !in xs ==> |r| == |xs| + 1 && r[|xs|] == v
  {
    if v != "" && v !in xs then xs + [v] else xs
  }

  /** No value occurs twice. */
  predicate Distinct<T(==)>(xs: seq<T>) {
    forall i, j :: 0 <= i < j < |xs| ==> xs[i] != xs[j]
  }

  /** Adding through `AppendNew` never introduces a duplicate. */
  lemma AppendNewDistinct(xs: seq<string>, v: string)
    requires Distinct(xs)
    ensures Distinct(AppendNew(xs, v))
  {
    var r := AppendNew(xs, v);
    if r != xs {
      forall i, j | 0 <= i < j < |r| ensures r[i] != r[j] {
        if j == |xs| {
          assert r[i] == xs[i];
        } else {
          assert r[i] == xs[i] && r[j] == xs[j];
        }
      }
    }
  }

  /** `xs.filter((e) => e !== v)`. */
  function RemoveAll<T(==)>(xs: seq<T>, v: T): (r: seq<T>)
    ensures multiset(r) == multiset(xs)[v := 0]
    ensures v !in r && |r| <= |xs|
  {
    if |xs| == 0 then []
    else
      var rest := RemoveAll(xs[1..], v);
      assert xs == [xs[0]] + xs[1..];
      if xs[0] == v then rest else [xs[0]] + rest
  }

  /** Removing distributes over concatenation, so the remaining values keep their order. */
  lemma {:induction false} RemoveAllAppend<T>(xs: seq<T>, ys: seq<T>, v: T)
    ensures RemoveAll(xs + ys, v) == RemoveAll(xs, v) + RemoveAll(ys, v)
  {
    if |xs| == 0 {
      assert xs + ys == ys;
    } else {
      assert (xs + ys)[1..] == xs[1..] + ys;
      RemoveAllAppend(xs[1..], ys, v);
    }
  }

  /** Removing a value that is absent changes nothing. */
  lemma {:induction false} RemoveAllAbsent<T>(xs: seq<T>, v: T)
    requires v !in xs
    ensures RemoveAll(xs, v) == xs
  {
    if |xs| > 0 {
      assert v !in xs[1..];
      RemoveAllAbsent(xs[1..], v);
      assert [xs[0]] + xs[1..] == xs;
    }
  }

  /** The tail of a list without duplicates has none, and lacks the head. */
  lemma DistinctTail<T>(xs: seq<T>)
    requires |xs| > 0 && Distinct(xs)
    ensures Distinct(xs[1..]) && xs[0] !in xs[1..]
  {
    var tail := xs[1..];
    forall i, j | 0 <= i < j < |tail| ensures tail[i] != tail[j] {
      assert tail[i] == xs[i + 1] && tail[j] == xs[j + 1];
    }
    forall k | 0 <= k < |tail| ensures tail[k] != xs[0] {
      assert tail[k] == xs[k + 1];
    }
  }

  /** A new head in front of a list without duplicates keeps it free of them. */
  lemma DistinctCons<T>(x: T, rest: seq<T>)
    requires Distinct(rest) && x !in rest
    ensures Distinct([x] + rest)
  {
    var r := [x] + rest;
    forall i, j | 0 <= i < j < |r| ensures r[i] != r[j] {
      assert r[j] == rest[j - 1];
      if i > 0 {
        assert r[i] == rest[i - 1];
      }
    }
  }

  /** Removing keeps a list free of duplicates. */
  lemma {:induction false} RemoveAllDistinct<T>(xs: seq<T>, v: T)
    requires Distinct(xs)
    ensures Distinct(RemoveAll(xs, v))
  {
    if |xs| > 0 {
      var tail := xs[1..];
      DistinctTail(xs);
      RemoveAllDistinct(tail, v);
      var rest := RemoveAll(tail, v);
      if xs[0] != v {
        assert multiset(rest)[xs[0]] == multiset(tail)[xs[0]] == 0;
        DistinctCons(xs[0], rest);
      }
    }
  }

  /** The dialog's state: the draft and the two text inputs, over the settings store. */
  class SettingsDialog {
    var draft: AppSettings
    var newExtension: string
    var newExclude: string
    const store: SettingsStore

    /** The dialog opens on a copy of the stored settings with both inputs empty. */
    constructor(store: SettingsStore)
      ensures this.store == store
      ensures draft == store.settings && newExtension == "" && newExclude == ""
    {
      this.store := store;
      draft := store.settings;
      newExtension := "";
      newExclude := "";
    }

    /** Reopening the dialog copies the stored settings into the draft again. */
    method Open()
      modifies this
      ensures draft == store.settings
      ensures newExtension == old(newExtension) && newExclude == old(newExclude)
    {
      draft := store.settings;
    }

    /** `updateDraft(patch)`: the patched draft fields take their new values. */
    method UpdateDraft(patch: Patch)
      requires WellTyped(patch)
      modifies this
      ensures draft == Merge(old(draft), patch)
      ensures forall k :: Get(draft, k) == if k in patch then patch[k] else Get(old(draft), k)
      ensures newExtension == old(newExtension) && newExclude == old(newExclude)
    {
      MergeFields(draft, patch);
      draft := Merge(draft, patch);
    }

    /** Typing into the extension box. */
    method SetNewExtension(text: string)
      modifies this
      ensures newExtension == text
      ensures draft == old(draft) && newExclude == old(newExclude)
    {
      newExtension := text;
    }

    /** Typing into the exclude-pattern box. */
    method SetNewExclude(text: string)
      modifies this
      ensures newExclude == text
      ensures draft == old(draft) && newExtension == old(newExtension)
    {
      newExclude := text;
    }

    /** `handleSave`: the whole draft becomes the stored settings. */
    method HandleSave()
      modifies store
      ensures store.settings == draft
    {
      MergeWhole(store.settings, draft);
      store.UpdateSettings(AsPatch(draft));
    }

    /** `handleReset`: the store goes back to the defaults and the draft follows it. */
    method HandleReset()
      modifies this, store
      ensures store.settings == DefaultSettings && draft == store.settings
      ensures newExtension == old(newExtension) && newExclude == old(newExclude)
    {
      store.ResetSettings();
      draft := store.settings;
    }

    /** `handleBrowseDir`: a non-empty chosen directory becomes the draft's playlist
        directory; a cancelled or failed dialog (`None`) and an empty answer change nothing. */
    method HandleBrowseDir(selected: Option<string>)
      modifies this
      ensures draft == if selected.Some? && selected.value != ""
                       then old(draft).(playlistDir := selected) else old(draft)
      ensures newExtension == old(newExtension) && newExclude == old(newExclude)
    {
      if selected.Some? && selected.value != "" {
        MergePlaylistDir(draft, selected);
        UpdateDraft(Single(PlaylistDirKey, OptionalText(selected)));
      }
    }

    /** `addExtension`: the normalised input is appended when new and non-empty; the input box
        is cleared either way. */
    method AddExtension()
      modifies this
      ensures draft == old(draft).(scanExtensions :=
                AppendNew(old(draft).scanExtensions, NormalizeExtension(old(newExtension))))
      ensures newExtension == "" && newExclude == old(newExclude)
    {
      var ext := NormalizeExtension(newExtension);
      if ext != "" && ext !in draft.scanExtensions {
        MergeScanExtensions(draft, draft.scanExtensions + [ext]);
        UpdateDraft(Single(ScanExtensionsKey, TextList(draft.scanExtensions + [ext])));
      }
      newExtension := "";
    }

    /** `removeExtension(ext)`: every occurrence goes, the rest keep their order. */
    method RemoveExtension(ext: string)
      modifies this
      ensures draft == old(draft).(scanExtensions := RemoveAll(old(draft).scanExtensions, ext))
      ensures newExtension == old(newExtension) && newExclude == old(newExclude)
    {
      MergeScanExtensions(draft, RemoveAll(draft.scanExtensions, ext));
      UpdateDraft(Single(ScanExtensionsKey, TextList(RemoveAll(draft.scanExtensions, ext))));
    }

    /** `addExclude`: the trimmed input is appended when new and non-empty; the input box is
        cleared either way. */
    method AddExclude()
      modifies this
      ensures draft == old(draft).(excludePatterns :=
                AppendNew(old(draft).excludePatterns, Trim(old(newExclude))))
      ensures newExclude == "" && newExtension == old(newExtension)
    {
      var pat := Trim(newExclude);
      if pat != "" && pat !in draft.excludePatterns {
        MergeExcludePatterns(draft, draft.excludePatterns + [pat]);
        UpdateDraft(Single(ExcludePatternsKey, TextList(draft.excludePatterns + [pat])));
      }
      newExclude := "";
    }

    /** `removeExclude(pat)`: every occurrence goes, the rest keep their order. */
    method RemoveExclude(pat: string)
      modifies this
      ensures draft == old(draft).(excludePatterns := RemoveAll(old(draft).excludePatterns, pat))
      ensures newExtension == old(newExtension) && newExclude == old(newExclude)
    {
      MergeExcludePatterns(draft, RemoveAll(draft.excludePatterns, pat));
      UpdateDraft(Single(ExcludePatternsKey, TextList(RemoveAll(draft.excludePatterns, pat))));
    }

    /** The "reset extensions" button: the fixed default list. */
    method ResetExtensions()
      modifies this
      ensures draft == old(draft).(scanExtensions := DefaultExtensions)
      ensures newExtension == old(newExtension) && newExclude == old(newExclude)
    {
      MergeScanExtensions(draft, DefaultExtensions);
      UpdateDraft(Single(ScanExtensionsKey, TextList(DefaultExtensions)));
    }
  }

  /** The default extension list has no duplicates. */
  lemma DefaultExtensionsDistinct()
    ensures Distinct(DefaultExtensions)
  {
  }
}
