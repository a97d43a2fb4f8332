/**
 * The submit logic of the playlist import dialog
 * (components/ImportMusicDialog.tsx): the input is trimmed, a bare numeric
 * playlist ID is expanded to a NetEase Cloud Music playlist URL, and the
 * loading flag and input field change around the asynchronous import call.
 * The import and close callbacks are recorded as effects; how the import
 * ends is given as an `Outcome`.
 */
module ImportDialog {
  import opened Wrappers
  import opened JsString

  /** The playlist URL a bare ID is appended to. */
  const PLAYLIST_PREFIX: string := "https://music.163.com/#/playlist?id="

  /** What the input field holds: a bare playlist ID or a full link. */
  datatype InputType = Id | Url

  /** `\d` in a regular expression without the Unicode flag: ASCII digits only. */
  predicate IsDigit(c: char) {
    '0' <= c <= '9'
  }

  /** `/^\d+$/`: one or more digits and nothing else. */
  predicate IsDigits(s: string) {
    |s| > 0 && forall i :: 0 <= i < |s| ==> IsDigit(s[i])
  }

  function PlaylistUrl(id: string): (url: string)
    ensures |url| == |PLAYLIST_PREFIX| + |id|
    ensures url[..|PLAYLIST_PREFIX|] == PLAYLIST_PREFIX && url[|PLAYLIST_PREFIX|..] == id
  {
    PLAYLIST_PREFIX + id
  }

  /** Reads the playlist ID back out of a playlist URL, if it is one. */
  function PlaylistIdOf(url: string): (id: Option<string>)
    ensures id.Some? ==> url == PlaylistUrl(id.value)
  {
    if |PLAYLIST_PREFIX| < |url| && url[..|PLAYLIST_PREFIX|] == PLAYLIST_PREFIX
       && IsDigits(url[|PLAYLIST_PREFIX|..])
    then Some(url[|PLAYLIST_PREFIX|..])
    else None
  }

  /** Expanding an ID and reading it back gives the same ID. */
  lemma PlaylistIdRoundTrip(id: string)
    requires IsDigits(id)
    ensures PlaylistIdOf(PlaylistUrl(id)) == Some(id)
  {
  }

  /** The value `handleImport` passes to the import callback, or `None` when
      it returns without importing because the input is blank. */
  function ImportTarget(input: string, inputType: InputType): (r: Option<string>)
    ensures r.None? <==> !HasContent(input)
    ensures r.Some? ==> HasContent(r.value)
    ensures r.Some? && inputType == Url ==> r.value == Trim(input)
    ensures r.Some? && inputType == Id ==>
      if IsDigits(Trim(input)) then r.value == PlaylistUrl(Trim(input)) else r.value == Trim(input)
  {
    TrimEmptyIffBlank(input);
    var trimmed := Trim(input);
    if trimmed == [] then None
    else
      TrimIsMiddle(input);
      assert !IsWhitespace(trimmed[0]);
      if inputType == Id && IsDigits(trimmed) then
        var url := PlaylistUrl(trimmed);
        assert !IsWhitespace(url[0]);
        Some(url)
      else Some(trimmed)
  }

  /** Whitespace around the input does not change what is imported. */
  lemma ImportTargetIgnoresPadding(input: string, inputType: InputType)
    ensures ImportTarget(Trim(input), inputType) == ImportTarget(input, inputType)
  {
    TrimIdempotent(input);
    TrimEmptyIffBlank(input);
    TrimEmptyIffBlank(Trim(input));
  }

  /** Submitting what was imported, in the same mode, imports it unchanged. */
  lemma ImportTargetIdempotent(input: string, inputType: InputType)
    requires ImportTarget(input, inputType).Some?
    ensures var url := ImportTarget(input, inputType).value;
      ImportTarget(url, inputType) == Some(url)
  {
    var trimmed := Trim(input);
    var url := ImportTarget(input, inputType).value;
    TrimIsMiddle(input);
    TrimIdempotent(input);
    if url != trimmed {
      assert url == PlaylistUrl(trimmed);
      assert IsDigit(url[|url| - 1]);
      TrimKeepsTrimmed(url);
      assert !IsDigit(url[0]);
    }
  }

  /** What the dialog asks of its owner. */
  datatype Effect = Imported(url: string) | CloseRequested

  /** How the import callback ends: it resolves to true or false, or rejects. */
  datatype Outcome = Succeeded | Failed | Threw

  class Dialog {
    var importInput: string
    var inputType: InputType
    var isLoading: bool
    var effects: seq<Effect>

    /** A fresh dialog: empty input, ID mode, not loading. */
    constructor ()
      ensures importInput == "" && inputType == Id && !isLoading && effects == []
    {
      importInput := "";
      inputType := Id;
      isLoading := false;
      effects := [];
    }

    /** Typing in the input field. */
    method EditInput(text: string)
      modifies this
      ensures importInput == text
      ensures inputType == old(inputType) && isLoading == old(isLoading) && effects == old(effects)
    {
      importInput := text;
    }

    /** The ID / link toggle. */
    method SelectInputType(t: InputType)
      modifies this
      ensures inputType == t
      ensures importInput == old(importInput) && isLoading == old(isLoading) && effects == old(effects)
    {
      inputType := t;
    }

    /** `handleImport` up to the awaited import call: nothing happens while
        loading or for a blank input; otherwise the dialog starts loading and
        calls the import callback with the normalised input. */
    method BeginImport() returns (submitted: Option<string>)
      modifies this
      ensures submitted == if old(isLoading) then None else ImportTarget(old(importInput), old(inputType))
      ensures submitted.Some? ==> isLoading && effects == old(effects) + [Imported(submitted.value)]
      ensures submitted.None? ==> isLoading == old(isLoading) && effects == old(effects)
      ensures importInput == old(importInput) && inputType == old(inputType)
    {
      var target := ImportTarget(importInput, inputType);
      if isLoading || target.None? {
        return None;
      }
      isLoading := true;
      submitted := target;
      effects := effects + [Imported(target.value)];
    }

    /** `handleImport` after the import call settles: on success the input is
        cleared and the dialog asks to be closed; in every case, a rejection
        included, loading ends. Returns whether the rejection propagates. */
    method FinishImport(outcome: Outcome) returns (rethrown: bool)
      modifies this
      ensures rethrown <==> outcome == Threw
      ensures !isLoading && inputType == old(inputType)
      ensures outcome == Succeeded ==> importInput == "" && effects == old(effects) + [CloseRequested]
      ensures outcome != Succeeded ==> importInput == old(importInput) && effects == old(effects)
    {
      if outcome == Succeeded {
        importInput := "";
        effects := effects + [CloseRequested];
      }
      isLoading := false;
      rethrown := outcome == Threw;
    }

    /** `handleImport` from start to end, with nothing in between. */
    method HandleImport(outcome: Outcome) returns (submitted: Option<string>, rethrown: bool)
      modifies this
      ensures submitted == if old(isLoading) then None else ImportTarget(old(importInput), old(inputType))
      ensures isLoading == old(isLoading) && inputType == old(inputType)
      ensures rethrown <==> submitted.Some? && outcome == Threw
      ensures submitted.None? ==> importInput == old(importInput) && effects == old(effects)
      ensures submitted.Some? && outcome == Succeeded ==>
        importInput == "" && effects == old(effects) + [Imported(submitted.value), CloseRequested]
      ensures submitted.Some? && outcome != Succeeded ==>
        importInput == old(importInput) && effects == old(effects) + [Imported(submitted.value)]
    {
      submitted := BeginImport();
      rethrown := false;
      if submitted.Some? {
        rethrown := FinishImport(outcome);
      }
    }

    /** `handleClose`: the input is cleared and the dialog asks to be closed. */
    method HandleClose()
      modifies this
      ensures importInput == "" && effects == old(effects) + [CloseRequested]
      ensures inputType == old(inputType) && isLoading == old(isLoading)
    {
      importInput := "";
      effects := effects + [CloseRequested];
    }
  }
}
