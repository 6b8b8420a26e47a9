/** The message composer of chat-home.tsx: staging an attachment
    (`handleFileChange`, `clearFile`), the submit handler (`onSubmit`), the
    Enter-key handler (`handleKeyDown`) and the send button's `disabled` flag. */
module Composer {
  import opened Wrappers
  import opened Text
  import opened ChatState

  /** `input.trim() || files`: the condition every submit path tests. A staged
      `FileList` is truthy even when it is empty. */
  predicate HasSomethingToSend(s: ChatState)
  {
    Trim(s.input) != [] || s.files.Some?
  }

  /** What the chat hook's `handleSubmit` is called with. */
  datatype Submission = Submission(text: string, attachments: Option<seq<FileEntry>>)

  /** The state after a submit event, and the submission made, if any. */
  datatype SubmitStep = SubmitStep(state: ChatState, sent: Option<Submission>)

  /** `clearFile`: drop the staged files and the preview; nothing else changes. */
  function ClearFile(s: ChatState): (r: ChatState)
    ensures r.files.None? && r.previewUrl.None?
    ensures r.input == s.input && r.theme == s.theme
    ensures r.isPlaying == s.isPlaying && r.audioPresent == s.audioPresent
  {
    s.(files := None, previewUrl := None)
  }

  /** Clearing twice is clearing once. */
  lemma ClearFileIdempotent(s: ChatState)
    ensures ClearFile(ClearFile(s)) == ClearFile(s)
  {
  }

  /** `onSubmit`: with a blank input and no staged files nothing happens;
      otherwise exactly one submission is made, carrying the staged files,
      and the attachment state is cleared. The loading flag is not consulted. */
  function OnSubmit(s: ChatState): (r: SubmitStep)
    ensures r.sent.None? <==> IsBlank(s.input) && s.files.None?
    ensures r.sent.None? ==> r.state == s
    ensures r.sent.Some? ==> r.sent.value == Submission(s.input, s.files)
    ensures r.sent.Some? ==> r.state.files.None? && r.state.previewUrl.None?
    ensures r.sent.Some? ==> r.state == ClearFile(s)
  {
    TrimEmptyIffBlank(s.input);
    if !HasSomethingToSend(s) then SubmitStep(s, None)
    else SubmitStep(ClearFile(s), Some(Submission(s.input, s.files)))
  }

  /** A key press in the text box. */
  datatype KeyPress = KeyPress(key: string, shiftKey: bool)

  /** What `handleKeyDown` does: suppress the newline, and dispatch a submit
      event on the form. */
  datatype KeyEffect = KeyEffect(preventDefault: bool, dispatchSubmit: bool)

  /** `handleKeyDown`: Enter without Shift suppresses the newline, and
      dispatches a submit when the form exists and there is something to
      send. The loading flag is not consulted. */
  function OnKeyDown(s: ChatState, press: KeyPress, formPresent: bool): (r: KeyEffect)
    ensures r.preventDefault <==> press.key == "Enter" && !press.shiftKey
    ensures r.dispatchSubmit <==>
              press.key == "Enter" && !press.shiftKey && formPresent && !(IsBlank(s.input) && s.files.None?)
  {
    TrimEmptyIffBlank(s.input);
    var enter := press.key == "Enter" && !press.shiftKey;
    KeyEffect(enter, enter && formPresent && HasSomethingToSend(s))
  }

  /** The send button's `disabled` attribute. */
  predicate SendDisabled(isLoading: bool, s: ChatState)
  {
    isLoading || !HasSomethingToSend(s)
  }

  /** When not loading, the button is enabled exactly when a submit would
      send, and exactly when Enter would dispatch one. */
  lemma SendButtonAgreesWithSubmit(s: ChatState)
    ensures !SendDisabled(false, s) <==> OnSubmit(s).sent.Some?
    ensures !SendDisabled(false, s) <==> OnKeyDown(s, KeyPress("Enter", false), true).dispatchSubmit
  {
    TrimEmptyIffBlank(s.input);
  }

  /** A submit that Enter dispatches always sends. */
  lemma EnterDispatchSends(s: ChatState, press: KeyPress, formPresent: bool)
    requires OnKeyDown(s, press, formPresent).dispatchSubmit
    ensures OnSubmit(s).sent == Some(Submission(s.input, s.files))
  {
  }

  /** While loading, the button is disabled but Enter still submits: neither
      the key handler nor the submit handler checks the loading flag. */
  lemma EnterSubmitsWhileLoading(s: ChatState)
    requires HasSomethingToSend(s)
    ensures SendDisabled(true, s)
    ensures OnKeyDown(s, KeyPress("Enter", false), true).dispatchSubmit
    ensures OnSubmit(s).sent.Some?
  {
    TrimEmptyIffBlank(s.input);
  }

  /** The file's MIME type starts with `image/`. */
  predicate IsImage(f: FileEntry)
  {
    "image/" <= f.mimeType
  }

  /** `handleFileChange`: `chosen` is the input's `FileList` (`null` is
      `None`) and `objectUrl` the URL the browser mints for its first file. An
      absent or empty list changes nothing; otherwise the list is staged, and
      the preview is replaced only when the first file is an image. */
  function OnFilesChosen(s: ChatState, chosen: Option<seq<FileEntry>>, objectUrl: string): (r: ChatState)
    ensures chosen.None? || |chosen.value| == 0 ==> r == s
    ensures chosen.Some? && |chosen.value| > 0 ==> r.files == chosen
    ensures chosen.Some? && |chosen.value| > 0 && IsImage(chosen.value[0]) ==> r.previewUrl == Some(objectUrl)
    ensures r.previewUrl != s.previewUrl ==>
              chosen.Some? && |chosen.value| > 0 && IsImage(chosen.value[0]) && r.previewUrl == Some(objectUrl)
    ensures r.input == s.input && r.theme == s.theme
    ensures r.isPlaying == s.isPlaying && r.audioPresent == s.audioPresent
  {
    match chosen
    case Some(fs) =>
      if |fs| > 0 then
        var staged := s.(files := chosen);
        if IsImage(fs[0]) then staged.(previewUrl := Some(objectUrl)) else staged
      else s
    case None => s
  }

  /** Choosing a non-image after an image keeps the image's preview on screen
      while the non-image is what is staged. */
  lemma NonImageKeepsOldPreview(s: ChatState, image: FileEntry, other: FileEntry, url1: string, url2: string)
    requires IsImage(image) && !IsImage(other)
    ensures var r := OnFilesChosen(OnFilesChosen(s, Some([image]), url1), Some([other]), url2);
      r.files == Some([other]) && r.previewUrl == Some(url1)
  {
  }

  /** The staging invariant: a staged list is never empty, and a preview is
      shown only while something is staged. */
  predicate StagingConsistent(s: ChatState)
  {
    && (s.files.Some? ==> |s.files.value| > 0)
    && (s.previewUrl.Some? ==> s.files.Some?)
  }

  /** The fresh screen is consistent and every composer transition keeps it so. */
  lemma StagingConsistentPreserved(s: ChatState, chosen: Option<seq<FileEntry>>, url: string, input: string)
    ensures StagingConsistent(Initial(input))
    ensures StagingConsistent(s) ==> StagingConsistent(OnFilesChosen(s, chosen, url))
    ensures StagingConsistent(ClearFile(s))
    ensures StagingConsistent(s) ==> StagingConsistent(OnSubmit(s).state)
  {
  }
}
