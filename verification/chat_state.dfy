/** The chat screen's own state (the `useState` hooks and the audio-element
    table of chat-home.tsx) as one immutable record, and the theme switch. */
module ChatState {
  import opened Wrappers

  /** A selected file: only the fields the screen reads. */
  datatype FileEntry = FileEntry(name: string, mimeType: string)

  datatype Theme = Dark | Light

  /** `input` is the text box (owned by the chat hook), `files` the staged
      `FileList` (`undefined` is `None`), `previewUrl` the preview object URL
      (`null` is `None`), `isPlaying` the per-message playback flags, and
      `audioPresent` the ids that have an audio element in `audioRefs`. */
  datatype ChatState = ChatState(
    input: string,
    files: Option<seq<FileEntry>>,
    previewUrl: Option<string>,
    isPlaying: map<string, bool>,
    audioPresent: set<string>,
    theme: Theme)

  /** The state of a freshly mounted screen: dark theme, nothing staged,
      nothing playing. */
  function Initial(input: string): (s: ChatState)
    ensures s.theme == Dark && s.files.None? && s.previewUrl.None?
    ensures s.isPlaying == map[] && s.audioPresent == {}
  {
    ChatState(input, None, None, map[], {}, Dark)
  }

  /** `toggleTheme`: switch to the other theme, leaving everything else. */
  function ToggleTheme(s: ChatState): (r: ChatState)
    ensures r.theme != s.theme
    ensures r.(theme := s.theme) == s
  {
    s.(theme := if s.theme == Dark then Light else Dark)
  }

  /** Toggling twice restores the original state. */
  lemma ToggleThemeTwice(s: ChatState)
    ensures ToggleTheme(ToggleTheme(s)) == s
  {
  }
}
