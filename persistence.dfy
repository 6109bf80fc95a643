/** What the start-up load of App.tsx adopts from storage. The storage adapter itself
    (host cloud storage or the browser's local storage) and JSON parsing are outside the
    model: a stored value arrives as an optional string, and what JSON.parse makes of it
    arrives as a ParseOutcome. */
module Persistence {
  import opened Types

  /** Storage key of the task snapshot. */
  const StorageKey := "notesave_db_v1"

  /** Storage key of the theme preference. */
  const ThemeKey := "notesave_theme_pref"

  /** What JSON.parse makes of the stored snapshot: it throws, it yields something that is
      not an array, or it yields an array (of tasks, as the application takes it to be). */
  datatype ParseOutcome = Malformed | NotAnArray | TaskArray(items: seq<Task>)

  /** The tasks adopted at start-up, if any. `raw` is what the storage adapter returned
      (None for null); the empty string is falsy and is skipped like null. A snapshot is
      adopted exactly when the value is non-empty and parses to an array, and then it is
      adopted as it is. */
  function LoadedTasks(raw: Option<string>, parsed: ParseOutcome): (r: Option<seq<Task>>)
    ensures r.Some? <==> raw.Some? && raw.value != "" && parsed.TaskArray?
    ensures r.Some? ==> r.value == parsed.items
  {
    match raw
    case Some(text) =>
      if text != "" then
        match parsed
        case TaskArray(items) => Some(items)
        case _ => None
      else None
    case None => None
  }

  /** The stored theme preference, if it is adopted: only the exact strings "light" and
      "dark" are. */
  function LoadedTheme(raw: Option<string>): (r: Option<Theme>)
    ensures r == Some(Light) <==> raw == Some("light")
    ensures r == Some(Dark) <==> raw == Some("dark")
    ensures r == None <==> raw != Some("light") && raw != Some("dark")
  {
    match raw
    case Some(text) =>
      if text == "light" then Some(Light)
      else if text == "dark" then Some(Dark)
      else None
    case None => None
  }

  /** The string the theme effect writes under ThemeKey. */
  function ThemeName(t: Theme): string
  {
    match t
    case Light => "light"
    case Dark => "dark"
  }

  /** A theme written by the application is adopted again at the next start. */
  lemma ThemeRoundTrip(t: Theme)
    ensures LoadedTheme(Some(ThemeName(t))) == Some(t)
  {
  }
}
