/**
 * The raw configuration tab: the whole document as indented JSON text,
 * which the user may edit, reformat and save.
 */
module RawConfigTab {
  import opened Wrappers
  import opened JsonValue
  import opened MainWindow
  import GeneralTab

  /** `json.loads` of the edited text, as an edit of the document. */
  function ParsedEdit(codec: Codec, text: string): (r: Result<Json, EditError>)
    ensures r.Ok? <==> codec.load(text).Ok?
    ensures r.Ok? ==> r.value == codec.load(text).value
  {
    match codec.load(text)
    case Ok(v) => Ok(v)
    case Err(m) => Err(Malformed(m))
  }

  /** `format_json` on the text: reparse and dump, or leave the text as it is when it is not JSON. */
  function Formatted(codec: Codec, text: string): (r: string)
    ensures codec.load(text).Err? ==> r == text
    ensures Lawful(codec) ==> codec.load(r) == codec.load(text)
  {
    match codec.load(text)
    case Ok(v) => codec.dump(v)
    case Err(_) => text
  }

  /** Formatting twice is formatting once, when the codec round-trips. */
  lemma FormatIdempotent(codec: Codec, text: string)
    requires Lawful(codec)
    ensures Formatted(codec, Formatted(codec, text)) == Formatted(codec, text)
  {
    match codec.load(text)
    case Ok(v) =>
      assert codec.load(codec.dump(v)) == Ok(v);
    case Err(_) =>
  }

  /** Formatting keeps the meaning: the formatted text loads as the same value. */
  lemma FormatKeepsValue(codec: Codec, text: string)
    requires Lawful(codec)
    ensures codec.load(Formatted(codec, text)) == codec.load(text)
  {
    match codec.load(text)
    case Ok(v) =>
      assert codec.load(codec.dump(v)) == Ok(v);
    case Err(_) =>
  }

  /**
   * The text after `save_config`: refreshed to the dump of the saved
   * document only when the save got through and the refresh of the general
   * tab, which runs first, did not raise.
   */
  function TextAfterSave(codec: Codec, text: string, r: Result<bool, EditError>, doc: Json): (t: string)
    ensures r != Ok(true) ==> t == text
    ensures t == text || t == codec.dump(doc)
    ensures Lawful(codec) && t != text ==> codec.load(t) == Ok(doc)
  {
    if r == Ok(true) && GeneralTab.ViewOf(doc).Some? then codec.dump(doc) else text
  }

  /** After a save that refreshed the text, the text is the formatted input and loads as the saved document. */
  lemma SavedTextIsFormatted(codec: Codec, text: string, doc: Json)
    requires Lawful(codec)
    requires ParsedEdit(codec, text) == Ok(doc)
    requires GeneralTab.ViewOf(doc).Some?
    ensures TextAfterSave(codec, text, Ok(true), doc) == Formatted(codec, text)
    ensures codec.load(TextAfterSave(codec, text, Ok(true), doc)) == Ok(doc)
  {
    assert codec.load(codec.dump(doc)) == Ok(doc);
  }

  /** The tab: its editor text and the window it edits. */
  class Tab {
    var text: string
    const window: ConfigWindow

    constructor(window: ConfigWindow)
      ensures this.window == window && text == ""
    {
      this.window := window;
      text := "";
    }

    /** `load_data(doc)`: the editor shows the document's indented dump. */
    method LoadData(doc: Json)
      modifies this
      ensures text == window.codec.dump(doc)
    {
      text := window.codec.dump(doc);
    }

    /** `format_json`. */
    method FormatJson()
      modifies this
      ensures text == Formatted(window.codec, old(text))
    {
      var parsed := window.codec.load(text);
      if parsed.Ok? {
        text := window.codec.dump(parsed.value);
      }
    }

    /**
     * `save_config`: text that is not JSON changes nothing; otherwise the
     * parsed value replaces the document and is saved, then the views are refreshed.
     */
    method SaveConfig() returns (r: Result<bool, EditError>)
      modifies this, window, window.fs
      ensures window.Applied(old(ParsedEdit(window.codec, text)), r)
      ensures text == TextAfterSave(window.codec, old(text), r, window.doc)
    {
      var edit := ParsedEdit(window.codec, text);
      if edit.Err? {
        return Err(edit.error);
      }
      r := window.Commit(edit.value);
      if r == Ok(true) && GeneralTab.ViewOf(window.GetConfigData()).Some? {
        LoadData(window.GetConfigData());
      }
    }
  }
}
