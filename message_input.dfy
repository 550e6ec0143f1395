/** The message composer: when a key press sends, what is sent, and the text
    the emoji picker, the file picker and an image paste append to the draft. */
module MessageInput {
  import opened Wrappers
  import Js
  import Lists

  /** `handleKeyPress`: Enter without Shift sends; Shift+Enter is a new line. */
  predicate ShouldSend(key: string, shiftKey: bool) {
    key == "Enter" && !shiftKey
  }

  /** What `handleSend` passes to `onSend`, if anything. */
  function ContentToSend(value: string, disabled: bool): (c: Option<string>)
    ensures c.Some? <==> !disabled && !Js.IsBlank(value)
    ensures c.Some? ==> c.value == Js.Trim(value)
    ensures c.Some? ==> c.value != "" && !Js.IsWhitespace(c.value[0]) && !Js.IsWhitespace(c.value[|c.value| - 1])
  {
    var content := Js.Trim(value);
    if content != "" && !disabled then Some(content) else None
  }

  /** The send button's `disabled` attribute. */
  predicate SendDisabled(disabled: bool, value: string) {
    disabled || Js.Trim(value) == ""
  }

  /** The button is disabled exactly when clicking it would send nothing. */
  lemma SendButtonMatchesHandler(disabled: bool, value: string)
    ensures SendDisabled(disabled, value) <==> ContentToSend(value, disabled).None?
  {
  }

  /** The note `handleFileAttachment` appends: ` [File: a, b, c]`. */
  function FileNote(names: seq<string>): string {
    " [File: " + Js.Join(names, ", ") + "]"
  }

  function WithFiles(value: string, names: seq<string>): (r: string)
    ensures |names| == 0 ==> r == value
    ensures |names| > 0 ==> Js.StartsWith(r, value) && r[|value|..] == FileNote(names)
  {
    if |names| > 0 then value + FileNote(names) else value
  }

  /** Every chosen file is named in the draft, after what was already typed. */
  lemma FileNoteNamesEach(value: string, names: seq<string>, i: nat)
    requires i < |names|
    ensures Js.Includes(WithFiles(value, names), names[i])
  {
    var joined := Js.Join(names, ", ");
    Js.JoinIncludesEach(names, ", ", i);
    Js.IncludesMiddle(value + " [File: ", joined, "]");
    assert value + " [File: " + joined + "]" == WithFiles(value, names);
    Js.IncludesTransitive(WithFiles(value, names), joined, names[i]);
  }

  /** A clipboard item: its MIME type and the name of the file it yields. */
  datatype ClipboardItem = ClipboardItem(mimeType: string, fileName: string)

  predicate IsImage(item: ClipboardItem) {
    Js.Includes(item.mimeType, "image")
  }

  /** The first image item of a paste, if any. */
  function FirstImage(items: seq<ClipboardItem>): (k: int)
    ensures -1 <= k < |items|
    ensures k == -1 <==> forall i :: 0 <= i < |items| ==> !IsImage(items[i])
    ensures k != -1 ==> IsImage(items[k]) && forall j :: 0 <= j < k ==> !IsImage(items[j])
  {
    Lists.FindIndex(items, (item: ClipboardItem) => IsImage(item))
  }

  /** The draft after `handlePaste`: the first image's name as ` [Image: name]`. */
  function WithPastedImage(value: string, items: seq<ClipboardItem>): (r: string)
    ensures FirstImage(items) == -1 ==> r == value
    ensures FirstImage(items) != -1 ==>
      Js.StartsWith(r, value) && r[|value|..] == " [Image: " + items[FirstImage(items)].fileName + "]"
  {
    var k := FirstImage(items);
    if k == -1 then value else value + " [Image: " + items[k].fileName + "]"
  }

  /** A paste with no image leaves the draft to the browser's own paste. */
  lemma PasteWithoutImage(value: string, items: seq<ClipboardItem>)
    requires forall i :: 0 <= i < |items| ==> !Js.Includes(items[i].mimeType, "image")
    ensures WithPastedImage(value, items) == value
  {
    assert forall i :: 0 <= i < |items| ==> !IsImage(items[i]);
  }

  /** The composer's picker flag, and the draft it edits through `onChange`
      (held by the parent and passed down as `value`). */
  class Composer {
    var value: string
    var showEmojiPicker: bool

    constructor (initial: string)
      ensures value == initial && !showEmojiPicker
    {
      value := initial;
      showEmojiPicker := false;
    }

    /** `handleSend()`: the content `onSend` receives, if any. */
    method HandleSend(disabled: bool) returns (sent: Option<string>)
      ensures sent == ContentToSend(value, disabled)
    {
      var content := Js.Trim(value);
      if content != "" && !disabled {
        sent := Some(content);
      } else {
        sent := None;
      }
    }

    /** `handleKeyPress(e)`. */
    method HandleKeyPress(key: string, shiftKey: bool, disabled: bool) returns (sent: Option<string>)
      ensures sent == if ShouldSend(key, shiftKey) then ContentToSend(value, disabled) else None
    {
      if key == "Enter" && !shiftKey {
        sent := HandleSend(disabled);
      } else {
        sent := None;
      }
    }

    /** The textarea's `onChange`. */
    method OnChange(text: string)
      modifies this`value
      ensures value == text
    {
      value := text;
    }

    /** The emoji button. */
    method ToggleEmojiPicker()
      modifies this`showEmojiPicker
      ensures showEmojiPicker == !old(showEmojiPicker)
    {
      showEmojiPicker := !showEmojiPicker;
    }

    /** The picker's Close button and the click-outside overlay. */
    method CloseEmojiPicker()
      modifies this`showEmojiPicker
      ensures !showEmojiPicker
    {
      showEmojiPicker := false;
    }

    /** `handleEmojiClick(emoji)`: appended at the end, and the picker closes. */
    method HandleEmojiClick(emoji: string)
      modifies this`value, this`showEmojiPicker
      ensures value == old(value) + emoji && !showEmojiPicker
    {
      value := value + emoji;
      showEmojiPicker := false;
    }

    /** `handleFileAttachment(e)` with the chosen files' names. */
    method HandleFileAttachment(names: seq<string>)
      modifies this`value
      ensures value == WithFiles(old(value), names)
    {
      if |names| > 0 {
        value := value + " [File: " + Js.Join(names, ", ") + "]";
      }
    }

    /** `handlePaste(e)`: returns whether the default paste was prevented. */
    method HandlePaste(items: seq<ClipboardItem>) returns (prevented: bool)
      modifies this`value
      ensures prevented <==> exists i :: 0 <= i < |items| && IsImage(items[i])
      ensures value == WithPastedImage(old(value), items)
    {
      var k := FirstImage(items);
      if k != -1 {
        value := value + " [Image: " + items[k].fileName + "]";
        prevented := true;
      } else {
        prevented := false;
      }
    }
  }
}
