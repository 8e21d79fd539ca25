/**
 * The text state of `EditorTexture` in src/_utils/editorTexture.ts: the
 * typed text and the current line number, driven by key names. Drawing on
 * the canvas is not part of this model.
 */
module Editor {
  import opened JsStrings

  /** Key names that `printKey` ignores. */
  const Escapes: seq<string> := ["Shift", "Alt", "Control", "AltGraph"]

  /** `cleanText()`: the text from the last line break on, with line breaks removed. */
  function CleanText(text: string): (r: string)
    ensures '\n' !in r
    ensures '\n' !in text ==> r == text
    ensures '\n' in text ==> |r| < |text| && text[|text| - |r| - 1] == '\n' && text[|text| - |r|..] == r
  {
    var lastLineBreak := LastIndexOf(text, '\n');
    if lastLineBreak == -1 then RemoveAll(text, '\n')
    else
      var printText := Slice(text, lastLineBreak, |text|);
      assert printText == ['\n'] + text[lastLineBreak + 1..];
      RemoveAll(printText, '\n')
  }

  /**
   * The text after `printKey(key)`: modifier keys leave it alone, Backspace drops the last
   * character and Delete the first (if any), Enter appends a line break and any other key
   * name is appended verbatim.
   */
  function TypedText(text: string, key: string): (r: string)
    ensures key in Escapes ==> r == text
    ensures key == "Backspace" ==> (text == [] ==> r == []) && (text != [] ==> r + [text[|text| - 1]] == text)
    ensures key == "Delete" ==> (text == [] ==> r == []) && (text != [] ==> [text[0]] + r == text)
    ensures key !in Escapes && key != "Backspace" && key != "Delete" ==>
            r == text + (if key == "Enter" then "\n" else key)
  {
    if key in Escapes then text
    else if key == "Backspace" then Slice(text, 0, |text| - 1)
    else if key == "Delete" then Slice(text, 1, |text|)
    else if key == "Enter" then text + "\n"
    else text + key
  }

  /**
   * The line number after `printKey(key)`: one on from Enter, one back from a Backspace that
   * removes a line break, unchanged otherwise.
   */
  function TypedLine(text: string, line: int, key: string): (r: int)
    ensures line - 1 <= r <= line + 1
    ensures r == line + 1 <==> key == "Enter"
    ensures r == line - 1 <==> key == "Backspace" && text != [] && text[|text| - 1] == '\n'
  {
    if key in Escapes then line
    else if key == "Backspace" then (if |text| > 0 && text[|text| - 1] == '\n' then line - 1 else line)
    else if key == "Enter" then line + 1
    else line
  }

  /** The line counter agrees with the text: one more than the number of line breaks. */
  ghost predicate LineCounted(text: string, line: int) {
    line == 1 + Count(text, '\n')
  }

  class EditorTexture {
    var text: string
    var line: int

    constructor ()
      ensures text == "" && line == 1
      ensures LineCounted(text, line)
    {
      text := "";
      line := 1;
    }

    /** `printKey(key)` without the repaint that follows it. */
    method PrintKey(key: string)
      modifies this
      ensures text == TypedText(old(text), key)
      ensures line == TypedLine(old(text), old(line), key)
      ensures LineCounted(old(text), old(line)) && '\n' !in key && !(key == "Delete" && old(text) != [] && old(text)[0] == '\n')
          ==> LineCounted(text, line)
    {
      if LineCounted(text, line) && '\n' !in key && !(key == "Delete" && text != [] && text[0] == '\n') {
        PrintKeyKeepsLineCount(text, line, key);
      }
      if key in Escapes {
        return;
      }
      if key == "Backspace" {
        if |text| > 0 && text[|text| - 1] == '\n' {
          line := line - 1;
        }
        text := Slice(text, 0, |text| - 1);
        return;
      }
      if key == "Delete" {
        text := Slice(text, 1, |text|);
        return;
      }
      if key == "Enter" {
        line := line + 1;
        text := text + "\n";
        return;
      }
      text := text + key;
    }
  }

  lemma {:induction false} CountWithoutLast(text: string)
    requires text != []
    ensures Count(text, '\n') == Count(text[..|text| - 1], '\n') + (if text[|text| - 1] == '\n' then 1 else 0)
  {
    var init := text[..|text| - 1];
    assert text == init + [text[|text| - 1]];
    CountAppend(init, [text[|text| - 1]], '\n');
  }

  lemma {:induction false} CountWithoutFirst(text: string)
    requires text != []
    ensures Count(text, '\n') == Count(text[1..], '\n') + (if text[0] == '\n' then 1 else 0)
  {
  }

  /**
   * Every key that holds no line break keeps the line counter in step with the text,
   * except Delete on a text that starts with a line break.
   */
  lemma {:induction false} PrintKeyKeepsLineCount(text: string, line: int, key: string)
    requires LineCounted(text, line)
    requires '\n' !in key
    requires !(key == "Delete" && text != [] && text[0] == '\n')
    ensures LineCounted(TypedText(text, key), TypedLine(text, line, key))
  {
    var t, l := TypedText(text, key), TypedLine(text, line, key);
    if key in Escapes {
      assert t == text && l == line;
    } else if key == "Backspace" {
      if text != [] {
        CountWithoutLast(text);
        assert t == text[..|text| - 1];
      }
    } else if key == "Delete" {
      if text != [] {
        CountWithoutFirst(text);
        assert t == text[1..] && l == line;
      }
    } else if key == "Enter" {
      CountAppend(text, "\n", '\n');
      assert t == text + "\n" && l == line + 1;
    } else {
      CountAppend(text, key, '\n');
      assert t == text + key && l == line;
    }
  }

  /** Delete on "\n" at line 2 leaves line 2 over an empty text. */
  lemma DeleteLeadingBreakDesyncs()
    ensures LineCounted("\n", 2)
    ensures TypedText("\n", "Delete") == "" && TypedLine("\n", 2, "Delete") == 2
    ensures !LineCounted(TypedText("\n", "Delete"), TypedLine("\n", 2, "Delete"))
  {
  }
}
