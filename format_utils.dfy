/** `shortener` of src/_utils/formatUtils.ts: cut a label to a maximum length and mark the cut. */
module FormatUtils {
  import opened Base
  import opened JsStrings

  /** The default of the `maxChars` parameter. */
  const DefaultMaxChars := 18

  /** `shortener(str, maxChars)`; None stands for `undefined`. */
  function Shortener(str: Option<string>, maxChars: int): (r: string)
    ensures str == None || str == Some("") ==> r == ""
    ensures str.Some? && 0 <= maxChars && |str.value| <= maxChars ==> r == str.value
    ensures str.Some? && str.value != "" && 0 <= maxChars < |str.value| ==> r == str.value[..maxChars] + "..."
    ensures str.Some? && str.value != "" && maxChars < 0 ==> r == str.value[..Max(|str.value| + maxChars, 0)] + "..."
  {
    if str.None? || str.value == "" then ""
    else Slice(str.value, 0, maxChars) + (if |str.value| > maxChars then "..." else "")
  }

  /** `shortener(str)` with the default maximum. */
  function ShortenerDefault(str: Option<string>): (r: string)
    ensures |r| <= DefaultMaxChars + 3
  {
    ShortenedShape(str, DefaultMaxChars);
    Shortener(str, DefaultMaxChars)
  }

  /** The result never exceeds maxChars + 3 and starts with a prefix of the input. */
  lemma ShortenedShape(str: Option<string>, maxChars: int)
    requires maxChars >= 0
    ensures var r := Shortener(str, maxChars);
      && |r| <= maxChars + 3
      && (str.Some? && r != str.value ==>
            3 <= |r| <= |str.value| + 2 && r[..|r| - 3] == str.value[..|r| - 3] && r[|r| - 3..] == "...")
  {
    var r := Shortener(str, maxChars);
    if str.Some? {
      var s := str.value;
      if |s| > maxChars && s != "" {
        assert r[..maxChars] == s[..maxChars] && r[maxChars..] == "...";
      }
    }
  }

  /** Shortening an already shortened string changes nothing. */
  lemma ShortenerIdempotent(str: Option<string>, maxChars: int)
    requires maxChars >= 0
    ensures Shortener(Some(Shortener(str, maxChars)), maxChars) == Shortener(str, maxChars)
  {
    var r := Shortener(str, maxChars);
    if str.Some? && str.value != "" && maxChars < |str.value| {
      var s := str.value;
      assert r == s[..maxChars] + "...";
      assert |r| > maxChars;
      assert r[..maxChars] == s[..maxChars];
    }
  }
}
