/**
 * The text-label editor driven by key-down events. The handler tests the key
 * name against the pattern /^[a-zA-Z0-9\s]+$/ and, when the text tool is the
 * current tool, appends the whole key name to the label.
 */
module TextInput {
  import opened Strokes

  /**
   * The characters JavaScript's `\s` class matches: the ECMAScript WhiteSpace
   * and LineTerminator code points.
   */
  predicate IsJsWhitespace(c: char)
  {
    var n := c as int;
    (0x09 <= n <= 0x0D) || n == 0x20 || n == 0xA0 || n == 0x1680 ||
    (0x2000 <= n <= 0x200A) || n == 0x2028 || n == 0x2029 || n == 0x202F ||
    n == 0x205F || n == 0x3000 || n == 0xFEFF
  }

  /** One character of the class [a-zA-Z0-9\s]. */
  predicate IsKeyChar(c: char)
  {
    ('a' <= c <= 'z') || ('A' <= c <= 'Z') || ('0' <= c <= '9') || IsJsWhitespace(c)
  }

  /** The anchored pattern /^[a-zA-Z0-9\s]+$/: one or more characters of the class, nothing else. */
  predicate MatchesKeyPattern(key: string)
    ensures MatchesKeyPattern(key) ==> key != []
    ensures MatchesKeyPattern(key) <==> key != [] && forall c | c in key :: IsKeyChar(c)
  {
    |key| > 0 && forall i :: 0 <= i < |key| ==> IsKeyChar(key[i])
  }

  /** JavaScript's `s.slice(0, -1)`: everything but the last character, and "" for "". */
  function DropLast(s: string): (r: string)
    ensures |s| > 0 ==> s == r + [s[|s| - 1]]
    ensures |s| == 0 ==> r == ""
  {
    if |s| == 0 then "" else s[..|s| - 1]
  }

  /** The key name the browser reports for the backspace key. */
  const Backspace: string := "Backspace"

  /** "Backspace" is spelled with letters only, so the key pattern accepts it. */
  lemma BackspaceMatchesKeyPattern()
    ensures MatchesKeyPattern(Backspace)
  {
    assert forall i :: 0 <= i < |Backspace| ==> 'a' <= Backspace[i] <= 'z' || 'A' <= Backspace[i] <= 'Z';
  }

  /**
   * The label after one key-down: the pattern test comes first, the backspace
   * test second, and nothing happens unless the text tool is selected.
   * Because "Backspace" matches the pattern, the deletion branch is never
   * taken: every key that does not match the pattern is ignored.
   */
  function NextText(tool: Tool, text: string, key: string): (r: string)
    ensures r == if tool == Text && MatchesKeyPattern(key) then text + key else text
    ensures r == if tool == Text then text + Accepted(key) else text
  {
    BackspaceMatchesKeyPattern();
    if tool == Text then
      if MatchesKeyPattern(key) then text + key
      else if key == Backspace then DropLast(text)
      else text
    else text
  }

  /** Pressing backspace with the text tool appends the word "Backspace" instead of deleting. */
  lemma BackspaceAppendsItsName(text: string)
    ensures NextText(Text, text, Backspace) == text + "Backspace"
    ensures NextText(Text, text, Backspace) != DropLast(text)
  {
    BackspaceMatchesKeyPattern();
  }

  /** What one key-down appends with the text tool: the key name if it matches the pattern, else nothing. */
  function Accepted(key: string): string
  {
    if MatchesKeyPattern(key) then key else ""
  }

  /** The text a sequence of key-downs with the text tool appends: every matching key name, whole. */
  function Typed(keys: seq<string>): string
  {
    if keys == [] then "" else Accepted(keys[0]) + Typed(keys[1..])
  }
}
