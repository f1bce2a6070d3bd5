/**
 * The settings form: the label shown for a setting key (`formatSettingName`)
 * and the switch that edits the visibility setting.
 */
module SettingsForm {
  import opened Wrappers
  import opened Text
  import opened Domain
  import Settings

  /** `s.split(sep)`: the pieces between separators; there is always at least one. */
  function Split(s: string, sep: char): (r: seq<string>)
    ensures |r| >= 1
  {
    if s == [] then [""]
    else
      var rest := Split(s[1..], sep);
      if s[0] == sep then [""] + rest
      else [[s[0]] + rest[0]] + rest[1..]
  }

  /** `words.join(sep)`. */
  function Join(words: seq<string>, sep: char): string {
    if |words| == 0 then ""
    else if |words| == 1 then words[0]
    else words[0] + [sep] + Join(words[1..], sep)
  }

  /** `word.charAt(0) + word.slice(1).toLowerCase()`. */
  function FormatWord(w: string): string {
    if w == [] then "" else [w[0]] + Lower(w[1..])
  }

  function FormatWords(words: seq<string>): (r: seq<string>)
    ensures |r| == |words| && forall i :: 0 <= i < |words| ==> r[i] == FormatWord(words[i])
  {
    seq(|words|, i requires 0 <= i < |words| => FormatWord(words[i]))
  }

  /**
   * The same conversion one character at a time: an underscore becomes a
   * space, the first character of each word is kept, the others are
   * lower-cased. `atWordStart` says whether the next character starts a word.
   */
  function ByChar(s: string, atWordStart: bool): (r: string)
    ensures |r| == |s|
  {
    if s == [] then []
    else if s[0] == '_' then [' '] + ByChar(s[1..], true)
    else [if atWordStart then s[0] else LowerChar(s[0])] + ByChar(s[1..], false)
  }

  /** The label for a list of words: each formatted, joined by spaces. */
  function Formatted(words: seq<string>): string {
    Join(FormatWords(words), ' ')
  }

  /** What `Join` adds after the first formatted word. */
  function JoinRest(words: seq<string>): string
    requires |words| >= 1
  {
    if |words| == 1 then "" else [' '] + Formatted(words[1..])
  }

  lemma JoinFirst(words: seq<string>)
    requires |words| >= 1
    ensures Formatted(words) == FormatWord(words[0]) + JoinRest(words)
  {
    if |words| > 1 {
      assert FormatWords(words)[1..] == FormatWords(words[1..]);
    }
  }

  /** The step of `SplitFormatJoin` for a key that starts with an underscore. */
  lemma SplitFormatJoinSeparator(s: string)
    requires s != [] && s[0] == '_'
    requires Formatted(Split(s[1..], '_')) == ByChar(s[1..], true)
    ensures Formatted(Split(s, '_')) == ByChar(s, true)
    ensures ByChar(s, false) == Lower(Split(s, '_')[0]) + JoinRest(Split(s, '_'))
  {
    var words := Split(s, '_');
    var rest := Split(s[1..], '_');
    assert words == [""] + rest;
    assert words[1..] == rest;
    JoinFirst(words);
  }

  /** `Split` on a key that starts with a character other than the separator. */
  lemma SplitLetter(s: string)
    requires s != [] && s[0] != '_'
    ensures Split(s, '_')[0] == [s[0]] + Split(s[1..], '_')[0]
    ensures |Split(s, '_')| == |Split(s[1..], '_')|
    ensures JoinRest(Split(s, '_')) == JoinRest(Split(s[1..], '_'))
  {
    var words := Split(s, '_');
    var rest := Split(s[1..], '_');
    assert words[1..] == rest[1..];
  }

  /** `ByChar` on a key that starts with a character other than the separator. */
  lemma ByCharLetter(s: string)
    requires s != [] && s[0] != '_'
    ensures ByChar(s, true) == [s[0]] + ByChar(s[1..], false)
    ensures ByChar(s, false) == [LowerChar(s[0])] + ByChar(s[1..], false)
  {
  }

  /** Formatting and lower-casing a word split into its first character and the rest. */
  lemma WordLetter(c: char, rest: string)
    ensures FormatWord([c] + rest) == [c] + Lower(rest)
    ensures Lower([c] + rest) == [LowerChar(c)] + Lower(rest)
  {
    assert ([c] + rest)[1..] == rest;
  }

  lemma ConcatAssoc(a: string, b: string, c: string)
    ensures (a + b) + c == a + (b + c)
  {
  }

  /** The first half of the step of `SplitFormatJoin` for a key that starts with another character. */
  lemma SplitFormatJoinLetterStart(s: string)
    requires s != [] && s[0] != '_'
    requires ByChar(s[1..], false) == Lower(Split(s[1..], '_')[0]) + JoinRest(Split(s[1..], '_'))
    ensures Formatted(Split(s, '_')) == ByChar(s, true)
  {
    var first := Split(s[1..], '_')[0];
    SplitLetter(s);
    JoinFirst(Split(s, '_'));
    WordLetter(s[0], first);
    ByCharLetter(s);
    ConcatAssoc([s[0]], Lower(first), JoinRest(Split(s[1..], '_')));
  }

  /** The second half of the step of `SplitFormatJoin` for a key that starts with another character. */
  lemma SplitFormatJoinLetterInside(s: string)
    requires s != [] && s[0] != '_'
    requires ByChar(s[1..], false) == Lower(Split(s[1..], '_')[0]) + JoinRest(Split(s[1..], '_'))
    ensures ByChar(s, false) == Lower(Split(s, '_')[0]) + JoinRest(Split(s, '_'))
  {
    var first := Split(s[1..], '_')[0];
    SplitLetter(s);
    WordLetter(s[0], first);
    ByCharLetter(s);
    ConcatAssoc([LowerChar(s[0])], Lower(first), JoinRest(Split(s[1..], '_')));
  }

  /**
   * Splitting, formatting each word and joining agrees with the
   * character-by-character conversion, from the start of a word and from
   * inside one.
   */
  lemma {:induction false} SplitFormatJoin(s: string)
    ensures Formatted(Split(s, '_')) == ByChar(s, true)
    ensures ByChar(s, false) == Lower(Split(s, '_')[0]) + JoinRest(Split(s, '_'))
  {
    if s == [] {
      JoinFirst(Split(s, '_'));
    } else {
      SplitFormatJoin(s[1..]);
      if s[0] == '_' {
        SplitFormatJoinSeparator(s);
      } else {
        SplitFormatJoinLetterStart(s);
        SplitFormatJoinLetterInside(s);
      }
    }
  }

  /** Whether position `i` of `s` starts a word. */
  predicate StartsWord(s: string, i: int, atWordStart: bool)
    requires 0 <= i < |s|
  {
    if i == 0 then atWordStart else s[i - 1] == '_'
  }

  /** The character the conversion puts at position `i`. */
  function CharAt(s: string, i: int, atWordStart: bool): char
    requires 0 <= i < |s|
  {
    if s[i] == '_' then ' ' else if StartsWord(s, i, atWordStart) then s[i] else LowerChar(s[i])
  }

  /** Each output character, from the input character and the one before it. */
  lemma {:induction false} ByCharPointwise(s: string, atWordStart: bool)
    ensures forall i :: 0 <= i < |s| ==> ByChar(s, atWordStart)[i] == CharAt(s, i, atWordStart)
  {
    if s != [] {
      var next := s[0] == '_';
      ByCharPointwise(s[1..], next);
      forall i | 1 <= i < |s|
        ensures ByChar(s, atWordStart)[i] == CharAt(s, i, atWordStart)
      {
        assert ByChar(s, atWordStart)[i] == ByChar(s[1..], next)[i - 1];
        assert CharAt(s[1..], i - 1, next) == CharAt(s, i, atWordStart);
      }
    }
  }

  /**
   * `formatSettingName`: as long as the key; every underscore becomes a
   * space (consecutive ones included); the first character of each word is
   * kept as it is and the rest are lower-cased.
   */
  function FormatSettingName(key: string): (r: string)
    ensures |r| == |key|
    ensures forall i :: 0 <= i < |key| ==>
      r[i] == if key[i] == '_' then ' '
              else if i == 0 || key[i - 1] == '_' then key[i]
              else LowerChar(key[i])
    ensures forall i :: 0 <= i < |r| ==> r[i] != '_'
  {
    SplitFormatJoin(key);
    ByCharPointwise(key, true);
    Formatted(Split(key, '_'))
  }

  lemma FormatEmptyKey()
    ensures FormatSettingName("") == ""
  {
  }

  /** The switch is on exactly when the stored value is "true". */
  function IsChecked(value: string): bool {
    value == "true"
  }

  /** `checked.toString()`. */
  function SwitchValue(checked: bool): (v: string)
    ensures v == "true" || v == "false"
  {
    if checked then "true" else "false"
  }

  /** Writing the switch and reading it back gives the same position, and the reverse holds for "true" and "false". */
  lemma SwitchRoundTrip(checked: bool, value: string)
    ensures IsChecked(SwitchValue(checked)) == checked
    ensures SwitchValue(IsChecked(value)) == value <==> value == "true" || value == "false"
  {
  }

  /** The value the switch writes is exactly what turns visibility of all requests on or off. */
  lemma SwitchDrivesVisibility(settings: map<Id, Setting>, id: Id, checked: bool)
    requires SettingsConsistent(settings)
    requires id in settings && settings[id].key == Settings.AllRequestsVisibleKey
    requires settings[id].value == SwitchValue(checked)
    ensures Settings.ShowAllRequests(settings) == checked
  {
  }
}
