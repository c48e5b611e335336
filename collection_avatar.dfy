/**
 * `getShortName`, the avatar fallback text: the upper-cased first character
 * of every space-separated part of the name.
 */
module CollectionAvatar {
  import opened Wrappers

  /** The thumbnail size of an avatar when none is given. */
  const DEFAULT_SIZE := 9

  /** The number of occurrences of `c` in `s`. */
  function Count(s: string, c: char): nat {
    if s == [] then 0 else (if s[0] == c then 1 else 0) + Count(s[1..], c)
  }

  /** `parts.join(sep)`. */
  function Join(parts: seq<string>, sep: char): string
    requires |parts| >= 1
  {
    if |parts| == 1 then parts[0] else parts[0] + [sep] + Join(parts[1..], sep)
  }

  /** `s.split(sep)` for a one-character separator: empty parts are kept. */
  function Split(s: string, sep: char): (parts: seq<string>)
    ensures |parts| == Count(s, sep) + 1
    ensures forall i :: 0 <= i < |parts| ==> sep !in parts[i]
    ensures Join(parts, sep) == s
  {
    if s == [] then [""]
    else if s[0] == sep then
      var rest := Split(s[1..], sep);
      assert s == [sep] + s[1..];
      [""] + rest
    else
      var rest := Split(s[1..], sep);
      assert s == [s[0]] + s[1..];
      var parts := [[s[0]] + rest[0]] + rest[1..];
      assert parts[1..] == rest[1..];
      assert |rest| > 1 ==> rest == [rest[0]] + rest[1..];
      parts
  }

  /** `p[0]?.toUpperCase()` joined as text: an empty part gives `''`. */
  function Initial(p: string, upper: char -> string): string {
    if p == [] then "" else upper(p[0])
  }

  function Initials(parts: seq<string>, upper: char -> string): (r: string)
    ensures (forall c :: |upper(c)| <= 1) ==> |r| <= |parts|
  {
    if parts == [] then "" else Initial(parts[0], upper) + Initials(parts[1..], upper)
  }

  /** `getShortName(name)`; `upper` is JavaScript's `toUpperCase` on one character. */
  function ShortName(name: Option<string>, upper: char -> string): (r: string)
    ensures name.None? ==> r == "??"
    ensures name == Some("") ==> r == ""
    ensures name.Some? && (forall c :: |upper(c)| <= 1) ==> |r| <= Count(name.value, ' ') + 1
  {
    match name
    case None => "??"
    case Some(s) =>
      var parts := Split(s, ' ');
      assert s == "" ==> parts == [""] && Initials(parts, upper) == "" + Initials(parts[1..], upper);
      Initials(parts, upper)
  }

  /** A name of one word gives the upper-cased first letter; `Ada Lovelace` gives the two initials. */
  lemma {:induction false} ShortNameOfWords(first: string, second: string, upper: char -> string)
    requires first != [] && second != [] && ' ' !in first && ' ' !in second
    ensures ShortName(Some(first), upper) == upper(first[0])
    ensures ShortName(Some(first + " " + second), upper) == upper(first[0]) + upper(second[0])
  {
    SplitWithout(first);
    ShortNameOfJoin([first, second], upper);
    assert Join([first, second], ' ') == first + " " + second;
    assert Initials([second], upper) == upper(second[0]) + Initials([], upper);
  }

  lemma {:induction false} SplitWithout(s: string)
    requires ' ' !in s
    ensures Split(s, ' ') == [s]
  {
    if s != [] {
      SplitWithout(s[1..]);
      assert [s[0]] + s[1..] == s;
    }
  }

  /** Splitting at the first space of `a + " " + b`, where `a` has none. */
  lemma {:induction false} SplitCons(a: string, b: string)
    requires ' ' !in a
    ensures Split(a + " " + b, ' ') == [a] + Split(b, ' ')
  {
    if a == [] {
      assert a + " " + b == [' '] + b;
      assert ([' '] + b)[1..] == b;
    } else {
      assert (a + " " + b)[1..] == a[1..] + " " + b;
      SplitCons(a[1..], b);
      assert [a[0]] + a[1..] == a;
    }
  }

  /** Splitting the words joined by spaces gives the words back, when none holds a space. */
  lemma {:induction false} SplitJoin(words: seq<string>)
    requires |words| >= 1 && forall i :: 0 <= i < |words| ==> ' ' !in words[i]
    ensures Split(Join(words, ' '), ' ') == words
  {
    if |words| == 1 {
      SplitWithout(words[0]);
    } else {
      SplitJoin(words[1..]);
      SplitCons(words[0], Join(words[1..], ' '));
      assert [words[0]] + words[1..] == words;
    }
  }

  /**
   * The short name of words joined by single spaces is the upper-cased first
   * character of each word in turn, and nothing for an empty word.
   */
  lemma ShortNameOfJoin(words: seq<string>, upper: char -> string)
    requires |words| >= 1 && forall i :: 0 <= i < |words| ==> ' ' !in words[i]
    ensures ShortName(Some(Join(words, ' ')), upper) == Initials(words, upper)
  {
    SplitJoin(words);
  }
}
