/** Character and string helpers shared by the card codec and the screens.
    Kotlin's case folding, `isDigit` and `isWhitespace` are Unicode-aware;
    this model restricts all three to ASCII. */
module Text {

  /** ASCII upper-casing of one character (Kotlin's `uppercaseChar`). */
  function UpperChar(c: char): (u: char)
    ensures 'a' <= c <= 'z' ==> 'A' <= u <= 'Z'
    ensures !('a' <= c <= 'z') ==> u == c
  {
    if 'a' <= c <= 'z' then (c as int - 'a' as int + 'A' as int) as char else c
  }

  /** ASCII upper-casing of a string (Kotlin's `String.uppercase()`). */
  function Upper(s: string): (u: string)
    ensures |u| == |s|
    ensures forall i :: 0 <= i < |s| ==> u[i] == UpperChar(s[i])
  {
    if s == [] then [] else [UpperChar(s[0])] + Upper(s[1..])
  }

  /** Kotlin's `a.equals(b, ignoreCase = true)`: same length and every
      position agrees once both characters are upper-cased. */
  predicate EqualsIgnoreCase(a: string, b: string) {
    |a| == |b| && forall i :: 0 <= i < |a| ==> UpperChar(a[i]) == UpperChar(b[i])
  }

  /** Comparing ignoring case is the same as comparing the upper-cased strings. */
  lemma EqualsIgnoreCaseIsUpperEquality(a: string, b: string)
    ensures EqualsIgnoreCase(a, b) <==> Upper(a) == Upper(b)
  {
    if Upper(a) == Upper(b) {
      assert |a| == |b|;
      forall i | 0 <= i < |a| ensures UpperChar(a[i]) == UpperChar(b[i]) {
        assert Upper(a)[i] == Upper(b)[i];
      }
    }
  }

  /** Upper-casing a string that contains no lower-case letter leaves it as it is. */
  lemma UpperOfUpper(s: string)
    requires forall i :: 0 <= i < |s| ==> !('a' <= s[i] <= 'z')
    ensures Upper(s) == s
  {
  }

  /** Kotlin's `Char.isDigit()`, restricted to ASCII. */
  predicate IsDigit(c: char) {
    '0' <= c <= '9'
  }

  /** Kotlin's `Char.isWhitespace()`, restricted to ASCII: space, the five
      control characters tab to carriage return, and the four information
      separators U+001C to U+001F. */
  predicate IsWhitespace(c: char) {
    c == ' ' || '\t' <= c <= '\r' || '\U{1C}' <= c <= '\U{1F}'
  }

  /** Kotlin's `CharSequence.isNotBlank()`: some character is not whitespace. */
  predicate IsNotBlank(s: string) {
    exists i :: 0 <= i < |s| && !IsWhitespace(s[i])
  }

  /** Number of occurrences of `c` in `s`. */
  function Count(c: char, s: string): (n: nat)
    ensures n <= |s|
    ensures n == 0 <==> c !in s
  {
    if s == [] then 0 else (if s[0] == c then 1 else 0) + Count(c, s[1..])
  }

  /** Kotlin's `CharSequence.contains(other)`: `t` occurs in `s` as a contiguous block. */
  predicate ContainsSubstring(s: string, t: string) {
    exists i :: 0 <= i <= |s| - |t| && t <= s[i..]
  }

  /** Kotlin's `split(sep)` with a one-character separator: the maximal
      separator-free pieces, empty pieces included, so there is always one
      piece more than there are separators. */
  function Split(s: string, sep: char): (parts: seq<string>)
    ensures |parts| == Count(sep, s) + 1
    ensures forall k :: 0 <= k < |parts| ==> sep !in parts[k]
  {
    if s == [] then [[]]
    else
      var rest := Split(s[1..], sep);
      if s[0] == sep then [[]] + rest
      else [[s[0]] + rest[0]] + rest[1..]
  }

  /** Joining the pieces with the separator gives back the original string. */
  function Join(parts: seq<string>, sep: char): string
    requires |parts| >= 1
  {
    if |parts| == 1 then parts[0] else parts[0] + [sep] + Join(parts[1..], sep)
  }

  /** `Split` loses nothing: joining its pieces restores the input. */
  lemma {:induction false} SplitJoin(s: string, sep: char)
    ensures Join(Split(s, sep), sep) == s
  {
    if s != [] {
      var rest := Split(s[1..], sep);
      SplitJoin(s[1..], sep);
      if s[0] == sep {
        assert Split(s, sep)[1..] == rest;
      } else {
        if |rest| == 1 {
          assert Join(Split(s, sep), sep) == [s[0]] + rest[0];
        } else {
          assert Split(s, sep)[1..] == rest[1..];
          assert Join(rest, sep) == rest[0] + [sep] + Join(rest[1..], sep);
        }
      }
    }
  }

  /** A string with exactly one separator splits into the text before it and the text after it. */
  lemma SplitAtSingleSeparator(a: string, b: string, sep: char)
    requires sep !in a && sep !in b
    ensures Split(a + [sep] + b, sep) == [a, b]
  {
    var parts := Split(a + [sep] + b, sep);
    CountAppend(sep, a + [sep], b);
    CountAppend(sep, a, [sep]);
    assert |parts| == 2;
    SplitJoin(a + [sep] + b, sep);
    assert parts[0] + [sep] + parts[1] == a + [sep] + b;
    PieceSplitUnique(parts[0], parts[1], a, b, sep);
  }

  /** `Count` distributes over concatenation. */
  lemma {:induction false} CountAppend(c: char, s: string, t: string)
    ensures Count(c, s + t) == Count(c, s) + Count(c, t)
  {
    if s == [] {
      assert s + t == t;
    } else {
      assert (s + t)[1..] == s[1..] + t;
      CountAppend(c, s[1..], t);
    }
  }

  /** Two separator-free decompositions `x sep y` of the same string agree. */
  lemma PieceSplitUnique(x: string, y: string, a: string, b: string, sep: char)
    requires sep !in x && sep !in a
    requires x + [sep] + y == a + [sep] + b
    ensures x == a && y == b
  {
    var s := a + [sep] + b;
    assert s[|a|] == sep && s[|x|] == sep;
    assert forall i :: 0 <= i < |x| ==> s[i] == x[i];
    assert forall i :: 0 <= i < |a| ==> s[i] == a[i];
    assert |x| == |a|;
    assert x == s[..|x|];
    assert y == s[|x| + 1..];
  }
}
