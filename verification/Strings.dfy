/** Splitting, joining and trimming strings, as Rust's `str` does. */
module Strings {

  predicate Free(s: string, c: char) {
    c !in s
  }

  /** `str::split` on one character. */
  function Split(s: string, sep: char): (parts: seq<string>)
    ensures |parts| > 0
  {
    if |s| == 0 then [""]
    else
      var front, c := Split(s[..|s| - 1], sep), s[|s| - 1];
      if c == sep then front + [""]
      else front[..|front| - 1] + [front[|front| - 1] + [c]]
  }

  /** `join` */
  function Join(parts: seq<string>, sep: string): (s: string) {
    if |parts| == 0 then ""
    else if |parts| == 1 then parts[0]
    else Join(parts[..|parts| - 1], sep) + sep + parts[|parts| - 1]
  }

  predicate AllFree(parts: seq<string>, c: char) {
    forall i :: 0 <= i < |parts| ==> Free(parts[i], c)
  }

  lemma {:induction false} SplitPartsFree(s: string, sep: char)
    ensures AllFree(Split(s, sep), sep)
  {
    if |s| > 0 {
      SplitPartsFree(s[..|s| - 1], sep);
    }
  }

  lemma {:induction false} SplitAppend(s: string, sep: char, last: string)
    requires Free(last, sep)
    ensures Split(s + [sep] + last, sep) == Split(s, sep) + [last]
  {
    var whole := s + [sep] + last;
    if |last| == 0 {
      assert whole[..|whole| - 1] == s;
    } else {
      SplitAppend(s, sep, last[..|last| - 1]);
      assert whole[..|whole| - 1] == s + [sep] + last[..|last| - 1];
      assert last[..|last| - 1] + [last[|last| - 1]] == last;
    }
  }

  lemma {:induction false} SplitFree(s: string, sep: char)
    requires Free(s, sep)
    ensures Split(s, sep) == [s]
  {
    if |s| > 0 {
      SplitFree(s[..|s| - 1], sep);
      assert s[..|s| - 1] + [s[|s| - 1]] == s;
    }
  }

  /** Splitting undoes joining, for a non-empty list of parts without the separator. */
  lemma {:induction false} SplitJoin(parts: seq<string>, sep: char)
    requires |parts| > 0 && AllFree(parts, sep)
    ensures Split(Join(parts, [sep]), sep) == parts
  {
    if |parts| == 1 {
      SplitFree(parts[0], sep);
    } else {
      SplitJoin(parts[..|parts| - 1], sep);
      SplitAppend(Join(parts[..|parts| - 1], [sep]), sep, parts[|parts| - 1]);
    }
  }

  /** `char::is_whitespace`: the White_Space characters of Unicode. */
  predicate IsWhitespace(c: char) {
    var n := c as int;
    || 0x09 <= n <= 0x0D || n == 0x20 || n == 0x85 || n == 0xA0 || n == 0x1680
    || 0x2000 <= n <= 0x200A || n == 0x2028 || n == 0x2029 || n == 0x202F || n == 0x205F || n == 0x3000
  }

  function TrimStart(s: string): (r: string)
    ensures |r| <= |s| && r == s[|s| - |r|..]
    ensures |r| > 0 ==> !IsWhitespace(r[0])
  {
    if |s| > 0 && IsWhitespace(s[0]) then TrimStart(s[1..]) else s
  }

  function TrimEnd(s: string): (r: string)
    ensures r <= s
    ensures |r| > 0 ==> !IsWhitespace(r[|r| - 1])
  {
    if |s| > 0 && IsWhitespace(s[|s| - 1]) then TrimEnd(s[..|s| - 1]) else s
  }

  /** `str::trim` */
  function Trim(s: string): (r: string)
    ensures |r| > 0 ==> !IsWhitespace(r[0]) && !IsWhitespace(r[|r| - 1])
    ensures forall c :: c in r ==> c in s
  {
    TrimEnd(TrimStart(s))
  }

  predicate Trimmed(s: string) {
    |s| > 0 ==> !IsWhitespace(s[0]) && !IsWhitespace(s[|s| - 1])
  }

  /** `str::split_whitespace` */
  function Words(s: string): (words: seq<string>)
    ensures |s| > 0 && !IsWhitespace(s[|s| - 1]) ==> |words| > 0
  {
    if |s| == 0 then []
    else
      var front, c := s[..|s| - 1], s[|s| - 1];
      var words := Words(front);
      if IsWhitespace(c) then words
      else if |front| > 0 && !IsWhitespace(front[|front| - 1]) then
        words[..|words| - 1] + [words[|words| - 1] + [c]]
      else words + [[c]]
  }

  predicate IsWord(s: string) {
    |s| > 0 && forall i :: 0 <= i < |s| ==> !IsWhitespace(s[i])
  }

  predicate AllWords(words: seq<string>) {
    forall i :: 0 <= i < |words| ==> IsWord(words[i])
  }

  lemma WordsSnoc(front: string, c: char)
    ensures Words(front + [c]) ==
            if IsWhitespace(c) then Words(front)
            else if |front| > 0 && !IsWhitespace(front[|front| - 1]) then
              Words(front)[..|Words(front)| - 1] + [Words(front)[|Words(front)| - 1] + [c]]
            else Words(front) + [[c]]
  {
    hide IsWhitespace;
    assert (front + [c])[..|front|] == front;
  }

  lemma {:induction false} WordsAppend(s: string, word: string)
    requires IsWord(word) && (|s| > 0 ==> IsWhitespace(s[|s| - 1]))
    ensures Words(s + word) == Words(s) + [word]
  {
    hide IsWhitespace;
    hide Words;
    var front, c := word[..|word| - 1], word[|word| - 1];
    assert word == front + [c];
    assert s + word == (s + front) + [c];
    WordsSnoc(s + front, c);
    if |front| == 0 {
      assert s + front == s && word == [c];
    } else {
      WordsAppend(s, front);
    }
  }

  /** The words of words joined by spaces are those words. */
  lemma {:induction false} WordsJoin(words: seq<string>)
    requires AllWords(words)
    ensures Words(Join(words, " ")) == words
  {
    if |words| == 0 {
    } else if |words| == 1 {
      WordsAppend("", words[0]);
      assert "" + words[0] == words[0];
    } else {
      var front, last := words[..|words| - 1], words[|words| - 1];
      WordsJoin(front);
      var s := Join(front, " ") + " ";
      assert s[..|s| - 1] == Join(front, " ");
      WordsAppend(s, last);
    }
  }

  predicate IsBlank(s: string) {
    forall i :: 0 <= i < |s| ==> IsWhitespace(s[i])
  }

  lemma TrimStartCons(c: char, s: string)
    requires IsWhitespace(c)
    ensures TrimStart([c] + s) == TrimStart(s)
  {
    hide IsWhitespace;
    assert ([c] + s)[1..] == s;
  }

  lemma {:induction false} TrimStartSkips(blank: string, s: string)
    requires IsBlank(blank) && (|s| > 0 ==> !IsWhitespace(s[0]))
    ensures TrimStart(blank + s) == s
  {
    hide IsWhitespace;
    if |blank| == 0 {
      assert blank + s == s;
    } else {
      var rest := blank[1..];
      TrimStartSkips(rest, s);
      hide TrimStart;
      TrimStartCons(blank[0], rest + s);
      assert blank + s == [blank[0]] + (rest + s);
    }
  }

  lemma TrimEndSnoc(s: string, c: char)
    requires IsWhitespace(c)
    ensures TrimEnd(s + [c]) == TrimEnd(s)
  {
    hide IsWhitespace;
    assert (s + [c])[..|s|] == s;
  }

  lemma {:induction false} TrimEndSkips(s: string, blank: string)
    requires IsBlank(blank) && (|s| > 0 ==> !IsWhitespace(s[|s| - 1]))
    ensures TrimEnd(s + blank) == s
  {
    hide IsWhitespace;
    if |blank| == 0 {
      assert s + blank == s;
    } else {
      var front := blank[..|blank| - 1];
      TrimEndSkips(s, front);
      hide TrimEnd;
      TrimEndSnoc(s + front, blank[|blank| - 1]);
      assert s + blank == (s + front) + [blank[|blank| - 1]];
    }
  }

  lemma {:induction false} TrimStartBlank(s: string)
    requires IsBlank(s)
    ensures TrimStart(s) == ""
  {
    hide IsWhitespace;
    if |s| > 0 {
      TrimStartBlank(s[1..]);
    }
  }

  /** Trimming removes the blanks around a trimmed string. */
  lemma TrimPadded(before: string, s: string, after: string)
    requires IsBlank(before) && IsBlank(after) && Trimmed(s)
    ensures Trim(before + s + after) == s
  {
    hide IsWhitespace;
    if |s| == 0 {
      assert IsBlank(before + s + after);
      TrimStartBlank(before + s + after);
    } else {
      assert before + s + after == before + (s + after);
      TrimStartSkips(before, s + after);
      TrimEndSkips(s, after);
    }
  }
}
