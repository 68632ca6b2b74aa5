/** Lists of strings in HTTP headers: printed with commas, parsed by splitting and trimming. */
module HeaderList {
  import opened Wrappers
  import opened Strings

  /** A character `HeaderValue::to_str` reads. */
  predicate Visible(c: char) {
    c == '\t' || ' ' <= c <= '~'
  }

  /** A character `HeaderValue::from_str` accepts. */
  predicate Accepted(c: char) {
    c == '\t' || (' ' <= c && c as int != 0x7F)
  }

  predicate AllVisible(s: string) {
    forall i :: 0 <= i < |s| ==> Visible(s[i])
  }

  predicate AllAccepted(s: string) {
    forall i :: 0 <= i < |s| ==> Accepted(s[i])
  }

  /** The trimmed parts that are not empty. */
  function Keep(parts: seq<string>): (items: seq<string>) {
    if |parts| == 0 then []
    else
      var item := Trim(parts[|parts| - 1]);
      Keep(parts[..|parts| - 1]) + if |item| == 0 then [] else [item]
  }

  function Parse(text: string): (items: seq<string>) {
    Keep(Split(text, ','))
  }

  datatype Error = NotReadable | NotWritable

  /** `TryFrom<HeaderValue>` */
  function FromHeader(header: string): (r: Result<seq<string>, Error>) {
    if AllVisible(header) then Ok(Parse(header)) else Err(NotReadable)
  }

  /** `TryFrom<IntoHeaderValue<Vec<String>>>` */
  function ToHeader(items: seq<string>): (r: Result<string, Error>) {
    var text := Join(items, ", ");
    if AllAccepted(text) then Ok(text) else Err(NotWritable)
  }

  /** An item that survives: not empty, trimmed, without commas. */
  predicate Clean(item: string) {
    |item| > 0 && Trimmed(item) && Free(item, ',')
  }

  predicate AllClean(items: seq<string>) {
    forall i :: 0 <= i < |items| ==> Clean(items[i])
  }

  /** The items as they stand between the commas: a space before each but the first. */
  function Spaced(items: seq<string>): (parts: seq<string>)
    ensures |parts| == |items|
  {
    if |items| == 0 then []
    else Spaced(items[..|items| - 1]) + [if |items| == 1 then items[0] else " " + items[|items| - 1]]
  }

  lemma {:induction false} JoinSpaced(items: seq<string>)
    ensures Join(items, ", ") == Join(Spaced(items), ",")
  {
    if |items| > 0 {
      var front := items[..|items| - 1];
      JoinSpaced(front);
      assert Spaced(items)[..|items| - 1] == Spaced(front);
    }
  }

  lemma {:induction false} SpacedFree(items: seq<string>)
    requires AllFree(items, ',')
    ensures AllFree(Spaced(items), ',')
  {
    if |items| > 0 {
      SpacedFree(items[..|items| - 1]);
    }
  }

  lemma TrimClean(item: string)
    requires Trimmed(item)
    ensures Trim(item) == item && Trim(" " + item) == item
  {
    assert (" " + item)[1..] == item;
    assert TrimStart(" " + item) == TrimStart(item);
  }

  lemma {:induction false} KeepSpaced(items: seq<string>)
    requires AllClean(items)
    ensures Keep(Spaced(items)) == items
  {
    hide Trim;
    if |items| > 0 {
      var front := items[..|items| - 1];
      KeepSpaced(front);
      TrimClean(items[|items| - 1]);
      assert Spaced(items)[..|items| - 1] == Spaced(front);
    }
  }

  lemma ParsePrint(items: seq<string>)
    requires AllClean(items)
    ensures Parse(Join(items, ", ")) == items
  {
    if |items| == 0 {
      assert Split("", ',') == [""];
      assert Keep([""]) == Keep([""][..0]) + [];
    } else {
      JoinSpaced(items);
      assert AllFree(items, ',');
      SpacedFree(items);
      SplitJoin(Spaced(items), ',');
      KeepSpaced(items);
    }
  }

  lemma TrimIsClean(part: string)
    requires Free(part, ',')
    ensures |Trim(part)| == 0 || Clean(Trim(part))
  {
  }

  lemma {:induction false} KeepClean(parts: seq<string>)
    requires AllFree(parts, ',')
    ensures AllClean(Keep(parts))
  {
    hide Trim;
    hide Clean;
    hide Free;
    if |parts| > 0 {
      KeepClean(parts[..|parts| - 1]);
      TrimIsClean(parts[|parts| - 1]);
    }
  }

  /** Every list a header parses to is clean. */
  lemma ParseIsClean(text: string)
    ensures AllClean(Parse(text))
  {
    SplitPartsFree(text, ',');
    KeepClean(Split(text, ','));
  }

  predicate Chars(items: seq<string>, text: string) {
    forall i, c :: 0 <= i < |items| && c in items[i] ==> c in text
  }

  lemma {:induction false} SplitChars(s: string, sep: char)
    ensures Chars(Split(s, sep), s)
  {
    if |s| > 0 {
      var front, c := s[..|s| - 1], s[|s| - 1];
      SplitChars(front, sep);
      assert s == front + [c];
      assert Chars(Split(front, sep), s);
      var parts, before := Split(s, sep), Split(front, sep);
      forall i, x | 0 <= i < |parts| && x in parts[i] ensures x in s {
        if i < |before| - 1 { assert parts[i] == before[i]; }
        else if i == |before| - 1 { assert parts[i] == before[i] || parts[i] == before[i] + [c]; }
      }
    }
  }

  lemma {:induction false} KeepChars(parts: seq<string>, text: string)
    requires Chars(parts, text)
    ensures Chars(Keep(parts), text)
  {
    if |parts| > 0 {
      var last := parts[|parts| - 1];
      KeepChars(parts[..|parts| - 1], text);
      assert forall c :: c in Trim(last) ==> c in text;
    }
  }

  lemma {:induction false} JoinVisible(items: seq<string>)
    ensures AllVisible(Join(items, ", ")) <==> forall i :: 0 <= i < |items| ==> AllVisible(items[i])
  {
    if |items| > 1 {
      var front, last := items[..|items| - 1], items[|items| - 1];
      JoinVisible(front);
      var head := Join(front, ", ") + ", ";
      var whole := head + last;
      assert AllVisible(whole) <==> AllVisible(head) && AllVisible(last) by { VisibleConcat(head, last); }
      assert AllVisible(head) <==> AllVisible(Join(front, ", ")) && AllVisible(", ") by { VisibleConcat(Join(front, ", "), ", "); }
      assert forall i :: 0 <= i < |items| ==> items[i] == if i < |front| then front[i] else last;
    }
  }

  lemma VisibleConcat(a: string, b: string)
    ensures AllVisible(a + b) <==> AllVisible(a) && AllVisible(b)
  {
    assert forall i :: 0 <= i < |a| ==> (a + b)[i] == a[i];
    assert forall i :: 0 <= i < |b| ==> (a + b)[|a| + i] == b[i];
  }

  lemma VisibleIsAccepted(s: string)
    ensures AllVisible(s) ==> AllAccepted(s)
  {
  }

  /** Parsing what was printed gives the list back exactly when every item is clean and visible. */
  lemma HeaderRoundTrip(items: seq<string>)
    ensures (ToHeader(items).Ok? && FromHeader(ToHeader(items).value) == Ok(items))
            <==> (AllClean(items) && forall i :: 0 <= i < |items| ==> AllVisible(items[i]))
  {
    hide AllVisible;
    hide AllAccepted;
    hide AllClean;
    hide Parse;
    hide Join;
    JoinVisible(items);
    VisibleIsAccepted(Join(items, ", "));
    ParseIsClean(Join(items, ", "));
    if AllClean(items) {
      ParsePrint(items);
    }
  }

  lemma ItemVisible(item: string, text: string)
    requires AllVisible(text) && forall c :: c in item ==> c in text
    ensures AllVisible(item)
  {
    forall j | 0 <= j < |item| ensures Visible(item[j]) {
      assert item[j] in text;
    }
  }

  /** Every header that parses is stable: print and parse again, and the list is the same. */
  lemma ParsePrintParse(header: string)
    requires FromHeader(header).Ok?
    ensures var items := FromHeader(header).value;
            ToHeader(items).Ok? && FromHeader(ToHeader(items).value) == Ok(items)
  {
    hide AllVisible;
    hide AllAccepted;
    hide AllClean;
    hide Keep;
    hide Split;
    hide Join;
    var items := Parse(header);
    ParseIsClean(header);
    SplitChars(header, ',');
    KeepChars(Split(header, ','), header);
    forall i | 0 <= i < |items| ensures AllVisible(items[i]) {
      ItemVisible(items[i], header);
    }
    HeaderRoundTrip(items);
  }

  // ---- The text itself.

  predicate IsTabOrGraphic(c: char) {
    c as int == 9 || 32 <= c as int <= 126
  }

  predicate IsNoControl(c: char) {
    c as int == 9 || (32 <= c as int && c as int != 127)
  }

  /** A header can be read when it has only tabs and visible ASCII. */
  lemma ReadableExactly(header: string)
    ensures FromHeader(header).Ok? <==> forall i :: 0 <= i < |header| ==> IsTabOrGraphic(header[i])
  {
    hide Parse;
    assert forall c :: Visible(c) <==> IsTabOrGraphic(c);
  }

  lemma AcceptedExactly(text: string)
    ensures AllAccepted(text) <==> forall i :: 0 <= i < |text| ==> IsNoControl(text[i])
  {
    assert forall c :: Accepted(c) <==> IsNoControl(c);
  }

  lemma AcceptedConcat(a: string, b: string)
    ensures AllAccepted(a + b) <==> AllAccepted(a) && AllAccepted(b)
  {
    hide Accepted;
    assert forall i :: 0 <= i < |a| ==> (a + b)[i] == a[i];
    assert forall i :: 0 <= i < |b| ==> (a + b)[|a| + i] == b[i];
  }

  /** The first item is written as it is and each further one after a comma and a space, as long as
      no control character but a tab is in it. */
  lemma WrittenExactly(items: seq<string>, item: string)
    ensures ToHeader([]) == Ok("")
    ensures ToHeader([item]) == if forall i :: 0 <= i < |item| ==> IsNoControl(item[i]) then Ok(item) else Err(NotWritable)
    ensures |items| > 0 && ToHeader(items).Ok? ==>
              ToHeader(items + [item]) == if ToHeader([item]).Ok? then Ok(ToHeader(items).value + ", " + item) else Err(NotWritable)
  {
    hide Accepted;
    hide IsNoControl;
    assert (items + [item])[..|items|] == items;
    AcceptedExactly(item);
    if |items| > 0 {
      var text := Join(items, ", ");
      SeparatorAccepted();
      hide AllAccepted;
      AcceptedConcat(text, ", ");
      AcceptedConcat(text + ", ", item);
    }
  }

  lemma SeparatorAccepted()
    ensures AllAccepted(", ")
  {
  }

  /** What follows a comma is read as one more item, without the blanks around it, and not at all
      when it is blank. */
  lemma ItemIsRead(text: string, item: string, before: string, after: string)
    requires IsBlank(before) && IsBlank(after) && Trimmed(item) && Free(before + item + after, ',')
    ensures Parse(text + "," + (before + item + after)) == Parse(text) + if item == "" then [] else [item]
  {
    hide Split;
    hide Trim;
    hide IsBlank;
    hide Trimmed;
    var last := before + item + after;
    SplitAppend(text, ',', last);
    var parts := Split(text, ',');
    assert (parts + [last])[..|parts|] == parts;
    TrimPadded(before, item, after);
  }
}
