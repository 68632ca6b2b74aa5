/** The parser of `/proc/[pid]/stat`, whose format proc(5) describes. */
module ProcStat {
  import opened Wrappers
  import opened Strings
  import opened Decimal

  const U64_MAX: int := 0xFFFF_FFFF_FFFF_FFFF
  const I64_MAX: int := 0x7FFF_FFFF_FFFF_FFFF

  datatype Stat = Stat(cpuTicks: int, threads: int, rssPages: int)

  /** `rfind(')')` */
  function LastParen(s: string): (r: Option<nat>)
    ensures r.Some? ==> r.value < |s| && s[r.value] == ')'
    ensures forall j :: (if r.Some? then r.value else -1) < j < |s| ==> s[j] != ')'
  {
    if |s| == 0 then None
    else if s[|s| - 1] == ')' then Some(|s| - 1)
    else LastParen(s[..|s| - 1])
  }

  function Saturated(n: int): (r: int) {
    if n > U64_MAX then U64_MAX else n
  }

  function FromFields(fields: seq<string>): (r: Option<Stat>) {
    if |fields| < 22 then None
    else
      match (ParseBounded(fields[11], 0, U64_MAX), ParseBounded(fields[12], 0, U64_MAX),
             ParseBounded(fields[17], -I64_MAX - 1, I64_MAX), ParseBounded(fields[21], 0, U64_MAX))
      case (Some(utime), Some(stime), Some(threads), Some(rss)) =>
        Some(Stat(Saturated(utime + stime), if threads < 1 then 1 else threads, rss))
      case _ => None
  }

  /** `proc_stat::parse`. The fields start two bytes after the last parenthesis, which must be
      where a character starts: the character between is one byte wide. */
  function Parse(content: string): (r: Option<Stat>) {
    match LastParen(content)
    case None => None
    case Some(paren) =>
      if paren + 2 > |content| || content[paren + 1] as int >= 0x80 then None
      else FromFields(Words(content[paren + 2..]))
  }

  /** A line of the file: any command name, then fields without parentheses. */
  function Line(pid: nat, comm: string, fields: seq<string>): (s: string) {
    PrintNat(pid) + " (" + comm + ") " + Join(fields, " ") + "\n"
  }

  lemma {:induction false} JoinFree(parts: seq<string>, sep: string, c: char)
    requires AllFree(parts, c) && Free(sep, c)
    ensures Free(Join(parts, sep), c)
  {
    if |parts| > 0 {
      assert Free(parts[|parts| - 1], c);
    }
    if |parts| > 1 {
      JoinFree(parts[..|parts| - 1], sep, c);
    }
  }

  lemma {:induction false} LastParenIs(front: string, rest: string)
    requires Free(rest, ')')
    ensures LastParen(front + ")" + rest) == Some(|front|)
  {
    var s := front + ")" + rest;
    if |rest| == 0 {
      assert s[|s| - 1] == ')';
    } else {
      LastParenIs(front, rest[..|rest| - 1]);
      assert s[..|s| - 1] == front + ")" + rest[..|rest| - 1];
      assert s[|s| - 1] == rest[|rest| - 1];
    }
  }

  lemma ParseAfterParen(front: string, rest: string)
    requires Free(rest, ')')
    ensures Parse(front + ") " + rest) == FromFields(Words(rest))
  {
    hide LastParen;
    hide FromFields;
    hide Words;
    var content := front + ") " + rest;
    assert content == front + ")" + (" " + rest);
    LastParenIs(front, " " + rest);
    assert content[|front| + 2..] == rest;
  }

  lemma WordsOfLine(fields: seq<string>)
    requires AllWords(fields)
    ensures Words(Join(fields, " ") + "\n") == fields
  {
    WordsJoin(fields);
    WordsSnoc(Join(fields, " "), '\n');
  }

  /** The fields are found whatever the command name is, spaces and parentheses included. */
  lemma FieldsAreFound(pid: nat, comm: string, fields: seq<string>)
    requires AllWords(fields) && AllFree(fields, ')')
    ensures Parse(Line(pid, comm, fields)) == FromFields(fields)
  {
    hide FromFields;
    hide Parse;
    hide Words;
    var front := PrintNat(pid) + " (" + comm;
    var rest := Join(fields, " ") + "\n";
    assert Line(pid, comm, fields) == front + ") " + rest;
    JoinFree(fields, " ", ')');
    ParseAfterParen(front, rest);
    WordsOfLine(fields);
  }

  /** A line with at least 22 fields whose counters are numerals of their types gives back
      utime + stime, the number of threads and the resident pages. */
  lemma CountersAreRecovered(pid: nat, comm: string, fields: seq<string>, utime: int, stime: int, threads: int, rss: int)
    requires AllWords(fields) && AllFree(fields, ')') && |fields| >= 22
    requires 0 <= utime <= U64_MAX && 0 <= stime <= U64_MAX && -I64_MAX - 1 <= threads <= I64_MAX && 0 <= rss <= U64_MAX
    requires fields[11] == PrintInt(utime) && fields[12] == PrintInt(stime)
    requires fields[17] == PrintInt(threads) && fields[21] == PrintInt(rss)
    ensures Parse(Line(pid, comm, fields)) ==
            Some(Stat(if utime + stime < 0xFFFF_FFFF_FFFF_FFFF then utime + stime else 0xFFFF_FFFF_FFFF_FFFF,
                      if threads < 1 then 1 else threads, rss))
  {
    hide Parse;
    hide Line;
    FieldsAreFound(pid, comm, fields);
    ParsePrintInt(utime, 0, U64_MAX);
    ParsePrintInt(stime, 0, U64_MAX);
    ParsePrintInt(threads, -I64_MAX - 1, I64_MAX);
    ParsePrintInt(rss, 0, U64_MAX);
  }

  /** A line parses exactly when it has at least 22 fields and its four counters are numerals of
      their types. */
  lemma ParsesExactly(pid: nat, comm: string, fields: seq<string>)
    requires AllWords(fields) && AllFree(fields, ')')
    ensures Parse(Line(pid, comm, fields)).Some? <==>
              && |fields| >= 22
              && ParseBounded(fields[11], 0, 0xFFFF_FFFF_FFFF_FFFF).Some?
              && ParseBounded(fields[12], 0, 0xFFFF_FFFF_FFFF_FFFF).Some?
              && ParseBounded(fields[17], -0x8000_0000_0000_0000, 0x7FFF_FFFF_FFFF_FFFF).Some?
              && ParseBounded(fields[21], 0, 0xFFFF_FFFF_FFFF_FFFF).Some?
  {
    hide Parse;
    hide Line;
    hide ParseBounded;
    FieldsAreFound(pid, comm, fields);
  }

  /** Without a closing parenthesis nothing parses. */
  lemma NoParenNoStat(content: string)
    requires Free(content, ')')
    ensures Parse(content) == None
  {
    hide FromFields;
    hide Words;
  }
}
