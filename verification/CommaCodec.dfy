/**
  The comma-separated text of API models. The printers and parsers are generated from one
  template; here a schema names the fields of a model and the template is modelled once.
 */
module CommaCodec {
  import opened Wrappers
  import opened Strings
  import opened Decimal

  datatype FieldType = IntField(lo: int, hi: int) | StringField | BoolField

  datatype Field = Field(name: string, kind: FieldType, required: bool)

  datatype Value = IntValue(n: int) | StringValue(s: string) | BoolValue(b: bool)

  type Schema = seq<Field>

  /** The values of the fields, in the order of the schema. */
  type Record = seq<Option<Value>>

  datatype Error = MissingValue | UnexpectedKey(key: string) | BadValue | MissingField(name: string)

  predicate HasType(v: Value, kind: FieldType) {
    match kind
    case IntField(lo, hi) => v.IntValue? && lo <= v.n <= hi
    case StringField => v.StringValue?
    case BoolField => v.BoolValue?
  }

  predicate WellTyped(schema: Schema, r: Record) {
    && |r| == |schema|
    && (forall i :: 0 <= i < |r| && r[i].Some? ==> HasType(r[i].value, schema[i].kind))
    && (forall i :: 0 <= i < |r| && schema[i].required ==> r[i].Some?)
  }

  /** Field names are distinct and have no commas; integer types include zero or less. */
  predicate WellFormed(schema: Schema) {
    && (forall i, j :: 0 <= i < j < |schema| ==> schema[i].name != schema[j].name)
    && (forall i :: 0 <= i < |schema| ==> Free(schema[i].name, ','))
    && (forall i :: 0 <= i < |schema| && schema[i].kind.IntField? ==> schema[i].kind.lo <= 0)
  }

  // ---- Printing.

  function PrintValue(v: Value): (s: string) {
    match v
    case IntValue(n) => PrintInt(n)
    case StringValue(s) => s
    case BoolValue(b) => if b then "true" else "false"
  }

  /** The parts `Display` joins: name and value apart when the field is required, and already
      joined when it is optional. */
  function Params(schema: Schema, r: Record): (parts: seq<string>)
    requires |r| == |schema|
  {
    if |r| == 0 then []
    else
      var k := |r| - 1;
      Params(schema[..k], r[..k]) +
      if r[k].None? then []
      else if schema[k].required then [schema[k].name, PrintValue(r[k].value)]
      else [schema[k].name + "," + PrintValue(r[k].value)]
  }

  /** `Display` */
  function ToText(schema: Schema, r: Record): (s: string)
    requires |r| == |schema|
  {
    Join(Params(schema, r), ",")
  }

  // ---- Parsing.

  /** The intermediate representation: the values seen so far for each field. */
  type Seen = seq<seq<Value>>

  function ParseValue(kind: FieldType, s: string): (r: Option<Value>)
    ensures r.Some? ==> HasType(r.value, kind)
  {
    match kind
    case IntField(lo, hi) =>
      (match ParseBounded(s, lo, hi)
       case None => None
       case Some(n) => Some(IntValue(n)))
    case StringField => Some(StringValue(s))
    case BoolField => if s == "true" then Some(BoolValue(true)) else if s == "false" then Some(BoolValue(false)) else None
  }

  function IndexOf(schema: Schema, name: string): (r: Option<nat>)
    ensures r.Some? ==> r.value < |schema| && schema[r.value].name == name
    ensures r.None? ==> forall i :: 0 <= i < |schema| ==> schema[i].name != name
  {
    if |schema| == 0 then None
    else if schema[|schema| - 1].name == name then Some(|schema| - 1)
    else IndexOf(schema[..|schema| - 1], name)
  }

  function Nothing(n: nat): (seen: Seen)
    ensures |seen| == n && forall i :: 0 <= i < n ==> seen[i] == []
  {
    seq(n, i => [])
  }

  function AddPair(schema: Schema, seen: Seen, key: string, text: string): (r: Result<Seen, Error>)
    requires |seen| == |schema|
    ensures r.Ok? ==> |r.value| == |schema|
  {
    match IndexOf(schema, key)
    case None => Err(UnexpectedKey(key))
    case Some(i) =>
      match ParseValue(schema[i].kind, text)
      case None => Err(BadValue)
      case Some(v) => Ok(seen[i := seen[i] + [v]])
  }

  /** The first `n` pairs of tokens. */
  function Pairs(schema: Schema, tokens: seq<string>, n: nat): (r: Result<Seen, Error>)
    requires 2 * n <= |tokens|
    ensures r.Ok? ==> |r.value| == |schema|
  {
    if n == 0 then Ok(Nothing(|schema|))
    else
      match Pairs(schema, tokens, n - 1)
      case Err(e) => Err(e)
      case Ok(seen) => AddPair(schema, seen, tokens[2 * n - 2], tokens[2 * n - 1])
  }

  /** The struct built from the intermediate representation: the first value of each field. */
  function Build(schema: Schema, seen: Seen): (r: Result<Record, Error>)
    requires |seen| == |schema|
    ensures r.Ok? ==> |r.value| == |schema|
  {
    if |schema| == 0 then Ok([])
    else
      var k := |schema| - 1;
      match Build(schema[..k], seen[..k])
      case Err(e) => Err(e)
      case Ok(front) =>
        if |seen[k]| > 0 then Ok(front + [Some(seen[k][0])])
        else if schema[k].required then Err(MissingField(schema[k].name))
        else Ok(front + [None])
  }

  function FromText(schema: Schema, s: string): (r: Result<Record, Error>) {
    var tokens := Split(s, ',');
    match Pairs(schema, tokens, |tokens| / 2)
    case Err(e) => Err(e)
    case Ok(seen) => if |tokens| % 2 == 1 then Err(MissingValue) else Build(schema, seen)
  }

  /** `FromStr` */
  method FromStr(schema: Schema, s: string) returns (r: Result<Record, Error>)
    ensures r == FromText(schema, s)
  {
    hide AddPair;
    hide Build;
    hide Split;
    var tokens := Split(s, ',');
    var seen := Nothing(|schema|);
    var i := 0;
    while i < |tokens|
      invariant i % 2 == 0 && i <= |tokens| + 1
      invariant i <= |tokens| && Pairs(schema, tokens, i / 2) == Ok(seen) && |seen| == |schema|
    {
      if i + 1 == |tokens| {
        return Err(MissingValue);
      }
      var added := AddPair(schema, seen, tokens[i], tokens[i + 1]);
      if added.Err? {
        PairsFail(schema, tokens, i / 2 + 1, |tokens| / 2);
        return Err(added.error);
      }
      seen := added.value;
      i := i + 2;
    }
    r := Build(schema, seen);
  }

  lemma {:induction false} PairsFail(schema: Schema, tokens: seq<string>, m: nat, n: nat)
    requires m <= n && 2 * n <= |tokens| && Pairs(schema, tokens, m).Err?
    ensures Pairs(schema, tokens, n) == Pairs(schema, tokens, m)
  {
    if m < n {
      PairsFail(schema, tokens, m, n - 1);
    }
  }

  // ---- The round trip.

  /** Name and value of every field that has a value. */
  function Tokens(schema: Schema, r: Record): (tokens: seq<string>)
    requires |r| == |schema|
  {
    if |r| == 0 then []
    else
      var k := |r| - 1;
      Tokens(schema[..k], r[..k]) + if r[k].None? then [] else [schema[k].name, PrintValue(r[k].value)]
  }

  lemma JoinSnoc(parts: seq<string>, last: string)
    ensures Join(parts + [last], ",") == if |parts| == 0 then last else Join(parts, ",") + "," + last
  {
    assert (parts + [last])[..|parts|] == parts;
  }

  lemma {:induction false} ParamsAreTokens(schema: Schema, r: Record)
    requires |r| == |schema|
    ensures Join(Params(schema, r), ",") == Join(Tokens(schema, r), ",")
    ensures |Params(schema, r)| == 0 <==> |Tokens(schema, r)| == 0
  {
    if |r| > 0 {
      var k := |r| - 1;
      ParamsAreTokens(schema[..k], r[..k]);
      if r[k].Some? {
        var name, value := schema[k].name, PrintValue(r[k].value);
        var ps, ts := Params(schema[..k], r[..k]), Tokens(schema[..k], r[..k]);
        JoinPair(ts, name, value);
        JoinPair(ps, name, value);
        assert schema[k].required ==> Params(schema, r) == ps + [name, value];
        assert !schema[k].required ==> Params(schema, r) == ps + [name + "," + value];
      } else {
        assert Params(schema, r) == Params(schema[..k], r[..k]) && Tokens(schema, r) == Tokens(schema[..k], r[..k]);
      }
    }
  }

  /** Two parts joined together, or one part that is the two already joined: the same text. */
  lemma JoinPair(parts: seq<string>, name: string, value: string)
    ensures Join(parts + [name, value], ",") == Join(parts + [name + "," + value], ",")
         == if |parts| == 0 then name + "," + value else Join(parts, ",") + "," + (name + "," + value)
  {
    hide Join;
    JoinSnoc(parts, name);
    JoinSnoc(parts, name + "," + value);
    assert parts + [name, value] == (parts + [name]) + [value];
    JoinSnoc(parts + [name], value);
    Reassociate(Join(parts, ","), ",", name, value);
  }

  lemma Reassociate(a: string, sep: string, b: string, c: string)
    ensures (a + sep + b) + sep + c == a + sep + (b + sep + c)
  {
  }

  predicate CommaFree(r: Record) {
    forall i :: 0 <= i < |r| && r[i].Some? && r[i].value.StringValue? ==> Free(r[i].value.s, ',')
  }

  predicate Empty(r: Record) {
    forall i :: 0 <= i < |r| ==> r[i].None?
  }

  lemma PrintedFree(v: Value)
    requires v.StringValue? ==> Free(v.s, ',')
    ensures Free(PrintValue(v), ',')
  {
    if v.IntValue? {
      var s := PrintInt(v.n);
      assert forall i :: 0 <= i < |s| ==> s[i] != ',';
    }
  }

  lemma {:induction false} TokensFree(schema: Schema, r: Record)
    requires |r| == |schema| && CommaFree(r) && forall i :: 0 <= i < |schema| ==> Free(schema[i].name, ',')
    ensures AllFree(Tokens(schema, r), ',') && |Tokens(schema, r)| % 2 == 0
    ensures |Tokens(schema, r)| == 0 <==> Empty(r)
  {
    if |r| > 0 {
      var k := |r| - 1;
      TokensFree(schema[..k], r[..k]);
      assert forall i :: 0 <= i < k ==> r[..k][i] == r[i];
      if r[k].Some? {
        PrintedFree(r[k].value);
      }
    }
  }

  lemma ParsePrintValue(v: Value, kind: FieldType)
    requires HasType(v, kind) && (kind.IntField? ==> kind.lo <= 0)
    ensures ParseValue(kind, PrintValue(v)) == Some(v)
  {
    if kind.IntField? {
      ParsePrintInt(v.n, kind.lo, kind.hi);
    }
  }

  /** What has been seen when the fields before `k` were read. */
  ghost function SeenUpTo(r: Record, k: nat): (seen: Seen)
    requires k <= |r|
    ensures |seen| == |r|
  {
    seq(|r|, i requires 0 <= i < |r| => if i < k && r[i].Some? then [r[i].value] else [])
  }

  lemma UniqueIndex(schema: Schema, k: nat)
    requires WellFormed(schema) && k < |schema|
    ensures IndexOf(schema, schema[k].name) == Some(k)
  {
  }

  lemma AddField(schema: Schema, r: Record, k: nat)
    requires WellFormed(schema) && WellTyped(schema, r) && k < |r| && r[k].Some?
    ensures AddPair(schema, SeenUpTo(r, k), schema[k].name, PrintValue(r[k].value)) == Ok(SeenUpTo(r, k + 1))
  {
    UniqueIndex(schema, k);
    ParsePrintValue(r[k].value, schema[k].kind);
    hide IndexOf;
    hide ParseValue;
    hide PrintValue;
    var one: seq<Value> := [r[k].value];
    assert SeenUpTo(r, k)[k] + one == one;
    assert SeenUpTo(r, k)[k := one] == SeenUpTo(r, k + 1);
  }

  lemma {:induction false} PairsOfPrefix(schema: Schema, a: seq<string>, b: seq<string>, n: nat)
    requires 2 * n <= |a| && a <= b
    ensures Pairs(schema, a, n) == Pairs(schema, b, n)
  {
    if n > 0 {
      PairsOfPrefix(schema, a, b, n - 1);
    }
  }

  lemma PairsSnoc(schema: Schema, tokens: seq<string>, name: string, value: string)
    requires |tokens| % 2 == 0 && Pairs(schema, tokens, |tokens| / 2).Ok?
    ensures Pairs(schema, tokens + [name, value], |tokens| / 2 + 1)
         == AddPair(schema, Pairs(schema, tokens, |tokens| / 2).value, name, value)
  {
    hide AddPair;
    PairsOfPrefix(schema, tokens, tokens + [name, value], |tokens| / 2);
  }

  /** The tokens of the fields before `k`. */
  ghost function TokensUpTo(schema: Schema, r: Record, k: nat): (tokens: seq<string>)
    requires k <= |r| == |schema|
  {
    Tokens(schema[..k], r[..k])
  }

  lemma TokensGrow(schema: Schema, r: Record, k: nat)
    requires k < |r| == |schema|
    ensures TokensUpTo(schema, r, k + 1) ==
            TokensUpTo(schema, r, k) + if r[k].None? then [] else [schema[k].name, PrintValue(r[k].value)]
  {
    hide PrintValue;
    assert schema[..k + 1][..k] == schema[..k] && r[..k + 1][..k] == r[..k];
  }

  /** The pairs before `k` have been read into what was seen before `k`. */
  ghost predicate ReadUpTo(schema: Schema, r: Record, k: nat)
    requires k <= |r| == |schema|
  {
    var tokens := TokensUpTo(schema, r, k);
    |tokens| % 2 == 0 && Pairs(schema, tokens, |tokens| / 2) == Ok(SeenUpTo(r, k))
  }

  lemma ReadNothing(schema: Schema, r: Record, k: nat)
    requires k < |r| == |schema| && r[k].None? && ReadUpTo(schema, r, k)
    ensures ReadUpTo(schema, r, k + 1)
  {
    hide Tokens;
    hide Pairs;
    TokensGrow(schema, r, k);
    assert TokensUpTo(schema, r, k + 1) == TokensUpTo(schema, r, k);
    assert SeenUpTo(r, k + 1) == SeenUpTo(r, k);
  }

  lemma ReadField(schema: Schema, r: Record, k: nat)
    requires WellFormed(schema) && WellTyped(schema, r) && k < |r| && r[k].Some? && ReadUpTo(schema, r, k)
    ensures ReadUpTo(schema, r, k + 1)
  {
    assert |r| == |schema|;
    hide WellFormed;
    hide WellTyped;
    hide ReadUpTo;
    hide TokensUpTo;
    hide AddPair;
    hide SeenUpTo;
    hide PrintValue;
    AddField(schema, r, k);
    TokensGrow(schema, r, k);
    ReadPair(schema, r, k, TokensUpTo(schema, r, k), schema[k].name, PrintValue(r[k].value));
  }

  lemma ReadPair(schema: Schema, r: Record, k: nat, tokens: seq<string>, name: string, value: string)
    requires k < |r| == |schema| && ReadUpTo(schema, r, k) && tokens == TokensUpTo(schema, r, k)
    requires TokensUpTo(schema, r, k + 1) == tokens + [name, value]
    requires AddPair(schema, SeenUpTo(r, k), name, value) == Ok(SeenUpTo(r, k + 1))
    ensures ReadUpTo(schema, r, k + 1)
  {
    hide TokensUpTo;
    hide Pairs;
    hide AddPair;
    hide SeenUpTo;
    PairsSnoc(schema, tokens, name, value);
    assert |tokens + [name, value]| / 2 == |tokens| / 2 + 1;
  }

  lemma {:induction false} PairsOfTokens(schema: Schema, r: Record, k: nat)
    requires WellFormed(schema) && WellTyped(schema, r) && k <= |r|
    ensures ReadUpTo(schema, r, k)
  {
    if k == 0 {
      assert SeenUpTo(r, 0) == Nothing(|schema|);
    } else {
      PairsOfTokens(schema, r, k - 1);
      hide ReadUpTo;
      hide WellFormed;
      hide WellTyped;
      if r[k - 1].None? {
        ReadNothing(schema, r, k - 1);
      } else {
        ReadField(schema, r, k - 1);
      }
    }
  }

  lemma {:induction false} BuildGivesBack(schema: Schema, r: Record)
    requires WellTyped(schema, r)
    ensures Build(schema, SeenUpTo(r, |r|)) == Ok(r)
  {
    if |r| > 0 {
      var k := |r| - 1;
      BuildGivesBack(schema[..k], r[..k]);
      assert SeenUpTo(r, |r|)[..k] == SeenUpTo(r[..k], k);
      assert r == r[..k] + [r[k]];
    }
  }

  lemma RoundTrip(schema: Schema, r: Record)
    requires WellFormed(schema) && WellTyped(schema, r) && CommaFree(r) && !Empty(r)
    ensures FromText(schema, ToText(schema, r)) == Ok(r)
  {
    hide Pairs;
    hide Build;
    hide Tokens;
    hide Params;
    var tokens := Tokens(schema, r);
    ParamsAreTokens(schema, r);
    TokensFree(schema, r);
    SplitJoin(tokens, ',');
    assert schema[..|r|] == schema && r[..|r|] == r;
    PairsOfTokens(schema, r, |r|);
    BuildGivesBack(schema, r);
  }

  /** The strings seen come from the tokens, so they have no commas. */
  ghost predicate SeenSound(schema: Schema, seen: Seen) {
    && |seen| == |schema|
    && forall i, j :: 0 <= i < |seen| && 0 <= j < |seen[i]| ==>
         HasType(seen[i][j], schema[i].kind) && (seen[i][j].StringValue? ==> Free(seen[i][j].s, ','))
  }

  lemma {:induction false} PairsSound(schema: Schema, tokens: seq<string>, n: nat)
    requires 2 * n <= |tokens| && AllFree(tokens, ',') && Pairs(schema, tokens, n).Ok?
    ensures SeenSound(schema, Pairs(schema, tokens, n).value)
  {
    if n > 0 {
      PairsSound(schema, tokens, n - 1);
      var seen := Pairs(schema, tokens, n - 1).value;
      assert Free(tokens[2 * n - 1], ',');
    }
  }

  lemma {:induction false} BuildSound(schema: Schema, seen: Seen)
    requires SeenSound(schema, seen) && Build(schema, seen).Ok?
    ensures WellTyped(schema, Build(schema, seen).value) && CommaFree(Build(schema, seen).value)
  {
    if |schema| > 0 {
      var k := |schema| - 1;
      assert SeenSound(schema[..k], seen[..k]);
      BuildSound(schema[..k], seen[..k]);
    }
  }

  /** Whatever text parses, the record is of the schema's types and its strings have no commas. */
  lemma ParsedIsSound(schema: Schema, s: string)
    requires FromText(schema, s).Ok?
    ensures WellTyped(schema, FromText(schema, s).value) && CommaFree(FromText(schema, s).value)
  {
    hide Pairs;
    hide Build;
    var tokens := Split(s, ',');
    SplitPartsFree(s, ',');
    PairsSound(schema, tokens, |tokens| / 2);
    BuildSound(schema, Pairs(schema, tokens, |tokens| / 2).value);
  }

  /** For every schema and record, across all combinations of optional fields: parsing what was
      printed gives the record back exactly when its strings have no commas and it has a value. */
  lemma CommaRoundTrip(schema: Schema, r: Record)
    requires WellFormed(schema) && WellTyped(schema, r)
    ensures FromText(schema, ToText(schema, r)) == Ok(r) <==> CommaFree(r) && !Empty(r)
  {
    if CommaFree(r) && !Empty(r) {
      RoundTrip(schema, r);
    } else if Empty(r) {
      ParamsAreTokens(schema, r);
      TokensFree(schema, r);
      assert Split("", ',') == [""];
    } else if FromText(schema, ToText(schema, r)).Ok? {
      ParsedIsSound(schema, ToText(schema, r));
    }
  }

  // ---- What is accepted, told from the tokens.

  /** A key that names a field, with a value of the field's type. */
  predicate PairFits(schema: Schema, key: string, text: string) {
    exists i :: 0 <= i < |schema| && schema[i].name == key && ParseValue(schema[i].kind, text).Some?
  }

  /** The first of the first `n` pairs with this key. */
  function FirstPair(tokens: seq<string>, n: nat, key: string): (j: Option<nat>)
    requires 2 * n <= |tokens|
    ensures j.Some? ==> j.value < n && tokens[2 * j.value] == key
    ensures forall k :: 0 <= k < (if j.Some? then j.value else n) ==> tokens[2 * k] != key
  {
    if n == 0 then None
    else
      var before := FirstPair(tokens, n - 1, key);
      if before.Some? then before else if tokens[2 * n - 2] == key then Some(n - 1) else None
  }

  /** The value of the field: that of the first pair that names it. */
  function FirstValue(field: Field, tokens: seq<string>, n: nat): (v: Option<Value>)
    requires 2 * n <= |tokens|
  {
    match FirstPair(tokens, n, field.name)
    case None => None
    case Some(j) => ParseValue(field.kind, tokens[2 * j + 1])
  }

  ghost predicate AllFit(schema: Schema, tokens: seq<string>, n: nat)
    requires 2 * n <= |tokens|
  {
    forall j :: 0 <= j < n ==> PairFits(schema, tokens[2 * j], tokens[2 * j + 1])
  }

  /** The first value seen for each field is that of the first pair that names it. */
  ghost predicate SeenFirst(schema: Schema, tokens: seq<string>, n: nat, seen: Seen)
    requires 2 * n <= |tokens|
  {
    && |seen| == |schema|
    && forall i :: 0 <= i < |schema| ==>
         if |seen[i]| == 0 then FirstPair(tokens, n, schema[i].name).None?
         else FirstValue(schema[i], tokens, n) == Some(seen[i][0])
  }

  lemma PairFitsAt(schema: Schema, key: string, text: string, i: nat)
    requires WellFormed(schema) && i < |schema| && schema[i].name == key
    ensures PairFits(schema, key, text) <==> ParseValue(schema[i].kind, text).Some?
  {
    hide ParseValue;
    hide Free;
    if PairFits(schema, key, text) {
      var k :| 0 <= k < |schema| && schema[k].name == key && ParseValue(schema[k].kind, text).Some?;
      assert k == i;
    }
  }

  lemma AddPairExactly(schema: Schema, seen: Seen, key: string, text: string)
    requires WellFormed(schema) && |seen| == |schema|
    ensures AddPair(schema, seen, key, text).Ok? <==> PairFits(schema, key, text)
    ensures AddPair(schema, seen, key, text).Ok? ==>
              forall i :: 0 <= i < |schema| ==>
                var more := AddPair(schema, seen, key, text).value[i];
                if schema[i].name != key then more == seen[i]
                else ParseValue(schema[i].kind, text).Some? && more == seen[i] + [ParseValue(schema[i].kind, text).value]
  {
    hide ParseValue;
    hide IndexOf;
    hide Free;
    var i := IndexOf(schema, key);
    if i.Some? {
      PairFitsAt(schema, key, text, i.value);
    }
  }

  lemma AllFitSnoc(schema: Schema, tokens: seq<string>, n: nat)
    requires 2 * n + 2 <= |tokens|
    ensures AllFit(schema, tokens, n + 1) <==> AllFit(schema, tokens, n) && PairFits(schema, tokens[2 * n], tokens[2 * n + 1])
  {
    hide PairFits;
  }

  lemma {:induction false} PairsExactly(schema: Schema, tokens: seq<string>, n: nat)
    requires WellFormed(schema) && 2 * n <= |tokens|
    ensures Pairs(schema, tokens, n).Ok? <==> AllFit(schema, tokens, n)
    ensures Pairs(schema, tokens, n).Ok? ==> SeenFirst(schema, tokens, n, Pairs(schema, tokens, n).value)
  {
    hide WellFormed;
    hide PairFits;
    hide AddPair;
    hide ParseValue;
    if n > 0 {
      PairsExactly(schema, tokens, n - 1);
      if AllFit(schema, tokens, n - 1) {
        var seen := Pairs(schema, tokens, n - 1).value;
        AddPairExactly(schema, seen, tokens[2 * n - 2], tokens[2 * n - 1]);
      }
      AllFitSnoc(schema, tokens, n - 1);
    }
  }

  lemma {:induction false} BuildExactly(schema: Schema, seen: Seen)
    requires |seen| == |schema|
    ensures Build(schema, seen).Ok? <==> forall i :: 0 <= i < |schema| && schema[i].required ==> |seen[i]| > 0
    ensures Build(schema, seen).Ok? ==>
              forall i :: 0 <= i < |schema| ==>
                Build(schema, seen).value[i] == if |seen[i]| > 0 then Some(seen[i][0]) else None
  {
    if |schema| > 0 {
      var k := |schema| - 1;
      BuildExactly(schema[..k], seen[..k]);
      assert forall i :: 0 <= i < k ==> schema[..k][i] == schema[i] && seen[..k][i] == seen[i];
    }
  }

  /** The tokens alternate between keys of the schema and values of their types, and no required
      field is missing. */
  ghost predicate Acceptable(schema: Schema, tokens: seq<string>) {
    && |tokens| % 2 == 0 && AllFit(schema, tokens, |tokens| / 2)
    && forall i :: 0 <= i < |schema| && schema[i].required ==> FirstPair(tokens, |tokens| / 2, schema[i].name).Some?
  }

  /** For every text: it is accepted exactly when its tokens are, and then each field has the value
      of the first pair that names it, or none. */
  lemma ParsesExactly(schema: Schema, s: string)
    requires WellFormed(schema)
    ensures FromText(schema, s).Ok? <==> Acceptable(schema, Split(s, ','))
    ensures FromText(schema, s).Ok? ==>
              var tokens, r := Split(s, ','), FromText(schema, s).value;
              |r| == |schema| && forall i :: 0 <= i < |schema| ==> r[i] == FirstValue(schema[i], tokens, |tokens| / 2)
  {
    hide WellFormed;
    hide Split;
    hide Pairs;
    hide Build;
    hide AllFit;
    hide FirstPair;
    hide ParseValue;
    var tokens := Split(s, ',');
    PairsExactly(schema, tokens, |tokens| / 2);
    if AllFit(schema, tokens, |tokens| / 2) {
      BuildExactly(schema, Pairs(schema, tokens, |tokens| / 2).value);
    }
  }

  // ---- Three models.

  const I32: FieldType := IntField(-0x8000_0000, 0x7FFF_FFFF)
  const I64: FieldType := IntField(-0x8000_0000_0000_0000, 0x7FFF_FFFF_FFFF_FFFF)

  const RESOURCE_USAGE: Schema :=
    [ Field("cpu_percent", I64, true), Field("memory_bytes", I64, true), Field("thread_count", I64, true),
      Field("sampling_period_ms", I64, true), Field("timestamp", I64, true) ]

  const CONNECTION_INFO: Schema :=
    [ Field("control_port", I32, true), Field("shell_port", I32, true), Field("stdin_port", I32, true),
      Field("hb_port", I32, true), Field("iopub_port", I32, true), Field("signature_scheme", StringField, true),
      Field("key", StringField, true), Field("transport", StringField, true), Field("ip", StringField, true) ]

  const EXECUTE_REQUEST: Schema :=
    [ Field("code", StringField, true), Field("silent", BoolField, false), Field("store_history", BoolField, false),
      Field("stop_on_error", BoolField, false), Field("timeout_seconds", I32, false) ]

  newtype int32 = n: int | -0x8000_0000 <= n <= 0x7FFF_FFFF
  newtype int64 = n: int | -0x8000_0000_0000_0000 <= n <= 0x7FFF_FFFF_FFFF_FFFF

  datatype ResourceUsage = ResourceUsage(cpuPercent: int64, memoryBytes: int64, threadCount: int64, samplingPeriodMs: int64, timestamp: int64)

  datatype ConnectionInfo = ConnectionInfo(
    controlPort: int32, shellPort: int32, stdinPort: int32, hbPort: int32, iopubPort: int32,
    signatureScheme: string, key: string, transport: string, ip: string)

  datatype ExecuteRequest = ExecuteRequest(
    code: string, silent: Option<bool>, storeHistory: Option<bool>, stopOnError: Option<bool>, timeoutSeconds: Option<int32>)

  function Int(n: int): (v: Option<Value>) { Some(IntValue(n)) }
  function Text(s: string): (v: Option<Value>) { Some(StringValue(s)) }
  function Flag(b: Option<bool>): (v: Option<Value>) { if b.Some? then Some(BoolValue(b.value)) else None }

  function OfResourceUsage(u: ResourceUsage): (r: Record) {
    [ Int(u.cpuPercent as int), Int(u.memoryBytes as int), Int(u.threadCount as int), Int(u.samplingPeriodMs as int), Int(u.timestamp as int) ]
  }

  function OfConnectionInfo(c: ConnectionInfo): (r: Record) {
    [ Int(c.controlPort as int), Int(c.shellPort as int), Int(c.stdinPort as int), Int(c.hbPort as int), Int(c.iopubPort as int),
      Text(c.signatureScheme), Text(c.key), Text(c.transport), Text(c.ip) ]
  }

  function OfExecuteRequest(e: ExecuteRequest): (r: Record) {
    [ Text(e.code), Flag(e.silent), Flag(e.storeHistory), Flag(e.stopOnError),
      if e.timeoutSeconds.Some? then Int(e.timeoutSeconds.value as int) else None ]
  }

  lemma ResourceUsageNames()
    ensures forall i :: 0 <= i < |RESOURCE_USAGE| ==> Free(RESOURCE_USAGE[i].name, ',')
  {
  }

  lemma ResourceUsageDistinct()
    ensures forall i, j :: 0 <= i < j < |RESOURCE_USAGE| ==> RESOURCE_USAGE[i].name != RESOURCE_USAGE[j].name
  {
    var s := RESOURCE_USAGE;
    var lengths := [11, 12, 12, 18, 9];
    assert forall i :: 0 <= i < |s| ==> |s[i].name| == lengths[i];
    assert s[1].name[0] != s[2].name[0];
  }

  lemma ResourceUsageSchema()
    ensures WellFormed(RESOURCE_USAGE)
  {
    hide Free;
    ResourceUsageNames();
    ResourceUsageDistinct();
  }

  lemma ConnectionInfoPorts()
    ensures forall i :: 0 <= i < 5 ==> Free(CONNECTION_INFO[i].name, ',')
  {
  }

  lemma ConnectionInfoTexts()
    ensures forall i :: 5 <= i < 9 ==> Free(CONNECTION_INFO[i].name, ',')
  {
  }

  lemma ConnectionInfoNames()
    ensures forall i :: 0 <= i < |CONNECTION_INFO| ==> Free(CONNECTION_INFO[i].name, ',')
  {
    hide Free;
    ConnectionInfoPorts();
    ConnectionInfoTexts();
  }

  lemma ConnectionInfoDistinct()
    ensures forall i, j :: 0 <= i < j < |CONNECTION_INFO| ==> CONNECTION_INFO[i].name != CONNECTION_INFO[j].name
  {
    var s := CONNECTION_INFO;
    var lengths := [12, 10, 10, 7, 10, 16, 3, 9, 2];
    assert forall i :: 0 <= i < |s| ==> |s[i].name| == lengths[i];
    assert s[1].name[1] != s[2].name[1] && s[1].name[0] != s[4].name[0] && s[2].name[0] != s[4].name[0];
  }

  lemma ConnectionInfoSchema()
    ensures WellFormed(CONNECTION_INFO)
  {
    hide Free;
    ConnectionInfoNames();
    ConnectionInfoDistinct();
  }

  lemma ExecuteRequestNames()
    ensures forall i :: 0 <= i < |EXECUTE_REQUEST| ==> Free(EXECUTE_REQUEST[i].name, ',')
  {
  }

  lemma ExecuteRequestDistinct()
    ensures forall i, j :: 0 <= i < j < |EXECUTE_REQUEST| ==> EXECUTE_REQUEST[i].name != EXECUTE_REQUEST[j].name
  {
    var s := EXECUTE_REQUEST;
    var lengths := [4, 6, 13, 13, 15];
    assert forall i :: 0 <= i < |s| ==> |s[i].name| == lengths[i];
    assert s[2].name[3] != s[3].name[3];
  }

  lemma ExecuteRequestSchema()
    ensures WellFormed(EXECUTE_REQUEST)
  {
    hide Free;
    ExecuteRequestNames();
    ExecuteRequestDistinct();
  }

  /** Every resource usage comes back from its text. */
  lemma ResourceUsageRoundTrip(u: ResourceUsage)
    ensures FromText(RESOURCE_USAGE, ToText(RESOURCE_USAGE, OfResourceUsage(u))) == Ok(OfResourceUsage(u))
  {
    hide FromText;
    hide ToText;
    hide WellFormed;
    var r := OfResourceUsage(u);
    assert r[0].Some?;
    ResourceUsageSchema();
    CommaRoundTrip(RESOURCE_USAGE, r);
  }

  lemma ConnectionInfoStrings(c: ConnectionInfo)
    ensures WellTyped(CONNECTION_INFO, OfConnectionInfo(c)) && !Empty(OfConnectionInfo(c))
    ensures CommaFree(OfConnectionInfo(c)) <==>
            (Free(c.signatureScheme, ',') && Free(c.key, ',') && Free(c.transport, ',') && Free(c.ip, ','))
  {
    hide Free;
    var r := OfConnectionInfo(c);
    assert r[0].Some?;
    assert r[5] == Text(c.signatureScheme) && r[6] == Text(c.key) && r[7] == Text(c.transport) && r[8] == Text(c.ip);
  }

  /** A connection info comes back exactly when its four strings have no commas. */
  lemma ConnectionInfoRoundTrip(c: ConnectionInfo)
    ensures FromText(CONNECTION_INFO, ToText(CONNECTION_INFO, OfConnectionInfo(c))) == Ok(OfConnectionInfo(c))
            <==> (Free(c.signatureScheme, ',') && Free(c.key, ',') && Free(c.transport, ',') && Free(c.ip, ','))
  {
    hide FromText;
    hide ToText;
    hide WellFormed;
    hide WellTyped;
    hide CommaFree;
    hide Empty;
    ConnectionInfoSchema();
    ConnectionInfoStrings(c);
    CommaRoundTrip(CONNECTION_INFO, OfConnectionInfo(c));
  }

  lemma ExecuteRequestStrings(e: ExecuteRequest)
    ensures WellTyped(EXECUTE_REQUEST, OfExecuteRequest(e)) && !Empty(OfExecuteRequest(e))
    ensures CommaFree(OfExecuteRequest(e)) <==> Free(e.code, ',')
  {
    hide Free;
    var r := OfExecuteRequest(e);
    assert r[0] == Text(e.code);
  }

  /** An execute request comes back exactly when its code has no commas, whichever of its
      optional fields are set. */
  lemma ExecuteRequestRoundTrip(e: ExecuteRequest)
    ensures FromText(EXECUTE_REQUEST, ToText(EXECUTE_REQUEST, OfExecuteRequest(e))) == Ok(OfExecuteRequest(e))
            <==> Free(e.code, ',')
  {
    hide FromText;
    hide ToText;
    hide WellFormed;
    hide WellTyped;
    hide CommaFree;
    hide Empty;
    ExecuteRequestSchema();
    ExecuteRequestStrings(e);
    CommaRoundTrip(EXECUTE_REQUEST, OfExecuteRequest(e));
  }

  // ---- The text of the three models, token by token.

  lemma {:induction false} TextOf(schema: Schema, r: Record)
    requires |r| == |schema|
    ensures ToText(schema, r) == Join(TokensUpTo(schema, r, |r|), ",")
  {
    hide Join;
    hide Params;
    hide Tokens;
    ParamsAreTokens(schema, r);
    assert schema[..|r|] == schema && r[..|r|] == r;
  }

  lemma NoTokens(schema: Schema, r: Record)
    requires |r| == |schema|
    ensures TokensUpTo(schema, r, 0) == []
  {
  }

  function ResourceUsageTokens(u: ResourceUsage): (tokens: seq<string>) {
    ["cpu_percent", PrintInt(u.cpuPercent as int), "memory_bytes", PrintInt(u.memoryBytes as int),
     "thread_count", PrintInt(u.threadCount as int), "sampling_period_ms", PrintInt(u.samplingPeriodMs as int),
     "timestamp", PrintInt(u.timestamp as int)]
  }

  lemma ResourceUsageText(u: ResourceUsage)
    ensures ToText(RESOURCE_USAGE, OfResourceUsage(u)) == Join(ResourceUsageTokens(u), ",")
  {
    hide Join;
    hide ToText;
    hide PrintInt;
    hide TokensUpTo;
    var schema, r := RESOURCE_USAGE, OfResourceUsage(u);
    TextOf(schema, r);
    NoTokens(schema, r);
    TokensGrow(schema, r, 0);
    TokensGrow(schema, r, 1);
    TokensGrow(schema, r, 2);
    TokensGrow(schema, r, 3);
    TokensGrow(schema, r, 4);
    assert TokensUpTo(schema, r, 5) == ResourceUsageTokens(u);
  }

  function ConnectionInfoTokens(c: ConnectionInfo): (tokens: seq<string>) {
    ["control_port", PrintInt(c.controlPort as int), "shell_port", PrintInt(c.shellPort as int),
     "stdin_port", PrintInt(c.stdinPort as int), "hb_port", PrintInt(c.hbPort as int),
     "iopub_port", PrintInt(c.iopubPort as int), "signature_scheme", c.signatureScheme,
     "key", c.key, "transport", c.transport, "ip", c.ip]
  }

  lemma ConnectionInfoText(c: ConnectionInfo)
    ensures ToText(CONNECTION_INFO, OfConnectionInfo(c)) == Join(ConnectionInfoTokens(c), ",")
  {
    hide Join;
    hide ToText;
    hide PrintInt;
    hide TokensUpTo;
    var schema, r := CONNECTION_INFO, OfConnectionInfo(c);
    TextOf(schema, r);
    NoTokens(schema, r);
    TokensGrow(schema, r, 0);
    TokensGrow(schema, r, 1);
    TokensGrow(schema, r, 2);
    TokensGrow(schema, r, 3);
    TokensGrow(schema, r, 4);
    assert TokensUpTo(schema, r, 5) == ConnectionInfoTokens(c)[..10];
    TokensGrow(schema, r, 5);
    TokensGrow(schema, r, 6);
    TokensGrow(schema, r, 7);
    TokensGrow(schema, r, 8);
    assert TokensUpTo(schema, r, 9) == ConnectionInfoTokens(c);
  }

  /** An optional flag is printed only when it is set. */
  function FlagTokens(name: string, flag: Option<bool>): (tokens: seq<string>) {
    match flag
    case None => []
    case Some(b) => [name, if b then "true" else "false"]
  }

  function TimeoutTokens(seconds: Option<int32>): (tokens: seq<string>) {
    match seconds
    case None => []
    case Some(n) => ["timeout_seconds", PrintInt(n as int)]
  }

  lemma ExecuteRequestText(e: ExecuteRequest)
    ensures ToText(EXECUTE_REQUEST, OfExecuteRequest(e)) == Join(
              ["code", e.code] + FlagTokens("silent", e.silent) + FlagTokens("store_history", e.storeHistory)
              + FlagTokens("stop_on_error", e.stopOnError) + TimeoutTokens(e.timeoutSeconds), ",")
  {
    hide Join;
    hide ToText;
    hide PrintInt;
    hide TokensUpTo;
    var schema, r := EXECUTE_REQUEST, OfExecuteRequest(e);
    TextOf(schema, r);
    NoTokens(schema, r);
    TokensGrow(schema, r, 0);
    TokensGrow(schema, r, 1);
    TokensGrow(schema, r, 2);
    TokensGrow(schema, r, 3);
    TokensGrow(schema, r, 4);
    assert TokensUpTo(schema, r, 1) == ["code", e.code];
    assert TokensUpTo(schema, r, 2) == TokensUpTo(schema, r, 1) + FlagTokens("silent", e.silent);
    assert TokensUpTo(schema, r, 3) == TokensUpTo(schema, r, 2) + FlagTokens("store_history", e.storeHistory);
    assert TokensUpTo(schema, r, 4) == TokensUpTo(schema, r, 3) + FlagTokens("stop_on_error", e.stopOnError);
    assert TokensUpTo(schema, r, 5) == TokensUpTo(schema, r, 4) + TimeoutTokens(e.timeoutSeconds);
  }
}
