/** JSON values and the Jupyter messages that carry them. */
module Messages {
  import opened Wrappers
  import opened Utf8

  /** A `serde_json::Value`; the fields of an object are in iteration order. */
  datatype Json =
    | Null
    | Bool(flag: bool)
    | Number(number: int)
    | Str(text: Text)
    | Array(items: seq<Json>)
    | Object(fields: seq<(Text, Json)>)
  {
    /** `value[key]`: null when the key, or the object, is missing. */
    function Field(key: Text): (v: Json) {
      if Object? then Lookup(fields, key) else Null
    }

    static function Lookup(fields: seq<(Text, Json)>, key: Text): (v: Json) {
      if |fields| == 0 then Null
      else if fields[0].0 == key then fields[0].1
      else Lookup(fields[1..], key)
    }

    /** An object that has `value` under `key`, and nothing under it before. */
    ghost predicate Maps(key: Text, value: Json) {
      && Object?
      && exists i :: 0 <= i < |fields| && fields[i] == (key, value) && forall j :: 0 <= j < i ==> fields[j].0 != key
    }

    /** Not an object, or one without the key. */
    ghost predicate Lacks(key: Text) {
      Object? ==> forall i :: 0 <= i < |fields| ==> fields[i].0 != key
    }

    /** As `serde_json` keeps values: the keys of every object in increasing order, without repeats. */
    ghost predicate Canonical() {
      match this
      case Array(items) => forall i :: 0 <= i < |items| ==> items[i].Canonical()
      case Object(fields) =>
        && (forall i :: 0 < i < |fields| ==> Precedes(fields[i - 1].0, fields[i].0))
        && (forall i :: 0 <= i < |fields| ==> fields[i].1.Canonical())
      case _ => true
    }

    /** A string field, or an empty string: `text` in the history. */
    function TextField(key: Text): (t: Text) {
      var v := Field(key);
      if v.Str? then v.text else []
    }
  }

  lemma {:induction false} LookupFinds(fields: seq<(Text, Json)>, i: nat)
    requires i < |fields| && forall j :: 0 <= j < i ==> fields[j].0 != fields[i].0
    ensures Json.Lookup(fields, fields[i].0) == fields[i].1
  {
    hide Valid;
    if i > 0 {
      LookupFinds(fields[1..], i - 1);
    }
  }

  lemma {:induction false} LookupMisses(fields: seq<(Text, Json)>, key: Text)
    requires forall i :: 0 <= i < |fields| ==> fields[i].0 != key
    ensures Json.Lookup(fields, key) == Null
  {
    hide Valid;
    if |fields| > 0 {
      LookupMisses(fields[1..], key);
    }
  }

  /** Indexing reads the value under the key, and null when there is none. */
  lemma FieldIs(v: Json, key: Text, value: Json)
    ensures v.Maps(key, value) ==> v.Field(key) == value
    ensures v.Lacks(key) ==> v.Field(key) == Null
    ensures v.Field(key) == value && value != Null ==> v.Maps(key, value)
  {
    hide Valid;
    if v.Maps(key, value) {
      var i :| 0 <= i < |v.fields| && v.fields[i] == (key, value) && forall j :: 0 <= j < i ==> v.fields[j].0 != key;
      LookupFinds(v.fields, i);
    }
    if v.Lacks(key) && v.Object? {
      LookupMisses(v.fields, key);
    }
    if v.Object? {
      LookupIsField(v.fields, key);
    }
  }

  lemma {:induction false} LookupIsField(fields: seq<(Text, Json)>, key: Text)
    ensures Json.Lookup(fields, key) != Null ==> Object(fields).Maps(key, Json.Lookup(fields, key))
  {
    hide Valid;
    if |fields| > 0 && Json.Lookup(fields, key) != Null {
      if fields[0].0 == key {
        assert fields[0] == (key, Json.Lookup(fields, key));
      } else {
        var rest := fields[1..];
        LookupIsField(rest, key);
        var i :| 0 <= i < |rest| && rest[i] == (key, Json.Lookup(rest, key)) && forall j :: 0 <= j < i ==> rest[j].0 != key;
        assert fields[i + 1] == rest[i];
        assert forall j :: 0 < j < i + 1 ==> fields[j] == rest[j - 1];
      }
    }
  }

  /** The order of strings: by their first different byte, a prefix first. */
  predicate Precedes(a: Bytes, b: Bytes) {
    |b| > 0 && (|a| == 0 || a[0] < b[0] || (a[0] == b[0] && Precedes(a[1..], b[1..])))
  }

  datatype Header = Header(id: string, kind: string)

  datatype Channel = Shell | Control | Stdin | IOPub | Heartbeat | Registration

  datatype Message = Message(
    header: Header,
    parent: Option<Header>,
    channel: Channel,
    content: Json,
    metadata: Json,
    buffers: seq<string>)
  {
    predicate Answers(id: string) {
      parent.Some? && parent.value.id == id
    }
  }
}
