/**
  What the two Ant-log parsers share: the recognition of a `key: value`
  line, the JavaScript object a record is built in (its properties in
  insertion order), and the output object mapping a metadata type to the
  records collected for it.
*/
module LogRecords {
  import opened Wrappers
  import opened Strings

  /** A property value of a parsed record. `Missing` is JavaScript `undefined`, as `valsplit[1]` of a value without '/'. */
  datatype Value =
    | Str(s: string)
    | Bool(b: bool)
    | StrList(items: seq<string>)
    | NameId(name: string, id: Option<string>)
    | Missing

  /** A JavaScript object: its properties in insertion order. */
  type Record = seq<(string, Value)>

  /** The output object: the records collected under each metadata type. */
  type JsonData = map<string, seq<Record>>

  /** The property names of `r`, in order. */
  function Keys(r: Record): (ks: seq<string>)
    ensures |ks| == |r|
    ensures forall i :: 0 <= i < |r| ==> ks[i] == r[i].0
  {
    if r == [] then [] else [r[0].0] + Keys(r[1..])
  }

  /** No property name occurs twice. */
  predicate Distinct(ks: seq<string>) {
    forall i, j :: 0 <= i < j < |ks| ==> ks[i] != ks[j]
  }

  /** `r[k]`: the value of the property `k`, if there is one. */
  function Get(r: Record, k: string): (v: Option<Value>)
    ensures v.Some? <==> k in Keys(r)
  {
    if r == [] then None
    else if r[0].0 == k then Some(r[0].1)
    else Get(r[1..], k)
  }

  /** `r[k] = v`: an existing property keeps its place and takes the new value; a new one goes last. */
  function Put(r: Record, k: string, v: Value): Record {
    if r == [] then [(k, v)]
    else if r[0].0 == k then [(k, v)] + r[1..]
    else [r[0]] + Put(r[1..], k, v)
  }

  /** After `r[k] = v`, `r[k]` is `v`. */
  lemma {:induction false} PutGet(r: Record, k: string, v: Value)
    ensures Get(Put(r, k, v), k) == Some(v)
  {
    if r != [] && r[0].0 != k {
      var r' := Put(r, k, v);
      assert r'[1..] == Put(r[1..], k, v);
      PutGet(r[1..], k, v);
    }
  }

  /** Assigning `k` leaves every other property as it was. */
  lemma {:induction false} PutOthers(r: Record, k: string, v: Value, k': string)
    requires k' != k
    ensures Get(Put(r, k, v), k') == Get(r, k')
  {
    if r != [] && r[0].0 != k {
      var r' := Put(r, k, v);
      assert r'[1..] == Put(r[1..], k, v);
      PutOthers(r[1..], k, v, k');
    }
  }

  /** Assigning keeps the property order and appends a new name at the end. */
  lemma {:induction false} PutKeys(r: Record, k: string, v: Value)
    ensures Keys(Put(r, k, v)) == if k in Keys(r) then Keys(r) else Keys(r) + [k]
  {
    if r != [] {
      assert Keys(r) == [r[0].0] + Keys(r[1..]);
      if r[0].0 != k {
        var r' := Put(r, k, v);
        assert r'[1..] == Put(r[1..], k, v);
        PutKeys(r[1..], k, v);
        assert Keys(r') == [r[0].0] + Keys(r'[1..]);
      }
    }
  }

  /** Assigning never duplicates a property name. */
  lemma PutKeepsDistinct(r: Record, k: string, v: Value)
    requires Distinct(Keys(r))
    ensures Distinct(Keys(Put(r, k, v)))
  {
    PutKeys(r, k, v);
  }

  // ---------------------------------------------------------------------------
  // Lines
  // ---------------------------------------------------------------------------

  /** `line.split(':').length === 2`: a line is a field exactly when it holds a single colon. */
  predicate IsField(line: string) {
    Count(line, ':') == 1
  }

  /** The trimmed text before the colon of a field line. */
  function FieldProp(line: string): string
    requires IsField(line)
  {
    Trim(Split(line, ':')[0])
  }

  /** The trimmed text after the colon of a field line. */
  function FieldVal(line: string): string
    requires IsField(line)
  {
    Trim(Split(line, ':')[1])
  }

  /**
    A field line is its two halves around the colon, and neither half holds
    a colon: the property and the value are the trimmed halves.
  */
  lemma FieldHalves(line: string)
    requires IsField(line)
    ensures var parts := Split(line, ':');
      |parts| == 2 && line == parts[0] + [':'] + parts[1]
      && FieldProp(line) == Trim(parts[0]) && FieldVal(line) == Trim(parts[1])
      && ':' !in parts[0] && ':' !in parts[1]
  {
    var parts := Split(line, ':');
    JoinSplit(line, ':');
    SplitPiecesFree(line, ':');
    assert Join(parts[1..], ':') == parts[1] by {
      assert parts[1..] == [parts[1]];
    }
  }

  // ---------------------------------------------------------------------------
  // The output object
  // ---------------------------------------------------------------------------

  /** `jsonData[type]`, an absent type standing for no records. */
  function RecordsOf(jd: JsonData, t: string): seq<Record> {
    if t in jd then jd[t] else []
  }

  /** `if (!jsonData[t]) jsonData[t] = []; jsonData[t].push(clone(md))`. */
  function Pushed(jd: JsonData, t: string, md: Record): JsonData {
    jd[t := RecordsOf(jd, t) + [md]]
  }

  /** A push appends the record under its type, creating the type if needed, and touches no other type. */
  lemma PushedSpec(jd: JsonData, t: string, md: Record)
    ensures RecordsOf(Pushed(jd, t, md), t) == RecordsOf(jd, t) + [md]
    ensures Pushed(jd, t, md).Keys == jd.Keys + {t}
    ensures forall t' :: t' != t ==> RecordsOf(Pushed(jd, t, md), t') == RecordsOf(jd, t')
  {
  }
}
