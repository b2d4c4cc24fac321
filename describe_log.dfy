/**
  The `antdescribe` task's conversion of the Ant describe log to JSON: every
  `key: value` line adds a property to the pending record, and every other
  line moves the pending record into `jsonData.types`.
*/
module DescribeLog {
  import opened Wrappers
  import opened Strings
  import opened LogRecords

  /** The only type the describe parser collects under. */
  const Types: string := "types"

  /** The parser's state between lines: the output object and the pending record `md`. */
  datatype State = State(jsonData: JsonData, md: Option<Record>)

  const Init: State := State(map[], None)

  // ---------------------------------------------------------------------------
  // Field values
  // ---------------------------------------------------------------------------

  /** Each part trimmed. */
  function TrimAll(parts: seq<string>): (ts: seq<string>)
    ensures |ts| == |parts| && forall i :: 0 <= i < |parts| ==> ts[i] == Trim(parts[i])
  {
    seq(|parts|, i requires 0 <= i < |parts| => Trim(parts[i]))
  }

  /** The items that do not start with '*', in order. */
  function Unstarred(items: seq<string>): seq<string> {
    if items == [] then []
    else
      var last := items[|items| - 1];
      Unstarred(items[..|items| - 1]) + (if StartsWithStar(last) then [] else [last])
  }

  /** The value stored under `prop` for the trimmed value text `val`. */
  function FieldValue(prop: string, val: string): Value {
    if prop == "ChildObjects" then
      var parts := Split(val, ',');
      if |parts| > 1 then StrList(Unstarred(TrimAll(parts)))
      else if StartsWithStar(val) then StrList([])
      else Str(val)
    else if val == "false" then Bool(false)
    else if val == "true" then Bool(true)
    else Str(val)
  }

  /** What one line of the log is: a field with its property and converted value, or any other line. */
  datatype Line = Field(prop: string, value: Value) | Other

  function Classify(line: string): Line {
    if IsField(line) then Field(FieldProp(line), FieldValue(FieldProp(line), FieldVal(line))) else Other
  }

  function Classified(lines: seq<string>): (ls: seq<Line>)
    ensures |ls| == |lines| && forall k :: 0 <= k < |lines| ==> ls[k] == Classify(lines[k])
  {
    seq(|lines|, k requires 0 <= k < |lines| => Classify(lines[k]))
  }

  // ---------------------------------------------------------------------------
  // The loop
  // ---------------------------------------------------------------------------

  /** `md[prop] = val`, creating the record if none is pending. */
  function AddField(md: Option<Record>, l: Line): Record
    requires l.Field?
  {
    Put(md.GetOr([]), l.prop, l.value)
  }

  /** One iteration of the loop over the log's lines. */
  function Step(st: State, l: Line): State {
    if l.Field? then State(st.jsonData, Some(AddField(st.md, l)))
    else if st.md.Some? then State(Pushed(st.jsonData, Types, st.md.value), None)
    else st
  }

  /** The iterations from line `i` on. */
  function Run(st: State, ls: seq<Line>, i: nat): State
    requires i <= |ls|
    decreases |ls| - i
  {
    if i == |ls| then st else Run(Step(st, ls[i]), ls, i + 1)
  }

  /** The object written out for the log's lines; a record still pending at the end is dropped. */
  function Parse(lines: seq<string>): JsonData {
    Run(Init, Classified(lines), 0).jsonData
  }

  /** The value conversion as the source runs it, with its loop over the parts of a `ChildObjects` list. */
  method ConvertValue(prop: string, val: string) returns (value: Value)
    ensures value == FieldValue(prop, val)
  {
    var valsplit := Split(val, ',');
    if prop == "ChildObjects" {
      if |valsplit| > 1 {
        var arr: seq<string> := [];
        for a := 0 to |valsplit|
          invariant arr == Unstarred(TrimAll(valsplit[..a]))
        {
          assert TrimAll(valsplit[..a + 1])[..a] == TrimAll(valsplit[..a]);
          var part := Trim(valsplit[a]);
          if !StartsWithStar(part) {
            arr := arr + [part];
          }
        }
        assert valsplit[..|valsplit|] == valsplit;
        value := StrList(arr);
      } else if StartsWithStar(val) {
        value := StrList([]);
      } else {
        value := Str(val);
      }
    } else if val == "false" {
      value := Bool(false);
    } else if val == "true" {
      value := Bool(true);
    } else {
      value := Str(val);
    }
  }

  /** The parser as the source runs it on the log file's text. */
  method ParseDescribeLog(logFile: string) returns (jsonData: JsonData)
    ensures jsonData == Parse(Split(logFile, '\n'))
  {
    var lines := Split(logFile, '\n');
    ghost var ls := Classified(lines);
    jsonData := map[];
    var currentType := Types;
    var md: Option<Record> := None;
    for i := 0 to |lines|
      invariant Run(State(jsonData, md), ls, i) == Run(Init, ls, 0)
    {
      ghost var st := State(jsonData, md);
      assert Run(st, ls, i) == Run(Step(st, ls[i]), ls, i + 1);
      var line := Split(lines[i], ':');
      if |line| == 2 {
        var prop := Trim(line[0]);
        var val := Trim(line[1]);
        var value := ConvertValue(prop, val);
        assert ls[i] == Field(prop, value);
        var current := if md.Some? then md.value else [];
        md := Some(Put(current, prop, value));
      } else if md.Some? && currentType != "" {
        assert ls[i] == Other;
        jsonData := jsonData[currentType := (if currentType in jsonData then jsonData[currentType] else []) + [md.value]];
        md := None;
      }
    }
  }

  // ---------------------------------------------------------------------------
  // Field values
  // ---------------------------------------------------------------------------

  /**
    Only `ChildObjects` holds lists: a list with a comma keeps exactly the
    trimmed parts that do not start with '*', and a single '*'-prefixed
    value is the empty list. Only other properties turn "true" and "false"
    into booleans; every other value stays the trimmed text.
  */
  lemma FieldValueCases(prop: string, val: string)
    ensures var r := FieldValue(prop, val);
      && (r.Bool? <==> prop != "ChildObjects" && (val == "true" || val == "false"))
      && (r.Bool? ==> (r.b <==> val == "true"))
      && (r.StrList? <==> prop == "ChildObjects" && (',' in val || StartsWithStar(val)))
      && (r.StrList? && ',' !in val ==> r.items == [])
      && (r.StrList? && ',' in val ==> r.items == Unstarred(TrimAll(Split(val, ','))))
      && (r.Str? ==> r.s == val)
      && !r.NameId? && !r.Missing?
  {
    CountPositive(val, ',');
  }

  /** Every kept item is one of the items and does not start with '*'. */
  lemma {:induction false} UnstarredSound(items: seq<string>, x: string)
    requires x in Unstarred(items)
    ensures x in items && !StartsWithStar(x)
  {
    var n := |items| - 1;
    var init := items[..n];
    var tail := if StartsWithStar(items[n]) then [] else [items[n]];
    assert Unstarred(items) == Unstarred(init) + tail;
    if x in Unstarred(init) {
      UnstarredSound(init, x);
    } else {
      assert x in tail;
    }
  }

  /** Every item that does not start with '*' is kept. */
  lemma {:induction false} UnstarredComplete(items: seq<string>, i: nat)
    requires i < |items| && !StartsWithStar(items[i])
    ensures items[i] in Unstarred(items)
  {
    var n := |items| - 1;
    if i < n {
      var init := items[..n];
      assert init[i] == items[i];
      UnstarredComplete(init, i);
    }
  }

  /**
    The list a `ChildObjects` value with a comma becomes: exactly the
    trimmed comma-separated parts that do not start with '*'.
  */
  lemma ChildObjectsMembers(val: string, x: string)
    requires ',' in val
    ensures FieldValue("ChildObjects", val).StrList?
    ensures x in FieldValue("ChildObjects", val).items <==> x in TrimAll(Split(val, ',')) && !StartsWithStar(x)
  {
    CountPositive(val, ',');
    var ts := TrimAll(Split(val, ','));
    if x in Unstarred(ts) {
      UnstarredSound(ts, x);
    }
    if x in ts && !StartsWithStar(x) {
      var i :| 0 <= i < |ts| && ts[i] == x;
      UnstarredComplete(ts, i);
    }
  }

  // ---------------------------------------------------------------------------
  // One line
  // ---------------------------------------------------------------------------

  /**
    After any line a record is pending exactly when the line split into two
    parts on ':'; the output changes only on another line, and then gains
    the pending record, if there was one, under "types".
  */
  lemma StepCases(st: State, line: string)
    ensures Step(st, Classify(line)).md.Some? <==> |Split(line, ':')| == 2
    ensures Step(st, Classify(line)).jsonData != st.jsonData <==> |Split(line, ':')| != 2 && st.md.Some?
    ensures |Split(line, ':')| != 2 ==>
      RecordsOf(Step(st, Classify(line)).jsonData, Types) ==
        RecordsOf(st.jsonData, Types) + (if st.md.Some? then [st.md.value] else [])
  {
    if !IsField(line) && st.md.Some? {
      PushedSpec(st.jsonData, Types, st.md.value);
      assert RecordsOf(Step(st, Classify(line)).jsonData, Types) != RecordsOf(st.jsonData, Types);
    }
  }

  /** A field line stores its converted value under its trimmed property name and leaves the other properties alone. */
  lemma FieldStored(st: State, line: string)
    requires IsField(line)
    ensures var md' := Step(st, Classify(line)).md;
      md'.Some? && Get(md'.value, FieldProp(line)) == Some(FieldValue(FieldProp(line), FieldVal(line)))
    ensures var md' := Step(st, Classify(line)).md;
      forall k :: k != FieldProp(line) ==> Get(md'.value, k) == Get(st.md.GetOr([]), k)
  {
    var l := Classify(line);
    PutGet(st.md.GetOr([]), l.prop, l.value);
    forall k | k != FieldProp(line)
      ensures Get(AddField(st.md, l), k) == Get(st.md.GetOr([]), k)
    {
      PutOthers(st.md.GetOr([]), l.prop, l.value, k);
    }
  }

  // ---------------------------------------------------------------------------
  // The records emitted, as groups of lines
  // ---------------------------------------------------------------------------

  /** Lines `i` up to `j` are all fields. */
  predicate AllFields(ls: seq<Line>, i: nat, j: nat)
    requires i <= j <= |ls|
  {
    forall k :: i <= k < j ==> ls[k].Field?
  }

  /** The record built from `md` by the field lines `i` up to `j`. */
  function Pending(md: Option<Record>, ls: seq<Line>, i: nat, j: nat): Option<Record>
    requires i <= j <= |ls| && AllFields(ls, i, j)
    decreases j - i
  {
    if i == j then md else Pending(Some(AddField(md, ls[i])), ls, i + 1, j)
  }

  /** The first non-field line from `i` on. */
  function NextTerminator(ls: seq<Line>, i: nat): (k: nat)
    requires i <= |ls| && !AllFields(ls, i, |ls|)
    ensures i <= k < |ls| && !ls[k].Field? && AllFields(ls, i, k)
    decreases |ls| - i
  {
    if !ls[i].Field? then i else NextTerminator(ls, i + 1)
  }

  /**
    The records emitted from line `i` on, `md` pending: one per run of field
    lines that a non-field line closes and that leaves a record behind; the
    last run, which no line closes, emits nothing.
  */
  function Emitted(md: Option<Record>, ls: seq<Line>, i: nat): seq<Record>
    requires i <= |ls|
    decreases |ls| - i
  {
    if AllFields(ls, i, |ls|) then []
    else
      var k := NextTerminator(ls, i);
      var p := Pending(md, ls, i, k);
      (if p.Some? then [p.value] else []) + Emitted(None, ls, k + 1)
  }

  /** A run of field lines only builds up the pending record. */
  lemma {:induction false} RunFields(st: State, ls: seq<Line>, i: nat, j: nat)
    requires i <= j <= |ls| && AllFields(ls, i, j)
    ensures Run(st, ls, i) == Run(State(st.jsonData, Pending(st.md, ls, i, j)), ls, j)
    decreases j - i
  {
    if i < j {
      RunFields(Step(st, ls[i]), ls, i + 1, j);
    }
  }

  /** The loop emits exactly the records of the groups, under "types". */
  lemma {:induction false} RunEmits(st: State, ls: seq<Line>, i: nat)
    requires i <= |ls|
    ensures RecordsOf(Run(st, ls, i).jsonData, Types) == RecordsOf(st.jsonData, Types) + Emitted(st.md, ls, i)
    decreases |ls| - i
  {
    if AllFields(ls, i, |ls|) {
      RunFields(st, ls, i, |ls|);
    } else {
      var k := NextTerminator(ls, i);
      RunFields(st, ls, i, k);
      var st' := State(st.jsonData, Pending(st.md, ls, i, k));
      assert Run(st', ls, k) == Run(Step(st', ls[k]), ls, k + 1);
      if st'.md.Some? {
        PushedSpec(st.jsonData, Types, st'.md.value);
      }
      RunEmits(Step(st', ls[k]), ls, k + 1);
    }
  }

  /** The loop adds the key "types" when it emits something, and no other key; other types keep their records. */
  lemma {:induction false} RunKeys(st: State, ls: seq<Line>, i: nat)
    requires i <= |ls|
    ensures Run(st, ls, i).jsonData.Keys ==
      st.jsonData.Keys + (if Emitted(st.md, ls, i) == [] then {} else {Types})
    ensures forall t :: t != Types ==> RecordsOf(Run(st, ls, i).jsonData, t) == RecordsOf(st.jsonData, t)
    decreases |ls| - i
  {
    if AllFields(ls, i, |ls|) {
      RunFields(st, ls, i, |ls|);
    } else {
      var k := NextTerminator(ls, i);
      RunFields(st, ls, i, k);
      var st' := State(st.jsonData, Pending(st.md, ls, i, k));
      assert Run(st', ls, k) == Run(Step(st', ls[k]), ls, k + 1);
      if st'.md.Some? {
        PushedSpec(st.jsonData, Types, st'.md.value);
      }
      RunKeys(Step(st', ls[k]), ls, k + 1);
    }
  }

  /**
    The describe JSON holds at most the key "types", present exactly when
    some record is emitted, and its records are those of the groups.
  */
  lemma ParseIsGroups(lines: seq<string>)
    ensures RecordsOf(Parse(lines), Types) == Emitted(None, Classified(lines), 0)
    ensures Parse(lines).Keys == if Emitted(None, Classified(lines), 0) == [] then {} else {Types}
  {
    RunEmits(Init, Classified(lines), 0);
    RunKeys(Init, Classified(lines), 0);
  }

  /** The loop over `a + b` runs the lines of `a` first. */
  lemma {:induction false} RunConcat(st: State, a: seq<Line>, b: seq<Line>, i: nat)
    requires i <= |a|
    ensures Run(st, a + b, i) == Run(Run(st, a, i), a + b, |a|)
    decreases |a| - i
  {
    if i < |a| {
      assert (a + b)[i] == a[i];
      RunConcat(Step(st, a[i]), a, b, i + 1);
    }
  }

  /** Field lines after the last other line never reach the output. */
  lemma TrailingFieldsDropped(lines: seq<string>, extra: seq<string>)
    requires forall k :: 0 <= k < |extra| ==> IsField(extra[k])
    ensures Parse(lines + extra) == Parse(lines)
  {
    var a, b := Classified(lines), Classified(extra);
    assert Classified(lines + extra) == a + b;
    RunConcat(Init, a, b, 0);
    RunFields(Run(Init, a, 0), a + b, |a|, |a + b|);
  }

  /** A closing line after a record's fields emits that record as the last one. */
  lemma ClosingLineEmits(lines: seq<string>, closing: string)
    requires !IsField(closing)
    ensures var before := Run(Init, Classified(lines), 0);
      RecordsOf(Parse(lines + [closing]), Types) ==
        RecordsOf(before.jsonData, Types) + (if before.md.Some? then [before.md.value] else [])
  {
    var a := Classified(lines);
    assert Classified(lines + [closing]) == a + [Other];
    RunConcat(Init, a, [Other], 0);
    var before := Run(Init, a, 0);
    if before.md.Some? {
      PushedSpec(before.jsonData, Types, before.md.value);
    }
  }
}
