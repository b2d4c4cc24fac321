/**
  The `antlist` task's conversion of the Ant list-metadata log to JSON: a
  `FileName` line opens or continues a record and selects the configured
  metadata type, the other recognised properties fill the record in, and
  any non-field line files the record under that type.
*/
module ListLog {
  import opened Wrappers
  import opened Strings
  import opened LogRecords

  /**
    The parser's state between lines: the output object, `currentType`
    (undefined until the first `FileName` line) and the pending record `md`.
  */
  datatype State = State(jsonData: JsonData, currentType: Option<string>, md: Option<Record>)

  const Init: State := State(map[], None, None)

  /** What one line of the log is: one of the recognised fields, another field, or not a field. */
  datatype Line =
    | FileName(val: string)
    | FullNameId(name: string, id: Option<string>)
    | ManageableState(val: string)
    | NamespacePrefix(val: string)
    | CreatedBy(name: string, id: Option<string>)
    | LastModifiedBy(name: string, id: Option<string>)
    | OtherField
    | NotAField

  /** `val.split('/')`: the text before the first '/', and the text between it and the next one if there is a '/'. */
  function NameOf(val: string): string {
    Split(val, '/')[0]
  }

  function IdOf(val: string): Option<string> {
    var parts := Split(val, '/');
    if |parts| > 1 then Some(parts[1]) else None
  }

  function Classify(line: string): Line {
    if !IsField(line) then NotAField
    else
      var prop, val := FieldProp(line), FieldVal(line);
      if prop == "FileName" then FileName(val)
      else if prop == "FullName/Id" then FullNameId(NameOf(val), IdOf(val))
      else if prop == "Manageable State" then ManageableState(val)
      else if prop == "Namespace Prefix" then NamespacePrefix(val)
      else if prop == "Created By (Name/Id)" then CreatedBy(NameOf(val), IdOf(val))
      else if prop == "Last Modified By (Name/Id)" then LastModifiedBy(NameOf(val), IdOf(val))
      else OtherField
  }

  // The same mapping as `DescribeLog.Classified`, over this parser's own `Line` and `Classify`.
  function Classified(lines: seq<string>): (ls: seq<Line>)
    ensures |ls| == |lines| && forall k :: 0 <= k < |lines| ==> ls[k] == Classify(lines[k])
  {
    seq(|lines|, k requires 0 <= k < |lines| => Classify(lines[k]))
  }

  /** The fields that write into `md` without creating it, and so throw when no record is pending. */
  predicate NeedsRecord(l: Line) {
    l.FullNameId? || l.ManageableState? || l.NamespacePrefix? || l.CreatedBy? || l.LastModifiedBy?
  }

  /** A property value that may be `undefined`. */
  function IdValue(id: Option<string>): Value {
    if id.Some? then Str(id.value) else Missing
  }

  /** The record after a field that needs one. */
  function Fill(md: Record, l: Line): Record
    requires NeedsRecord(l)
  {
    match l
    case FullNameId(name, id) => Put(Put(md, "FullName", Str(name)), "Id", IdValue(id))
    case ManageableState(v) => Put(md, "ManageableState", Str(v))
    case NamespacePrefix(v) => Put(md, "NamespacePrefix", Str(v))
    case CreatedBy(name, id) => Put(md, "CreatedBy", NameId(name, id))
    case LastModifiedBy(name, id) => Put(md, "LastModifiedBy", NameId(name, id))
  }

  /**
    One iteration for the configured type `mt`; `None` is the TypeError a
    field that needs a record throws when none is pending.
  */
  function Step(st: State, l: Line, mt: string): Option<State> {
    if l.FileName? then
      var jd := if mt in st.jsonData then st.jsonData else st.jsonData[mt := []];
      Some(State(jd, Some(mt), Some(Put(st.md.GetOr([]), "FileName", Str(l.val)))))
    else if NeedsRecord(l) then
      if st.md.None? then None else Some(st.(md := Some(Fill(st.md.value, l))))
    else if l.OtherField? then Some(st)
    else if st.md.Some? && st.currentType.Some? && st.currentType.value != "" then
      Some(State(Pushed(st.jsonData, st.currentType.value, st.md.value), st.currentType, None))
    else Some(st)
  }

  /** The iterations from line `i` on: the final state, or the index of the line that throws. */
  function Run(st: State, ls: seq<Line>, mt: string, i: nat): Result<State, nat>
    requires i <= |ls|
    decreases |ls| - i
  {
    if i == |ls| then Success(st)
    else
      var next := Step(st, ls[i], mt);
      if next.None? then Failure(i) else Run(next.value, ls, mt, i + 1)
  }

  /** The object written out for the log's lines, or the index of the line at which the Grunt task throws. */
  function Parse(lines: seq<string>, mt: string): Result<JsonData, nat> {
    var r := Run(Init, Classified(lines), mt, 0);
    if r.Success? then Success(r.value.jsonData) else Failure(r.error)
  }

  /** The reading of one line as the source does it: split on ':', trim both halves, split the value on '/'. */
  method ClassifyLine(line: string) returns (l: Line)
    ensures l == Classify(line)
    ensures l.NotAField? <==> Count(line, ':') != 1
    ensures l.FileName? ==> IsField(line) && FieldProp(line) == "FileName" && l.val == FieldVal(line)
    ensures l.FullNameId? || l.CreatedBy? || l.LastModifiedBy? ==>
      && IsField(line)
      && (Count(FieldVal(line), '/') == 0 ==> l.name == FieldVal(line) && l.id.None?)
      && (Count(FieldVal(line), '/') == 1 ==> l.id.Some? && l.name + "/" + l.id.value == FieldVal(line))
  {
    var parts := Split(line, ':');
    if |parts| != 2 {
      return NotAField;
    }
    var prop := Trim(parts[0]);
    var val := Trim(parts[1]);
    NameIdRoundTrip(val);
    var valsplit := Split(val, '/');
    var id := if |valsplit| > 1 then Some(valsplit[1]) else None;
    if prop == "FileName" {
      l := FileName(val);
    } else if prop == "FullName/Id" {
      l := FullNameId(valsplit[0], id);
    } else if prop == "Manageable State" {
      l := ManageableState(val);
    } else if prop == "Namespace Prefix" {
      l := NamespacePrefix(val);
    } else if prop == "Created By (Name/Id)" {
      l := CreatedBy(valsplit[0], id);
    } else if prop == "Last Modified By (Name/Id)" {
      l := LastModifiedBy(valsplit[0], id);
    } else {
      l := OtherField;
    }
  }

  /**
    The body of the loop for a line already read: the new `jsonData`,
    `currentType` and `md`, or `ok == false` where the source throws.
  */
  method ApplyLine(jsonData: JsonData, currentType: Option<string>, md: Option<Record>, l: Line, mt: string)
    returns (ok: bool, jsonData': JsonData, currentType': Option<string>, md': Option<Record>)
    ensures ok <==> Step(State(jsonData, currentType, md), l, mt).Some?
    ensures ok ==> Step(State(jsonData, currentType, md), l, mt).value == State(jsonData', currentType', md')
  {
    ok, jsonData', currentType', md' := true, jsonData, currentType, md;
    match l {
      case FileName(val) =>
        if mt !in jsonData {
          jsonData' := jsonData[mt := []];
        }
        currentType' := Some(mt);
        var current := if md.Some? then md.value else [];
        md' := Some(Put(current, "FileName", Str(val)));
      case FullNameId(name, id) =>
        if md.None? {
          return false, jsonData, currentType, md;
        }
        md' := Some(Put(Put(md.value, "FullName", Str(name)), "Id", if id.Some? then Str(id.value) else Missing));
      case ManageableState(val) =>
        if md.None? {
          return false, jsonData, currentType, md;
        }
        md' := Some(Put(md.value, "ManageableState", Str(val)));
      case NamespacePrefix(val) =>
        if md.None? {
          return false, jsonData, currentType, md;
        }
        md' := Some(Put(md.value, "NamespacePrefix", Str(val)));
      case CreatedBy(name, id) =>
        if md.None? {
          return false, jsonData, currentType, md;
        }
        md' := Some(Put(md.value, "CreatedBy", NameId(name, id)));
      case LastModifiedBy(name, id) =>
        if md.None? {
          return false, jsonData, currentType, md;
        }
        md' := Some(Put(md.value, "LastModifiedBy", NameId(name, id)));
      case OtherField =>
      case NotAField =>
        if md.Some? && currentType.Some? && currentType.value != "" {
          var t := currentType.value;
          jsonData' := jsonData[t := (if t in jsonData then jsonData[t] else []) + [md.value]];
          md' := None;
        }
    }
  }

  /** The parser as the source runs it on the log file's text, for the Grunt task's `metadataType` option. */
  method ParseListLog(logFile: string, metadataType: string) returns (r: Result<JsonData, nat>)
    ensures r == Parse(Split(logFile, '\n'), metadataType)
  {
    var lines := Split(logFile, '\n');
    ghost var ls := Classified(lines);
    var jsonData: JsonData := map[];
    var currentType: Option<string> := None;
    var md: Option<Record> := None;
    for i := 0 to |lines|
      invariant Run(State(jsonData, currentType, md), ls, metadataType, i) == Run(Init, ls, metadataType, 0)
    {
      var l := ClassifyLine(lines[i]);
      var ok;
      ok, jsonData, currentType, md := ApplyLine(jsonData, currentType, md, l, metadataType);
      if !ok {
        return Failure(i);
      }
    }
    r := Success(jsonData);
  }

  // ---------------------------------------------------------------------------
  // What the parser keeps true
  // ---------------------------------------------------------------------------

  /** A record opened by a `FileName` line: that property comes first. */
  predicate OpenedByFileName(r: Record) {
    |r| > 0 && r[0].0 == "FileName"
  }

  /**
    Between lines: a pending record was opened by `FileName` and exists only
    once `currentType` is the configured type; the output has no other key,
    holds that key once `currentType` is set, and holds only records opened
    by `FileName`, none at all under an empty type.
  */
  predicate Inv(st: State, mt: string) {
    && (st.md.Some? ==> st.currentType == Some(mt) && OpenedByFileName(st.md.value))
    && (st.currentType.Some? ==> st.currentType.value == mt && mt in st.jsonData)
    && (forall t :: t in st.jsonData ==> t == mt)
    && (forall k :: 0 <= k < |RecordsOf(st.jsonData, mt)| ==> OpenedByFileName(RecordsOf(st.jsonData, mt)[k]))
    && (mt == "" ==> RecordsOf(st.jsonData, mt) == [])
  }

  /** Assigning a property never moves the first one. */
  lemma PutKeepsFirst(r: Record, k: string, v: Value)
    requires r != []
    ensures Put(r, k, v) != [] && Put(r, k, v)[0].0 == r[0].0
  {
  }

  lemma FillKeepsFirst(md: Record, l: Line)
    requires NeedsRecord(l) && md != []
    ensures Fill(md, l) != [] && Fill(md, l)[0].0 == md[0].0
  {
    if l.FullNameId? {
      PutKeepsFirst(md, "FullName", Str(l.name));
      PutKeepsFirst(Put(md, "FullName", Str(l.name)), "Id", IdValue(l.id));
    }
  }

  /** Every line that does not throw keeps `Inv`. */
  lemma StepKeepsInv(st: State, l: Line, mt: string)
    requires Inv(st, mt) && Step(st, l, mt).Some?
    ensures Inv(Step(st, l, mt).value, mt)
  {
    var st' := Step(st, l, mt).value;
    if l.FileName? {
      var base := st.md.GetOr([]);
      if base != [] {
        PutKeepsFirst(base, "FileName", Str(l.val));
      }
      assert RecordsOf(st'.jsonData, mt) == RecordsOf(st.jsonData, mt);
    } else if NeedsRecord(l) {
      FillKeepsFirst(st.md.value, l);
    } else if !l.OtherField? && st.md.Some? && st.currentType.Some? && st.currentType.value != "" {
      PushedSpec(st.jsonData, mt, st.md.value);
    }
  }

  /** `Inv` holds at the end of any run that does not throw. */
  lemma {:induction false} RunKeepsInv(st: State, ls: seq<Line>, mt: string, i: nat)
    requires i <= |ls| && Inv(st, mt)
    requires Run(st, ls, mt, i).Success?
    ensures Inv(Run(st, ls, mt, i).value, mt)
    decreases |ls| - i
  {
    if i < |ls| {
      StepKeepsInv(st, ls[i], mt);
      RunKeepsInv(Step(st, ls[i], mt).value, ls, mt, i + 1);
    }
  }

  /**
    The list JSON has no key but the configured metadata type, every record
    in it starts with its `FileName`, and under an empty metadata type no
    record is ever filed.
  */
  lemma ParseShape(lines: seq<string>, mt: string)
    requires Parse(lines, mt).Success?
    ensures forall t :: t in Parse(lines, mt).value ==> t == mt
    ensures forall k :: 0 <= k < |RecordsOf(Parse(lines, mt).value, mt)| ==>
      OpenedByFileName(RecordsOf(Parse(lines, mt).value, mt)[k])
    ensures mt == "" ==> RecordsOf(Parse(lines, mt).value, mt) == []
  {
    RunKeepsInv(Init, Classified(lines), mt, 0);
  }

  // ---------------------------------------------------------------------------
  // Where the parser throws
  // ---------------------------------------------------------------------------

  /** A run throws only at a field that needs a record. */
  lemma {:induction false} RunThrowsAt(st: State, ls: seq<Line>, mt: string, i: nat)
    requires i <= |ls| && Run(st, ls, mt, i).Failure?
    ensures var k := Run(st, ls, mt, i).error; i <= k < |ls| && NeedsRecord(ls[k])
    decreases |ls| - i
  {
    if Step(st, ls[i], mt).Some? {
      RunThrowsAt(Step(st, ls[i], mt).value, ls, mt, i + 1);
    }
  }

  /** Lines that are neither `FileName` nor a field needing a record leave no record pending. */
  lemma {:induction false} NoRecordWithoutFileName(st: State, ls: seq<Line>, mt: string, i: nat, k: nat)
    requires i <= k < |ls| && st.md.None?
    requires forall j :: i <= j < k ==> !ls[j].FileName? && !NeedsRecord(ls[j])
    requires NeedsRecord(ls[k])
    ensures Run(st, ls, mt, i) == Failure(k)
    decreases k - i
  {
    if i < k {
      NoRecordWithoutFileName(Step(st, ls[i], mt).value, ls, mt, i + 1, k);
    }
  }

  /**
    A log in which a field that needs a record comes before any `FileName`
    line makes the Grunt task throw at that field.
  */
  lemma FieldBeforeFileNameThrows(lines: seq<string>, mt: string, k: nat)
    requires k < |lines| && NeedsRecord(Classify(lines[k]))
    requires forall j :: 0 <= j < k ==> !Classify(lines[j]).FileName? && !NeedsRecord(Classify(lines[j]))
    ensures Parse(lines, mt) == Failure(k)
  {
    NoRecordWithoutFileName(Init, Classified(lines), mt, 0, k);
  }

  // ---------------------------------------------------------------------------
  // Lines
  // ---------------------------------------------------------------------------

  /**
    A value with exactly one '/' splits into a name and an id that join back
    into it; a value without '/' is all name and has an undefined id.
  */
  lemma NameIdRoundTrip(val: string)
    ensures Count(val, '/') == 0 ==> NameOf(val) == val && IdOf(val) == None
    ensures Count(val, '/') == 1 ==>
      IdOf(val).Some? && NameOf(val) + ['/'] + IdOf(val).value == val
      && '/' !in NameOf(val) && '/' !in IdOf(val).value
  {
    var parts := Split(val, '/');
    JoinSplit(val, '/');
    SplitPiecesFree(val, '/');
    if |parts| == 2 {
      assert parts[1..] == [parts[1]];
    }
  }

  /**
    After a line that is not a field, no record is pending unless the type is
    unset or empty; the pending record, if any, was filed under the type.
  */
  lemma ClosingLineFiles(st: State, mt: string)
    requires Inv(st, mt)
    ensures var st' := Step(st, NotAField, mt).value;
      && (st'.md.Some? <==> st.md.Some? && mt == "")
      && RecordsOf(st'.jsonData, mt) ==
           RecordsOf(st.jsonData, mt) + (if st.md.Some? && mt != "" then [st.md.value] else [])
  {
    if st.md.Some? && mt != "" {
      PushedSpec(st.jsonData, mt, st.md.value);
    }
  }
}
