/** p-1/backend/utils/parseExcel.js: the shape of a parsed sheet and the
    group-by-and-sum that turns rows into a chart series. The xlsx reader is
    not modelled: its output for the first sheet is an input here, either the
    row objects or the error it threw. */
module ParseExcel {
  import opened Wrappers
  import opened JsValues
  import opened Sorting
  import opened ObjectKeys

  /** One row object of sheet_to_json: its own properties in the order the
      reader added them (column order). A blank cell has no property. */
  datatype Row = Row(fields: seq<(string, Cell)>)

  function Names(fields: seq<(string, Cell)>): (r: seq<string>)
    ensures |r| == |fields|
  {
    if fields == [] then [] else [fields[0].0] + Names(fields[1..])
  }

  function Lookup(fields: seq<(string, Cell)>, key: string): Option<Cell> {
    if fields == [] then None
    else if fields[0].0 == key then Some(fields[0].1)
    else Lookup(fields[1..], key)
  }

  /** row[key] */
  function Get(row: Row, key: string): Option<Cell> {
    Lookup(row.fields, key)
  }

  /** Object.keys(row) */
  function RowKeys(row: Row): seq<string> {
    ObjectKeyOrder(Names(row.fields))
  }

  datatype ParsedTable = ParsedTable(headers: seq<string>, rows: seq<Row>, rowCount: nat, columnCount: nat)

  const ParseFailure: string := "Failed to parse Excel file"

  /** parseExcelFile, given what reading the file's first sheet produced. */
  function ParseExcelFile(sheet: Result<seq<Row>, string>): (r: Result<ParsedTable, string>)
    ensures r.Err? <==> sheet.Err?
    ensures r.Err? ==> r.error == ParseFailure
    ensures r.Ok? ==> r.value.rows == sheet.value && r.value.rowCount == |sheet.value|
    ensures r.Ok? ==> r.value.columnCount == |r.value.headers|
  {
    match sheet
    case Err(_) => Err(ParseFailure)
    case Ok(data) =>
      var headers := if |data| > 0 then RowKeys(data[0]) else [];
      Ok(ParsedTable(headers, data, |data|, |headers|))
  }

  /** The headers are the first row's property names in Object.keys order:
      integer-like names first and ascending, the others in column order
      (each once when the row's names are distinct, as the reader makes
      them), and none when there is no row. */
  lemma ParsedHeaders(sheet: Result<seq<Row>, string>)
    requires sheet.Ok?
    ensures sheet.value == [] ==> ParseExcelFile(sheet).value.headers == []
    ensures sheet.value != [] ==> ParseExcelFile(sheet).value.headers == RowKeys(sheet.value[0])
    ensures sheet.value != [] ==>
      multiset(ParseExcelFile(sheet).value.headers) == multiset(Names(sheet.value[0].fields))
    ensures sheet.value != [] ==>
      NamedKeys(ParseExcelFile(sheet).value.headers) == NamedKeys(Names(sheet.value[0].fields))
    ensures sheet.value != [] ==> forall i, j ::
      (0 <= i < j < |ParseExcelFile(sheet).value.headers| && IsArrayIndex(ParseExcelFile(sheet).value.headers[j])) ==>
        (IsArrayIndex(ParseExcelFile(sheet).value.headers[i])
         && ArrayIndexValue(ParseExcelFile(sheet).value.headers[i]) <= ArrayIndexValue(ParseExcelFile(sheet).value.headers[j]))
    ensures sheet.value != [] && IndexKeys(Names(sheet.value[0].fields)) == [] ==>
      ParseExcelFile(sheet).value.headers == Names(sheet.value[0].fields)
    ensures sheet.value != [] && NoDup(Names(sheet.value[0].fields)) ==> NoDup(ParseExcelFile(sheet).value.headers)
  {
    if sheet.value != [] {
      ObjectKeyOrderSpec(Names(sheet.value[0].fields));
      if NoDup(Names(sheet.value[0].fields)) {
        ObjectKeyOrderNoDup(Names(sheet.value[0].fields));
      }
    }
  }

  // ---------------------------------------------------------------------------
  // generateChartData: specification

  const UnknownLabel: string := "Unknown"

  /** `row[xAxis] || "Unknown"`, as the property name it becomes in `acc`. */
  function GroupKey(row: Row, xAxis: string): string {
    var v := Get(row, xAxis);
    if Falsy(v) then UnknownLabel else CellString(v.value)
  }

  /** `Number.parseFloat(row[yAxis]) || 0` */
  function YValue(row: Row, yAxis: string): real {
    NumberOrZero(Get(row, yAxis))
  }

  function GroupKeys(rows: seq<Row>, xAxis: string): (keys: seq<string>)
    ensures |keys| == |rows|
  {
    if rows == [] then []
    else GroupKeys(rows[..|rows| - 1], xAxis) + [GroupKey(rows[|rows| - 1], xAxis)]
  }

  lemma {:induction false} GroupKeysAt(rows: seq<Row>, xAxis: string)
    ensures forall i :: 0 <= i < |rows| ==> GroupKeys(rows, xAxis)[i] == GroupKey(rows[i], xAxis)
  {
    if rows != [] {
      GroupKeysAt(rows[..|rows| - 1], xAxis);
    }
  }

  /** The distinct keys in the order of their first occurrence. */
  function FirstSeen(keys: seq<string>): (r: seq<string>)
    ensures NoDup(r)
    ensures forall k :: k in r <==> k in keys
  {
    if keys == [] then []
    else
      var p := FirstSeen(keys[..|keys| - 1]);
      var k := keys[|keys| - 1];
      assert forall x :: x in keys <==> x in keys[..|keys| - 1] || x == k by {
        assert keys == keys[..|keys| - 1] + [k];
      }
      if k in p then p else p + [k]
  }

  /** The sum of the coerced y values of the rows whose key is `lbl`. */
  function GroupSum(rows: seq<Row>, xAxis: string, yAxis: string, lbl: string): real {
    if rows == [] then 0.0
    else
      var last := rows[|rows| - 1];
      GroupSum(rows[..|rows| - 1], xAxis, yAxis, lbl) + Hit(last, xAxis, yAxis, lbl)
  }

  function Hit(row: Row, xAxis: string, yAxis: string, lbl: string): real {
    if GroupKey(row, xAxis) == lbl then YValue(row, yAxis) else 0.0
  }

  /** The sum of every row's coerced y value. */
  function TotalY(rows: seq<Row>, yAxis: string): real {
    if rows == [] then 0.0 else TotalY(rows[..|rows| - 1], yAxis) + YValue(rows[|rows| - 1], yAxis)
  }

  /** Object.keys(groupedData) */
  function ChartLabels(rows: seq<Row>, xAxis: string): seq<string> {
    ObjectKeyOrder(FirstSeen(GroupKeys(rows, xAxis)))
  }

  function GroupSums(rows: seq<Row>, xAxis: string, yAxis: string, labels: seq<string>): (sums: seq<real>)
    ensures |sums| == |labels|
  {
    if labels == [] then [] else [GroupSum(rows, xAxis, yAxis, labels[0])] + GroupSums(rows, xAxis, yAxis, labels[1..])
  }

  lemma {:induction false} GroupSumsAt(rows: seq<Row>, xAxis: string, yAxis: string, labels: seq<string>)
    ensures forall i :: 0 <= i < |labels| ==> GroupSums(rows, xAxis, yAxis, labels)[i] == GroupSum(rows, xAxis, yAxis, labels[i])
  {
    if labels != [] {
      GroupSumsAt(rows, xAxis, yAxis, labels[1..]);
    }
  }

  /** Object.values(groupedData) */
  function ChartValues(rows: seq<Row>, xAxis: string, yAxis: string): seq<real> {
    GroupSums(rows, xAxis, yAxis, ChartLabels(rows, xAxis))
  }

  // ---------------------------------------------------------------------------
  // generateChartData: the fold over the rows

  /** `acc` holds, for every key met in `prefix`, the sum of its rows, and
      `order` lists those keys in the order they were first met. */
  ghost predicate Summarises(acc: map<string, real>, order: seq<string>, prefix: seq<Row>, xAxis: string, yAxis: string) {
    && order == FirstSeen(GroupKeys(prefix, xAxis))
    && (forall k :: k in acc <==> k in order)
    && (forall k :: k in acc ==> acc[k] == GroupSum(prefix, xAxis, yAxis, k))
  }

  /** One call of the reduce callback keeps Summarises. */
  lemma SummarisesStep(acc: map<string, real>, order: seq<string>, rows: seq<Row>, i: nat, xAxis: string, yAxis: string,
                       key: string, y: real, acc': map<string, real>, order': seq<string>)
    requires i < |rows| && key == GroupKey(rows[i], xAxis) && y == YValue(rows[i], yAxis)
    requires Summarises(acc, order, rows[..i], xAxis, yAxis)
    requires order' == (if key in acc then order else order + [key])
    requires forall k :: k in acc' <==> k in acc || k == key
    requires forall k :: k in acc && k != key ==> acc'[k] == acc[k]
    requires key in acc' && acc'[key] == (if key in acc then acc[key] else 0.0) + y
    ensures Summarises(acc', order', rows[..i + 1], xAxis, yAxis)
  {
    PrefixStep(rows, i, xAxis, yAxis);
    StepSums(acc, order, rows, i, xAxis, yAxis, key, y, acc');
  }

  lemma StepSums(acc: map<string, real>, order: seq<string>, rows: seq<Row>, i: nat, xAxis: string, yAxis: string,
                 key: string, y: real, acc': map<string, real>)
    requires i < |rows| && key == GroupKey(rows[i], xAxis) && y == YValue(rows[i], yAxis)
    requires Summarises(acc, order, rows[..i], xAxis, yAxis)
    requires forall k :: k in acc' <==> k in acc || k == key
    requires forall k :: k in acc && k != key ==> acc'[k] == acc[k]
    requires key in acc' && acc'[key] == (if key in acc then acc[key] else 0.0) + y
    requires forall k :: GroupSum(rows[..i + 1], xAxis, yAxis, k) == GroupSum(rows[..i], xAxis, yAxis, k) + Hit(rows[i], xAxis, yAxis, k)
    ensures forall k :: k in acc' ==> acc'[k] == GroupSum(rows[..i + 1], xAxis, yAxis, k)
  {
    forall k | k in acc' ensures acc'[k] == GroupSum(rows[..i + 1], xAxis, yAxis, k) {
      if k == key && key !in acc {
        GroupSumAbsent(rows[..i], xAxis, yAxis, key);
      }
    }
  }

  /** What one more row does to the keys, their first-seen order and the sums. */
  lemma PrefixStep(rows: seq<Row>, i: nat, xAxis: string, yAxis: string)
    requires i < |rows|
    ensures GroupKeys(rows[..i + 1], xAxis) == GroupKeys(rows[..i], xAxis) + [GroupKey(rows[i], xAxis)]
    ensures FirstSeen(GroupKeys(rows[..i + 1], xAxis)) ==
      if GroupKey(rows[i], xAxis) in FirstSeen(GroupKeys(rows[..i], xAxis)) then FirstSeen(GroupKeys(rows[..i], xAxis))
      else FirstSeen(GroupKeys(rows[..i], xAxis)) + [GroupKey(rows[i], xAxis)]
    ensures forall k :: GroupSum(rows[..i + 1], xAxis, yAxis, k) == GroupSum(rows[..i], xAxis, yAxis, k) + Hit(rows[i], xAxis, yAxis, k)
  {
    assert rows[..i + 1][..i] == rows[..i];
    var keys := GroupKeys(rows[..i + 1], xAxis);
    assert keys[..|keys| - 1] == GroupKeys(rows[..i], xAxis);
  }

  /** Object.values(o) for the keys `keys` of o. */
  method ObjectValues(o: map<string, real>, keys: seq<string>) returns (values: seq<real>)
    requires forall k :: k in keys ==> k in o
    ensures |values| == |keys|
    ensures forall m :: 0 <= m < |keys| ==> values[m] == o[keys[m]]
  {
    values := [];
    var j := 0;
    while j < |keys|
      invariant 0 <= j <= |keys|
      invariant |values| == j
      invariant forall m :: 0 <= m < j ==> values[m] == o[keys[m]]
    {
      values := values + [o[keys[j]]];
      j := j + 1;
    }
  }

  /** generateChartData({ rows }, xAxis, yAxis). `acc` is the object built by
      the reduce (its own properties) and `order` the order in which they
      were first added. */
  method GenerateChartData(rows: seq<Row>, xAxis: string, yAxis: string) returns (labels: seq<string>, values: seq<real>)
    ensures labels == ChartLabels(rows, xAxis)
    ensures values == ChartValues(rows, xAxis, yAxis)
  {
    var acc: map<string, real> := map[];
    var order: seq<string> := [];
    var i := 0;
    while i < |rows|
      invariant 0 <= i <= |rows|
      invariant Summarises(acc, order, rows[..i], xAxis, yAxis)
    {
      var row := rows[i];
      var xValue := GroupKey(row, xAxis);
      var yValue := YValue(row, yAxis);
      ghost var acc0, order0 := acc, order;
      if xValue !in acc || acc[xValue] == 0.0 {
        if xValue !in acc {
          order := order + [xValue];
        }
        acc := acc[xValue := 0.0];
      }
      acc := acc[xValue := acc[xValue] + yValue];
      SummarisesStep(acc0, order0, rows, i, xAxis, yAxis, xValue, yValue, acc, order);
      i := i + 1;
    }
    assert rows[..i] == rows;
    labels := ObjectKeyOrder(order);
    LabelsInSummary(acc, order, rows, xAxis, yAxis);
    values := ObjectValues(acc, labels);
    ValuesFromSummary(acc, order, rows, xAxis, yAxis, values);
  }

  lemma LabelsInSummary(acc: map<string, real>, order: seq<string>, rows: seq<Row>, xAxis: string, yAxis: string)
    requires Summarises(acc, order, rows, xAxis, yAxis)
    ensures forall k :: k in ObjectKeyOrder(order) ==> k in acc
  {
    ObjectKeyOrderMembers(order);
  }

  lemma ValuesFromSummary(acc: map<string, real>, order: seq<string>, rows: seq<Row>, xAxis: string, yAxis: string,
                          values: seq<real>)
    requires Summarises(acc, order, rows, xAxis, yAxis)
    requires forall k :: k in ObjectKeyOrder(order) ==> k in acc
    requires |values| == |ObjectKeyOrder(order)|
    requires forall m :: 0 <= m < |values| ==> values[m] == acc[ObjectKeyOrder(order)[m]]
    ensures values == ChartValues(rows, xAxis, yAxis)
  {
    GroupSumsAt(rows, xAxis, yAxis, ObjectKeyOrder(order));
  }

  // ---------------------------------------------------------------------------
  // Properties of the series

  /** labels and values are parallel, and no label appears twice. */
  lemma ChartSeriesShape(rows: seq<Row>, xAxis: string, yAxis: string)
    ensures |ChartValues(rows, xAxis, yAxis)| == |ChartLabels(rows, xAxis)|
    ensures NoDup(ChartLabels(rows, xAxis))
  {
    ObjectKeyOrderNoDup(FirstSeen(GroupKeys(rows, xAxis)));
  }

  /** A label is present exactly when some row has it as its group key. */
  lemma ChartLabelsMembership(rows: seq<Row>, xAxis: string, lbl: string)
    ensures lbl in ChartLabels(rows, xAxis) <==> exists i :: 0 <= i < |rows| && GroupKey(rows[i], xAxis) == lbl
  {
    var first := FirstSeen(GroupKeys(rows, xAxis));
    ObjectKeyOrderMembers(first);
    GroupKeysAt(rows, xAxis);
    if lbl in first {
      var i :| 0 <= i < |rows| && GroupKeys(rows, xAxis)[i] == lbl;
    }
  }

  /** No input, no series. */
  lemma EmptyInput(xAxis: string, yAxis: string)
    ensures ChartLabels([], xAxis) == [] && ChartValues([], xAxis, yAxis) == []
  {
  }

  /** Labels: array-index names first, ascending; every other lbl in the
      order of its first occurrence among the rows. */
  lemma ChartLabelOrder(rows: seq<Row>, xAxis: string)
    ensures forall i, j :: 0 <= i < j < |ChartLabels(rows, xAxis)| && IsArrayIndex(ChartLabels(rows, xAxis)[j]) ==>
      IsArrayIndex(ChartLabels(rows, xAxis)[i])
        && ArrayIndexValue(ChartLabels(rows, xAxis)[i]) <= ArrayIndexValue(ChartLabels(rows, xAxis)[j])
    ensures NamedKeys(ChartLabels(rows, xAxis)) == NamedKeys(FirstSeen(GroupKeys(rows, xAxis)))
    ensures IndexKeys(FirstSeen(GroupKeys(rows, xAxis))) == [] ==>
      ChartLabels(rows, xAxis) == FirstSeen(GroupKeys(rows, xAxis))
  {
    ObjectKeyOrderSpec(FirstSeen(GroupKeys(rows, xAxis)));
  }

  lemma {:induction false} FirstSeenConstant(keys: seq<string>, k: string)
    requires keys != []
    requires forall i :: 0 <= i < |keys| ==> keys[i] == k
    ensures FirstSeen(keys) == [k]
  {
    if |keys| > 1 {
      FirstSeenConstant(keys[..|keys| - 1], k);
    }
  }

  /** Position of the first occurrence of k. */
  function FirstIndex(keys: seq<string>, k: string): (n: nat)
    requires k in keys
    ensures n < |keys| && keys[n] == k && k !in keys[..n]
  {
    if keys[0] == k then 0
    else
      var n := FirstIndex(keys[1..], k) + 1;
      assert keys[..n] == [keys[0]] + keys[1..][..n - 1];
      n
  }

  /** FirstSeen lists the keys in the order of their first occurrence. */
  lemma {:induction false} FirstSeenOrder(keys: seq<string>)
    ensures forall i, j :: 0 <= i < j < |FirstSeen(keys)| ==>
      FirstIndex(keys, FirstSeen(keys)[i]) < FirstIndex(keys, FirstSeen(keys)[j])
  {
    if keys != [] {
      var init := keys[..|keys| - 1];
      var k := keys[|keys| - 1];
      FirstSeenOrder(init);
      var p := FirstSeen(init);
      assert keys == init + [k];
      forall x | x in init ensures FirstIndex(keys, x) == FirstIndex(init, x) {
        FirstIndexPrefix(init, [k], x);
      }
      if k !in p {
        assert FirstIndex(keys, k) == |init| by {
          assert k !in keys[..|init|];
        }
      }
    }
  }

  lemma {:induction false} FirstIndexPrefix(a: seq<string>, b: seq<string>, x: string)
    requires x in a
    ensures FirstIndex(a + b, x) == FirstIndex(a, x)
  {
    if a[0] != x {
      FirstIndexPrefix(a[1..], b, x);
      assert (a + b)[1..] == a[1..] + b;
    }
  }

  function SumReals(s: seq<real>): real {
    if s == [] then 0.0 else s[0] + SumReals(s[1..])
  }

  function SumGroups(rows: seq<Row>, xAxis: string, yAxis: string, labels: seq<string>): real {
    if labels == [] then 0.0 else GroupSum(rows, xAxis, yAxis, labels[0]) + SumGroups(rows, xAxis, yAxis, labels[1..])
  }

  function HitSum(row: Row, xAxis: string, yAxis: string, labels: seq<string>): real {
    if labels == [] then 0.0 else Hit(row, xAxis, yAxis, labels[0]) + HitSum(row, xAxis, yAxis, labels[1..])
  }

  lemma {:induction false} SumGroupsStep(rows: seq<Row>, xAxis: string, yAxis: string, labels: seq<string>)
    requires rows != []
    ensures SumGroups(rows, xAxis, yAxis, labels)
      == SumGroups(rows[..|rows| - 1], xAxis, yAxis, labels) + HitSum(rows[|rows| - 1], xAxis, yAxis, labels)
  {
    if labels != [] {
      SumGroupsStep(rows, xAxis, yAxis, labels[1..]);
    }
  }

  lemma {:induction false} HitSumAbsent(row: Row, xAxis: string, yAxis: string, labels: seq<string>)
    requires GroupKey(row, xAxis) !in labels
    ensures HitSum(row, xAxis, yAxis, labels) == 0.0
  {
    if labels != [] {
      HitSumAbsent(row, xAxis, yAxis, labels[1..]);
    }
  }

  lemma {:induction false} HitSumOnce(row: Row, xAxis: string, yAxis: string, labels: seq<string>)
    requires NoDup(labels) && GroupKey(row, xAxis) in labels
    ensures HitSum(row, xAxis, yAxis, labels) == YValue(row, yAxis)
  {
    if labels[0] == GroupKey(row, xAxis) {
      assert GroupKey(row, xAxis) !in labels[1..];
      HitSumAbsent(row, xAxis, yAxis, labels[1..]);
    } else {
      HitSumOnce(row, xAxis, yAxis, labels[1..]);
    }
  }

  /** Summing the groups over any duplicate-free list that covers every key
      gives the total of all rows. */
  lemma {:induction false} SumGroupsTotal(rows: seq<Row>, xAxis: string, yAxis: string, labels: seq<string>)
    requires NoDup(labels)
    requires forall i :: 0 <= i < |rows| ==> GroupKey(rows[i], xAxis) in labels
    ensures SumGroups(rows, xAxis, yAxis, labels) == TotalY(rows, yAxis)
  {
    if rows == [] {
      SumGroupsEmpty(xAxis, yAxis, labels);
    } else {
      var init := rows[..|rows| - 1];
      SumGroupsTotal(init, xAxis, yAxis, labels);
      SumGroupsStep(rows, xAxis, yAxis, labels);
      HitSumOnce(rows[|rows| - 1], xAxis, yAxis, labels);
    }
  }

  lemma {:induction false} SumGroupsEmpty(xAxis: string, yAxis: string, labels: seq<string>)
    ensures SumGroups([], xAxis, yAxis, labels) == 0.0
  {
    if labels != [] {
      SumGroupsEmpty(xAxis, yAxis, labels[1..]);
    }
  }

  lemma {:induction false} SumOfGroupSums(rows: seq<Row>, xAxis: string, yAxis: string, labels: seq<string>)
    ensures SumReals(GroupSums(rows, xAxis, yAxis, labels)) == SumGroups(rows, xAxis, yAxis, labels)
  {
    if labels != [] {
      SumOfGroupSums(rows, xAxis, yAxis, labels[1..]);
    }
  }

  /** Conservation: the values add up to the sum of every row's coerced y
      value; nothing is lost or counted twice. */
  lemma Conservation(rows: seq<Row>, xAxis: string, yAxis: string)
    ensures SumReals(ChartValues(rows, xAxis, yAxis)) == TotalY(rows, yAxis)
  {
    var labels := ChartLabels(rows, xAxis);
    ChartSeriesShape(rows, xAxis, yAxis);
    forall i | 0 <= i < |rows| ensures GroupKey(rows[i], xAxis) in labels {
      ChartLabelsMembership(rows, xAxis, GroupKey(rows[i], xAxis));
    }
    SumOfGroupSums(rows, xAxis, yAxis, labels);
    SumGroupsTotal(rows, xAxis, yAxis, labels);
  }

  /** When no row has a usable group value, the whole total lands under
      "Unknown". */
  lemma AllUnknown(rows: seq<Row>, xAxis: string, yAxis: string)
    requires rows != []
    requires forall i :: 0 <= i < |rows| ==> Falsy(Get(rows[i], xAxis))
    ensures ChartLabels(rows, xAxis) == [UnknownLabel]
    ensures ChartValues(rows, xAxis, yAxis) == [TotalY(rows, yAxis)]
  {
    var keys := GroupKeys(rows, xAxis);
    GroupKeysAt(rows, xAxis);
    FirstSeenConstant(keys, UnknownLabel);
    assert !IsArrayIndex(UnknownLabel) by { assert !IsDigit(UnknownLabel[0]); }
    ObjectKeyOrderOfNamed([UnknownLabel]);
    GroupSumOfAll(rows, xAxis, yAxis);
  }

  lemma {:induction false} GroupSumOfAll(rows: seq<Row>, xAxis: string, yAxis: string)
    requires forall i :: 0 <= i < |rows| ==> Falsy(Get(rows[i], xAxis))
    ensures GroupSum(rows, xAxis, yAxis, UnknownLabel) == TotalY(rows, yAxis)
  {
    if rows != [] {
      GroupSumOfAll(rows[..|rows| - 1], xAxis, yAxis);
    }
  }

  // ---------------------------------------------------------------------------
  // Worked examples

  function TextRow(x: string, xv: string, y: string, yv: string): Row {
    Row([(x, Text(xv)), (y, Text(yv))])
  }

  lemma TextRowGet(x: string, xv: string, y: string, yv: string)
    requires x != y
    ensures Get(TextRow(x, xv, y, yv), x) == Some(Text(xv))
    ensures Get(TextRow(x, xv, y, yv), y) == Some(Text(yv))
  {
    assert TextRow(x, xv, y, yv).fields[1..] == [(y, Text(yv))];
    assert Lookup([(y, Text(yv))], y) == Some(Text(yv));
  }

  lemma YValueDigits(row: Row, yAxis: string, v: string)
    requires Get(row, yAxis) == Some(Text(v)) && |v| > 0 && AllDigits(v)
    ensures YValue(row, yAxis) == DigitsValue(v) as real
  {
    ParseFloatDigits(v);
  }

  /** The keys and sums of a three-row sheet, row by row. */
  lemma ThreeRows(rows: seq<Row>, xAxis: string, yAxis: string)
    requires |rows| == 3
    ensures GroupKeys(rows, xAxis) == [GroupKey(rows[0], xAxis), GroupKey(rows[1], xAxis), GroupKey(rows[2], xAxis)]
    ensures forall k :: (GroupSum(rows, xAxis, yAxis, k)
      == Hit(rows[0], xAxis, yAxis, k) + Hit(rows[1], xAxis, yAxis, k) + Hit(rows[2], xAxis, yAxis, k))
  {
    assert rows[..2][..1] == rows[..1];
    assert rows[..1][..0] == [];
    assert GroupKeys(rows[..1], xAxis) == [GroupKey(rows[0], xAxis)];
    assert GroupKeys(rows[..2], xAxis) == [GroupKey(rows[0], xAxis), GroupKey(rows[1], xAxis)];
    forall k ensures GroupSum(rows, xAxis, yAxis, k)
      == Hit(rows[0], xAxis, yAxis, k) + Hit(rows[1], xAxis, yAxis, k) + Hit(rows[2], xAxis, yAxis, k)
    {
      assert GroupSum(rows[..1], xAxis, yAxis, k) == Hit(rows[0], xAxis, yAxis, k);
      assert GroupSum(rows[..2], xAxis, yAxis, k) == Hit(rows[0], xAxis, yAxis, k) + Hit(rows[1], xAxis, yAxis, k);
    }
  }

  lemma TextRowValues(x: string, xv: string, y: string, yv: string)
    requires x != y && xv != "" && |yv| > 0 && AllDigits(yv)
    ensures GroupKey(TextRow(x, xv, y, yv), x) == xv
    ensures YValue(TextRow(x, xv, y, yv), y) == DigitsValue(yv) as real
  {
    TextRowGet(x, xv, y, yv);
    YValueDigits(TextRow(x, xv, y, yv), y, yv);
  }

  lemma SmallNumbers()
    ensures DigitsValue("10") == 10 && DigitsValue("20") == 20 && DigitsValue("5") == 5
  {
    assert "10"[..1] == "1" && "20"[..1] == "2";
    assert "1"[..0] == "" && "2"[..0] == "" && "5"[..0] == "";
  }

  /** Three rows: Jan 10, Feb 20, Jan 5, with the amounts as text. */
  function MonthlyRows(): seq<Row> {
    [TextRow("month", "Jan", "sales", "10"), TextRow("month", "Feb", "sales", "20"), TextRow("month", "Jan", "sales", "5")]
  }

  lemma MonthlyRowFacts()
    ensures GroupKey(MonthlyRows()[0], "month") == "Jan" && YValue(MonthlyRows()[0], "sales") == 10.0
    ensures GroupKey(MonthlyRows()[1], "month") == "Feb" && YValue(MonthlyRows()[1], "sales") == 20.0
    ensures GroupKey(MonthlyRows()[2], "month") == "Jan" && YValue(MonthlyRows()[2], "sales") == 5.0
  {
    SmallNumbers();
    TextRowValues("month", "Jan", "sales", "10");
    TextRowValues("month", "Feb", "sales", "20");
    TextRowValues("month", "Jan", "sales", "5");
  }

  lemma MonthlyRowValues()
    ensures GroupKeys(MonthlyRows(), "month") == ["Jan", "Feb", "Jan"]
    ensures forall k :: (GroupSum(MonthlyRows(), "month", "sales", k) ==
      if k == "Jan" then 15.0 else if k == "Feb" then 20.0 else 0.0)
  {
    var rows := MonthlyRows();
    MonthlyRowFacts();
    ThreeRows(rows, "month", "sales");
    forall k ensures GroupSum(rows, "month", "sales", k) ==
      if k == "Jan" then 15.0 else if k == "Feb" then 20.0 else 0.0
    {
      assert Hit(rows[0], "month", "sales", k) == if k == "Jan" then 10.0 else 0.0;
      assert Hit(rows[1], "month", "sales", k) == if k == "Feb" then 20.0 else 0.0;
      assert Hit(rows[2], "month", "sales", k) == if k == "Jan" then 5.0 else 0.0;
    }
  }

  lemma MonthlyFirstSeen()
    ensures FirstSeen(["Jan", "Feb", "Jan"]) == ["Jan", "Feb"]
    ensures !IsArrayIndex("Jan") && !IsArrayIndex("Feb")
  {
    assert ["Jan", "Feb", "Jan"][..2] == ["Jan", "Feb"];
    assert ["Jan", "Feb"][..1] == ["Jan"];
    assert !IsDigit("Jan"[0]) && !IsDigit("Feb"[0]);
  }

  /** Months with text amounts: January's two amounts are added up, and the
      months keep the order in which they first appear. */
  lemma MonthlySales()
    ensures ChartLabels(MonthlyRows(), "month") == ["Jan", "Feb"]
    ensures ChartValues(MonthlyRows(), "month", "sales") == [15.0, 20.0]
  {
    MonthlyLabels();
    var sums := GroupSums(MonthlyRows(), "month", "sales", ["Jan", "Feb"]);
    MonthlyRowValues();
    GroupSumsAt(MonthlyRows(), "month", "sales", ["Jan", "Feb"]);
    assert sums[0] == 15.0 && sums[1] == 20.0;
  }

  lemma MonthlyLabels()
    ensures ChartLabels(MonthlyRows(), "month") == ["Jan", "Feb"]
  {
    MonthlyRowValues();
    MonthlyFirstSeen();
    ObjectKeyOrderOfNamed(["Jan", "Feb"]);
  }

  /** Integer-like labels come first in ascending order, whatever the row
      order: keys "b", "2", "1" give labels "1", "2", "b". */
  lemma IndexLabelsFirst()
    ensures ChartLabels([Row([("k", Text("b"))]), Row([("k", Text("2"))]), Row([("k", Text("1"))])], "k") == ["1", "2", "b"]
  {
    var rows := [Row([("k", Text("b"))]), Row([("k", Text("2"))]), Row([("k", Text("1"))])];
    ThreeRows(rows, "k", "v");
    assert GroupKeys(rows, "k") == ["b", "2", "1"];
    assert FirstSeen(["b", "2", "1"]) == ["b", "2", "1"] by {
      assert ["b", "2", "1"][..2] == ["b", "2"];
      assert ["b", "2"][..1] == ["b"];
    }
    IndexNamesFirst();
  }

  // ---------------------------------------------------------------------------
  // The reduce as written, with `acc` a plain `{}` that inherits from
  // Object.prototype.

  /** Property names that `{}` already answers through Object.prototype. */
  const PrototypeMembers: set<string> := {
    "constructor", "hasOwnProperty", "isPrototypeOf", "propertyIsEnumerable", "toLocaleString",
    "toString", "valueOf", "__proto__", "__defineGetter__", "__defineSetter__", "__lookupGetter__",
    "__lookupSetter__"}

  /** An own property of `acc`: a running number, or the string made by
      `acc[k] += y` when acc[k] was an inherited function. */
  datatype Slot = Total(sum: real) | Garbled

  /** One call of the reduce callback as written: `!acc[k]` also sees the
      inherited members, which are truthy, so their slot is never set to 0. */
  function AccumulateAsWritten(acc: map<string, Slot>, key: string, y: real): map<string, Slot> {
    if key in acc then
      match acc[key]
      case Total(t) => acc[key := Total(t + y)]
      case Garbled => acc
    else if key == "__proto__" then acc
    else if key in PrototypeMembers then acc[key := Garbled]
    else acc[key := Total(y)]
  }

  /** String of the value a row inherits for one of those names, as V8
      writes it: built-in functions print as native code, Object.prototype
      itself as "[object Object]". */
  function InheritedText(name: string): string
    requires name in PrototypeMembers
  {
    if name == "__proto__" then "[object Object]"
    else if name == "constructor" then "function Object() { [native code] }"
    else "function " + name + "() { [native code] }"
  }

  /** `row[xAxis] || "Unknown"` as written: a row is a plain object too, so
      when it has no cell under a column named after an Object.prototype
      member, the inherited value (truthy) is read and becomes the label. */
  function GroupKeyAsWritten(row: Row, xAxis: string): string {
    if Get(row, xAxis).None? && xAxis in PrototypeMembers then InheritedText(xAxis)
    else GroupKey(row, xAxis)
  }

  function FoldAsWritten(rows: seq<Row>, xAxis: string, yAxis: string): map<string, Slot> {
    if rows == [] then map[]
    else
      var last := rows[|rows| - 1];
      AccumulateAsWritten(FoldAsWritten(rows[..|rows| - 1], xAxis, yAxis), GroupKeyAsWritten(last, xAxis), YValue(last, yAxis))
  }

  lemma OneRow(row: Row, xAxis: string, yAxis: string)
    ensures GroupKeys([row], xAxis) == [GroupKey(row, xAxis)]
    ensures forall k :: GroupSum([row], xAxis, yAxis, k) == Hit(row, xAxis, yAxis, k)
    ensures TotalY([row], yAxis) == YValue(row, yAxis)
    ensures FoldAsWritten([row], xAxis, yAxis) == AccumulateAsWritten(map[], GroupKeyAsWritten(row, xAxis), YValue(row, yAxis))
  {
    assert [row][..0] == [];
  }

  /** A group value "toString" yields a string in the series instead of the
      sum 5 that the model computes. */
  lemma PrototypeKeyAsWritten()
    ensures FoldAsWritten([TextRow("k", "toString", "v", "5")], "k", "v") == map["toString" := Garbled]
    ensures ChartLabels([TextRow("k", "toString", "v", "5")], "k") == ["toString"]
    ensures ChartValues([TextRow("k", "toString", "v", "5")], "k", "v") == [5.0]
  {
    var row := TextRow("k", "toString", "v", "5");
    SmallNumbers();
    TextRowValues("k", "toString", "v", "5");
    OneRow(row, "k", "v");
    assert !IsArrayIndex("toString") by { assert !IsDigit("toString"[0]); }
    ObjectKeyOrderOfNamed(["toString"]);
    GroupSumsAt([row], "k", "v", ["toString"]);
  }

  /** A group value "__proto__" loses its rows: the amount 5 is in no group. */
  lemma ProtoKeyAsWritten()
    ensures FoldAsWritten([TextRow("k", "__proto__", "v", "5")], "k", "v") == map[]
    ensures TotalY([TextRow("k", "__proto__", "v", "5")], "v") == 5.0
  {
    var row := TextRow("k", "__proto__", "v", "5");
    SmallNumbers();
    TextRowValues("k", "__proto__", "v", "5");
    OneRow(row, "k", "v");
  }

  /** A blank cell under a column named "constructor" is labelled with the
      text of the Object function instead of "Unknown". */
  lemma BlankInheritedColumnAsWritten(row: Row, xAxis: string, yAxis: string)
    requires row == Row([(yAxis, Text("5"))]) && xAxis == "constructor" && yAxis == "v"
    ensures FoldAsWritten([row], xAxis, yAxis) == map["function Object() { [native code] }" := Total(5.0)]
    ensures ChartLabels([row], xAxis) == [UnknownLabel] && ChartValues([row], xAxis, yAxis) == [5.0]
  {
    BlankInheritedRow(row, xAxis, yAxis);
    OneRow(row, xAxis, yAxis);
    NativeTextOwn("function Object() { [native code] }");
    AllUnknown([row], xAxis, yAxis);
  }

  /** A text beginning with "f" is no inherited name, so `acc` starts a
      fresh slot for it. */
  lemma NativeTextOwn(key: string)
    requires key != "" && key[0] == 'f'
    ensures key !in PrototypeMembers && AccumulateAsWritten(map[], key, 5.0) == map[key := Total(5.0)]
  {
    assert forall m :: m in PrototypeMembers ==> m[0] != 'f';
  }

  lemma BlankInheritedRow(row: Row, xAxis: string, yAxis: string)
    requires row == Row([(yAxis, Text("5"))]) && xAxis == "constructor" && yAxis == "v"
    ensures Get(row, xAxis) == None && YValue(row, yAxis) == 5.0
    ensures GroupKeyAsWritten(row, xAxis) == "function Object() { [native code] }"
  {
    SmallNumbers();
    assert xAxis != yAxis by { assert xAxis[0] != yAxis[0]; }
    assert row.fields[1..] == [];
    assert Get(row, xAxis) == Lookup([], xAxis);
    assert Get(row, yAxis) == Some(Text("5"));
    YValueDigits(row, yAxis, "5");
  }

  /** Away from the inherited names, on both sides of `acc[xValue]`, the
      reduce as written builds exactly the sums the model computes. */
  lemma {:induction false} FoldAsWrittenAgrees(rows: seq<Row>, xAxis: string, yAxis: string)
    requires forall i :: 0 <= i < |rows| ==> GroupKey(rows[i], xAxis) !in PrototypeMembers
    requires xAxis in PrototypeMembers ==> forall i :: 0 <= i < |rows| ==> Get(rows[i], xAxis).Some?
    ensures forall k :: k in FoldAsWritten(rows, xAxis, yAxis) <==> k in GroupKeys(rows, xAxis)
    ensures forall k :: k in FoldAsWritten(rows, xAxis, yAxis) ==>
      FoldAsWritten(rows, xAxis, yAxis)[k] == Total(GroupSum(rows, xAxis, yAxis, k))
  {
    if rows != [] {
      var init := rows[..|rows| - 1];
      FoldAsWrittenAgrees(init, xAxis, yAxis);
      assert GroupKeys(rows, xAxis) == GroupKeys(init, xAxis) + [GroupKey(rows[|rows| - 1], xAxis)];
      forall k | k !in GroupKeys(init, xAxis) ensures GroupSum(init, xAxis, yAxis, k) == 0.0 {
        GroupSumAbsent(init, xAxis, yAxis, k);
      }
    }
  }

  lemma {:induction false} GroupSumAbsent(rows: seq<Row>, xAxis: string, yAxis: string, lbl: string)
    requires lbl !in GroupKeys(rows, xAxis)
    ensures GroupSum(rows, xAxis, yAxis, lbl) == 0.0
  {
    if rows != [] {
      var init := rows[..|rows| - 1];
      assert GroupKeys(rows, xAxis) == GroupKeys(init, xAxis) + [GroupKey(rows[|rows| - 1], xAxis)];
      GroupSumAbsent(init, xAxis, yAxis, lbl);
    }
  }
}
