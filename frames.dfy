/** The part of a pandas DataFrame the dataset loader uses: a table with a
    column list and rows, building a table from JSON records, selecting
    columns, `df[c] = df[s].apply(f)`, `pd.concat`, boolean-mask filtering and
    `Series.unique()`. */
module Frames {
  import opened Results

  /** A photo descriptor: a JSON object whose values are strings. */
  type Descriptor = map<string, string>

  /** One cell of a table. */
  datatype Value =
    | Null                          // JSON null (Python None)
    | NaN                           // the filler for a key this record lacks but another record has
    | Text(s: string)               // a JSON scalar, as its string
    | Items(items: seq<Descriptor>) // a JSON list of objects
    | Texts(texts: seq<string>)     // a list of strings
    | Vector(bits: seq<int>)        // a numeric row vector

  /** The exceptions a step can raise. */
  datatype Error =
    | KeyError(key: Value)   // a missing column or dictionary key
    | TypeError              // subscripting a value that is not a dictionary
    | ValueError             // an empty input where pandas or sklearn refuse one
    | NotText                // a list in a column that is lower-cased as text

  /** One raw observation record, its nested objects already flattened into
      dotted keys; also one row of a table. */
  type Row = map<string, Value>

  /** Python truthiness: None, the empty string and the empty list are false;
      NaN is true. */
  predicate Truthy(v: Value) {
    match v
    case Null => false
    case NaN => true
    case Text(s) => s != []
    case Items(xs) => xs != []
    case Texts(xs) => xs != []
    case Vector(xs) => xs != []
  }

  /** The distinct names of a sequence: the column set of a table, and the
      categories an encoder learns from its labels. */
  function ColumnSet(columns: seq<string>): set<string> {
    set c | c in columns
  }

  /** A table: every row has exactly the table's columns. */
  datatype Frame = Frame(columns: seq<string>, rows: seq<Row>) {
    ghost predicate Valid() {
      forall i :: 0 <= i < |rows| ==> rows[i].Keys == ColumnSet(columns)
    }
  }

  /** The columns `pd.json_normalize` produces for a list of records: every key
      some record has. */
  function KeysOf(records: seq<Row>): (keys: set<string>)
    ensures forall c :: c in keys <==> exists i :: 0 <= i < |records| && c in records[i]
  {
    if records == [] then {}
    else
      var keys := KeysOf(records[..|records| - 1]) + records[|records| - 1].Keys;
      assert forall i :: 0 <= i < |records| - 1 ==> records[..|records| - 1][i] == records[i];
      keys
  }

  /** The first name of `columns` that is not among `keys`, if any. */
  function FirstMissing(columns: seq<string>, keys: set<string>): (m: Option<string>)
    ensures m.None? <==> forall c :: c in columns ==> c in keys
    ensures m.Some? ==> m.value in columns && m.value !in keys
  {
    if columns == [] then None
    else if columns[0] !in keys then Some(columns[0])
    else FirstMissing(columns[1..], keys)
  }

  /** One record of a `pd.json_normalize` table projected onto `columns`: a
      column the record lacks is NaN. */
  function Project(columns: seq<string>, record: Row): (r: Row)
    ensures forall c :: c in r <==> c in columns
    ensures forall c :: c in r ==> r[c] == (if c in record then record[c] else NaN)
  {
    map c | c in ColumnSet(columns) :: if c in record then record[c] else NaN
  }

  /** `pd.json_normalize(records)[columns]`: a KeyError unless every selected
      column is a key of some record; otherwise one row per record, in order. */
  function SelectColumns(columns: seq<string>, records: seq<Row>): (r: Result<Frame, Error>)
    ensures r.Ok? <==> forall c :: c in columns ==> exists i :: 0 <= i < |records| && c in records[i]
    ensures r.Ok? ==> r.value.Valid() && r.value.columns == columns && |r.value.rows| == |records|
    ensures r.Ok? ==> forall i :: 0 <= i < |records| ==> r.value.rows[i] == Project(columns, records[i])
  {
    match FirstMissing(columns, KeysOf(records))
    case Some(c) => Err(KeyError(Text(c)))
    case None => Ok(Frame(columns, seq(|records|, i requires 0 <= i < |records| => Project(columns, records[i]))))
  }

  /** The columns after assigning to `target`: the existing columns keep
      their order, and a new column is appended after them. */
  function AddColumn(columns: seq<string>, target: string): (r: seq<string>)
    ensures ColumnSet(r) == ColumnSet(columns) + {target}
    ensures |columns| <= |r| <= |columns| + 1 && r[..|columns|] == columns
    ensures target in columns ==> r == columns
    ensures target !in columns ==> |r| == |columns| + 1 && r[|columns|] == target
  {
    if target in columns then columns else columns + [target]
  }

  /** `[f(x) for x in xs]`: the first exception `f` raises propagates;
      otherwise one result per element, in order. */
  function MapAll<A, B>(xs: seq<A>, f: A -> Result<B, Error>): (r: Result<seq<B>, Error>)
    ensures r.Ok? <==> forall i :: 0 <= i < |xs| ==> f(xs[i]).Ok?
    ensures r.Ok? ==> |r.value| == |xs| && forall i :: 0 <= i < |xs| ==> r.value[i] == f(xs[i]).value
  {
    if xs == [] then Ok([])
    else
      var first :- f(xs[0]);
      var rest :- MapAll(xs[1..], f);
      assert forall i :: 1 <= i < |xs| ==> xs[1..][i - 1] == xs[i];
      Ok([first] + rest)
  }

  lemma PrefixSnoc<T>(s: seq<T>, k: int)
    requires 0 <= k < |s|
    ensures s[..k + 1] == s[..k] + [s[k]]
  {
  }

  /** Mapping one more element: the results so far, then the new one. */
  lemma {:induction false} MapAllSnoc<A, B>(xs: seq<A>, x: A, f: A -> Result<B, Error>)
    ensures MapAll(xs + [x], f).Ok? <==> MapAll(xs, f).Ok? && f(x).Ok?
    ensures MapAll(xs + [x], f).Ok? ==> MapAll(xs + [x], f).value == MapAll(xs, f).value + [f(x).value]
  {
    var ys := xs + [x];
    assert forall i :: 0 <= i < |xs| ==> ys[i] == xs[i];
    assert ys[|xs|] == x;
    if MapAll(ys, f).Ok? {
      assert MapAll(ys, f).value == MapAll(xs, f).value + [f(x).value];
    }
  }

  /** Mapping all but the last element: the results so far, then the last one. */
  lemma MapAllInit<A, B>(xs: seq<A>, f: A -> Result<B, Error>)
    requires xs != [] && MapAll(xs, f).Ok?
    ensures MapAll(xs[..|xs| - 1], f).Ok? && f(xs[|xs| - 1]).Ok?
    ensures MapAll(xs, f).value == MapAll(xs[..|xs| - 1], f).value + [f(xs[|xs| - 1]).value]
  {
    var n := |xs| - 1;
    assert xs == xs[..n] + [xs[n]];
    MapAllSnoc(xs[..n], xs[n], f);
  }

  /** `Series.apply(f)` over column `source`: the first exception `f` raises
      propagates; otherwise one result per row, in order. */
  function ApplySeries(rows: seq<Row>, source: string, f: Value -> Result<Value, Error>): (r: Result<seq<Value>, Error>)
    requires forall i :: 0 <= i < |rows| ==> source in rows[i]
    ensures r.Ok? <==> forall i :: 0 <= i < |rows| ==> f(rows[i][source]).Ok?
    ensures r.Ok? ==> |r.value| == |rows| && forall i :: 0 <= i < |rows| ==> r.value[i] == f(rows[i][source]).value
  {
    if rows == [] then Ok([])
    else
      var first :- f(rows[0][source]);
      var rest :- ApplySeries(rows[1..], source, f);
      assert forall i :: 1 <= i < |rows| ==> rows[1..][i - 1] == rows[i];
      Ok([first] + rest)
  }

  /** `df[target] = df[source].apply(f)`: a KeyError when `source` is not a
      column, the first exception of `f` otherwise, and on success every row
      keeps its other cells and gets `f` of its `source` cell in `target`. */
  function ApplyColumn(df: Frame, source: string, target: string, f: Value -> Result<Value, Error>): (r: Result<Frame, Error>)
    requires df.Valid()
    ensures r.Ok? <==> source in df.columns && forall i :: 0 <= i < |df.rows| ==> f(df.rows[i][source]).Ok?
    ensures r.Ok? ==> r.value.Valid() && r.value.columns == AddColumn(df.columns, target) && |r.value.rows| == |df.rows|
    ensures r.Ok? ==> forall i :: 0 <= i < |df.rows| ==> r.value.rows[i] == df.rows[i][target := f(df.rows[i][source]).value]
  {
    if source !in df.columns then Err(KeyError(Text(source)))
    else
      var values :- ApplySeries(df.rows, source, f);
      Ok(Frame(AddColumn(df.columns, target),
               seq(|df.rows|, i requires 0 <= i < |df.rows| => df.rows[i][target := values[i]])))
  }

  /** One in-place column rewrite, `df[column] = df[column].apply(f)`. */
  datatype Step = Step(column: string, f: Value -> Result<Value, Error>)

  /** The rewrite applied to one row: a KeyError when the row lacks the
      column, the exception of `f` if it raises, otherwise the row with its
      cell replaced. */
  function Rewrite(row: Row, step: Step): (r: Result<Row, Error>)
    ensures r.Ok? <==> step.column in row && step.f(row[step.column]).Ok?
    ensures r.Ok? ==> r.value == row[step.column := step.f(row[step.column]).value]
  {
    if step.column !in row then Err(KeyError(Text(step.column)))
    else
      var x :- step.f(row[step.column]);
      Ok(row[step.column := x])
  }

  /** Several rewrites of one row, in order; the first failure stops it. */
  function RewriteRow(row: Row, steps: seq<Step>): (r: Result<Row, Error>)
    ensures r.Ok? ==> r.value.Keys == row.Keys
    decreases |steps|
  {
    if steps == [] then Ok(row)
    else
      var next :- Rewrite(row, steps[0]);
      RewriteRow(next, steps[1..])
  }

  lemma RewriteRowFirst(row: Row, steps: seq<Step>)
    requires steps != []
    ensures RewriteRow(row, steps) ==
              var first := Rewrite(row, steps[0]);
              if first.Ok? then RewriteRow(first.value, steps[1..]) else Err(first.error)
  {
  }

  /** Four rewrites of one row, spelled out one after the other. */
  lemma RewriteFour(row: Row, a: Step, b: Step, c: Step, d: Step)
    ensures RewriteRow(row, [a, b, c, d]) ==
      var r1 := Rewrite(row, a);
      if r1.Err? then Err(r1.error) else
      var r2 := Rewrite(r1.value, b);
      if r2.Err? then Err(r2.error) else
      var r3 := Rewrite(r2.value, c);
      if r3.Err? then Err(r3.error) else
      var r4 := Rewrite(r3.value, d);
      if r4.Err? then Err(r4.error) else Ok(r4.value)
  {
    var steps := [a, b, c, d];
    RewriteRowFirst(row, steps);
    var r1 := Rewrite(row, a);
    if r1.Ok? {
      assert steps[1..] == [b, c, d];
      RewriteRowFirst(r1.value, [b, c, d]);
      var r2 := Rewrite(r1.value, b);
      if r2.Ok? {
        assert [b, c, d][1..] == [c, d];
        RewriteRowFirst(r2.value, [c, d]);
        var r3 := Rewrite(r2.value, c);
        if r3.Ok? {
          assert [c, d][1..] == [d];
          RewriteRowFirst(r3.value, [d]);
          var r4 := Rewrite(r3.value, d);
          if r4.Ok? {
            assert [d][1..] == [];
          }
        }
      }
    }
  }

  /** One rewrite applied to a whole table. */
  function ApplyStep(df: Frame, step: Step): (r: Result<Frame, Error>)
    requires df.Valid()
    ensures r.Ok? <==> step.column in df.columns && forall i :: 0 <= i < |df.rows| ==> Rewrite(df.rows[i], step).Ok?
    ensures r.Ok? ==> r.value.Valid() && r.value.columns == df.columns && |r.value.rows| == |df.rows|
    ensures r.Ok? ==> forall i :: 0 <= i < |df.rows| ==> r.value.rows[i] == Rewrite(df.rows[i], step).value
  {
    ApplyColumn(df, step.column, step.column, step.f)
  }

  /** Several rewrites of a whole table, column after column. */
  function ApplySteps(df: Frame, steps: seq<Step>): (r: Result<Frame, Error>)
    requires df.Valid()
    ensures r.Ok? ==> r.value.Valid()
    decreases |steps|
  {
    if steps == [] then Ok(df)
    else
      var next :- ApplyStep(df, steps[0]);
      ApplySteps(next, steps[1..])
  }

  lemma ApplyStepsFirst(df: Frame, steps: seq<Step>)
    requires df.Valid() && steps != []
    ensures ApplySteps(df, steps) ==
              var first := ApplyStep(df, steps[0]);
              if first.Ok? then ApplySteps(first.value, steps[1..]) else Err(first.error)
  {
  }

  /** Four rewrites of a whole table, spelled out one after the other. */
  lemma ApplyFour(df: Frame, a: Step, b: Step, c: Step, d: Step)
    requires df.Valid()
    ensures ApplySteps(df, [a, b, c, d]) ==
      var df1 := ApplyStep(df, a);
      if df1.Err? then Err(df1.error) else
      var df2 := ApplyStep(df1.value, b);
      if df2.Err? then Err(df2.error) else
      var df3 := ApplyStep(df2.value, c);
      if df3.Err? then Err(df3.error) else
      var df4 := ApplyStep(df3.value, d);
      if df4.Err? then Err(df4.error) else Ok(df4.value)
  {
    ApplyStepsCons(df, a, [b, c, d]);
    var df1 := ApplyStep(df, a);
    if df1.Ok? {
      ApplyThree(df1.value, b, c, d);
    }
  }

  lemma ApplyThree(df: Frame, b: Step, c: Step, d: Step)
    requires df.Valid()
    ensures ApplySteps(df, [b, c, d]) ==
      var df2 := ApplyStep(df, b);
      if df2.Err? then Err(df2.error) else
      var df3 := ApplyStep(df2.value, c);
      if df3.Err? then Err(df3.error) else
      var df4 := ApplyStep(df3.value, d);
      if df4.Err? then Err(df4.error) else Ok(df4.value)
  {
    ApplyStepsCons(df, b, [c, d]);
    var df2 := ApplyStep(df, b);
    if df2.Ok? {
      ApplyTwo(df2.value, c, d);
    }
  }

  lemma ApplyTwo(df: Frame, c: Step, d: Step)
    requires df.Valid()
    ensures ApplySteps(df, [c, d]) ==
      var df3 := ApplyStep(df, c);
      if df3.Err? then Err(df3.error) else
      var df4 := ApplyStep(df3.value, d);
      if df4.Err? then Err(df4.error) else Ok(df4.value)
  {
    ApplyStepsCons(df, c, [d]);
    var df3 := ApplyStep(df, c);
    if df3.Ok? {
      ApplyStepsCons(df3.value, d, []);
    }
  }

  lemma ApplyStepsCons(df: Frame, a: Step, rest: seq<Step>)
    requires df.Valid()
    ensures ApplySteps(df, [a] + rest) ==
              var first := ApplyStep(df, a);
              if first.Ok? then ApplySteps(first.value, rest) else Err(first.error)
  {
    ApplyStepsFirst(df, [a] + rest);
    assert ([a] + rest)[1..] == rest;
  }

  /** Rewriting a table column after column is rewriting each row step after
      step: it succeeds exactly when every rewritten column exists and every
      row's rewrites succeed, and then each row is that row rewritten. */
  lemma {:induction false} ApplyStepsRowwise(df: Frame, steps: seq<Step>)
    requires df.Valid()
    ensures ApplySteps(df, steps).Ok? <==>
              && (forall k :: 0 <= k < |steps| ==> steps[k].column in df.columns)
              && (forall i :: 0 <= i < |df.rows| ==> RewriteRow(df.rows[i], steps).Ok?)
    ensures ApplySteps(df, steps).Ok? ==>
              && ApplySteps(df, steps).value.columns == df.columns
              && |ApplySteps(df, steps).value.rows| == |df.rows|
              && forall i :: 0 <= i < |df.rows| ==> ApplySteps(df, steps).value.rows[i] == RewriteRow(df.rows[i], steps).value
    decreases |steps|
  {
    if steps != [] {
      var first := ApplyStep(df, steps[0]);
      if first.Ok? {
        FirstStepSucceeds(df, steps);
        ApplyStepsRowwise(first.value, steps[1..]);
      } else {
        FirstStepFails(df, steps);
      }
    }
  }

  /** After a successful first rewrite, the remaining rewrites see the
      rewritten table, and each row continues from its rewritten self. */
  lemma FirstStepSucceeds(df: Frame, steps: seq<Step>)
    requires df.Valid() && steps != [] && ApplyStep(df, steps[0]).Ok?
    ensures var next := ApplyStep(df, steps[0]).value;
      && ApplySteps(df, steps) == ApplySteps(next, steps[1..])
      && (forall i :: 0 <= i < |df.rows| ==> RewriteRow(df.rows[i], steps) == RewriteRow(next.rows[i], steps[1..]))
      && ((forall k :: 0 <= k < |steps| ==> steps[k].column in df.columns)
          <==> (forall k :: 0 <= k < |steps| - 1 ==> steps[1..][k].column in next.columns))
  {
    var next := ApplyStep(df, steps[0]).value;
    var rest := steps[1..];
    ApplyStepsFirst(df, steps);
    forall i | 0 <= i < |df.rows|
      ensures RewriteRow(df.rows[i], steps) == RewriteRow(next.rows[i], rest)
    {
      RewriteRowFirst(df.rows[i], steps);
      assert Rewrite(df.rows[i], steps[0]) == Ok(next.rows[i]);
    }
    ColumnsOfTail(steps, df.columns);
  }

  lemma ColumnsOfTail(steps: seq<Step>, columns: seq<string>)
    requires steps != []
    ensures (forall k :: 0 <= k < |steps| ==> steps[k].column in columns)
            <==> steps[0].column in columns && forall k :: 0 <= k < |steps| - 1 ==> steps[1..][k].column in columns
  {
    assert forall k :: 1 <= k < |steps| ==> steps[1..][k - 1] == steps[k];
  }

  /** A failing first rewrite fails the table: its column is missing, or some
      row's rewrite fails. */
  lemma FirstStepFails(df: Frame, steps: seq<Step>)
    requires df.Valid() && steps != [] && ApplyStep(df, steps[0]).Err?
    ensures ApplySteps(df, steps).Err?
    ensures steps[0].column !in df.columns || exists i :: 0 <= i < |df.rows| && RewriteRow(df.rows[i], steps).Err?
  {
    ApplyStepsFirst(df, steps);
    if steps[0].column in df.columns {
      var i :| 0 <= i < |df.rows| && Rewrite(df.rows[i], steps[0]).Err?;
      RewriteRowFirst(df.rows[i], steps);
    }
  }

  /** When every rewritten column exists, a failing table rewrite has a row
      whose rewrite fails. */
  lemma FailingRow(df: Frame, steps: seq<Step>) returns (i: int)
    requires df.Valid()
    requires forall k :: 0 <= k < |steps| ==> steps[k].column in df.columns
    requires ApplySteps(df, steps).Err?
    ensures 0 <= i < |df.rows| && RewriteRow(df.rows[i], steps).Err?
  {
    ApplyStepsRowwise(df, steps);
    i :| 0 <= i < |df.rows| && RewriteRow(df.rows[i], steps).Err?;
  }

  /** The rows of all tables, table after table. */
  function AllRows(frames: seq<Frame>): seq<Row> {
    if frames == [] then [] else AllRows(frames[..|frames| - 1]) + frames[|frames| - 1].rows
  }

  lemma {:induction false} AllRowsAppend(frames: seq<Frame>, f: Frame)
    ensures AllRows(frames + [f]) == AllRows(frames) + f.rows
  {
    assert (frames + [f])[..|frames|] == frames;
  }

  /** A row of the concatenation is a row of one of the tables, and back. */
  lemma {:induction false} AllRowsMembers(frames: seq<Frame>)
    ensures forall row :: row in AllRows(frames) <==> exists k :: 0 <= k < |frames| && row in frames[k].rows
  {
    if frames != [] {
      var init := frames[..|frames| - 1];
      AllRowsMembers(init);
      assert forall k :: 0 <= k < |init| ==> init[k] == frames[k];
    }
  }

  lemma {:induction false} AllRowsKeys(frames: seq<Frame>, keys: set<string>)
    requires forall k, i :: 0 <= k < |frames| && 0 <= i < |frames[k].rows| ==> frames[k].rows[i].Keys == keys
    ensures forall i :: 0 <= i < |AllRows(frames)| ==> AllRows(frames)[i].Keys == keys
  {
    if frames != [] {
      var init := frames[..|frames| - 1];
      assert forall k :: 0 <= k < |init| ==> init[k] == frames[k];
      AllRowsKeys(init, keys);
      var last := frames[|frames| - 1];
      forall i | 0 <= i < |AllRows(frames)| ensures AllRows(frames)[i].Keys == keys {
        if i >= |AllRows(init)| {
          assert AllRows(frames)[i] == last.rows[i - |AllRows(init)|];
        }
      }
    }
  }

  lemma ConcatKeys(frames: seq<Frame>)
    requires frames != []
    requires forall k :: 0 <= k < |frames| ==> frames[k].columns == frames[0].columns
    ensures (forall k :: 0 <= k < |frames| ==> frames[k].Valid()) ==>
              forall i :: 0 <= i < |AllRows(frames)| ==> AllRows(frames)[i].Keys == ColumnSet(frames[0].columns)
  {
    if forall k :: 0 <= k < |frames| ==> frames[k].Valid() {
      AllRowsKeys(frames, ColumnSet(frames[0].columns));
    }
  }

  /** `pd.concat(frames, ignore_index=True)` of tables sharing one column
      list: a ValueError for no table, otherwise all rows in table order. */
  function Concat(frames: seq<Frame>): (r: Result<Frame, Error>)
    requires forall k :: 0 <= k < |frames| ==> frames[k].columns == frames[0].columns
    ensures r.Ok? <==> frames != []
    ensures r.Ok? ==> r.value.columns == frames[0].columns && r.value.rows == AllRows(frames)
    ensures r.Ok? && (forall k :: 0 <= k < |frames| ==> frames[k].Valid()) ==> r.value.Valid()
  {
    if frames == [] then Err(ValueError)
    else
      ConcatKeys(frames);
      Ok(Frame(frames[0].columns, AllRows(frames)))
  }

  /** The elements of `s` that satisfy `p`, in their order in `s`. */
  function Filter<T(!new)>(s: seq<T>, p: T -> bool): (r: seq<T>)
    ensures |r| <= |s|
    ensures forall x :: x in r <==> x in s && p(x)
  {
    if s == [] then []
    else
      var init := Filter(s[..|s| - 1], p);
      assert forall x :: x in s <==> x in s[..|s| - 1] || x == s[|s| - 1] by {
        assert s == s[..|s| - 1] + [s[|s| - 1]];
      }
      init + (if p(s[|s| - 1]) then [s[|s| - 1]] else [])
  }

  /** Filtering distributes over concatenation, so it keeps the order of the
      elements it keeps. */
  lemma {:induction false} FilterAppend<T(!new)>(s: seq<T>, t: seq<T>, p: T -> bool)
    ensures Filter(s + t, p) == Filter(s, p) + Filter(t, p)
    decreases |t|
  {
    if t == [] {
      assert s + t == s;
    } else {
      var t' := t[..|t| - 1];
      assert (s + t)[..|s + t| - 1] == s + t';
      assert (s + t)[|s + t| - 1] == t[|t| - 1];
      FilterAppend(s, t', p);
    }
  }

  /** The positions of `s` whose element satisfies `p`. */
  function Positions<T(!new)>(s: seq<T>, p: T -> bool): set<int> {
    set i | 0 <= i < |s| && p(s[i])
  }

  /** Filtering keeps exactly one element per position that satisfies `p`. */
  lemma {:induction false} FilterCount<T(!new)>(s: seq<T>, p: T -> bool)
    ensures |Filter(s, p)| == |Positions(s, p)|
  {
    if s != [] {
      var last := |s| - 1;
      var init := s[..last];
      FilterCount(init, p);
      var before := Positions(init, p);
      PositionsExtend(s, p);
      if p(s[last]) {
        assert |Filter(s, p)| == |Filter(init, p)| + 1;
        assert |before + {last}| == |before| + 1;
      } else {
        assert |Filter(s, p)| == |Filter(init, p)|;
      }
    }
  }

  lemma PositionsExtend<T(!new)>(s: seq<T>, p: T -> bool)
    requires s != []
    ensures var last := |s| - 1;
      && last !in Positions(s[..last], p)
      && Positions(s, p) == Positions(s[..last], p) + (if p(s[last]) then {last} else {})
  {
    var last := |s| - 1;
    var init := s[..last];
    var before := Positions(init, p);
    forall i | i in Positions(s, p) ensures i in before + (if p(s[last]) then {last} else {}) {
      if i < last { assert init[i] == s[i]; }
    }
    forall i | i in before ensures i in Positions(s, p) {
      assert init[i] == s[i];
    }
  }

  /** Two sequences of the same length whose elements agree on `p` position
      by position keep the same number of elements. */
  lemma FilterSameCount<T(!new)>(s: seq<T>, t: seq<T>, p: T -> bool)
    requires |s| == |t| && forall i :: 0 <= i < |s| ==> (p(s[i]) <==> p(t[i]))
    ensures |Filter(s, p)| == |Filter(t, p)|
  {
    assert Positions(s, p) == Positions(t, p);
    FilterCount(s, p);
    FilterCount(t, p);
  }

  /** The test `row[column] == value` of a boolean mask. */
  function HasValue(column: string, value: Value): Row -> bool {
    row => column in row && row[column] == value
  }

  /** `df[df[column] == value]`: a KeyError unless `column` is a column,
      otherwise the rows whose `column` cell equals `value`, in order. */
  function KeepRows(df: Frame, column: string, value: Value): (r: Result<Frame, Error>)
    requires df.Valid()
    ensures r.Ok? <==> column in df.columns
    ensures r.Ok? ==> r.value.Valid() && r.value.columns == df.columns
    ensures r.Ok? ==> forall row :: row in r.value.rows <==> row in df.rows && row[column] == value
    ensures r.Ok? ==> r.value.rows == Filter(df.rows, HasValue(column, value))
  {
    if column !in df.columns then Err(KeyError(Text(column)))
    else
      var kept := Filter(df.rows, HasValue(column, value));
      assert forall i :: 0 <= i < |kept| ==> kept[i] in df.rows;
      Ok(Frame(df.columns, kept))
  }

  /** The cells of `column`, one per row. */
  function Column(df: Frame, column: string): (r: seq<Value>)
    requires df.Valid() && column in df.columns
    ensures |r| == |df.rows| && forall i :: 0 <= i < |df.rows| ==> r[i] == df.rows[i][column]
  {
    seq(|df.rows|, i requires 0 <= i < |df.rows| => df.rows[i][column])
  }

  /** `Series.unique()`: exactly the values of the input, each once. The order
      of the result is not stated: the encoder does not depend on it. */
  function Unique<T(==,!new)>(s: seq<T>): (r: seq<T>)
    ensures forall x :: x in r <==> x in s
    ensures forall i, j :: 0 <= i < j < |r| ==> r[i] != r[j]
  {
    if s == [] then []
    else
      var u := Unique(s[..|s| - 1]);
      assert forall x :: x in s <==> x in s[..|s| - 1] || x == s[|s| - 1] by {
        assert s == s[..|s| - 1] + [s[|s| - 1]];
      }
      if s[|s| - 1] in u then u else u + [s[|s| - 1]]
  }
}
