/** The time-series header parser (`load_time_series`): a header holds a timestamp
    column and then three columns per joint, named after the joint with a one-character
    axis suffix. The parser recovers the joint names in column order. */
module TimeSeries {
  import opened Wrappers
  import opened Text
  import opened Errors

  /** One data row, kept as its raw cells; positions are never interpreted here. */
  type Row = seq<string>

  /** The loaded table: its (stripped) column names and its data rows. */
  datatype TimeTable = TimeTable(columns: seq<string>, rows: seq<Row>)

  /** What a successful load returns: the table and the joint names in column order. */
  datatype TimeSeriesData = TimeSeriesData(table: TimeTable, jointNames: seq<string>)

  /** pandas' `columns.str.strip()`: every column name stripped of surrounding whitespace. */
  function StripColumns(header: seq<string>): seq<string> {
    seq(|header|, c requires 0 <= c < |header| => Trim(header[c]))
  }

  /** The column count is one timestamp column plus a multiple of three. */
  predicate WellFormedSchema(cols: seq<string>) {
    (|cols| - 1) % 3 == 0
  }

  function JointCount(cols: seq<string>): (count: nat)
    requires WellFormedSchema(cols)
    ensures 1 + 3 * count == |cols|
  {
    (|cols| - 1) / 3
  }

  /** The joint name one column stands for: its last (axis) character chopped off, then stripped. */
  function AxisName(cols: seq<string>, c: nat): string
    requires c < |cols|
  {
    Trim(DropLast(cols[c]))
  }

  /** Joint `n`'s three columns `3n+1`, `3n+2`, `3n+3` name the same joint. */
  predicate Consistent(cols: seq<string>, n: nat)
    requires WellFormedSchema(cols) && n < JointCount(cols)
  {
    AxisName(cols, 3 * n + 1) == AxisName(cols, 3 * n + 2)
    && AxisName(cols, 3 * n + 2) == AxisName(cols, 3 * n + 3)
  }

  /** `names` is what the columns spell: one name per consistent X/Y/Z triple, in column order. */
  ghost predicate SpellsJoints(cols: seq<string>, names: seq<string>) {
    && WellFormedSchema(cols)
    && JointCount(cols) == |names|
    && forall n :: 0 <= n < |names| ==>
         && AxisName(cols, 3 * n + 1) == names[n]
         && AxisName(cols, 3 * n + 2) == names[n]
         && AxisName(cols, 3 * n + 3) == names[n]
  }

  /** The first joint at or after `n` whose three columns disagree, or the joint count if none does. */
  function FirstInconsistent(cols: seq<string>, n: nat): (k: nat)
    requires WellFormedSchema(cols) && n <= JointCount(cols)
    ensures n <= k <= JointCount(cols)
    ensures forall j :: n <= j < k ==> Consistent(cols, j)
    ensures k < JointCount(cols) ==> !Consistent(cols, k)
    decreases JointCount(cols) - n
  {
    if n == JointCount(cols) || !Consistent(cols, n) then n
    else
      var k := FirstInconsistent(cols, n + 1);
      ConsistentFrom(cols, n, k);
      k
  }

  /** A consistent joint in front of a consistent range extends the range. */
  lemma ConsistentFrom(cols: seq<string>, n: nat, k: nat)
    requires WellFormedSchema(cols) && n < k <= JointCount(cols) && Consistent(cols, n)
    requires forall j :: n + 1 <= j < k ==> Consistent(cols, j)
    ensures forall j :: n <= j < k ==> Consistent(cols, j)
  {
    forall j | n <= j < k ensures Consistent(cols, j) {
      if j == n {
        assert Consistent(cols, n);
      }
    }
  }

  /** The header logic of `load_time_series` on the stripped column names: the column count
      is checked first, then the joints in column order; the first joint whose three columns
      disagree is reported. */
  function ParseColumns(cols: seq<string>): Result<seq<string>, LoadError> {
    if !WellFormedSchema(cols) then Failure(MalformedSchema)
    else
      var k := FirstInconsistent(cols, 0);
      if k < JointCount(cols) then
        Failure(MalformedJointName(AxisName(cols, 3 * k + 1), AxisName(cols, 3 * k + 2), AxisName(cols, 3 * k + 3)))
      else
        Success(seq(JointCount(cols), n requires 0 <= n < JointCount(cols) => AxisName(cols, 3 * n + 1)))
  }

  /** The whole of `load_time_series` once the file is read: the column names are stripped,
      the joint names derived from them, and the rows kept as they are. */
  function ParseTimeSeries(header: seq<string>, rows: seq<Row>): Result<TimeSeriesData, LoadError> {
    var names :- ParseColumns(StripColumns(header));
    Success(TimeSeriesData(TimeTable(StripColumns(header), rows), names))
  }

  /** A column count that is not one plus a multiple of three is the one schema error, and
      it is reported before any joint is looked at. */
  lemma ParseColumnsSchema(cols: seq<string>)
    ensures ParseColumns(cols) == Failure(MalformedSchema) <==> !WellFormedSchema(cols)
  {
  }

  /** With a valid column count, the header is accepted exactly when every joint's three
      columns agree. */
  lemma ParseColumnsAccepts(cols: seq<string>)
    requires WellFormedSchema(cols)
    ensures ParseColumns(cols).Success? <==> forall n :: 0 <= n < JointCount(cols) ==> Consistent(cols, n)
  {
    var k := FirstInconsistent(cols, 0);
    if k < JointCount(cols) {
      assert !Consistent(cols, k);
    }
  }

  /** An accepted header spells its joint names: name `n` is what each of the columns
      `3n+1`, `3n+2` and `3n+3` gives once its last character is chopped and it is stripped. */
  lemma ParseColumnsSpells(cols: seq<string>)
    requires ParseColumns(cols).Success?
    ensures SpellsJoints(cols, ParseColumns(cols).value)
  {
    ParseColumnsAccepts(cols);
    ConsistentJointsSpell(cols, ParseColumns(cols).value);
  }

  /** The only errors the header parser reports are the schema error and a joint-name error. */
  lemma ParseColumnsErrors(cols: seq<string>)
    ensures ParseColumns(cols).Failure? ==>
              ParseColumns(cols).error.MalformedSchema? || ParseColumns(cols).error.MalformedJointName?
  {
  }

  /** When every joint is consistent, the X-column names spell all three columns of each joint. */
  lemma ConsistentJointsSpell(cols: seq<string>, names: seq<string>)
    requires WellFormedSchema(cols) && |names| == JointCount(cols)
    requires forall n :: 0 <= n < JointCount(cols) ==> Consistent(cols, n)
    requires forall n :: 0 <= n < |names| ==> names[n] == AxisName(cols, 3 * n + 1)
    ensures SpellsJoints(cols, names)
  {
    forall n | 0 <= n < |names|
      ensures AxisName(cols, 3 * n + 2) == names[n] && AxisName(cols, 3 * n + 3) == names[n]
    {
      assert Consistent(cols, n);
    }
  }

  /** `FirstInconsistent` from the first joint is `k` when every joint before `k` is consistent
      and `k` is the end or an inconsistent joint. */
  lemma FirstInconsistentAt(cols: seq<string>, k: nat)
    requires WellFormedSchema(cols) && k <= JointCount(cols)
    requires forall j :: 0 <= j < k ==> Consistent(cols, j)
    requires k < JointCount(cols) ==> !Consistent(cols, k)
    ensures FirstInconsistent(cols, 0) == k
  {
  }

  /** The joint loop stops at joint `k` when the joints before it agree and it does not;
      the error carries its three names. */
  lemma RejectsAt(cols: seq<string>, k: nat)
    requires WellFormedSchema(cols) && k < JointCount(cols)
    requires forall j :: 0 <= j < k ==> Consistent(cols, j)
    requires !Consistent(cols, k)
    ensures ParseColumns(cols)
            == Failure(MalformedJointName(AxisName(cols, 3 * k + 1), AxisName(cols, 3 * k + 2), AxisName(cols, 3 * k + 3)))
  {
    FirstInconsistentAt(cols, k);
  }

  /** One more consistent joint extends the consistent prefix. */
  lemma ConsistentExtend(cols: seq<string>, k: nat)
    requires WellFormedSchema(cols) && k < JointCount(cols)
    requires forall j :: 0 <= j < k ==> Consistent(cols, j)
    requires AxisName(cols, 3 * k + 1) == AxisName(cols, 3 * k + 2) == AxisName(cols, 3 * k + 3)
    ensures forall j :: 0 <= j < k + 1 ==> Consistent(cols, j)
  {
    forall j | 0 <= j < k + 1 ensures Consistent(cols, j) {
      if j == k {
        assert Consistent(cols, k);
      }
    }
  }

  /** With every joint consistent, the load succeeds with the X-column names. */
  lemma AcceptsConsistent(cols: seq<string>, names: seq<string>)
    requires WellFormedSchema(cols) && |names| == JointCount(cols)
    requires forall j :: 0 <= j < JointCount(cols) ==> Consistent(cols, j)
    requires forall j :: 0 <= j < |names| ==> names[j] == AxisName(cols, 3 * j + 1)
    ensures ParseColumns(cols) == Success(names)
  {
    FirstInconsistentAt(cols, JointCount(cols));
    assert ParseColumns(cols).value == names;
  }

  /** Every stored column name is stripped: it neither starts nor ends with whitespace. */
  lemma StrippedColumnsTrimmed(header: seq<string>)
    ensures forall c :: 0 <= c < |header| ==> IsTrimmed(StripColumns(header)[c])
  {
    forall c | 0 <= c < |header| ensures IsTrimmed(StripColumns(header)[c]) {
      var _ := TrimKeepsMiddle(header[c]);
    }
  }

  /** Stripping the already stripped columns (as the constructor does again) changes nothing. */
  lemma StripColumnsIdempotent(header: seq<string>)
    ensures StripColumns(StripColumns(header)) == StripColumns(header)
  {
    forall c | 0 <= c < |header| ensures Trim(Trim(header[c])) == Trim(header[c]) {
      TrimIdempotent(header[c]);
    }
  }

  /** Columns that are already stripped are left as they are. */
  lemma StripTrimmedColumns(cols: seq<string>)
    requires forall c :: 0 <= c < |cols| ==> IsTrimmed(cols[c])
    ensures StripColumns(cols) == cols
  {
    forall c | 0 <= c < |cols| ensures Trim(cols[c]) == cols[c] {
      TrimFixedPoint(cols[c]);
    }
  }

  /** The joint loop of `load_time_series` on the stripped column names: check the column
      count, then derive each joint's name from its X column and cross-check it against its
      Y and Z columns, stopping at the first joint whose columns disagree. */
  method ParseHeader(columns: seq<string>) returns (r: Result<seq<string>, LoadError>)
    ensures r == ParseColumns(columns)
  {
    var n3d := |columns| - 1;
    if n3d % 3 != 0 {
      return Failure(MalformedSchema);
    }
    var count := n3d / 3;
    assert count == JointCount(columns);
    var jointNames: seq<string> := [];
    var n := 0;
    while n < count
      invariant 0 <= n <= count
      invariant |jointNames| == n
      invariant forall j :: 0 <= j < n ==> Consistent(columns, j)
      invariant forall j :: 0 <= j < n ==> jointNames[j] == AxisName(columns, 3 * j + 1)
    {
      var jointX := AxisName(columns, 3 * n + 1);
      var jointY := AxisName(columns, 3 * n + 2);
      var jointZ := AxisName(columns, 3 * n + 3);
      if jointX != jointY || jointY != jointZ {
        RejectsAt(columns, n);
        return Failure(MalformedJointName(jointX, jointY, jointZ));
      }
      ConsistentExtend(columns, n);
      jointNames := jointNames + [jointX];
      n := n + 1;
    }
    AcceptsConsistent(columns, jointNames);
    return Success(jointNames);
  }

  /** `load_time_series` after `read_csv`: strip the columns, derive the joint names from
      them, and keep the rows as they are. */
  method LoadTimeSeries(header: seq<string>, rows: seq<Row>) returns (r: Result<TimeSeriesData, LoadError>)
    ensures r == ParseTimeSeries(header, rows)
  {
    var columns := StripColumns(header);
    var jointNames :- ParseHeader(columns);
    return Success(TimeSeriesData(TimeTable(columns, rows), jointNames));
  }
}
