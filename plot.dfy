/** The plotting helpers: the column names a frame's positions are looked up by, and the
    assembly of one frame's figure elements (a marker per joint, then a segment per edge).
    Drawing itself is left to the plotting library; an element here is the primitive it
    would be asked to draw. */
module Plot {
  import opened Wrappers
  import opened Text
  import opened Errors
  import opened TimeSeries
  import opened JointGraph

  // ---------------------------------------------------------------------------
  // Column names per axis

  /** The column names of one axis: every joint name with the axis letter appended. */
  function AxisColumns(names: seq<string>, axis: char): (cols: seq<string>)
    ensures |cols| == |names|
    ensures forall i :: 0 <= i < |names| ==> cols[i] == names[i] + [axis]
  {
    seq(|names|, i requires 0 <= i < |names| => names[i] + [axis])
  }

  /** `joint_symbol_lists`: the X, Y and Z column names of the joints, in joint order. */
  function JointSymbolLists(names: seq<string>): (r: (seq<string>, seq<string>, seq<string>))
    ensures |r.0| == |names| && |r.1| == |names| && |r.2| == |names|
    ensures forall i :: 0 <= i < |names| ==>
              r.0[i] == names[i] + "X" && r.1[i] == names[i] + "Y" && r.2[i] == names[i] + "Z"
  {
    (AxisColumns(names, 'X'), AxisColumns(names, 'Y'), AxisColumns(names, 'Z'))
  }

  /** The columns of a joint after the timestamp: X, Y and Z of each joint in joint order. */
  function AxisTriples(names: seq<string>): (cols: seq<string>)
    ensures |cols| == 3 * |names|
    ensures forall n :: 0 <= n < |names| ==>
              cols[3 * n] == names[n] + "X" && cols[3 * n + 1] == names[n] + "Y" && cols[3 * n + 2] == names[n] + "Z"
    decreases |names|
  {
    if names == [] then []
    else
      var last := names[|names| - 1];
      AxisTriples(names[..|names| - 1]) + [last + "X", last + "Y", last + "Z"]
  }

  /** The header of a time-series file whose columns are named the way `create_joint_frame`
      looks positions up: a timestamp column, then the X, Y and Z columns of every joint. */
  function SymbolHeader(timestamp: string, names: seq<string>): (header: seq<string>)
    ensures |header| == 1 + 3 * |names| && header[0] == timestamp
    ensures forall n :: 0 <= n < |names| ==>
              header[3 * n + 1] == names[n] + "X" && header[3 * n + 2] == names[n] + "Y"
              && header[3 * n + 3] == names[n] + "Z"
  {
    [timestamp] + AxisTriples(names)
  }

  /** The symbol header holds, after the timestamp, joint `n`'s entries of the three lists
      `joint_symbol_lists` returns. */
  lemma SymbolHeaderSymbols(timestamp: string, names: seq<string>, n: nat)
    requires n < |names|
    ensures var (xs, ys, zs) := JointSymbolLists(names);
            var header := SymbolHeader(timestamp, names);
            header[3 * n + 1] == xs[n] && header[3 * n + 2] == ys[n] && header[3 * n + 3] == zs[n]
  {
  }

  /** Every joint's three columns in a symbol header agree, once stripped and chopped, on the
      stripped joint name. */
  lemma SymbolAxisNames(timestamp: string, names: seq<string>)
    ensures var cols := StripColumns(SymbolHeader(timestamp, names));
            && WellFormedSchema(cols) && JointCount(cols) == |names|
            && (forall n :: 0 <= n < |names| ==> Consistent(cols, n))
            && (forall n :: 0 <= n < |names| ==> AxisName(cols, 3 * n + 1) == Trim(names[n]))
  {
    forall n | 0 <= n < |names| {
      SymbolJointName(timestamp, names, n);
    }
  }

  /** `SymbolAxisNames` for one joint. */
  lemma SymbolJointName(timestamp: string, names: seq<string>, n: nat)
    requires n < |names|
    ensures var cols := StripColumns(SymbolHeader(timestamp, names));
            && WellFormedSchema(cols) && JointCount(cols) == |names|
            && Consistent(cols, n)
            && AxisName(cols, 3 * n + 1) == Trim(names[n])
  {
    var header := SymbolHeader(timestamp, names);
    var cols := StripColumns(header);
    var name := names[n];
    assert |cols| == 1 + 3 * |names|;
    assert AxisName(cols, 3 * n + 1) == Trim(name) by {
      assert header[3 * n + 1] == name + ['X'];
      assert cols[3 * n + 1] == Trim(name + ['X']);
      TrimAxisSuffix(name, 'X');
    }
    assert AxisName(cols, 3 * n + 2) == Trim(name) by {
      assert header[3 * n + 2] == name + ['Y'];
      assert cols[3 * n + 2] == Trim(name + ['Y']);
      TrimAxisSuffix(name, 'Y');
    }
    assert AxisName(cols, 3 * n + 3) == Trim(name) by {
      assert header[3 * n + 3] == name + ['Z'];
      assert cols[3 * n + 3] == Trim(name + ['Z']);
      TrimAxisSuffix(name, 'Z');
    }
  }

  /** Every name stripped. */
  function TrimAll(names: seq<string>): (r: seq<string>)
    ensures |r| == |names| && forall i :: 0 <= i < |names| ==> r[i] == Trim(names[i])
  {
    seq(|names|, i requires 0 <= i < |names| => Trim(names[i]))
  }

  /** Stripping every name changes nothing exactly when no name has surrounding whitespace. */
  lemma TrimAllFixedPoint(names: seq<string>)
    ensures TrimAll(names) == names <==> forall i :: 0 <= i < |names| ==> IsTrimmed(names[i])
  {
    forall i | 0 <= i < |names| ensures Trim(names[i]) == names[i] <==> IsTrimmed(names[i]) {
      TrimFixedPoint(names[i]);
    }
    if TrimAll(names) == names {
      assert forall i :: 0 <= i < |names| ==> TrimAll(names)[i] == names[i];
    }
  }

  /** The header parser reads back, from the columns the plotting code expects, the stripped
      joint names. */
  lemma SymbolHeaderParses(timestamp: string, names: seq<string>)
    ensures ParseColumns(StripColumns(SymbolHeader(timestamp, names))) == Success(TrimAll(names))
  {
    var cols := StripColumns(SymbolHeader(timestamp, names));
    SymbolAxisNames(timestamp, names);
    AcceptsConsistent(cols, TrimAll(names));
  }

  /** Round trip: the header built from the joint names parses back to exactly those names
      when, and only when, no name has surrounding whitespace. */
  lemma SymbolHeaderRoundTrip(timestamp: string, names: seq<string>)
    ensures ParseColumns(StripColumns(SymbolHeader(timestamp, names))) == Success(names)
            <==> forall i :: 0 <= i < |names| ==> IsTrimmed(names[i])
  {
    SymbolHeaderParses(timestamp, names);
    TrimAllFixedPoint(names);
  }

  // ---------------------------------------------------------------------------
  // Frame assembly

  /** A joint's position at one time stamp. */
  datatype Point<V> = Point(x: V, y: V, z: V)

  /** A figure element: a marker at a joint, or a line segment between two joints. */
  datatype Element<V> = Marker(at: Point<V>) | Segment(from: Point<V>, to: Point<V>)

  /** Why a frame cannot be assembled: columns the row does not have (all of one axis's
      missing labels, in order), or an edge id with no joint position. */
  datatype FrameError = MissingColumns(columns: seq<string>) | JointIdOutOfRange(id: nat)

  /** The labels among `cols` that the row lacks, in order. */
  function Missing<V>(row: map<string, V>, cols: seq<string>): (m: seq<string>)
    ensures forall c :: c in m <==> c in cols && c !in row
    decreases |cols|
  {
    if cols == [] then []
    else
      var m := Missing(row, cols[..|cols| - 1]);
      var c := cols[|cols| - 1];
      assert forall x :: x in cols <==> x in cols[..|cols| - 1] || x == c;
      if c in row then m else m + [c]
  }

  /** `row[cols]`: the row's values under the given labels, in order, or the missing labels. */
  function Select<V>(row: map<string, V>, cols: seq<string>): (r: Result<seq<V>, FrameError>)
    ensures r.Success? <==> forall i :: 0 <= i < |cols| ==> cols[i] in row
    ensures r.Success? ==> |r.value| == |cols| && forall i :: 0 <= i < |cols| ==> r.value[i] == row[cols[i]]
    ensures r.Failure? ==> r.error == MissingColumns(Missing(row, cols)) && Missing(row, cols) != []
  {
    if Missing(row, cols) != [] then
      assert Missing(row, cols)[0] in cols;
      Failure(MissingColumns(Missing(row, cols)))
    else
      Success(seq(|cols|, i requires 0 <= i < |cols| => row[cols[i]]))
  }

  /** The row has all three columns of every joint. */
  predicate AllPresent<V>(row: map<string, V>, names: seq<string>) {
    forall i :: 0 <= i < |names| ==> names[i] + "X" in row && names[i] + "Y" in row && names[i] + "Z" in row
  }

  /** Every edge refers to a joint position. */
  predicate EdgesInRange(graph: seq<Edge>, count: nat) {
    forall k :: 0 <= k < |graph| ==> graph[k].src < count && graph[k].dst < count
  }

  /** Where joint `name` is in the row. */
  function PositionOf<V>(row: map<string, V>, name: string): Point<V>
    requires name + "X" in row && name + "Y" in row && name + "Z" in row
  {
    Point(row[name + "X"], row[name + "Y"], row[name + "Z"])
  }

  /** The three lookups succeed exactly when the row has every joint's three columns. */
  lemma SelectAllPresent<V>(row: map<string, V>, names: seq<string>)
    ensures var (xs, ys, zs) := JointSymbolLists(names);
            Select(row, xs).Success? && Select(row, ys).Success? && Select(row, zs).Success?
            <==> AllPresent(row, names)
  {
  }

  /** `create_joint_frame` on one row of positions: the X, then Y, then Z positions are
      looked up by column name; one marker per joint in joint order; then, edge by edge,
      a segment from the position at index `src` to the one at index `dst`. */
  method CreateJointFrame<V>(row: map<string, V>, graph: seq<Edge>, names: seq<string>)
    returns (r: Result<seq<Element<V>>, FrameError>)
    ensures r.Success? <==> AllPresent(row, names) && EdgesInRange(graph, |names|)
    ensures r.Success? ==>
              && |r.value| == |names| + |graph|
              && (forall i :: 0 <= i < |names| ==> r.value[i] == Marker(PositionOf(row, names[i])))
              && (forall k :: 0 <= k < |graph| ==>
                    r.value[|names| + k] == Segment(PositionOf(row, names[graph[k].src]), PositionOf(row, names[graph[k].dst])))
    ensures r.Failure? && !AllPresent(row, names) ==>
              var (xs, ys, zs) := JointSymbolLists(names);
              r.error == (if Select(row, xs).Failure? then Select(row, xs).error
                          else if Select(row, ys).Failure? then Select(row, ys).error
                          else Select(row, zs).error)
    ensures r.Failure? && AllPresent(row, names) ==>
              exists k :: 0 <= k < |graph| && EdgesInRange(graph[..k], |names|)
                && (graph[k].src >= |names| || graph[k].dst >= |names|)
                && r.error == JointIdOutOfRange(if graph[k].src >= |names| then graph[k].src else graph[k].dst)
  {
    SelectAllPresent(row, names);
    var (xJoints, yJoints, zJoints) := JointSymbolLists(names);
    var xPos :- Select(row, xJoints);
    var yPos :- Select(row, yJoints);
    var zPos :- Select(row, zJoints);
    var figElements := Markers(row, names, xPos, yPos, zPos);
    for k := 0 to |graph|
      invariant |figElements| == |names| + k
      invariant figElements[..|names|] == Markers(row, names, xPos, yPos, zPos)
      invariant EdgesInRange(graph[..k], |names|)
      invariant forall j :: 0 <= j < k ==>
                  figElements[|names| + j] == Segment(PositionOf(row, names[graph[j].src]), PositionOf(row, names[graph[j].dst]))
    {
      var src, dst := graph[k].src, graph[k].dst;
      if src >= |names| || dst >= |names| {
        return Failure(JointIdOutOfRange(if src >= |names| then src else dst));
      }
      var line := Segment(Point(xPos[src], yPos[src], zPos[src]), Point(xPos[dst], yPos[dst], zPos[dst]));
      figElements := figElements + [line];
      assert graph[..k + 1] == graph[..k] + [graph[k]];
    }
    assert graph[..|graph|] == graph;
    return Success(figElements);
  }

  /** The scatter part of `create_joint_frame`: one marker per joint, at the positions looked up
      for it. */
  function Markers<V>(row: map<string, V>, names: seq<string>, xPos: seq<V>, yPos: seq<V>, zPos: seq<V>): (ms: seq<Element<V>>)
    requires AllPresent(row, names)
    requires |xPos| == |yPos| == |zPos| == |names|
    requires forall i :: 0 <= i < |names| ==>
               xPos[i] == row[names[i] + "X"] && yPos[i] == row[names[i] + "Y"] && zPos[i] == row[names[i] + "Z"]
    ensures |ms| == |names| && forall i :: 0 <= i < |names| ==> ms[i] == Marker(PositionOf(row, names[i]))
  {
    seq(|names|, i requires 0 <= i < |names| => Marker(Point(xPos[i], yPos[i], zPos[i])))
  }
}
