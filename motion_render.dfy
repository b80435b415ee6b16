/** The `MotionRender` class: it loads a time-series file and a joint-graph file, checks
    that they describe the same joints, and keeps the table, the edges and the names. */
module MotionRender {
  import opened Wrappers
  import opened Text
  import opened Errors
  import opened TimeSeries
  import opened JointGraph
  import opened Util
  import opened Plot

  /** A time-series file as the loader sees it: its path, whether it exists, and, if it
      does, its header cells and data rows as the CSV reader splits them. */
  datatype CsvFile = CsvFile(path: string, present: bool, header: seq<string>, rows: seq<Row>)

  /** A joint-graph file: its path, whether it exists, and its lines as `readlines()` gives them. */
  datatype TextFile = TextFile(path: string, present: bool, lines: seq<string>)

  /** `_load_time_series`: a missing file is reported before anything is parsed; otherwise
      the result is that of `load_time_series`. */
  function ReadTimeSeries(f: CsvFile): (r: Result<TimeSeriesData, LoadError>)
    ensures r == Failure(FileNotFound(f.path)) <==> !f.present
    ensures f.present ==> r == ParseTimeSeries(f.header, f.rows)
  {
    if !f.present then Failure(FileNotFound(f.path))
    else
      ParseColumnsErrors(StripColumns(f.header));
      ParseTimeSeries(f.header, f.rows)
  }

  /** `_load_joint_graph`: a missing file is reported before any line is read; otherwise
      the result is that of `load_joint_graph`. */
  function ReadJointGraph(f: TextFile): (r: Result<Graph, LoadError>)
    ensures r == Failure(FileNotFound(f.path)) <==> !f.present
    ensures f.present ==> r == ParseJointGraph(f.lines)
  {
    if !f.present then Failure(FileNotFound(f.path))
    else
      ParseJointGraphAccepts(f.lines);
      ParseJointGraph(f.lines)
  }

  /** The outcome of the constructor: the time-series file is loaded and checked first,
      then the graph file, then the two name lists are compared. */
  function Construction(ts: CsvFile, g: TextFile): (r: Result<Skeleton, LoadError>)
    ensures !ts.present ==> r == Failure(FileNotFound(ts.path))
    ensures ts.present && !g.present ==>
              r == if ParseTimeSeries(ts.header, ts.rows).Success? then Failure(FileNotFound(g.path))
                   else ParseTimeSeries(ts.header, ts.rows).PropagateFailure()
    ensures ts.present && g.present ==> r == Combine(ParseTimeSeries(ts.header, ts.rows), ParseJointGraph(g.lines))
  {
    Combine(ReadTimeSeries(ts), ReadJointGraph(g))
  }

  class MotionRender {
    var timeSeriesFile: string
    var jointGraphFile: string
    var timeTable: TimeTable
    var jointNames: seq<string>
    var jointGraph: seq<Edge>

    /** The fields hold a skeleton a successful load can produce: stripped columns that
        spell the joint names, distinct names, and edges between known joints. */
    ghost predicate Valid()
      reads this
    {
      ValidSkeleton(Skeleton(timeTable, jointGraph, jointNames))
    }

    /** The field assignments of `__init__` once both files have loaded and agree; the
        column names are stripped once more, as the constructor does before returning. */
    constructor (timeSeriesFile: string, jointGraphFile: string, loaded: Skeleton)
      requires ValidSkeleton(loaded)
      ensures Valid()
      ensures this.timeSeriesFile == timeSeriesFile && this.jointGraphFile == jointGraphFile
      ensures timeTable == TimeTable(StripColumns(loaded.table.columns), loaded.table.rows)
      ensures jointNames == loaded.jointNames && jointGraph == loaded.graph
    {
      this.timeSeriesFile := timeSeriesFile;
      this.jointGraphFile := jointGraphFile;
      timeTable := TimeTable(StripColumns(loaded.table.columns), loaded.table.rows);
      jointNames := loaded.jointNames;
      jointGraph := loaded.graph;
      StripTrimmedColumns(loaded.table.columns);
    }

    /** `_load_time_series`: the existence check, then the header loop. */
    static method LoadTimeSeries(f: CsvFile) returns (r: Result<TimeSeriesData, LoadError>)
      ensures r == ReadTimeSeries(f)
    {
      if !f.present {
        return Failure(FileNotFound(f.path));
      }
      r := TimeSeries.LoadTimeSeries(f.header, f.rows);
    }

    /** `_load_joint_graph`: the existence check, then the line loop. */
    static method LoadJointGraph(f: TextFile) returns (r: Result<Graph, LoadError>)
      ensures r == ReadJointGraph(f)
    {
      if !f.present {
        return Failure(FileNotFound(f.path));
      }
      r := JointGraph.LoadJointGraph(f.lines);
    }

    /** `MotionRender(time_series_file, joint_graph_file)`: either the error the constructor
        raises, or a new, valid object holding what the two files describe. */
    static method Create(ts: CsvFile, g: TextFile) returns (r: Result<MotionRender, LoadError>)
      ensures r.Failure? <==> Construction(ts, g).Failure?
      ensures r.Failure? ==> r.error == Construction(ts, g).error
      ensures r.Success? ==>
                var s := Construction(ts, g).value;
                && fresh(r.value) && r.value.Valid()
                && r.value.timeSeriesFile == ts.path && r.value.jointGraphFile == g.path
                && r.value.timeTable == s.table && r.value.jointNames == s.jointNames
                && r.value.jointGraph == s.graph
    {
      var timeSeries := LoadTimeSeries(ts);
      if timeSeries.Failure? {
        return Failure(timeSeries.error);
      }
      var graph := LoadJointGraph(g);
      if graph.Failure? {
        return Failure(graph.error);
      }
      var jointNamesGraph := graph.value.jointNames;
      if |timeSeries.value.jointNames| != |jointNamesGraph| {
        return Failure(CountMismatch);
      }
      if timeSeries.value.jointNames != jointNamesGraph {
        return Failure(NameMismatch);
      }
      var loaded := Skeleton(timeSeries.value.table, graph.value.edges, timeSeries.value.jointNames);
      LoadedSkeletonValid(ts.header, ts.rows, g.lines);
      StripColumnsIdempotent(ts.header);
      var m := new MotionRender(ts.path, g.path, loaded);
      return Success(m);
    }
  }

  // ---------------------------------------------------------------------------
  // The four-joint example of the class documentation

  function ExampleNames(): seq<string> {
    ["head", "neck", "leftShoulder", "rightShoulder"]
  }

  /** The header `timeStamp, headX, headY, ...` of the class documentation, as the CSV reader
      splits it at the commas; the example data file is taken to have this header. */
  function ExampleHeader(): seq<string> {
    ["timeStamp", " headX", " headY", " headZ", " neckX", " neckY", " neckZ",
     " leftShoulderX", " leftShoulderY", " leftShoulderZ",
     " rightShoulderX", " rightShoulderY", " rightShoulderZ"]
  }

  function ExampleLines(): seq<string> {
    ["head neck\n", "neck leftShoulder\n", "neck rightShoulder\n"]
  }

  /** A header as the CSV reader splits `timestamp, aX, aY, aZ, ...`: the timestamp column,
      then each joint column with one leading blank. */
  ghost predicate BlankPrefixed(header: seq<string>, timestamp: string, names: seq<string>) {
    && |header| == 1 + 3 * |names| && header[0] == timestamp
    && forall n :: 0 <= n < |names| ==>
         && header[3 * n + 1] == [' '] + (names[n] + "X")
         && header[3 * n + 2] == [' '] + (names[n] + "Y")
         && header[3 * n + 3] == [' '] + (names[n] + "Z")
  }

  /** A header whose joint columns each carry one leading blank strips to the symbol header. */
  lemma BlankPrefixedHeader(header: seq<string>, timestamp: string, names: seq<string>)
    requires IsTrimmed(timestamp) && forall i :: 0 <= i < |names| ==> IsTrimmed(names[i])
    requires BlankPrefixed(header, timestamp, names)
    ensures StripColumns(header) == SymbolHeader(timestamp, names)
  {
    forall c | 1 <= c < |header| ensures Trim(header[c]) == SymbolHeader(timestamp, names)[c] {
      BlankColumnStrips(header, timestamp, names, c);
    }
    TrimFixedPoint(timestamp);
  }

  /** One joint column of such a header strips to the symbol header's column. */
  lemma BlankColumnStrips(header: seq<string>, timestamp: string, names: seq<string>, c: nat)
    requires forall i :: 0 <= i < |names| ==> IsTrimmed(names[i])
    requires BlankPrefixed(header, timestamp, names) && 1 <= c < |header|
    ensures Trim(header[c]) == SymbolHeader(timestamp, names)[c]
  {
    var n := (c - 1) / 3;
    assert 3 * n + 1 <= c <= 3 * n + 3 && n < |names|;
    if c == 3 * n + 1 {
      BlankAxisColumn(names[n], 'X');
    } else if c == 3 * n + 2 {
      BlankAxisColumn(names[n], 'Y');
    } else {
      assert c == 3 * n + 3;
      BlankAxisColumn(names[n], 'Z');
    }
  }

  /** One joint column with a leading blank strips to the joint name and its axis letter. */
  lemma BlankAxisColumn(name: string, axis: char)
    requires IsTrimmed(name) && !IsSpace(axis)
    ensures Trim([' '] + (name + [axis])) == name + [axis]
  {
    assert IsTrimmed(name + [axis]) by {
      if name != [] {
        assert (name + [axis])[0] == name[0];
      }
    }
    LeadingBlankStripped(name + [axis]);
  }

  lemma ExampleHeaderShape()
    ensures BlankPrefixed(ExampleHeader(), "timeStamp", ExampleNames())
  {
    forall n | 0 <= n < |ExampleNames()| {
      ExampleJointColumns(n);
    }
  }

  /** Joint `n`'s three columns in the example header. */
  lemma ExampleJointColumns(n: nat)
    requires n < 4
    ensures var header, name := ExampleHeader(), ExampleNames()[n];
            && header[3 * n + 1] == [' '] + (name + "X")
            && header[3 * n + 2] == [' '] + (name + "Y")
            && header[3 * n + 3] == [' '] + (name + "Z")
  {
    ExampleColumns();
    if n == 0 {
    } else if n == 1 {
    } else if n == 2 {
    } else {
    }
  }

  /** The twelve joint columns of the example header, column by column. */
  lemma ExampleColumns()
    ensures var h, nm := ExampleHeader(), ExampleNames();
            && h[1] == [' '] + (nm[0] + "X") && h[2] == [' '] + (nm[0] + "Y") && h[3] == [' '] + (nm[0] + "Z")
            && h[4] == [' '] + (nm[1] + "X") && h[5] == [' '] + (nm[1] + "Y") && h[6] == [' '] + (nm[1] + "Z")
            && h[7] == [' '] + (nm[2] + "X") && h[8] == [' '] + (nm[2] + "Y") && h[9] == [' '] + (nm[2] + "Z")
            && h[10] == [' '] + (nm[3] + "X") && h[11] == [' '] + (nm[3] + "Y") && h[12] == [' '] + (nm[3] + "Z")
  {
  }

  /** The example header yields the four joint names in column order. */
  lemma ExampleTimeSeries(rows: seq<Row>)
    ensures ParseTimeSeries(ExampleHeader(), rows).Success?
    ensures ParseTimeSeries(ExampleHeader(), rows).value.jointNames == ExampleNames()
  {
    ExampleNamesTrimmed();
    ExampleHeaderShape();
    BlankPrefixedHeader(ExampleHeader(), "timeStamp", ExampleNames());
    SymbolColumnsParse(ExampleHeader(), rows, "timeStamp", ExampleNames());
  }

  /** A header that strips to the symbol header of stripped names parses to those names. */
  lemma SymbolColumnsParse(header: seq<string>, rows: seq<Row>, timestamp: string, names: seq<string>)
    requires forall i :: 0 <= i < |names| ==> IsTrimmed(names[i])
    requires StripColumns(header) == SymbolHeader(timestamp, names)
    ensures ParseTimeSeries(header, rows) == Success(TimeSeriesData(TimeTable(StripColumns(header), rows), names))
  {
    SymbolHeaderRoundTrip(timestamp, names);
    StripColumnsIdempotent(header);
  }

  lemma ExampleNamesTrimmed()
    ensures IsTrimmed("timeStamp")
    ensures forall i :: 0 <= i < |ExampleNames()| ==> IsTrimmed(ExampleNames()[i])
  {
    var names := ExampleNames();
    forall i | 0 <= i < |names| ensures IsTrimmed(names[i]) {
      if i == 0 {
      } else if i == 1 {
      } else if i == 2 {
      } else {
      }
    }
  }

  /** The example graph file: the names by first appearance and the three edges. */
  lemma ExampleGraph()
    ensures ParseJointGraph(ExampleLines())
            == Success(Graph([Edge(0, 1), Edge(1, 2), Edge(1, 3)], ExampleNames()))
  {
    ExampleTokens();
    ExampleLinesShape();
    ChainLines(ExampleLines(), "head", "neck", "leftShoulder", "rightShoulder");
  }

  lemma ExampleTokens()
    ensures WordToken("head") && WordToken("neck") && WordToken("leftShoulder") && WordToken("rightShoulder")
  {
    var head, neck, left, right := "head", "neck", "leftShoulder", "rightShoulder";
    assert forall m :: 0 <= m < |head| ==> IsWordChar(head[m]);
    assert forall m :: 0 <= m < |neck| ==> IsWordChar(neck[m]);
    assert forall m :: 0 <= m < |left| ==> IsWordChar(left[m]);
    assert forall m :: 0 <= m < |right| ==> IsWordChar(right[m]);
  }

  lemma ExampleLinesShape()
    ensures var lines := ExampleLines();
            && |lines| == 3
            && lines[0] == "head" + " " + "neck" + "\n"
            && lines[1] == "neck" + " " + "leftShoulder" + "\n"
            && lines[2] == "neck" + " " + "rightShoulder" + "\n"
  {
  }

  /** The lines `a b`, `b c`, `b d` build the graph `ChainBuild` describes. */
  lemma ChainLines(lines: seq<string>, a: string, b: string, c: string, d: string)
    requires WordToken(a) && WordToken(b) && WordToken(c) && WordToken(d)
    requires a != b && a != c && a != d && b != c && b != d && c != d
    requires |lines| == 3
    requires lines[0] == a + " " + b + "\n" && lines[1] == b + " " + c + "\n" && lines[2] == b + " " + d + "\n"
    ensures ParseJointGraph(lines) == Success(Graph([Edge(0, 1), Edge(1, 2), Edge(1, 3)], [a, b, c, d]))
  {
    assert Separator(" ");
    MatchingLineAccepted(lines[0], a, " ", b, "\n");
    MatchingLineAccepted(lines[1], b, " ", c, "\n");
    MatchingLineAccepted(lines[2], b, " ", d, "\n");
    ChainPairs(lines, a, b, c, d);
    ChainBuild(a, b, c, d);
  }

  lemma ChainPairs(lines: seq<string>, a: string, b: string, c: string, d: string)
    requires |lines| == 3
    requires ParseEdgeLine(lines[0]) == Some((a, b))
    requires ParseEdgeLine(lines[1]) == Some((b, c))
    requires ParseEdgeLine(lines[2]) == Some((b, d))
    ensures ScanLines(lines) == Success(Build([(a, b), (b, c), (b, d)]))
  {
    var pairs := [(a, b), (b, c), (b, d)];
    forall k | 0 <= k < 3 ensures ParseEdgeLine(lines[k]) == Some(pairs[k]) {
      if k == 0 {
      } else if k == 1 {
      } else {
      }
    }
    ScanLinesBuilds(lines, pairs);
  }

  /** A graph of three edges from one joint's neighbour: `a b`, `b c`, `b d`, all four distinct. */
  lemma ChainBuild(a: string, b: string, c: string, d: string)
    requires a != b && a != c && a != d && b != c && b != d && c != d
    ensures var st := Build([(a, b), (b, c), (b, d)]);
            st.names == [a, b, c, d] && st.edges == [Edge(0, 1), Edge(1, 2), Edge(1, 3)]
  {
    var pairs := [(a, b), (b, c), (b, d)];
    assert pairs[..1][..0] == [] && pairs[..1][0] == (a, b);
    assert Build(pairs[..1]) == AddEdge(EmptyState(), a, b);
    var st1 := AddEdge(EmptyState(), a, b);
    assert Intern(EmptyState(), a) == GraphState(map[a := 0], [a], []);
    assert st1 == GraphState(map[a := 0, b := 1], [a, b], [Edge(0, 1)]);
    assert pairs[..2][..1] == pairs[..1] && pairs[..2][1] == (b, c);
    assert Build(pairs[..2]) == AddEdge(st1, b, c);
    var st2 := AddEdge(st1, b, c);
    assert st2 == GraphState(map[a := 0, b := 1, c := 2], [a, b, c], [Edge(0, 1), Edge(1, 2)]);
    assert pairs[..2] == pairs[..|pairs| - 1];
    assert Build(pairs) == AddEdge(st2, b, d);
  }

  /** Constructing from the example files succeeds with names `[head, neck, leftShoulder,
      rightShoulder]` and three edges, the last joining ids 1 and 3. */
  lemma ExampleConstruction(rows: seq<Row>)
    ensures var r := Construction(CsvFile("data/good_time_series.csv", true, ExampleHeader(), rows),
                                  TextFile("data/good_joint_graph.csv", true, ExampleLines()));
            && r.Success?
            && r.value.jointNames == ["head", "neck", "leftShoulder", "rightShoulder"]
            && |r.value.graph| == 3 && r.value.graph[2] == Edge(1, 3)
  {
    ExampleTimeSeries(rows);
    ExampleGraph();
  }
}
