/** `load_data`: the two loaders run one after the other and their joint-name lists are
    cross-checked before anything is returned. */
module Util {
  import opened Wrappers
  import opened Text
  import opened Errors
  import opened TimeSeries
  import opened JointGraph

  /** What a successful load yields: the table, the edges and the joint names. */
  datatype Skeleton = Skeleton(table: TimeTable, graph: seq<Edge>, jointNames: seq<string>)

  /** The cross-check of the two name lists: the counts are compared before the names, and
      the names must agree position by position, with no reordering. */
  function CrossCheck(timeNames: seq<string>, graphNames: seq<string>): (r: Result<seq<string>, LoadError>)
    ensures r.Success? <==> timeNames == graphNames
    ensures r.Success? ==> r.value == timeNames
    ensures r == Failure(CountMismatch) <==> |timeNames| != |graphNames|
    ensures r == Failure(NameMismatch) <==>
              |timeNames| == |graphNames| && exists i :: 0 <= i < |timeNames| && timeNames[i] != graphNames[i]
  {
    if |timeNames| != |graphNames| then Failure(CountMismatch)
    else if timeNames != graphNames then
      assert exists i :: 0 <= i < |timeNames| && timeNames[i] != graphNames[i];
      Failure(NameMismatch)
    else Success(timeNames)
  }

  /** Putting the two load outcomes together: the time series is loaded first, so its error
      wins over the graph's; then the graph's error; then the cross-check. */
  function Combine(ts: Result<TimeSeriesData, LoadError>, g: Result<Graph, LoadError>): (r: Result<Skeleton, LoadError>)
    ensures ts.Failure? ==> r == Failure(ts.error)
    ensures ts.Success? && g.Failure? ==> r == Failure(g.error)
    ensures ts.Success? && g.Success? ==>
              (r.Success? <==> ts.value.jointNames == g.value.jointNames)
              && (r.Failure? ==> r == CrossCheck(ts.value.jointNames, g.value.jointNames).PropagateFailure())
    ensures r.Success? ==>
              && ts.Success? && g.Success?
              && r.value == Skeleton(ts.value.table, g.value.edges, ts.value.jointNames)
              && r.value.jointNames == g.value.jointNames
  {
    var t :- ts;
    var gr :- g;
    var names :- CrossCheck(t.jointNames, gr.jointNames);
    Success(Skeleton(t.table, gr.edges, names))
  }

  /** What a successful load promises about the skeleton it returns. */
  ghost predicate ValidSkeleton(s: Skeleton) {
    && SpellsJoints(s.table.columns, s.jointNames)
    && (forall c :: 0 <= c < |s.table.columns| ==> IsTrimmed(s.table.columns[c]))
    && Distinct(s.jointNames)
    && (forall k :: 0 <= k < |s.graph| ==> s.graph[k].src < |s.jointNames| && s.graph[k].dst < |s.jointNames|)
  }

  /** `load_data` on the header and rows of the time-series file and the lines of the graph file. */
  method LoadData(header: seq<string>, rows: seq<Row>, lines: seq<string>) returns (r: Result<Skeleton, LoadError>)
    ensures r == Combine(ParseTimeSeries(header, rows), ParseJointGraph(lines))
  {
    var ts := LoadTimeSeries(header, rows);
    if ts.Failure? {
      return Failure(ts.error);
    }
    var g := LoadJointGraph(lines);
    if g.Failure? {
      return Failure(g.error);
    }
    var jointNamesTime, jointNamesGraph := ts.value.jointNames, g.value.jointNames;
    if |jointNamesTime| != |jointNamesGraph| {
      return Failure(CountMismatch);
    }
    if jointNamesTime != jointNamesGraph {
      return Failure(NameMismatch);
    }
    return Success(Skeleton(ts.value.table, g.value.edges, jointNamesTime));
  }

  /** Everything a successful load promises: the stripped columns spell the joint names,
      every graph line became one edge between ids of its two tokens, and the names are
      distinct and the graph's names in first-seen order. */
  lemma LoadedSkeletonValid(header: seq<string>, rows: seq<Row>, lines: seq<string>)
    requires Combine(ParseTimeSeries(header, rows), ParseJointGraph(lines)).Success?
    ensures var s := Combine(ParseTimeSeries(header, rows), ParseJointGraph(lines)).value;
            && ValidSkeleton(s)
            && s.table == TimeTable(StripColumns(header), rows)
            && s.jointNames == ParseJointGraph(lines).value.jointNames
            && |s.graph| == |lines|
            && (forall k :: 0 <= k < |lines| ==>
                  ParseEdgeLine(lines[k]) == Some((s.jointNames[s.graph[k].src], s.jointNames[s.graph[k].dst])))
  {
    ParseJointGraphBuilds(lines);
    StrippedColumnsTrimmed(header);
    ParseColumnsSpells(StripColumns(header));
  }
}
