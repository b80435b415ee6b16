/** The joint-graph parser (`load_joint_graph`): every line names one edge as two word
    tokens separated by whitespace; joints get integer ids in the order they are first seen. */
module JointGraph {
  import opened Wrappers
  import opened Text
  import opened Errors

  /** One edge of the skeleton, as the pair of joint ids `(id1, id2)`. */
  datatype Edge = Edge(src: nat, dst: nat)

  /** What a successful load returns: the edges in line order and the joint names by id. */
  datatype Graph = Graph(edges: seq<Edge>, jointNames: seq<string>)

  /** The loop state: the name-to-id dictionary, the names by id and the edges so far. */
  datatype GraphState = GraphState(ids: map<string, nat>, names: seq<string>, edges: seq<Edge>)

  // ---------------------------------------------------------------------------
  // The line pattern ^(\w+)\s+(\w+)$ under re.search without MULTILINE

  ghost predicate WordToken(s: string) {
    |s| > 0 && forall m :: 0 <= m < |s| ==> IsWordChar(s[m])
  }

  ghost predicate Separator(s: string) {
    |s| > 0 && forall m :: 0 <= m < |s| ==> IsSpace(s[m])
  }

  /** What `$` accepts after the second token: the end of the string, or one final newline. */
  predicate LineEnd(s: string) {
    s == [] || s == "\n"
  }

  /** The meaning of the pattern: the line is token `a`, a run of whitespace, token `b`,
      and at most one final newline. */
  ghost predicate IsEdgeLine(line: string, a: string, b: string) {
    exists sep: string, tail: string ::
      line == a + sep + b + tail && WordToken(a) && Separator(sep) && WordToken(b) && LineEnd(tail)
  }

  /** `re.search(r"^(\w+)\s+(\w+)$", line)` and its two groups: the greedy runs of word,
      whitespace and word characters from the start, followed by the end or a final newline. */
  function ParseEdgeLine(line: string): Option<(string, string)> {
    var i := RunEnd(line, 0, Word);
    var j := RunEnd(line, i, Space);
    var k := RunEnd(line, j, Word);
    if 0 < i < j < k && LineEnd(line[k..]) then Some((line[..i], line[j..k])) else None
  }

  /** Every line the parser accepts has the shape the pattern describes, with the groups it returns. */
  lemma AcceptedLineMatches(line: string)
    requires ParseEdgeLine(line).Some?
    ensures IsEdgeLine(line, ParseEdgeLine(line).value.0, ParseEdgeLine(line).value.1)
  {
    var i := RunEnd(line, 0, Word);
    var j := RunEnd(line, i, Space);
    var k := RunEnd(line, j, Word);
    RunEndSpan(line, 0, Word);
    RunEndSpan(line, i, Space);
    RunEndSpan(line, j, Word);
    ConcatSlices(line, i, j, k);
    var a, sep, b := line[..i], line[i..j], line[j..k];
    assert WordToken(a) && Separator(sep) && WordToken(b);
  }

  /** Cutting a string at three positions and joining the pieces gives it back. */
  lemma ConcatSlices(s: string, i: nat, j: nat, k: nat)
    requires i <= j <= k <= |s|
    ensures s == s[..i] + s[i..j] + s[j..k] + s[k..]
  {
    assert s[..j] == s[..i] + s[i..j];
    assert s[..k] == s[..j] + s[j..k];
    assert s == s[..k] + s[k..];
  }

  /** Every line of the pattern's shape is accepted, and the groups are its two tokens:
      the decomposition is unique because word and whitespace characters are disjoint. */
  lemma MatchingLineAccepted(line: string, a: string, sep: string, b: string, tail: string)
    requires line == a + sep + b + tail
    requires WordToken(a) && Separator(sep) && WordToken(b) && LineEnd(tail)
    ensures ParseEdgeLine(line) == Some((a, b))
  {
    var i, j, k := |a|, |a| + |sep|, |a| + |sep| + |b|;
    SlicesOfConcat(a, sep, b, tail);
    forall m | 0 <= m < i ensures InClass(line[m], Word) {
      assert line[m] == line[..i][m];
    }
    assert line[i] == sep[0];
    RunEndAt(line, 0, i, Word);
    forall m | i <= m < j ensures InClass(line[m], Space) {
      assert line[m] == line[i..j][m - i];
    }
    assert line[j] == b[0];
    RunEndAt(line, i, j, Space);
    forall m | j <= m < k ensures InClass(line[m], Word) {
      assert line[m] == line[j..k][m - j];
    }
    if k < |line| {
      assert line[k] == tail[0];
    }
    RunEndAt(line, j, k, Word);
  }

  /** The pieces of a line joined from four parts are those parts again. */
  lemma SlicesOfConcat(a: string, sep: string, b: string, tail: string)
    ensures var line, i, j, k := a + sep + b + tail, |a|, |a| + |sep|, |a| + |sep| + |b|;
            line[..i] == a && line[i..j] == sep && line[j..k] == b && line[k..] == tail
  {
    var line, i, j, k := a + sep + b + tail, |a|, |a| + |sep|, |a| + |sep| + |b|;
    assert line == ((a + sep) + b) + tail;
    assert line[..k] == (a + sep) + b && line[k..] == tail;
    assert line[..j] == a + sep && line[j..k] == b;
    assert line[..i] == a && line[i..j] == sep;
  }

  /** The parser accepts a line with groups `a` and `b` exactly when the line has the shape
      the pattern describes with those two tokens. */
  lemma ParseEdgeLineMeansPattern(line: string, a: string, b: string)
    ensures ParseEdgeLine(line) == Some((a, b)) <==> IsEdgeLine(line, a, b)
  {
    if ParseEdgeLine(line) == Some((a, b)) {
      AcceptedLineMatches(line);
    }
    if IsEdgeLine(line, a, b) {
      var sep, tail :| line == a + sep + b + tail && WordToken(a) && Separator(sep) && WordToken(b) && LineEnd(tail);
      MatchingLineAccepted(line, a, sep, b, tail);
    }
  }

  // ---------------------------------------------------------------------------
  // Id assignment and edge building

  /** The state before the first line: no names, no ids, no edges. */
  function EmptyState(): GraphState {
    GraphState(map[], [], [])
  }

  /** Looking a name up, giving it the next id (the count of names so far) if it is new.
      Ids already given never change. */
  function Intern(st: GraphState, name: string): (r: GraphState)
    ensures name in r.ids && r.edges == st.edges
    ensures forall x :: x in st.ids ==> x in r.ids && r.ids[x] == st.ids[x]
  {
    if name in st.ids then st
    else GraphState(st.ids[name := |st.names|], st.names + [name], st.edges)
  }

  /** One accepted line: intern the left token, then the right one, then append the edge. */
  function AddEdge(st: GraphState, a: string, b: string): (r: GraphState)
    ensures a in r.ids && b in r.ids
  {
    var s1 := Intern(st, a);
    var s2 := Intern(s1, b);
    s2.(edges := s2.edges + [Edge(s2.ids[a], s2.ids[b])])
  }

  /** The loop of `load_joint_graph` as a function of the lines read so far: the first line
      that does not match stops the load with that line in the error. */
  function ScanLines(lines: seq<string>): Result<GraphState, LoadError>
    decreases |lines|
  {
    if lines == [] then Success(EmptyState())
    else
      var st :- ScanLines(lines[..|lines| - 1]);
      var line := lines[|lines| - 1];
      match ParseEdgeLine(line)
      case None => Failure(MalformedEdgeLine(line))
      case Some((a, b)) => Success(AddEdge(st, a, b))
  }

  /** The result of `load_joint_graph` on the lines of a file. */
  function ParseJointGraph(lines: seq<string>): Result<Graph, LoadError> {
    var st :- ScanLines(lines);
    Success(Graph(st.edges, st.names))
  }

  /** The dictionary and the name list are inverse to each other, and every edge refers to
      known ids: the invariant the loop of `load_joint_graph` keeps. */
  ghost predicate Indexed(st: GraphState) {
    && (forall i :: 0 <= i < |st.names| ==> st.names[i] in st.ids && st.ids[st.names[i]] == i)
    && (forall x :: x in st.ids ==> st.ids[x] < |st.names| && st.names[st.ids[x]] == x)
    && (forall k :: 0 <= k < |st.edges| ==> st.edges[k].src < |st.names| && st.edges[k].dst < |st.names|)
  }

  /** No name occurs twice. */
  ghost predicate Distinct(names: seq<string>) {
    forall i, j :: 0 <= i < j < |names| ==> names[i] != names[j]
  }

  lemma InternIndexed(st: GraphState, name: string)
    requires Indexed(st)
    ensures Indexed(Intern(st, name))
    ensures Intern(st, name).names == if name in st.names then st.names else st.names + [name]
    ensures Intern(st, name).names[Intern(st, name).ids[name]] == name
  {
    if name !in st.ids {
      assert name !in st.names;
    } else {
      assert name in st.names;
    }
  }

  /** Adding an edge keeps the invariant, appends the new names in first-seen order (left token
      first) and appends one edge whose ids name the two tokens. */
  lemma AddEdgeIndexed(st: GraphState, a: string, b: string)
    requires Indexed(st)
    ensures Indexed(AddEdge(st, a, b))
    ensures var s1 := if a in st.names then st.names else st.names + [a];
            AddEdge(st, a, b).names == if b in s1 then s1 else s1 + [b]
    ensures var r := AddEdge(st, a, b);
            |r.edges| == |st.edges| + 1 && r.edges[..|st.edges|] == st.edges
            && r.names[r.edges[|st.edges|].src] == a && r.names[r.edges[|st.edges|].dst] == b
  {
    InternIndexed(st, a);
    var s1 := Intern(st, a);
    InternIndexed(s1, b);
    var s2 := Intern(s1, b);
    assert s2.names[s2.ids[a]] == a;
  }

  /** The graph built from token pairs that all matched: `AddEdge` applied line by line. */
  function Build(pairs: seq<(string, string)>): GraphState
    decreases |pairs|
  {
    if pairs == [] then EmptyState()
    else
      var (a, b) := pairs[|pairs| - 1];
      AddEdge(Build(pairs[..|pairs| - 1]), a, b)
  }

  /** The token pairs of lines that all match the pattern. */
  function LinePairs(lines: seq<string>): (pairs: seq<(string, string)>)
    requires forall k :: 0 <= k < |lines| ==> ParseEdgeLine(lines[k]).Some?
    ensures |pairs| == |lines|
    ensures forall k :: 0 <= k < |lines| ==> ParseEdgeLine(lines[k]) == Some(pairs[k])
  {
    seq(|lines|, k requires 0 <= k < |lines| => ParseEdgeLine(lines[k]).value)
  }

  /** Adding an edge leaves every earlier edge, and the names its ids stand for, as they were. */
  lemma AddEdgeKeepsEdge(st: GraphState, a: string, b: string, k: nat)
    requires Indexed(st) && k < |st.edges|
    ensures var r := AddEdge(st, a, b);
            && k < |r.edges| && r.edges[k] == st.edges[k]
            && r.names[st.edges[k].src] == st.names[st.edges[k].src]
            && r.names[st.edges[k].dst] == st.names[st.edges[k].dst]
  {
    AddEdgeIndexed(st, a, b);
    var r := AddEdge(st, a, b);
    assert r.edges[..|st.edges|][k] == st.edges[k];
    var e := st.edges[k];
    assert r.names[..|st.names|][e.src] == st.names[e.src];
    assert r.names[..|st.names|][e.dst] == st.names[e.dst];
  }

  /** A failure on the first `i` lines is the failure of the whole file: later lines are
      never looked at. */
  lemma {:induction false} ScanStopsAtFailure(lines: seq<string>, i: nat)
    requires i <= |lines| && ScanLines(lines[..i]).Failure?
    ensures ScanLines(lines) == ScanLines(lines[..i])
    decreases |lines| - i
  {
    if i < |lines| {
      var next := lines[..i + 1];
      assert next[..|next| - 1] == lines[..i];
      ScanStopsAtFailure(lines, i + 1);
    } else {
      assert lines[..i] == lines;
    }
  }

  /** Every line of an accepted file matches the pattern. */
  lemma {:induction false} ScanSuccessMatches(lines: seq<string>)
    requires ScanLines(lines).Success?
    ensures forall k :: 0 <= k < |lines| ==> ParseEdgeLine(lines[k]).Some?
    decreases |lines|
  {
    if lines != [] {
      var n := |lines| - 1;
      var prefix := lines[..n];
      ScanLinesStep(lines, n);
      assert ScanLines(prefix).Success? && ParseEdgeLine(lines[n]).Some?;
      ScanSuccessMatches(prefix);
      forall k | 0 <= k < |lines| ensures ParseEdgeLine(lines[k]).Some? {
        if k < n {
          assert prefix[k] == lines[k];
        } else {
          assert k == n;
        }
      }
    }
  }

  /** A rejected file is rejected at its first line that does not match, and the error
      carries that line. */
  lemma {:induction false} ScanFailureReportsFirst(lines: seq<string>)
    requires ScanLines(lines).Failure?
    ensures exists k :: 0 <= k < |lines| && ParseEdgeLine(lines[k]).None?
              && (forall j :: 0 <= j < k ==> ParseEdgeLine(lines[j]).Some?)
              && ScanLines(lines).error == MalformedEdgeLine(lines[k])
    decreases |lines|
  {
    var n := |lines| - 1;
    var prefix := lines[..n];
    ScanLinesStep(lines, n);
    assert forall k :: 0 <= k < n ==> prefix[k] == lines[k];
    if ScanLines(prefix).Failure? {
      ScanFailureReportsFirst(prefix);
      var k :| 0 <= k < n && ParseEdgeLine(prefix[k]).None?
               && (forall j :: 0 <= j < k ==> ParseEdgeLine(prefix[j]).Some?)
               && ScanLines(prefix).error == MalformedEdgeLine(prefix[k]);
      assert ParseEdgeLine(lines[k]).None?;
    } else {
      ScanSuccessMatches(prefix);
      assert forall j :: 0 <= j < n ==> ParseEdgeLine(lines[j]).Some?;
    }
  }

  /** The scan accepts the file exactly when every line matches; otherwise it reports the
      first line that does not match. */
  lemma ScanLinesAccepts(lines: seq<string>)
    ensures ScanLines(lines).Success? <==> forall k :: 0 <= k < |lines| ==> ParseEdgeLine(lines[k]).Some?
    ensures ScanLines(lines).Failure? ==>
              exists k :: 0 <= k < |lines| && ParseEdgeLine(lines[k]).None?
                && (forall j :: 0 <= j < k ==> ParseEdgeLine(lines[j]).Some?)
                && ScanLines(lines).error == MalformedEdgeLine(lines[k])
  {
    if ScanLines(lines).Success? {
      ScanSuccessMatches(lines);
    } else {
      ScanFailureReportsFirst(lines);
    }
  }

  /** One more line: an earlier failure stands, a line that does not match fails with that
      line, and a matching line adds its edge to the state the earlier lines built. */
  lemma ScanLinesStep(lines: seq<string>, n: nat)
    requires n + 1 == |lines|
    ensures ScanLines(lines[..n]).Failure? ==> ScanLines(lines) == ScanLines(lines[..n])
    ensures ScanLines(lines[..n]).Success? && ParseEdgeLine(lines[n]).None? ==>
              ScanLines(lines) == Failure(MalformedEdgeLine(lines[n]))
    ensures ScanLines(lines[..n]).Success? && ParseEdgeLine(lines[n]).Some? ==>
              ScanLines(lines) == Success(AddEdge(ScanLines(lines[..n]).value,
                                                  ParseEdgeLine(lines[n]).value.0, ParseEdgeLine(lines[n]).value.1))
  {
  }

  /** Building from one more pair adds that pair's edge. */
  lemma BuildStep(pairs: seq<(string, string)>, n: nat)
    requires n + 1 == |pairs|
    ensures Build(pairs) == AddEdge(Build(pairs[..n]), pairs[n].0, pairs[n].1)
  {
  }

  /** An accepted file builds the graph of its lines' token pairs. */
  lemma {:induction false} ScanLinesBuilds(lines: seq<string>, pairs: seq<(string, string)>)
    requires |pairs| == |lines|
    requires forall k :: 0 <= k < |lines| ==> ParseEdgeLine(lines[k]) == Some(pairs[k])
    ensures ScanLines(lines) == Success(Build(pairs))
    decreases |lines|
  {
    if lines != [] {
      var n := |lines| - 1;
      var prefix, init := lines[..n], pairs[..n];
      assert forall k :: 0 <= k < n ==> prefix[k] == lines[k] && init[k] == pairs[k];
      ScanLinesBuilds(prefix, init);
      assert ParseEdgeLine(lines[n]) == Some(pairs[n]);
      ScanLinesStep(lines, n);
      BuildStep(pairs, n);
    }
  }

  /** The names after adding an edge: the left token, then the right one, each appended
      if it is new. */
  lemma AddEdgeNames(st: GraphState, a: string, b: string)
    requires Indexed(st)
    ensures var s1 := if a in st.names then st.names else st.names + [a];
            AddEdge(st, a, b).names == if b in s1 then s1 else s1 + [b]
  {
    InternIndexed(st, a);
    InternIndexed(Intern(st, a), b);
  }

  /** Building keeps the dictionary and the name list inverse to each other, so the names
      are distinct and every edge's ids are below the number of names. */
  lemma {:induction false} BuildIndexed(pairs: seq<(string, string)>)
    ensures Indexed(Build(pairs))
    ensures Distinct(Build(pairs).names)
    decreases |pairs|
  {
    if pairs != [] {
      var (a, b) := pairs[|pairs| - 1];
      BuildIndexed(pairs[..|pairs| - 1]);
      AddEdgeIndexed(Build(pairs[..|pairs| - 1]), a, b);
    }
    var r := Build(pairs);
    forall i, j | 0 <= i < j < |r.names| ensures r.names[i] != r.names[j] {
      assert r.ids[r.names[i]] == i && r.ids[r.names[j]] == j;
    }
  }

  /** One edge per pair, in order, duplicates kept: edge `k` joins the ids of pair `k`'s
      first and second names. */
  lemma {:induction false} BuildEdges(pairs: seq<(string, string)>)
    ensures Indexed(Build(pairs))
    ensures var st := Build(pairs);
            && |st.edges| == |pairs|
            && forall k :: 0 <= k < |pairs| ==> (st.names[st.edges[k].src], st.names[st.edges[k].dst]) == pairs[k]
    decreases |pairs|
  {
    BuildIndexed(pairs);
    if pairs != [] {
      var prefix := pairs[..|pairs| - 1];
      BuildEdges(prefix);
      var st := Build(prefix);
      var (a, b) := pairs[|pairs| - 1];
      AddEdgeIndexed(st, a, b);
      var r := Build(pairs);
      forall k | 0 <= k < |pairs|
        ensures (r.names[r.edges[k].src], r.names[r.edges[k].dst]) == pairs[k]
      {
        if k == |prefix| {
          assert k == |st.edges| && pairs[k] == (a, b);
        } else {
          assert pairs[k] == prefix[k];
          AddEdgeKeepsEdge(st, a, b, k);
        }
      }
    }
  }

  // ---------------------------------------------------------------------------
  // First-seen order of the names

  /** The position where `x` first occurs in `s`. */
  function IndexOf(s: seq<string>, x: string): (k: nat)
    requires x in s
    ensures k < |s| && s[k] == x && x !in s[..k]
    decreases |s|
  {
    var init := s[..|s| - 1];
    if x in init then
      var k := IndexOf(init, x);
      assert s[..k] == init[..k];
      k
    else |s| - 1
  }

  /** The distinct elements of `s` in the order of their first occurrence: the reference
      definition the dictionary-and-counter bookkeeping of `load_joint_graph` is compared to. */
  function FirstOccurrences(s: seq<string>): (r: seq<string>)
    ensures forall x :: x in r <==> x in s
    ensures Distinct(r)
    decreases |s|
  {
    if s == [] then []
    else
      var p := FirstOccurrences(s[..|s| - 1]);
      if s[|s| - 1] in p then p else p + [s[|s| - 1]]
  }

  /** The elements of `FirstOccurrences(s)` appear in the order in which they first occur in `s`. */
  lemma {:induction false} FirstOccurrencesOrdered(s: seq<string>)
    ensures forall i, j :: 0 <= i < j < |FirstOccurrences(s)| ==>
              IndexOf(s, FirstOccurrences(s)[i]) < IndexOf(s, FirstOccurrences(s)[j])
    decreases |s|
  {
    if s != [] {
      var init := s[..|s| - 1];
      FirstOccurrencesOrdered(init);
      forall x | x in init ensures IndexOf(s, x) == IndexOf(init, x) {
        assert x in s[..|s| - 1];
      }
      var p, r := FirstOccurrences(init), FirstOccurrences(s);
      var last := s[|s| - 1];
      assert r == if last in p then p else p + [last];
      forall i, j | 0 <= i < j < |r| ensures IndexOf(s, r[i]) < IndexOf(s, r[j]) {
        assert r[i] == p[i] && p[i] in init;
        assert IndexOf(s, r[i]) == IndexOf(init, p[i]);
        if j < |p| {
          assert r[j] == p[j] && p[j] in init;
          assert IndexOf(s, r[j]) == IndexOf(init, p[j]);
          assert IndexOf(init, p[i]) < IndexOf(init, p[j]);
        } else {
          assert r[j] == last && last !in init;
          assert IndexOf(s, last) == |s| - 1;
          assert IndexOf(init, p[i]) < |init|;
        }
      }
    }
  }

  /** The tokens of the accepted lines in reading order, left token before right. */
  function Tokens(pairs: seq<(string, string)>): (t: seq<string>)
    ensures |t| == 2 * |pairs|
    ensures forall k :: 0 <= k < |pairs| ==> t[2 * k] == pairs[k].0 && t[2 * k + 1] == pairs[k].1
    decreases |pairs|
  {
    if pairs == [] then []
    else Tokens(pairs[..|pairs| - 1]) + [pairs[|pairs| - 1].0, pairs[|pairs| - 1].1]
  }

  /** Taking first occurrences one more element at a time: a new element is appended, a
      known one changes nothing. */
  lemma FirstOccurrencesPush(t: seq<string>, x: string)
    ensures FirstOccurrences(t + [x]) ==
            if x in t then FirstOccurrences(t) else FirstOccurrences(t) + [x]
  {
    assert (t + [x])[..|t|] == t;
  }

  /** The names the loop collects are the tokens of the file in first-seen order. */
  lemma {:induction false} BuildNames(pairs: seq<(string, string)>)
    ensures Build(pairs).names == FirstOccurrences(Tokens(pairs))
    decreases |pairs|
  {
    if pairs != [] {
      var prefix := pairs[..|pairs| - 1];
      var (a, b) := pairs[|pairs| - 1];
      BuildNames(prefix);
      BuildIndexed(prefix);
      var t := Tokens(prefix);
      assert Tokens(pairs) == (t + [a]) + [b];
      AddEdgeFirstOccurrences(Build(prefix), t, a, b);
    }
  }

  /** One line's step of `BuildNames`: if the names so far are the first occurrences of the
      tokens so far, they still are after the line's two tokens. */
  lemma AddEdgeFirstOccurrences(st: GraphState, t: seq<string>, a: string, b: string)
    requires Indexed(st) && st.names == FirstOccurrences(t)
    ensures AddEdge(st, a, b).names == FirstOccurrences((t + [a]) + [b])
  {
    AddEdgeNames(st, a, b);
    FirstOccurrencesPush(t, a);
    FirstOccurrencesPush(t + [a], b);
  }

  // ---------------------------------------------------------------------------
  // The loader

  /** `load_joint_graph` on the lines of the file: the dictionary, the edge list, the name
      list and the counter are updated line by line, and the first malformed line stops it. */
  method LoadJointGraph(lines: seq<string>) returns (r: Result<Graph, LoadError>)
    ensures r == ParseJointGraph(lines)
  {
    var jointDict: map<string, nat> := map[];
    var jointGraph: seq<Edge> := [];
    var jointNames: seq<string> := [];
    var n: nat := 0;
    for i := 0 to |lines|
      invariant ScanLines(lines[..i]) == Success(GraphState(jointDict, jointNames, jointGraph))
      invariant n == |jointNames|
    {
      var line := lines[i];
      assert lines[..i + 1][..i] == lines[..i];
      var m := ParseEdgeLine(line);
      if m.None? {
        ScanStopsAtFailure(lines, i + 1);
        return Failure(MalformedEdgeLine(line));
      }
      var (joint1, joint2) := m.value;
      if joint1 !in jointDict {
        jointDict := jointDict[joint1 := n];
        n := n + 1;
        jointNames := jointNames + [joint1];
      }
      var joint1Id := jointDict[joint1];
      if joint2 !in jointDict {
        jointDict := jointDict[joint2 := n];
        n := n + 1;
        jointNames := jointNames + [joint2];
      }
      var joint2Id := jointDict[joint2];
      jointGraph := jointGraph + [Edge(joint1Id, joint2Id)];
    }
    assert lines[..|lines|] == lines;
    return Success(Graph(jointGraph, jointNames));
  }

  /** A graph file is accepted exactly when every line matches the pattern; otherwise the
      error names the first line that does not. */
  lemma ParseJointGraphAccepts(lines: seq<string>)
    ensures ParseJointGraph(lines).Success? <==> forall k :: 0 <= k < |lines| ==> ParseEdgeLine(lines[k]).Some?
    ensures ParseJointGraph(lines).Failure? ==>
              exists k :: 0 <= k < |lines| && ParseEdgeLine(lines[k]).None?
                && (forall j :: 0 <= j < k ==> ParseEdgeLine(lines[j]).Some?)
                && ParseJointGraph(lines).error == MalformedEdgeLine(lines[k])
  {
    ScanLinesAccepts(lines);
  }

  /** What an accepted graph file yields: one edge per line in line order (duplicates kept),
      edge `k` joining the ids of line `k`'s two tokens, all ids below the number of names,
      and the names distinct, in first-seen order. */
  lemma ParseJointGraphBuilds(lines: seq<string>)
    requires ParseJointGraph(lines).Success?
    ensures forall k :: 0 <= k < |lines| ==> ParseEdgeLine(lines[k]).Some?
    ensures var g := ParseJointGraph(lines).value;
            && |g.edges| == |lines|
            && Distinct(g.jointNames)
            && g.jointNames == FirstOccurrences(Tokens(LinePairs(lines)))
            && (forall k :: 0 <= k < |g.edges| ==> g.edges[k].src < |g.jointNames| && g.edges[k].dst < |g.jointNames|)
            && (forall k :: 0 <= k < |lines| ==>
                  ParseEdgeLine(lines[k]) == Some((g.jointNames[g.edges[k].src], g.jointNames[g.edges[k].dst])))
  {
    ScanLinesAccepts(lines);
    var pairs := LinePairs(lines);
    ScanLinesBuilds(lines, pairs);
    var st := Build(pairs);
    assert ParseJointGraph(lines).value == Graph(st.edges, st.names);
    BuildIndexed(pairs);
    BuildEdges(pairs);
    BuildNames(pairs);
    forall k | 0 <= k < |lines|
      ensures ParseEdgeLine(lines[k]) == Some((st.names[st.edges[k].src], st.names[st.edges[k].dst]))
    {
      assert ParseEdgeLine(lines[k]) == Some(pairs[k]);
    }
  }

  /** Two lines the pattern accepts: tokens separated by a blank, or by a tab with one final newline. */
  lemma BlankSeparatedAccepted()
    ensures ParseEdgeLine("head neck") == Some(("head", "neck"))
  {
    MatchingLineAccepted("head neck", "head", " ", "neck", "");
  }

  lemma FinalNewlineAccepted()
    ensures ParseEdgeLine("neck\tleftShoulder\n") == Some(("neck", "leftShoulder"))
  {
    var a, b := "neck", "leftShoulder";
    assert WordToken(a) by { assert forall m :: 0 <= m < |a| ==> IsWordChar(a[m]); }
    assert WordToken(b) by { assert forall m :: 0 <= m < |b| ==> IsWordChar(b[m]); }
    MatchingLineAccepted("neck\tleftShoulder\n", a, "\t", b, "\n");
  }

  lemma TrailingBlankRejected()
    ensures ParseEdgeLine("a b \n").None?
  {
  }

  lemma CarriageReturnRejected()
    ensures ParseEdgeLine("a b\r\n").None?
  {
  }

  lemma BlankLineRejected()
    ensures ParseEdgeLine("\n").None?
  {
  }

  lemma ThirdTokenRejected()
    ensures ParseEdgeLine("a b c").None?
  {
  }
}
