# motionrender: the loaders, the cross-check and the frame assembly

motionrender loads a 3D motion-capture recording from two files and renders the moving
skeleton. The first file is a CSV time series. Its header is a timestamp column followed by
three columns per joint, named after the joint with an `X`, `Y` or `Z` suffix. The second
file is a joint graph with one edge per line, written as two joint names separated by
whitespace. This project models the part of the package that is logic rather than plotting:

- `load_time_series` derives the joint names from the header;
- `load_joint_graph` parses the edge lines and assigns joint ids in first-seen order;
- `load_data` and the `MotionRender` constructor cross-check the two name lists;
- `joint_symbol_lists` expands names into column names, and `create_joint_frame` assembles
  the figure elements of one frame.

Modules, one per concern:

- `Wrappers`: `Option` and `Result` with early return (`:-`).
- `Errors`: `LoadError`, one variant per kind of error, carrying what its message reports.
- `Text`: Python's `str.isspace()` set, the ASCII word class, `strip()`, the slice `s[:-1]`,
  and the greedy character-class runs that a regular expression of `\w+` and `\s+` takes.
- `TimeSeries`: the header parser as the function `ParseColumns`, and the joint loop as the
  method `ParseHeader`, proved equal to it.
- `JointGraph`: the line pattern `^(\w+)\s+(\w+)$` as `ParseEdgeLine`, proved equal to its
  regular-expression meaning. It also holds the line loop as the function `ScanLines` and the
  imperative `LoadJointGraph`, which updates a dictionary, two lists and a counter and is
  proved equal to it, plus the invariants and ordering facts about ids, names and edges.
- `Util`: `load_data` and its cross-check.
- `Plot`: the column-name expansion, the round trip of those names through the header parser,
  and `create_joint_frame` as a loop that appends figure elements.
- `MotionRender`: the class, its file-existence checks, its construction outcome, and the
  four-joint example the tests use.

The data values of the time series are kept as opaque rows. A frame's positions are a map
from column label to a value of an arbitrary type `V`.

Three facts about the code shape the model:

- Edges are an ordered list of directed `(id1, id2)` pairs; duplicates are kept.
- A blank line in the graph file is an error.
- A joint's name comes from stripping the column, dropping its last character, and stripping
  again. The axis letter is dropped whatever it is and never checked.

## Model

| member | source | states |
|---|---|---|
| Text.RunEndSpan | motionrender/util.py:130-132 | the greedy run a `\w+` or `\s+` takes from a position is maximal: every character in it is of the class and the next one is not |
| Text.RunEndAt | motionrender/util.py:130-132 | a run of the class that stops at `e` is exactly where the greedy match ends, so the match is unique |
| Text.TrimStartDropsLeadingSpace | motionrender/util.py:73 | `lstrip()` removes exactly the longest all-whitespace prefix and leaves a suffix that does not start with whitespace |
| Text.TrimEndDropsTrailingSpace | motionrender/util.py:73 | `rstrip()` removes exactly the longest all-whitespace suffix and leaves a prefix that does not end with whitespace |
| Text.TrimKeepsMiddle | motionrender/util.py:73 | `strip()` keeps a contiguous piece of its input with no whitespace at either end, and everything it drops is whitespace |
| Text.TrimFixedPoint | motionrender/util.py:73 | `strip()` leaves a string unchanged exactly when the string has no whitespace at either end |
| Text.TrimIdempotent | motionrender/__init__.py:75 | stripping twice is stripping once |
| Text.TrimStartAppend | motionrender/util.py:86 | a non-whitespace last character survives `lstrip()` unchanged |
| Text.TrimAxisSuffix | motionrender/util.py:86-88 | strip, drop the last character, strip again applied to `name + axis` gives the stripped name |
| Text.LeadingBlankStripped | motionrender/util.py:73 | a single blank in front of a stripped string is all that `strip()` removes |
| TimeSeries.JointCount | motionrender/util.py:76-79 | the joint count `N` satisfies `1 + 3N ==` the column count |
| TimeSeries.FirstInconsistent | motionrender/util.py:83-91 | the joint loop stops at the first joint whose three names disagree: every joint before it agrees and it does not, or it is the joint count |
| TimeSeries.ParseColumnsSchema | motionrender/util.py:76-78 | the schema error is reported exactly when the column count minus one is not a multiple of three |
| TimeSeries.ParseColumnsAccepts | motionrender/util.py:90-91 | with a valid column count the header is accepted if and only if every joint's three derived names agree |
| TimeSeries.ParseColumnsSpells | motionrender/util.py:79-94 | on success there are `(count - 1) / 3` names and name `n` is what each of columns `3n+1`, `3n+2`, `3n+3` gives once chopped and stripped |
| TimeSeries.ParseColumnsErrors | motionrender/util.py:77-91 | the header parser fails only with the schema error or a joint-name error |
| TimeSeries.ConsistentJointsSpell | motionrender/util.py:86-94 | when every joint agrees, the X-column names also equal the Y- and Z-column names |
| TimeSeries.FirstInconsistentAt | motionrender/util.py:83-91 | the loop stops at `k` whenever all joints before `k` agree and `k` is the end or disagrees |
| TimeSeries.RejectsAt | motionrender/util.py:90-91 | the first disagreeing joint is the one reported, with its three derived names |
| TimeSeries.AcceptsConsistent | motionrender/util.py:94-96 | when every joint agrees the result is the list of X-column names |
| TimeSeries.StrippedColumnsTrimmed | motionrender/util.py:73 | every stored column name has no whitespace at either end |
| TimeSeries.StripColumnsIdempotent | motionrender/__init__.py:75 | stripping the stored columns again changes nothing |
| TimeSeries.StripTrimmedColumns | motionrender/__init__.py:75 | stripping columns that are already stripped leaves them as they are |
| TimeSeries.ParseHeader | motionrender/util.py:76-96 | the joint loop, with its appended list, returns exactly the header parser's result: the schema error, the first mismatching triple, or all names |
| TimeSeries.LoadTimeSeries | motionrender/util.py:72-96 | the loader strips the columns, runs the joint loop and keeps the rows, with the result `ParseTimeSeries` defines |
| JointGraph.AcceptedLineMatches | motionrender/util.py:130-138 | an accepted line is a word token, a run of whitespace, a word token and at most one final newline, and the groups are the two tokens |
| JointGraph.MatchingLineAccepted | motionrender/util.py:130-139 | every line of that shape is accepted, with its two tokens as groups |
| JointGraph.ParseEdgeLineMeansPattern | motionrender/util.py:130-139 | the line parser returns `(a, b)` if and only if the line matches `^(\w+)\s+(\w+)$` with groups `a` and `b` |
| JointGraph.Intern | motionrender/util.py:142-152 | looking a name up adds it if it is new, never changes an id already given, and never touches the edges |
| JointGraph.InternIndexed | motionrender/util.py:142-152 | a lookup keeps the dictionary and name list inverse to each other and appends the name exactly when it is new |
| JointGraph.AddEdgeIndexed | motionrender/util.py:138-155 | one line keeps the invariant, appends new names left token first, and appends one edge whose ids name the two tokens |
| JointGraph.AddEdgeKeepsEdge | motionrender/util.py:155 | a new line leaves earlier edges and the names of their ids unchanged |
| JointGraph.AddEdgeNames | motionrender/util.py:142-152 | the names after one line: the left token, then the right one, each appended if new |
| JointGraph.LinePairs | motionrender/util.py:138-139 | the token pairs of lines that all match, one per line |
| JointGraph.ScanStopsAtFailure | motionrender/util.py:135-136 | a malformed line stops the load and later lines are never looked at |
| JointGraph.ScanSuccessMatches | motionrender/util.py:131-136 | every line of an accepted file matches the pattern |
| JointGraph.ScanFailureReportsFirst | motionrender/util.py:131-136 | a rejected file is rejected at its first non-matching line, and the error carries that line |
| JointGraph.ScanLinesAccepts | motionrender/util.py:131-136 | the line loop succeeds if and only if every line matches, and otherwise reports the first line that does not |
| JointGraph.ScanLinesStep | motionrender/util.py:131-155 | one more line: an earlier failure stands, a bad line fails with that line, and a good line adds its edge |
| JointGraph.ScanLinesBuilds | motionrender/util.py:131-157 | the loop over matching lines builds the graph of their token pairs |
| JointGraph.BuildIndexed | motionrender/util.py:142-152 | `joint_dict[joint_names[i]] == i` throughout, every id names a joint, and the names are distinct |
| JointGraph.BuildEdges | motionrender/util.py:138-155 | one edge per line in line order, duplicates kept, and edge `k` joins the ids of line `k`'s first and second token |
| JointGraph.IndexOf | motionrender/util.py:142-152 | the position of the first occurrence of a name |
| JointGraph.FirstOccurrences | motionrender/util.py:142-152 | the distinct tokens, each once, with the same elements as the input |
| JointGraph.FirstOccurrencesOrdered | motionrender/util.py:142-152 | those distinct tokens are in order of their first occurrence |
| JointGraph.Tokens | motionrender/util.py:138-139 | the tokens in reading order: line `k`'s left token at `2k`, its right token at `2k+1` |
| JointGraph.FirstOccurrencesPush | motionrender/util.py:142-152 | one more token appends it exactly when it is new |
| JointGraph.BuildNames | motionrender/util.py:142-152 | the names the dictionary and counter collect are the file's tokens in first-seen order, left before right |
| JointGraph.AddEdgeFirstOccurrences | motionrender/util.py:142-152 | one line's step keeps the names equal to the first occurrences of the tokens read so far |
| JointGraph.LoadJointGraph | motionrender/util.py:122-157 | the line loop, which updates the dictionary, edge list, name list and counter, returns exactly `ParseJointGraph` |
| JointGraph.ParseJointGraphAccepts | motionrender/util.py:130-136 | a graph file is accepted if and only if every line matches, and otherwise the error names the first line that does not |
| JointGraph.ParseJointGraphBuilds | motionrender/util.py:138-157 | an accepted file gives one edge per line with ids below the name count, names distinct and in first-seen order, and edge `k` naming line `k`'s tokens |
| JointGraph.BlankSeparatedAccepted | motionrender/util.py:130-132 | `head neck` is accepted with groups `head` and `neck` |
| JointGraph.FinalNewlineAccepted | motionrender/util.py:130-132 | a tab separator and one final newline are accepted, as `$` allows |
| JointGraph.TrailingBlankRejected | motionrender/util.py:130-136 | a blank before the final newline is rejected |
| JointGraph.CarriageReturnRejected | motionrender/util.py:130-136 | a line string ending in `\r\n` (which text-mode reading never produces) is rejected |
| JointGraph.BlankLineRejected | motionrender/util.py:130-136 | a blank line is rejected |
| JointGraph.ThirdTokenRejected | motionrender/util.py:130-136 | a line with three tokens is rejected |
| Util.CrossCheck | motionrender/util.py:36-42 | success if and only if the lists are equal, returning the time-series names; the count mismatch if and only if the lengths differ; the name mismatch if and only if the lengths agree and some position differs |
| Util.Combine | motionrender/util.py:33-42 | the time-series error wins over the graph error, which wins over the cross-check; on success the result holds the table, the edges and names equal to both lists |
| Util.LoadData | motionrender/util.py:8-42 | `load_data` returns exactly the combination of the two loaders and the cross-check |
| Util.LoadedSkeletonValid | motionrender/util.py:33-42 | a successful load has stripped columns that spell the joint names, distinct names equal to the graph's, one edge per line, and edge `k` naming line `k`'s tokens |
| Plot.JointSymbolLists | motionrender/plot.py:23-27 | three lists as long as the names, with `x[i] == names[i] + "X"` and likewise for Y and Z |
| Plot.AxisTriples | motionrender/plot.py:23-25 | the X, Y and Z columns of joint `n` sit at positions `3n`, `3n+1`, `3n+2` |
| Plot.SymbolHeader | motionrender/plot.py:23-25 | a timestamp column, then joint `n`'s X, Y and Z column names at `3n+1`, `3n+2`, `3n+3` |
| Plot.SymbolHeaderSymbols | motionrender/plot.py:23-27 | after the timestamp, the symbol header holds joint `n`'s X, Y and Z names exactly as `joint_symbol_lists` returns them |
| Plot.SymbolJointName | motionrender/util.py:86-90 | in such a header joint `n`'s three columns agree on its stripped name |
| Plot.SymbolAxisNames | motionrender/util.py:76-90 | such a header has a valid column count and every joint's three columns agree on its stripped name |
| Plot.TrimAllFixedPoint | motionrender/util.py:86 | stripping all names changes nothing if and only if no name has surrounding whitespace |
| Plot.SymbolHeaderParses | motionrender/plot.py:23-25 | the header built from the names parses back to the stripped names |
| Plot.SymbolHeaderRoundTrip | motionrender/plot.py:23-25 | the header built from the names parses back to exactly those names if and only if no name has surrounding whitespace |
| Plot.Missing | motionrender/plot.py:50-52 | the labels a row lacks are exactly those requested and absent |
| Plot.Select | motionrender/plot.py:50-52 | a lookup by labels succeeds if and only if every label is present, giving the values in label order, and otherwise reports the missing labels |
| Plot.SelectAllPresent | motionrender/plot.py:47-52 | the three lookups succeed if and only if the row has every joint's three columns |
| Plot.Markers | motionrender/plot.py:56 | one marker per joint in joint order, at that joint's looked-up position |
| Plot.CreateJointFrame | motionrender/plot.py:47-66 | success if and only if all columns are present and all edge ids are in range; then `len(names) + len(graph)` elements, markers in joint order followed by one segment per edge from the position at `src` to the one at `dst`; otherwise the first failing lookup or the first out-of-range edge id |
| MotionRender.ReadTimeSeries | motionrender/__init__.py:107-136 | a missing file fails with its path before any parsing, and otherwise the result is the header loader's |
| MotionRender.ReadJointGraph | motionrender/__init__.py:163-202 | a missing file fails with its path before any line is read, and otherwise the result is the graph loader's |
| MotionRender.Construction | motionrender/__init__.py:65-72 | the time-series file is checked and loaded before the graph file, so its error wins; then the cross-check |
| MotionRender.MotionRender.constructor | motionrender/__init__.py:59-75 | given a skeleton a successful load can produce, the fields hold the file paths, the loaded names and edges, and the column names stripped once more, and the object satisfies the class invariant |
| MotionRender.MotionRender.LoadTimeSeries | motionrender/__init__.py:107-136 | `_load_time_series` checks existence, then gives the same result as `load_time_series` |
| MotionRender.MotionRender.LoadJointGraph | motionrender/__init__.py:163-202 | `_load_joint_graph` checks existence, then gives the same result as `load_joint_graph` |
| MotionRender.MotionRender.Create | motionrender/__init__.py:20-75 | construction fails exactly when and with the error that the construction outcome has; otherwise a fresh object holds the paths, the stripped table, edges, and names equal to the graph's, and satisfies the class invariant |
| MotionRender.BlankPrefixedHeader | motionrender/util.py:72-73 | a header whose joint columns each carry the one leading blank a `, ` separator leaves strips to the symbol header |
| MotionRender.BlankColumnStrips | motionrender/util.py:73 | one such joint column strips to its symbol-header column |
| MotionRender.BlankAxisColumn | motionrender/util.py:73 | a blank, a stripped name and an axis letter strip to the name and the letter |
| MotionRender.SymbolColumnsParse | motionrender/util.py:72-96 | a header that strips to the symbol header of stripped names loads with exactly those names and the stripped table |
| MotionRender.ExampleHeaderShape | motionrender/__init__.py:30 | the example header, as the class documentation writes it, is a timestamp column and each joint's three columns with one leading blank; the cell contents of the example CSV file are assumed to be these |
| MotionRender.ExampleNamesTrimmed | tests/test_MotionRender_construction.py:19 | the example timestamp and joint names have no surrounding whitespace |
| MotionRender.ExampleTimeSeries | tests/test_MotionRender_construction.py:15-19 | the example header loads with names `[head, neck, leftShoulder, rightShoulder]` |
| MotionRender.ChainPairs | tests/test_MotionRender_construction.py:25-30 | three matching lines `a b`, `b c`, `b d` scan to the graph built from their token pairs |
| MotionRender.ChainBuild | tests/test_MotionRender_construction.py:25-30 | the pairs `a b`, `b c`, `b d` of distinct names give names `[a, b, c, d]` and edges `(0,1), (1,2), (1,3)` |
| MotionRender.ChainLines | tests/test_MotionRender_construction.py:25-30 | the lines `a b\n`, `b c\n`, `b d\n` load to that graph |
| MotionRender.ExampleGraph | tests/test_MotionRender_construction.py:25-30 | the example graph file loads to edges `(0,1), (1,2), (1,3)` and the four names in first-seen order |
| MotionRender.ExampleConstruction | tests/test_MotionRender_construction.py:36-41 | construction from the example files succeeds with the four names, three edges, and edge 2 equal to `(1, 3)` |

## Left out

- File access. `pd.read_csv`, `open(...).readlines()` and `os.path.exists` are not modelled. A file is given as its path, a boolean for whether it exists, and its content already split: the header cells and rows of a CSV file, or the lines of a text file with their final `\n` kept.
- pandas behaviour. This covers CSV quoting and splitting, the renaming of duplicate column names, numeric conversion of the data, and the frame shape `(4, 13)`. Rows are opaque cell lists.
- Character classes. `\w` is modelled by its ASCII part only (letters, digits, underscore); Python's Unicode word characters beyond ASCII are not. `\s` and `strip()` use Python's full `str.isspace()` set.
- Newline translation. Universal-newline reading would turn `\r\n` into `\n`. Lines are taken as given, so a line ending in `\r\n` is a rejected line.
- Error messages. Their text is not modelled, and neither is the tuple that `motionrender/util.py:91` and `motionrender/__init__.py:131` pass instead of formatting (the format string at `util.py:91` also lacks its closing parenthesis); each error is a `LoadError` variant with the values its message names.
- Raising. `MotionRender.MotionRender.Create` returns the error the constructor would raise, instead of raising it. The class constructor itself only assigns the fields of an object whose loads succeeded.
- MotionRender.MotionRender.LoadTimeSeries, MotionRender.MotionRender.LoadJointGraph: these are `static`. The Python methods take `self` but never use it, and they run the same loops as `util.py`, which they call here instead of repeating.
- Plotting. `plot_joint_frame`, the `ax.plot` calls and all of `motionrender/render.py` (matplotlib figures, axis limits, view angles, titles, animation and video encoding) are library calls. A figure element is the primitive `ax.plot` would be asked to draw.
- Plot.CreateJointFrame: the row is a map from column label to value, and pandas' positional fallback for `x_pos[src]` is not modelled. The method returns an error where pandas would raise, for a missing column or an edge id with no position.
- Rendering methods that the class as given does not define: timestamp lookup, frame and animation rendering, and camera attributes.
- tests/test_util.py expects a joint count `N` in the returned tuples, but the code returns none. The model follows the code.
- setup.py is packaging only.
