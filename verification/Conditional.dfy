/** The Conditional executor: its expression language and the branch label it routes on. */
module Conditional {
  import opened Basics
  import Tables
  import Routing

  /** What one execution comes to: a routed result, an error, or a Go run-time panic. */
  datatype Branching = Routed(output: Json, edgeLabel: string) | Failed | Panicked

  predicate OccursAt(s: string, sep: string, i: int) {
    0 <= i <= |s| - |sep| && s[i..i + |sep|] == sep
  }

  function Find(s: string, sep: string, from: nat): (r: Option<nat>)
    requires from <= |s|
    ensures r.Some? ==> from <= r.value && OccursAt(s, sep, r.value)
    ensures forall j :: from <= j < (if r.Some? then r.value else |s| + 1) ==> !OccursAt(s, sep, j)
    decreases |s| - from
  {
    if OccursAt(s, sep, from) then Some(from) else if from == |s| then None else Find(s, sep, from + 1)
  }

  /** `strings.Split`: cut at the leftmost separator, then go on behind it. */
  function Split(s: string, sep: string): (parts: seq<string>)
    requires sep != ""
    ensures |parts| >= 1
    decreases |s|
  {
    match Find(s, sep, 0)
    case None => [s]
    case Some(i) => [s[..i]] + Split(s[i + |sep|..], sep)
  }

  function Join(parts: seq<string>, sep: string): string {
    if parts == [] then "" else if |parts| == 1 then parts[0] else parts[0] + sep + Join(parts[1..], sep)
  }

  lemma PrefixIsClean(s: string, sep: string, i: nat)
    requires i <= |s| && forall j :: 0 <= j < i ==> !OccursAt(s, sep, j)
    requires sep != ""
    ensures forall j :: !OccursAt(s[..i], sep, j)
  {
    forall j ensures !OccursAt(s[..i], sep, j) {
      if OccursAt(s[..i], sep, j) {
        assert s[..i][j..j + |sep|] == s[j..j + |sep|];
        assert OccursAt(s, sep, j);
      }
    }
  }

  lemma JoinCons(first: string, tail: seq<string>, sep: string)
    requires tail != []
    ensures Join([first] + tail, sep) == first + sep + Join(tail, sep)
  {
    assert ([first] + tail)[1..] == tail;
  }

  /** Splitting loses nothing, leaves no separator inside a part, and cuts at the leftmost one. */
  lemma {:induction false} SplitIsExact(s: string, sep: string)
    requires sep != ""
    ensures Join(Split(s, sep), sep) == s
    ensures forall k, j :: 0 <= k < |Split(s, sep)| ==> !OccursAt(Split(s, sep)[k], sep, j)
    ensures forall j :: 0 <= j < |Split(s, sep)[0]| ==> !OccursAt(s, sep, j)
    decreases |s|
  {
    match Find(s, sep, 0)
    case None =>
    case Some(i) =>
      var tail := Split(s[i + |sep|..], sep);
      SplitIsExact(s[i + |sep|..], sep);
      JoinCons(s[..i], tail, sep);
      assert s == s[..i] + sep + s[i + |sep|..];
      PrefixIsClean(s, sep, i);
  }

  /** `strings.TrimSpace`. */
  function TrimSpace(s: string): string {
    if s == "" then ""
    else if IsSpace(s[0]) then TrimSpace(s[1..])
    else if IsSpace(s[|s| - 1]) then TrimSpace(s[..|s| - 1])
    else s
  }

  ghost predicate AllSpace(s: string) {
    forall k :: 0 <= k < |s| ==> IsSpace(s[k])
  }

  /** No space at either end. */
  predicate Trimmed(s: string) {
    s != "" ==> !IsSpace(s[0]) && !IsSpace(s[|s| - 1])
  }

  lemma MoreInFront(s: string, a: string, core: string, b: string)
    requires s != "" && IsSpace(s[0]) && AllSpace(a) && s[1..] == a + core + b
    ensures s == ([s[0]] + a) + core + b && AllSpace([s[0]] + a)
  {
    assert s == [s[0]] + s[1..];
  }

  lemma MoreBehind(s: string, a: string, core: string, b: string)
    requires s != "" && IsSpace(s[|s| - 1]) && AllSpace(b) && s[..|s| - 1] == a + core + b
    ensures s == a + core + (b + [s[|s| - 1]]) && AllSpace(b + [s[|s| - 1]])
  {
    assert s == s[..|s| - 1] + [s[|s| - 1]];
  }

  /** Trimming cuts space at both ends, and all of it. */
  lemma {:induction false} TrimIsExact(s: string) returns (a: string, b: string)
    ensures s == a + TrimSpace(s) + b
    ensures AllSpace(a) && AllSpace(b) && Trimmed(TrimSpace(s))
    decreases |s|
  {
    a, b := "", "";
    if s != "" && IsSpace(s[0]) {
      a, b := TrimIsExact(s[1..]);
      MoreInFront(s, a, TrimSpace(s), b);
      a := [s[0]] + a;
    } else if s != "" && IsSpace(s[|s| - 1]) {
      a, b := TrimIsExact(s[..|s| - 1]);
      MoreBehind(s, a, TrimSpace(s), b);
      b := b + [s[|s| - 1]];
    }
  }

  lemma {:induction false} TrimIgnoresFront(a: string, s: string)
    requires AllSpace(a)
    ensures TrimSpace(a + s) == TrimSpace(s)
    decreases |a|
  {
    if a == "" {
      assert a + s == s;
    } else {
      assert (a + s)[1..] == a[1..] + s;
      TrimIgnoresFront(a[1..], s);
    }
  }

  lemma {:induction false} TrimIgnoresBack(s: string, b: string)
    requires AllSpace(b)
    ensures TrimSpace(s + b) == TrimSpace(s)
    decreases |s| + |b|
  {
    if b == "" {
      assert s + b == s;
    } else if s == "" {
      TrimIgnoresFront(b, "");
      assert s + b == b == b + "";
    } else if IsSpace(s[0]) {
      assert (s + b)[1..] == s[1..] + b;
      TrimIgnoresBack(s[1..], b);
    } else {
      var n := |b| - 1;
      assert (s + b)[..|s| + n] == s + b[..n];
      TrimIgnoresBack(s, b[..n]);
    }
  }

  lemma TrimIgnoresSpace(a: string, s: string, b: string)
    requires AllSpace(a) && AllSpace(b)
    ensures TrimSpace(a + s + b) == TrimSpace(s)
  {
    TrimIgnoresBack(a + s, b);
    TrimIgnoresFront(a, s);
  }

  /** Reading a key of a decoded object: a missing key reads as null. */
  function Field(fields: map<string, Json>, key: string): Json {
    if key in fields then fields[key] else Null
  }

  /** Where a path leads: every segment but the last must name an object. */
  function Resolve(v: Json, path: seq<string>): Option<Json>
    decreases |path|
  {
    if path == [] then Some(v)
    else if v.Obj? then Resolve(Field(v.fields, path[0]), path[1..])
    else None
  }

  /** One segment: the object's field, or null if it has none; anything but an object fails. */
  lemma ResolveOne(v: Json, key: string)
    ensures v.Obj? && key in v.fields ==> Resolve(v, [key]) == Some(v.fields[key])
    ensures v.Obj? && key !in v.fields ==> Resolve(v, [key]) == Some(Null)
    ensures !v.Obj? ==> Resolve(v, [key]) == None
  {
    if v.Obj? {
      assert [key][1..] == [];
      assert Resolve(Field(v.fields, key), []) == Some(Field(v.fields, key));
    }
  }

  lemma {:induction false} ResolveInSteps(v: Json, a: seq<string>, b: seq<string>)
    ensures Resolve(v, a + b) == if Resolve(v, a).None? then None else Resolve(Resolve(v, a).value, b)
    decreases |a|
  {
    if a == [] {
      assert a + b == b;
    } else {
      assert (a + b)[1..] == a[1..] + b;
      if v.Obj? {
        ResolveInSteps(Field(v.fields, a[0]), a[1..], b);
      }
    }
  }

  /** A path resolves exactly when each of its proper prefixes leads to an object. */
  lemma {:induction false} ResolvesIff(v: Json, path: seq<string>)
    ensures Resolve(v, path).Some? <==>
            forall k :: 0 <= k < |path| ==> Resolve(v, path[..k]).Some? && Resolve(v, path[..k]).value.Obj?
    decreases |path|
  {
    if path != [] {
      var n := |path| - 1;
      ResolvesIff(v, path[..n]);
      ResolveInSteps(v, path[..n], path[n..]);
      assert path == path[..n] + path[n..];
      assert path[n..] == [path[n]];
      forall k | 0 <= k < n ensures path[..n][..k] == path[..k] {}
      if forall k :: 0 <= k < |path| ==> Resolve(v, path[..k]).Some? && Resolve(v, path[..k]).value.Obj? {
        assert Resolve(v, path[..n]).Some?;
      }
    }
  }

  method ResolvePath(path: string, input: map<string, Json>) returns (r: Option<Json>)
    ensures r == Resolve(Obj(input), Split(path, "."))
  {
    var segments := Split(path, ".");
    var value := Obj(input);
    for i := 0 to |segments|
      invariant Resolve(Obj(input), segments) == Resolve(value, segments[i..])
    {
      if !value.Obj? {
        return None;
      }
      value := Field(value.fields, segments[i]);
    }
    return Some(value);
  }

  /** The value on the left of the operator, if the expression and its path are well formed. */
  function LeftValue(expression: string, input: map<string, Json>): Option<Json> {
    var parts := Split(expression, "==");
    if |parts| != 2 then None else Resolve(Obj(input), Split(TrimSpace(parts[0]), "."))
  }

  /** The literal on the right; `decode` stands for the JSON decoder. */
  function RightValue(expression: string, decode: string -> Option<Json>): Option<Json> {
    var parts := Split(expression, "==");
    if |parts| != 2 then None else decode(TrimSpace(parts[1]))
  }

  // ---------------------------------------------------------------- space around the operator

  ghost predicate NoOperator(s: string) {
    forall j :: !OccursAt(s, "==", j)
  }

  lemma OperatorAt(s: string, j: int)
    ensures OccursAt(s, "==", j) <==> 0 <= j && j + 1 < |s| && s[j] == '=' && s[j + 1] == '='
  {
    if 0 <= j && j + 2 <= |s| {
      assert s[j..j + 2] == [s[j], s[j + 1]];
    }
  }

  /** Space around a text brings no operator into it. */
  lemma SpaceBringsNoOperator(a: string, s: string, b: string)
    requires AllSpace(a) && AllSpace(b) && NoOperator(s)
    ensures NoOperator(a + s + b)
  {
    var w := a + s + b;
    forall j ensures !OccursAt(w, "==", j) {
      OperatorAt(w, j);
      OperatorAt(s, j - |a|);
    }
  }

  lemma FirstIsFound(s: string, i: nat, from: nat)
    requires from <= i && OccursAt(s, "==", i) && forall j :: 0 <= j < i ==> !OccursAt(s, "==", j)
    ensures Find(s, "==", from) == Some(i)
    decreases i - from
  {
    if from < i {
      FirstIsFound(s, i, from + 1);
    }
  }

  /** Two parts around the leftmost operator split exactly there. */
  lemma SplitsInTwo(l: string, r: string)
    requires NoOperator(r) && forall j :: 0 <= j < |l| ==> !OccursAt(l + "==" + r, "==", j)
    ensures Split(l + "==" + r, "==") == [l, r]
  {
    var s := l + "==" + r;
    assert s[|l|..|l| + 2] == "==";
    FirstIsFound(s, |l|, 0);
    assert s[..|l|] == l && s[|l| + 2..] == r;
    assert Split(r, "==") == [r];
  }

  /** The parts of a spaced expression are the spaced parts. */
  lemma SpacedParts(a: string, l: string, b: string, c: string, r: string, d: string)
    requires AllSpace(a) && AllSpace(b) && AllSpace(c) && AllSpace(d) && Split(l + "==" + r, "==") == [l, r]
    ensures Split((a + l + b) + "==" + (c + r + d), "==") == [a + l + b, c + r + d]
  {
    var s := l + "==" + r;
    var left, right := a + l + b, c + r + d;
    var w := left + "==" + right;
    SplitIsExact(s, "==");
    assert !OccursAt(s, "==", |l| - 1) by {
      assert Split(s, "==")[0] == l;
    }
    assert NoOperator(l) && NoOperator(r) by {
      assert Split(s, "==")[0] == l && Split(s, "==")[1] == r;
    }
    SpaceBringsNoOperator(a, l, b);
    SpaceBringsNoOperator(c, r, d);
    forall j | 0 <= j < |left| ensures !OccursAt(w, "==", j) {
      OperatorAt(w, j);
      OperatorAt(left, j);
      OperatorAt(s, |l| - 1);
    }
    SplitsInTwo(left, right);
  }

  /** Space around either side of the operator does not change what a condition compares. */
  lemma SpaceAroundIsIgnored(a: string, l: string, b: string, c: string, r: string, d: string, input: map<string, Json>,
                             decode: string -> Option<Json>)
    requires AllSpace(a) && AllSpace(b) && AllSpace(c) && AllSpace(d) && Split(l + "==" + r, "==") == [l, r]
    ensures LeftValue((a + l + b) + "==" + (c + r + d), input) == LeftValue(l + "==" + r, input)
    ensures RightValue((a + l + b) + "==" + (c + r + d), decode) == RightValue(l + "==" + r, decode)
  {
    SpacedParts(a, l, b, c, r, d);
    TrimIgnoresSpace(a, l, b);
    TrimIgnoresSpace(c, r, d);
  }

  lemma DotAt(s: string, j: int)
    ensures OccursAt(s, ".", j) <==> 0 <= j < |s| && s[j] == '.'
  {
    if 0 <= j < |s| {
      assert s[j..j + 1] == [s[j]];
    }
  }

  lemma FirstDot(first: string, rest: string)
    requires '.' !in first
    ensures Find(first + "." + rest, ".", 0) == Some(|first|)
  {
    var s := first + "." + rest;
    DotAt(s, |first|);
    forall j | 0 <= j < |first| ensures !OccursAt(s, ".", j) {
      DotAt(s, j);
    }
  }

  lemma SplitFirst(first: string, rest: string)
    requires '.' !in first
    ensures Split(first + "." + rest, ".") == [first] + Split(rest, ".")
  {
    var s := first + "." + rest;
    FirstDot(first, rest);
    assert s[..|first|] == first && s[|first| + 1..] == rest;
  }

  lemma SplitWhole(s: string)
    requires '.' !in s
    ensures Split(s, ".") == [s]
  {
    forall j ensures !OccursAt(s, ".", j) {
      DotAt(s, j);
    }
  }

  /** Splitting at dots undoes joining with dots, as long as no segment has a dot. */
  lemma {:induction false} SplitUndoesJoin(segments: seq<string>)
    requires segments != [] && forall k :: 0 <= k < |segments| ==> '.' !in segments[k]
    ensures Split(Join(segments, "."), ".") == segments
    decreases |segments|
  {
    if |segments| == 1 {
      SplitWhole(segments[0]);
    } else {
      SplitUndoesJoin(segments[1..]);
      SplitFirst(segments[0], Join(segments[1..], "."));
      assert segments == [segments[0]] + segments[1..];
    }
  }

  /** A condition compares what the dotted path on its left leads to with what the literal on its right decodes to,
      whatever space stands around them. */
  lemma ConditionReads(a: string, segments: seq<string>, b: string, c: string, literal: string, d: string,
                       input: map<string, Json>, decode: string -> Option<Json>)
    requires AllSpace(a) && AllSpace(b) && AllSpace(c) && AllSpace(d)
    requires segments != [] && forall k :: 0 <= k < |segments| ==> '.' !in segments[k] && '=' !in segments[k]
    requires Trimmed(Join(segments, ".")) && Trimmed(literal) && NoOperator(literal)
    ensures var expression := (a + Join(segments, ".") + b) + "==" + (c + literal + d);
            LeftValue(expression, input) == Resolve(Obj(input), segments) && RightValue(expression, decode) == decode(literal)
  {
    var path := Join(segments, ".");
    NoEqualsInPath(segments);
    PathThenLiteral(path, literal, input, decode);
    SpaceAroundIsIgnored(a, path, b, c, literal, d, input, decode);
    SplitUndoesJoin(segments);
  }

  lemma PathThenLiteral(path: string, literal: string, input: map<string, Json>, decode: string -> Option<Json>)
    requires '=' !in path && NoOperator(literal) && Trimmed(path) && Trimmed(literal)
    ensures Split(path + "==" + literal, "==") == [path, literal]
    ensures LeftValue(path + "==" + literal, input) == Resolve(Obj(input), Split(path, "."))
    ensures RightValue(path + "==" + literal, decode) == decode(literal)
  {
    forall j | 0 <= j < |path| ensures !OccursAt(path + "==" + literal, "==", j) {
      OperatorAt(path + "==" + literal, j);
    }
    SplitsInTwo(path, literal);
  }

  lemma {:induction false} NoEqualsInPath(segments: seq<string>)
    requires forall k :: 0 <= k < |segments| ==> '=' !in segments[k]
    ensures '=' !in Join(segments, ".")
    decreases |segments|
  {
    if |segments| > 1 {
      NoEqualsInPath(segments[1..]);
    }
  }

  /** Every condition that can be read is of that form. */
  lemma ConditionForm(expression: string, input: map<string, Json>, decode: string -> Option<Json>)
    returns (a: string, path: string, b: string, c: string, literal: string, d: string)
    requires LeftValue(expression, input).Some?
    ensures expression == (a + path + b) + "==" + (c + literal + d)
    ensures AllSpace(a) && AllSpace(b) && AllSpace(c) && AllSpace(d) && Trimmed(path) && Trimmed(literal)
    ensures NoOperator(path) && NoOperator(literal)
    ensures LeftValue(expression, input) == Resolve(Obj(input), Split(path, "."))
    ensures RightValue(expression, decode) == decode(literal)
  {
    var parts := Split(expression, "==");
    SplitIsExact(expression, "==");
    a, path, b := TrimmedPart(parts[0]);
    c, literal, d := TrimmedPart(parts[1]);
    assert parts == [parts[0]] + parts[1..];
    JoinCons(parts[0], parts[1..], "==");
    assert expression == parts[0] + "==" + parts[1];
  }

  lemma TrimmedPart(s: string) returns (a: string, core: string, b: string)
    requires NoOperator(s)
    ensures s == a + core + b && core == TrimSpace(s)
    ensures AllSpace(a) && AllSpace(b) && Trimmed(core) && NoOperator(core)
  {
    a, b := TrimIsExact(s);
    core := TrimSpace(s);
    forall k ensures !OccursAt(core, "==", k) {
      OperatorAt(core, k);
      OperatorAt(s, |a| + k);
    }
  }

  ghost predicate Decided(expression: string, input: map<string, Json>, decode: string -> Option<Json>) {
    LeftValue(expression, input).Some? && RightValue(expression, decode).Some?
  }

  /** Succeeds exactly on decided conditions, with the label of the comparison. */
  method EvaluateCondition(expression: string, input: map<string, Json>, decode: string -> Option<Json>)
    returns (r: Option<string>)
    ensures r.Some? <==> Decided(expression, input, decode)
    ensures r.Some? ==> (r.value == "true" || r.value == "false")
    ensures r.Some? ==> (r.value == "true" <==> LeftValue(expression, input) == RightValue(expression, decode))
  {
    var parts := Split(expression, "==");
    if |parts| != 2 {
      return None;
    }
    var value := ResolvePath(TrimSpace(parts[0]), input);
    if value.None? {
      return None;
    }
    var expected := decode(TrimSpace(parts[1]));
    if expected.None? {
      return None;
    }
    if value == expected {
      return Some("true");
    }
    return Some("false");
  }

  /** Decoding into a Go map: null leaves the map nil, which reads as empty. */
  function DecodedObject(input: Json): Option<map<string, Json>> {
    match input
    case Obj(fields) => Some(fields)
    case Null => Some(map[])
    case _ => None
  }

  predicate HasData(input: Json) {
    input.Obj? && Field(input.fields, "data").Obj?
  }

  /** The input with `data.branch` set and everything else as it was. */
  function Marked(input: Json, branch: string): Json
    requires HasData(input)
  {
    var data := input.fields["data"].fields;
    Obj(input.fields["data" := Obj(data["branch" := Str(branch)])])
  }

  /** Marking changes one field of one field. */
  lemma MarkedIs(input: Json, branch: string)
    requires HasData(input)
    ensures var out := Marked(input, branch);
            && out.Obj? && out.fields.Keys == input.fields.Keys
            && (forall k :: k in input.fields && k != "data" ==> out.fields[k] == input.fields[k])
            && out.fields["data"].Obj?
            && var data, marked := input.fields["data"].fields, out.fields["data"].fields;
               && marked.Keys == data.Keys + {"branch"} && marked["branch"] == Str(branch)
               && forall k :: k in data && k != "branch" ==> marked[k] == data[k]
  {}

  ghost predicate Runs(expression: Option<string>, input: Json, decode: string -> Option<Json>) {
    expression.Some? && DecodedObject(input).Some?
    && Decided(expression.value, DecodedObject(input).value, decode)
  }

  /** The result the worker routes on: the label as an edge label. */
  function ToResult(r: Branching): Option<Tables.ExecResult> {
    if r.Routed? && Tables.ParseLabel(r.edgeLabel).Some? then Some(Tables.Next(r.output, Tables.ParseLabel(r.edgeLabel).value))
    else None
  }

  /** The type assertion on `data` is unchecked, so a decided condition over an input without a data object
      panics; every other decided condition routes on one of the two labels. */
  method Execute(expression: Option<string>, input: Json, decode: string -> Option<Json>) returns (r: Branching)
    ensures r.Failed? <==> !Runs(expression, input, decode)
    ensures expression.None? || !(input.Obj? || input.Null?) ==> r.Failed?
    ensures expression.Some? && input.Null? ==> (r.Panicked? <==> Decided(expression.value, map[], decode))
    ensures expression.Some? && input.Obj? ==> (!r.Failed? <==> Decided(expression.value, input.fields, decode))
    ensures r.Routed? ==> input.Obj? && "data" in input.fields && input.fields["data"].Obj?
    ensures r.Panicked? <==> Runs(expression, input, decode) && !HasData(input)
    ensures r.Routed? ==> (r.edgeLabel == "true" || r.edgeLabel == "false") && r.output == Marked(input, r.edgeLabel)
    ensures r.Routed? ==> (r.edgeLabel == "true" <==> LeftValue(expression.value, input.fields) == RightValue(expression.value, decode))
    ensures r.Routed? ==> ToResult(r).Some? && Routing.Fits(Tables.NodeType.Conditional, ToResult(r).value)
  {
    if expression.None? {
      return Failed;
    }
    var output := DecodedObject(input);
    if output.None? {
      return Failed;
    }
    var branch := EvaluateCondition(expression.value, output.value, decode);
    if branch.None? {
      return Failed;
    }
    var data := Field(output.value, "data");
    if !data.Obj? {
      return Panicked;
    }
    data := Obj(data.fields["branch" := Str(branch.value)]);
    return Routed(Obj(output.value["data" := data]), branch.value);
  }

  lemma ExampleSplits()
    ensures Split("x==null", "==") == ["x", "null"] && Split("x", ".") == ["x"]
  {
    var s := "x==null";
    assert s[0..2][0] == 'x' && s[1..3] == "==";
    assert !OccursAt(s, "==", 0) && OccursAt(s, "==", 1);
    assert Find(s, "==", 0) == Some(1);
    assert s[..1] == "x" && s[3..] == "null";
    var rest := "null";
    assert forall j :: !OccursAt(rest, "==", j);
    assert Split(rest, "==") == [rest];
    assert forall j :: !OccursAt("x", ".", j);
  }

  /** Two segments: the field of a field. */
  lemma ResolveTwo(v: Json, outer: string, inner: string)
    requires v.Obj? && outer in v.fields && v.fields[outer].Obj? && inner in v.fields[outer].fields
    ensures Resolve(v, [outer, inner]) == Some(v.fields[outer].fields[inner])
  {
    ResolveOne(v, outer);
    ResolveOne(v.fields[outer], inner);
    ResolveInSteps(v, [outer], [inner]);
    assert [outer, inner] == [outer] + [inner];
  }

  lemma SpacedExampleReads(input: map<string, Json>, decode: string -> Option<Json>)
    ensures LeftValue("data.a == 1", input) == Resolve(Obj(input), ["data", "a"])
    ensures RightValue("data.a == 1", decode) == decode("1")
  {
    var path := ["data", "a"];
    assert path[1..] == ["a"] && Join(path, ".") == "data.a";
    SpaceIs(' ');
    OperatorAt("1", 0);
    ConditionReads("", path, " ", " ", "1", "", input, decode);
    assert ("" + Join(path, ".") + " ") + "==" + (" " + "1" + "") == "data.a == 1";
  }

  /** A spaced comparison that holds. */
  lemma SpacedExample(decode: string -> Option<Json>, one: Json)
    requires decode("1") == Some(one)
    ensures var input := map["data" := Obj(map["a" := one])];
            Decided("data.a == 1", input, decode) && LeftValue("data.a == 1", input) == RightValue("data.a == 1", decode)
  {
    var input := map["data" := Obj(map["a" := one])];
    SpacedExampleReads(input, decode);
    ResolveTwo(Obj(input), "data", "a");
  }

  /** An input that panics: the condition is decided, since a missing field equals null, but there is no data object to
      write the branch to. */
  lemma MissingFieldPanics(decode: string -> Option<Json>)
    requires decode("null") == Some(Null)
    ensures Runs(Some("x==null"), Obj(map[]), decode) && !HasData(Obj(map[]))
  {
    ExampleSplits();
    assert TrimSpace("x") == "x" && TrimSpace("null") == "null";
    assert Resolve(Null, []) == Some(Null);
    assert Resolve(Obj(map[]), ["x"]) == Resolve(Null, ["x"][1..]);
  }

  predicate Prefix(a: seq<string>, b: seq<string>) {
    |a| <= |b| && b[..|a|] == a
  }

  /** Marking the branch is visible along `data.branch` only: every path that neither leads to it nor through
      it resolves as before, to the same value or to the same error. */
  lemma MarkTouchesOnePath(input: Json, branch: string, path: seq<string>)
    requires HasData(input)
    requires !Prefix(path, ["data", "branch"]) && !Prefix(["data", "branch"], path)
    ensures Resolve(Marked(input, branch), path) == Resolve(input, path)
    ensures Resolve(Marked(input, branch), ["data", "branch"]) == Some(Str(branch))
  {
    var marked := Marked(input, branch);
    var spot := ["data", "branch"];
    assert Resolve(marked.fields["data"], spot[1..]) == Resolve(Str(branch), spot[1..][1..]);
    assert path != [];
    if path[0] == "data" {
      assert spot[..1] == ["data"];
      assert |path| >= 2;
      assert path[..2] == ["data", path[1]];
      var data := input.fields["data"];
      assert Field(marked.fields["data"].fields, path[1]) == Field(data.fields, path[1]);
      assert Resolve(marked.fields["data"], path[1..]) == Resolve(data, path[1..]);
    }
  }
}
