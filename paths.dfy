/**
 * Rendering of paths and locations: indentation of message lines, the
 * slash form of a path, splitting of "#/a/b" references, and the domain
 * description of an instance location in an experiment description.
 */
module Paths {
  import opened PyText
  import opened JsonData

  /** One level of indentation: four spaces. */
  const Indent: string := "    "

  /** Every line, in order, with one more level of indentation. */
  function Indented(lines: seq<string>): (r: seq<string>)
    ensures |r| == |lines|
    ensures forall i :: 0 <= i < |lines| ==> r[i] == Indent + lines[i]
  {
    if lines == [] then [] else [Indent + lines[0]] + Indented(lines[1..])
  }

  /** Indents the lines in place. */
  method IndentLines(lines: array<string>)
    modifies lines
    ensures lines[..] == Indented(old(lines[..]))
  {
    for i := 0 to lines.Length
      invariant forall k :: 0 <= k < i ==> lines[k] == Indent + old(lines[k])
      invariant forall k :: i <= k < lines.Length ==> lines[k] == old(lines[k])
    {
      lines[i] := Indent + lines[i];
    }
  }

  function TokenStrings(path: seq<Token>): (r: seq<string>)
    ensures |r| == |path|
    ensures forall i :: 0 <= i < |path| ==> r[i] == TokenString(path[i])
  {
    if path == [] then [] else [TokenString(path[0])] + TokenStrings(path[1..])
  }

  /** A path as a slash-delimited string; the empty path is "/". */
  function JsonPathToString(path: seq<Token>): (r: string)
    ensures |r| >= 1 && r[0] == '/'
  {
    "/" + Join(TokenStrings(path), "/")
  }

  /** Reference definition: each token preceded by its own slash. */
  function Slashed(path: seq<Token>): string
  {
    if path == [] then "" else "/" + TokenString(path[0]) + Slashed(path[1..])
  }

  lemma {:induction false} JoinIsSlashed(path: seq<Token>)
    requires path != []
    ensures "/" + Join(TokenStrings(path), "/") == Slashed(path)
  {
    if |path| > 1 {
      JoinIsSlashed(path[1..]);
      assert TokenStrings(path)[1..] == TokenStrings(path[1..]);
    }
  }

  /** The empty path renders as "/", any other as "/t1/t2/...". */
  lemma JsonPathToStringSegments(path: seq<Token>)
    ensures path == [] ==> JsonPathToString(path) == "/"
    ensures path != [] ==> JsonPathToString(path) == Slashed(path)
  {
    if path != [] { JoinIsSlashed(path); }
  }

  /**
   * The tokens of a "#/a/b" fragment, all kept as strings ("#" is the whole
   * document). No "~0"/"~1" unescaping is applied.
   */
  function SchemaReferenceToPath(ref: string): (r: seq<string>)
    ensures r == [] <==> ref == "#"
    ensures forall i :: 0 <= i < |r| ==> '/' !in r[i]
  {
    if ref == "#" then [] else Split(if |ref| >= 2 then ref[2..] else "", '/')
  }

  lemma ReferenceExamples()
    ensures SchemaReferenceToPath("#") == []
    ensures SchemaReferenceToPath("#/a/b") == ["a", "b"]
    ensures SchemaReferenceToPath("#/") == [""]
  {
    assert "#/a/b"[2..] == "a" + ['/'] + "b";
    SplitAtFirstSeparator("a", "b", '/');
    SplitWithoutSeparator("b", '/');
    SplitWithoutSeparator("", '/');
  }

  /** Rendering string keys as a fragment and parsing it back gives the keys. */
  lemma {:induction false} ReferenceRoundTrip(names: seq<string>)
    requires names != []
    requires forall i :: 0 <= i < |names| ==> '/' !in names[i]
    ensures SchemaReferenceToPath("#" + JsonPathToString(Keys(names))) == names
  {
    var ref := "#" + JsonPathToString(Keys(names));
    assert TokenStrings(Keys(names)) == names;
    assert ref[2..] == Join(names, "/");
    JoinThenSplit(names, '/');
  }

  /** The empty path's rendering, read back as a fragment, names the key "" rather than the root. */
  lemma EmptyPathReference()
    ensures SchemaReferenceToPath("#" + JsonPathToString([])) == [""]
  {
    assert "#" + JsonPathToString([]) == "#/";
    ReferenceExamples();
  }

  /** A readable description of a location in an experiment description. */
  function InstancePathToDescription(path: seq<Token>): string
  {
    if |path| == 0 then "root level of experiment description"
    else if path[0] == S("parameters") then
      if |path| == 1 then "global parameters section"
      else
        match path[1]
        case S(name) => "parameter \"" + name + "\""
        case I(n) => "parameter #" + IntToString(n + 1)
    else if path[0] == S("tasks") then
      if |path| == 1 then "tasks section"
      else
        "task plugin \"" + TokenString(path[1]) + "\""
        + (if |path| > 2 && path[2] == S("outputs") then " outputs"
           else if |path| > 2 && path[2] == S("plugin") then " plugin ID"
           else "")
    else if path[0] == S("graph") then
      if |path| == 1 then "graph section"
      else
        "step \"" + TokenString(path[1]) + "\""
        + (if |path| > 2 && path[2] == S("dependencies") then " dependencies" else "")
    else "experiment description location " + JsonPathToString(path)
  }

  const FallbackPrefix: string := "experiment description location "

  predicate IsSection(t: Token)
  {
    t == S("parameters") || t == S("tasks") || t == S("graph")
  }

  /** The slash-path fallback is used exactly for non-empty paths outside the three sections. */
  lemma DescriptionFallbackIff(path: seq<Token>)
    ensures (path != [] && !IsSection(path[0]))
            <==> (|InstancePathToDescription(path)| >= |FallbackPrefix|
                  && InstancePathToDescription(path)[..|FallbackPrefix|] == FallbackPrefix)
    ensures path != [] && !IsSection(path[0])
            ==> InstancePathToDescription(path) == FallbackPrefix + JsonPathToString(path)
  {
    var d := InstancePathToDescription(path);
    if !(path != [] && !IsSection(path[0])) && |d| >= |FallbackPrefix| {
      assert d[0] != FallbackPrefix[0];
    }
  }

  /** The root and the parameters section. */
  lemma DescribeParameters(rest: seq<Token>, name: string, n: int)
    ensures InstancePathToDescription([]) == "root level of experiment description"
    ensures InstancePathToDescription([S("parameters")]) == "global parameters section"
    ensures InstancePathToDescription([S("parameters"), S(name)] + rest) == "parameter \"" + name + "\""
    ensures InstancePathToDescription([S("parameters"), I(n)] + rest) == "parameter #" + IntToString(n + 1)
  {
    var p, q := [S("parameters"), S(name)] + rest, [S("parameters"), I(n)] + rest;
    assert p[0] == S("parameters") && p[1] == S(name);
    assert q[0] == S("parameters") && q[1] == I(n);
  }

  /** The tasks and graph sections themselves. */
  lemma DescribeSections()
    ensures InstancePathToDescription([S("tasks")]) == "tasks section"
    ensures InstancePathToDescription([S("graph")]) == "graph section"
  {
  }

  /** A task with nothing recognised after its name is described by the name alone. */
  lemma DescribeTaskBare(t: Token, rest: seq<Token>)
    requires rest == [] || (rest[0] != S("outputs") && rest[0] != S("plugin"))
    ensures InstancePathToDescription([S("tasks"), t] + rest) == "task plugin \"" + TokenString(t) + "\""
  {
    var p := [S("tasks"), t] + rest;
    assert p[0] == S("tasks") && p[1] == t;
    assert |p| > 2 ==> p[2] == rest[0];
  }

  /** A step with anything but "dependencies" after its name is described by the name alone. */
  lemma DescribeStepBare(t: Token, rest: seq<Token>)
    requires rest == [] || rest[0] != S("dependencies")
    ensures InstancePathToDescription([S("graph"), t] + rest) == "step \"" + TokenString(t) + "\""
  {
    var p := [S("graph"), t] + rest;
    assert p[0] == S("graph") && p[1] == t;
    assert |p| > 2 ==> p[2] == rest[0];
  }

  /** A task's outputs and plugin ID, whatever follows them. */
  lemma DescribeTaskDetail(rest: seq<Token>, t: Token, detail: Token, suffix: string)
    requires (detail == S("outputs") && suffix == " outputs") || (detail == S("plugin") && suffix == " plugin ID")
    ensures InstancePathToDescription([S("tasks"), t, detail] + rest) == "task plugin \"" + TokenString(t) + "\"" + suffix
  {
    var p := [S("tasks"), t, detail] + rest;
    assert p[0] == S("tasks") && p[1] == t && p[2] == detail;
  }

  /** A graph step's dependencies, whatever follows them. */
  lemma DescribeStepDependencies(p: seq<Token>)
    requires |p| > 2 && p[0] == S("graph") && p[2] == S("dependencies")
    ensures InstancePathToDescription(p) == "step \"" + TokenString(p[1]) + "\" dependencies"
  {
  }

  lemma ParameterIndexExample()
    ensures InstancePathToDescription([S("parameters"), I(2)]) == "parameter #3"
  {
    assert IntToString(3) == "3";
  }

  /** A two-key path outside the three sections is described by its slash rendering. */
  lemma FallbackTwoKeys(a: string, b: string)
    requires a != "parameters" && a != "tasks" && a != "graph"
    ensures InstancePathToDescription([S(a), S(b)]) == "experiment description location /" + a + "/" + b
  {
    var p := [S(a), S(b)];
    DescriptionFallbackIff(p);
    JsonPathToStringSegments(p);
    assert p[1..] == [S(b)] && p[1..][1..] == [];
    assert Slashed(p[1..]) == "/" + b;
    assert Slashed(p) == "/" + a + "/" + b;
  }
}
