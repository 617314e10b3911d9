/**
 * Walking a path into a schema document, following "$ref" nodes by
 * restarting from the document root.
 */
module SchemaResolver {
  import opened Results
  import opened PyText
  import opened JsonData
  import opened Paths

  /** Bound on the number of "$ref" hops, standing for Python's recursion limit. */
  const MaxRefHops: nat := 1000

  /** A mapping with a "$ref" key; its other keys are ignored. */
  predicate IsReference(node: Json)
  {
    node.JObj? && "$ref" in node.fields
  }

  /** A node of None (JSON null) stands for the whole document. */
  function Here(root: Json, node: Json): Json
  {
    if node.JNull? then root else node
  }

  /** The absolute path named by a "$ref" value. */
  function ReferenceTokens(ref: Json): (r: Result<seq<Token>>)
    ensures r.Ok? <==> ref.JStr?
  {
    match ref
    case JStr(s) => Ok(Keys(SchemaReferenceToPath(s)))
    case _ => Err(ReferenceNotString)
  }

  /** The integer a list step stands for: int() of a string token. */
  function ListIndex(tok: Token): Result<int>
  {
    match tok
    case I(n) => Ok(n)
    case S(s) =>
      match ParseInt(s)
      case Some(n) => Ok(n)
      case None => Err(NotAnInteger)
  }

  /** One step: an index into a list (after int()), a key into a mapping, an index into a string. */
  function Step(node: Json, tok: Token): (r: Result<Json>)
    ensures r.Ok? ==> node.JArr? || node.JObj? || node.JStr?
  {
    match node
    case JArr(items) =>
      var idx :- ListIndex(tok);
      (match PyIndex(|items|, idx)
       case Some(k) => Ok(items[k])
       case None => Err(IndexOutOfRange))
    case JObj(fields) =>
      if tok.S? && tok.key in fields then Ok(fields[tok.key]) else Err(KeyNotFound)
    case JStr(s) =>
      if tok.I? then
        match PyIndex(|s|, tok.index)
        case Some(k) => Ok(JStr([s[k]]))
        case None => Err(IndexOutOfRange)
      else Err(NotSubscriptable)
    case _ => Err(NotSubscriptable)
  }

  /**
   * The sub-document a schema path addresses, starting at `node` (null
   * meaning the root). A reference node restarts from the root with the
   * reference's path followed by the remaining path; the walk stops at the
   * end of the path or at a falsy token.
   */
  function ExtractBySchemaPath(fuel: nat, path: seq<Token>, root: Json, node: Json): Result<Json>
    decreases fuel, |path|
  {
    var here := Here(root, node);
    if IsReference(here) then
      if fuel == 0 then Err(ReferenceTooDeep)
      else
        var refPath :- ReferenceTokens(here.fields["$ref"]);
        ExtractBySchemaPath(fuel - 1, refPath + path, root, root)
    else if path == [] || IsFalsyToken(path[0]) then Ok(here)
    else
      var child :- Step(here, path[0]);
      ExtractBySchemaPath(fuel, path[1..], root, child)
  }

  /** The sub-document a "#/..." reference names. */
  function ExtractByReference(ref: string, root: Json): Result<Json>
  {
    ExtractBySchemaPath(MaxRefHops, Keys(SchemaReferenceToPath(ref)), root, root)
  }

  /** Dereferencing a lone {"$ref": ref} node is extracting by that reference. */
  lemma ReferenceNodeIsExtractByReference(ref: string, root: Json, siblings: map<string, Json>)
    ensures ExtractBySchemaPath(MaxRefHops + 1, [], root, JObj(siblings["$ref" := JStr(ref)]))
            == ExtractByReference(ref, root)
  {
    var refPath := Keys(SchemaReferenceToPath(ref));
    assert refPath + [] == refPath;
  }

  /** On a reference node the walk restarts at the root with the reference's path prepended; siblings are ignored. */
  lemma ReferenceRestartsFromRoot(fuel: nat, path: seq<Token>, root: Json, fields: map<string, Json>, ref: string)
    requires fuel > 0
    requires "$ref" in fields && fields["$ref"] == JStr(ref)
    ensures ExtractBySchemaPath(fuel, path, root, JObj(fields))
            == ExtractBySchemaPath(fuel - 1, Keys(SchemaReferenceToPath(ref)) + path, root, root)
    ensures ExtractBySchemaPath(fuel, path, root, JObj(fields))
            == ExtractBySchemaPath(fuel, path, root, JObj(map["$ref" := JStr(ref)]))
  {
  }

  /** A reference whose value is not a string is an error; so is a cycle of references. */
  lemma ReferenceFailures(path: seq<Token>, root: Json, fields: map<string, Json>)
    requires "$ref" in fields
    ensures !fields["$ref"].JStr? ==> ExtractBySchemaPath(MaxRefHops, path, root, JObj(fields)) == Err(ReferenceNotString)
    ensures ExtractBySchemaPath(0, path, root, JObj(fields)) == Err(ReferenceTooDeep)
  {
  }

  lemma {:induction false} SelfReferenceNeverResolves(fuel: nat, path: seq<Token>)
    ensures ExtractBySchemaPath(fuel, path, JObj(map["$ref" := JStr("#")]), JNull) == Err(ReferenceTooDeep)
    decreases fuel
  {
    var root := JObj(map["$ref" := JStr("#")]);
    if fuel > 0 {
      assert Keys(SchemaReferenceToPath("#")) + path == path;
      SelfReferenceNeverResolves(fuel - 1, path);
    }
  }

  /** With an empty path, or a falsy first token, a non-reference node comes back unchanged. */
  lemma EmptyOrFalsyPathReturnsNode(fuel: nat, path: seq<Token>, root: Json, node: Json)
    requires !IsReference(node) && !node.JNull?
    requires path == [] || IsFalsyToken(path[0])
    ensures ExtractBySchemaPath(fuel, path, root, node) == Ok(node)
  {
  }

  /**
   * One non-falsy step: on a list the token is converted with int() and a
   * negative index counts from the end; on a mapping (without "$ref") a
   * string token is the key as given; on a string an integer token picks one
   * character and a string token is not allowed.
   */
  lemma StepByNodeKind(fuel: nat, tok: Token, rest: seq<Token>, root: Json, items: seq<Json>,
                       fields: map<string, Json>, s: string)
    requires !IsFalsyToken(tok)
    ensures ListIndex(tok).Ok? && PyIndex(|items|, ListIndex(tok).value).Some?
            ==> ExtractBySchemaPath(fuel, [tok] + rest, root, JArr(items))
                == ExtractBySchemaPath(fuel, rest, root, items[PyIndex(|items|, ListIndex(tok).value).value])
    ensures "$ref" !in fields && tok.S? && tok.key in fields
            ==> ExtractBySchemaPath(fuel, [tok] + rest, root, JObj(fields))
                == ExtractBySchemaPath(fuel, rest, root, fields[tok.key])
    ensures tok.I? && PyIndex(|s|, tok.index).Some?
            ==> ExtractBySchemaPath(fuel, [tok] + rest, root, JStr(s))
                == ExtractBySchemaPath(fuel, rest, root, JStr([s[PyIndex(|s|, tok.index).value]]))
    ensures tok.I? && PyIndex(|s|, tok.index).None?
            ==> ExtractBySchemaPath(fuel, [tok] + rest, root, JStr(s)) == Err(IndexOutOfRange)
    ensures tok.S? ==> ExtractBySchemaPath(fuel, [tok] + rest, root, JStr(s)) == Err(NotSubscriptable)
  {
    assert ([tok] + rest)[0] == tok && ([tok] + rest)[1..] == rest;
  }

  /** A list step by the text of an integer is the step by that integer. */
  lemma ListStepParsesText(fuel: nat, text: string, rest: seq<Token>, root: Json, items: seq<Json>)
    requires text != "" && ParseInt(text).Some? && ParseInt(text).value != 0
    ensures ExtractBySchemaPath(fuel, [S(text)] + rest, root, JArr(items))
            == ExtractBySchemaPath(fuel, [I(ParseInt(text).value)] + rest, root, JArr(items))
  {
    assert ([S(text)] + rest)[0] == S(text) && ([S(text)] + rest)[1..] == rest;
    assert ([I(ParseInt(text).value)] + rest)[0] == I(ParseInt(text).value);
    assert ([I(ParseInt(text).value)] + rest)[1..] == rest;
  }

  /** A missing key, an index past either end, or a non-numeric list step is an error, never a default. */
  lemma MissingStepIsError(fuel: nat, tok: Token, rest: seq<Token>, root: Json, items: seq<Json>, fields: map<string, Json>)
    requires !IsFalsyToken(tok)
    ensures "$ref" !in fields && (tok.I? || tok.key !in fields)
            ==> ExtractBySchemaPath(fuel, [tok] + rest, root, JObj(fields)) == Err(KeyNotFound)
    ensures tok.S? && ParseInt(tok.key).None?
            ==> ExtractBySchemaPath(fuel, [tok] + rest, root, JArr(items)) == Err(NotAnInteger)
    ensures ListIndex(tok).Ok? && PyIndex(|items|, ListIndex(tok).value).None?
            ==> ExtractBySchemaPath(fuel, [tok] + rest, root, JArr(items)) == Err(IndexOutOfRange)
  {
    assert ([tok] + rest)[0] == tok;
  }

  /** A key whose value is null continues from the document root (the null stands for "no node"). */
  lemma NullChildRestartsAtRoot(fuel: nat, k: string, rest: seq<Token>, root: Json, fields: map<string, Json>)
    requires k != "" && "$ref" !in fields && k in fields && fields[k] == JNull
    ensures ExtractBySchemaPath(fuel, [S(k)] + rest, root, JObj(fields))
            == ExtractBySchemaPath(fuel, rest, root, root)
  {
    assert ([S(k)] + rest)[0] == S(k) && ([S(k)] + rest)[1..] == rest;
  }

  /** A successful walk never ends on a reference node, and ends on null only when the root is null. */
  lemma {:induction false} ResolvedIsNotReference(fuel: nat, path: seq<Token>, root: Json, node: Json)
    requires ExtractBySchemaPath(fuel, path, root, node).Ok?
    ensures !IsReference(ExtractBySchemaPath(fuel, path, root, node).value)
    ensures ExtractBySchemaPath(fuel, path, root, node).value.JNull? ==> root.JNull?
    decreases fuel, |path|
  {
    var here := Here(root, node);
    if IsReference(here) {
      var refPath := ReferenceTokens(here.fields["$ref"]).value;
      ResolvedIsNotReference(fuel - 1, refPath + path, root, root);
    } else if path == [] || IsFalsyToken(path[0]) {
    } else {
      var child := Step(here, path[0]).value;
      ResolvedIsNotReference(fuel, path[1..], root, child);
    }
  }

  /**
   * Where a walk that reaches the end of its path without stopping at a
   * falsy token arrives, and the reference hops it has left.
   */
  ghost function Reach(fuel: nat, path: seq<Token>, root: Json, node: Json): Option<(Json, nat)>
    decreases fuel, |path|
  {
    var here := Here(root, node);
    if IsReference(here) then
      if fuel == 0 then None
      else
        match ReferenceTokens(here.fields["$ref"])
        case Err(_) => None
        case Ok(refPath) => Reach(fuel - 1, refPath + path, root, root)
    else if path == [] then Some((here, fuel))
    else if IsFalsyToken(path[0]) then None
    else
      match Step(here, path[0])
      case Err(_) => None
      case Ok(child) => Reach(fuel, path[1..], root, child)
  }

  lemma NullNodeIsRoot(fuel: nat, path: seq<Token>, root: Json, node: Json)
    ensures ExtractBySchemaPath(fuel, path, root, node) == ExtractBySchemaPath(fuel, path, root, Here(root, node))
  {
    assert Here(root, Here(root, node)) == Here(root, node);
  }

  /** Walking a ++ b is walking a, then walking b from where a arrived. */
  lemma {:induction false} ExtractAppend(fuel: nat, a: seq<Token>, b: seq<Token>, root: Json, node: Json)
    requires Reach(fuel, a, root, node).Some?
    ensures ExtractBySchemaPath(fuel, a, root, node) == Ok(Reach(fuel, a, root, node).value.0)
    ensures ExtractBySchemaPath(fuel, a + b, root, node)
            == ExtractBySchemaPath(Reach(fuel, a, root, node).value.1, b, root, Reach(fuel, a, root, node).value.0)
    decreases fuel, |a|
  {
    var here := Here(root, node);
    if IsReference(here) {
      var refPath := ReferenceTokens(here.fields["$ref"]).value;
      assert refPath + (a + b) == (refPath + a) + b;
      ExtractAppend(fuel - 1, refPath + a, b, root, root);
    } else if a == [] {
      assert a + b == b;
      NullNodeIsRoot(fuel, b, root, node);
    } else {
      var child := Step(here, a[0]).value;
      assert (a + b)[0] == a[0] && (a + b)[1..] == a[1..] + b;
      ExtractAppend(fuel, a[1..], b, root, child);
    }
  }

  /**
   * Resolving p against {"$ref": ref} is resolving p against the node the
   * reference names, when the reference's walk does not stop at a falsy token.
   */
  lemma DereferenceThenResolve(fuel: nat, p: seq<Token>, root: Json, ref: string)
    requires fuel > 0
    requires Reach(fuel - 1, Keys(SchemaReferenceToPath(ref)), root, root).Some?
    ensures var target := Reach(fuel - 1, Keys(SchemaReferenceToPath(ref)), root, root).value;
            var refNode := JObj(map["$ref" := JStr(ref)]);
            ExtractBySchemaPath(fuel, [], root, refNode) == Ok(target.0)
            && ExtractBySchemaPath(fuel, p, root, refNode) == ExtractBySchemaPath(target.1, p, root, target.0)
  {
    var refPath := Keys(SchemaReferenceToPath(ref));
    assert refPath + [] == refPath;
    ExtractAppend(fuel - 1, refPath, p, root, root);
  }

  /** With an empty segment ("#/") the dereferenced node and the resolved path disagree. */
  lemma DereferenceThenResolveNeedsNonEmptySegments()
    ensures var root := JObj(map["a" := JStr("x")]);
            var refNode := JObj(map["$ref" := JStr("#/")]);
            ExtractBySchemaPath(2, [], root, refNode) == Ok(root)
            && ExtractBySchemaPath(2, [S("a")], root, refNode) == Ok(root)
            && ExtractBySchemaPath(1, [S("a")], root, root) == Ok(JStr("x"))
  {
    var root := JObj(map["a" := JStr("x")]);
    ReferenceExamples();
    assert Keys([""]) == [S("")];
    assert [S("")] + [S("a")] == [S(""), S("a")];
    assert [S("")] + [] == [S("")];
    assert ExtractBySchemaPath(1, [], root, JStr("x")) == Ok(JStr("x"));
  }
}
