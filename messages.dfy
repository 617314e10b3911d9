/**
 * The message composer: turns one validation error (and its nested context
 * errors) into indented lines, with the two "oneOf" explanations, and the
 * public entry points that join lines and messages.
 */
module Messages {
  import opened Results
  import opened PyText
  import opened JsonData
  import opened Paths
  import opened SchemaResolver
  import opened AltNaming

  /** A validation error as the schema validator reports it. */
  datatype ValidationError = ValidationError(
    validator: string,                // the failing keyword, e.g. "oneOf"
    absolutePath: seq<Token>,         // where in the instance
    absoluteSchemaPath: seq<Token>,   // where in the schema
    instance: Json,                   // the instance fragment that failed
    validatorValue: Json,             // the keyword's value; for "oneOf" the alternatives
    context: seq<ValidationError>,    // errors from sub-validations
    message: string)                  // the validator's own message

  /** Whether an instance fragment is valid against a sub-schema, given the full schema for references. */
  type Probe = (Json, Json, Json) -> bool

  predicate StartsWith(s: string, prefix: string)
  {
    |s| >= |prefix| && s[..|prefix|] == prefix
  }

  /** Lines in front of a result's lines, or the result's failure. */
  function PrependLines(acc: seq<string>, r: Result<seq<string>>): Result<seq<string>>
  {
    match r
    case Ok(x) => Ok(acc + x)
    case Err(f) => Err(f)
  }

  lemma PrependTwice(a: seq<string>, b: seq<string>, r: Result<seq<string>>)
    ensures PrependLines(a, PrependLines(b, r)) == PrependLines(a + b, r)
  {
    if r.Ok? { assert a + (b + r.value) == (a + b) + r.value; }
  }

  lemma PrependNothing(r: Result<seq<string>>)
    ensures PrependLines([], r) == r
  {
    if r.Ok? { assert [] + r.value == r.value; }
  }

  function AlternativeSchemas(value: Json): Result<seq<Json>>
  {
    if value.JArr? then Ok(value.items) else Err(AlternativesNotList)
  }

  function OneOfHeader(names: seq<string>): string
  {
    "Must be exactly one of: " + Join(names, ", ")
  }

  // ---------------------------------------------------------------------
  // Too many alternatives satisfied

  /** The names whose alternative the probe accepts, in order. */
  function SatisfiedNames(names: seq<string>, alts: seq<Json>, root: Json, instance: Json, isValid: Probe): seq<string>
    requires |names| == |alts|
  {
    if names == [] then []
    else
      SatisfiedNames(names[..|names| - 1], alts[..|alts| - 1], root, instance, isValid)
      + (if isValid(root, alts[|alts| - 1], instance) then [names[|names| - 1]] else [])
  }

  /** A name is reported as satisfied exactly when some alternative with that name passes the probe. */
  lemma {:induction false} SatisfiedNamesMembers(names: seq<string>, alts: seq<Json>, root: Json, instance: Json, isValid: Probe)
    requires |names| == |alts|
    ensures forall x :: x in SatisfiedNames(names, alts, root, instance, isValid)
                        <==> exists i :: 0 <= i < |names| && isValid(root, alts[i], instance) && names[i] == x
  {
    if names != [] {
      var n := |names| - 1;
      SatisfiedNamesMembers(names[..n], alts[..n], root, instance, isValid);
      forall x ensures x in SatisfiedNames(names, alts, root, instance, isValid)
                      <==> exists i :: 0 <= i < |names| && isValid(root, alts[i], instance) && names[i] == x
      {
        if x in SatisfiedNames(names[..n], alts[..n], root, instance, isValid) {
          var i :| 0 <= i < n && isValid(root, alts[..n][i], instance) && names[..n][i] == x;
          assert isValid(root, alts[i], instance) && names[i] == x;
        }
        if exists i :: 0 <= i < |names| && isValid(root, alts[i], instance) && names[i] == x {
          var i :| 0 <= i < |names| && isValid(root, alts[i], instance) && names[i] == x;
          if i < n { assert alts[..n][i] == alts[i] && names[..n][i] == names[i]; }
        }
      }
    }
  }

  /** All alternatives accepted: every name, in order; none accepted: no name. */
  lemma {:induction false} SatisfiedNamesExtremes(names: seq<string>, alts: seq<Json>, root: Json, instance: Json, isValid: Probe)
    requires |names| == |alts|
    ensures (forall i :: 0 <= i < |alts| ==> isValid(root, alts[i], instance))
            ==> SatisfiedNames(names, alts, root, instance, isValid) == names
    ensures (forall i :: 0 <= i < |alts| ==> !isValid(root, alts[i], instance))
            ==> SatisfiedNames(names, alts, root, instance, isValid) == []
  {
    if names != [] {
      var n := |names| - 1;
      SatisfiedNamesExtremes(names[..n], alts[..n], root, instance, isValid);
      assert names[..n] + [names[n]] == names;
    }
  }

  function TooManyLine(names: seq<string>, satisfied: seq<string>): string
  {
    OneOfHeader(names) + ".  Content satisfied more than one alternative: " + Join(satisfied, ", ") + "."
  }

  /** The explanation when more than one alternative was satisfied: a single line. */
  function TooManySatisfiedLines(e: ValidationError, root: Json, isValid: Probe): (r: Result<seq<string>>)
    ensures r.Ok? ==> |r.value| == 1
  {
    var alts :- AlternativeSchemas(e.validatorValue);
    var names :- AlternativeNames(alts, root);
    Ok([TooManyLine(names, SatisfiedNames(names, alts, root, e.instance, isValid))])
  }

  lemma SatisfiedNamesSnoc(names: seq<string>, alts: seq<Json>, i: nat, root: Json, instance: Json, isValid: Probe)
    requires |names| == |alts| && i < |names|
    ensures SatisfiedNames(names[..i + 1], alts[..i + 1], root, instance, isValid)
            == SatisfiedNames(names[..i], alts[..i], root, instance, isValid)
               + (if isValid(root, alts[i], instance) then [names[i]] else [])
  {
    assert names[..i + 1][..i] == names[..i] && alts[..i + 1][..i] == alts[..i];
  }

  lemma TooManyUnfold(e: ValidationError, root: Json, isValid: Probe, alts: seq<Json>, names: seq<string>)
    requires e.validatorValue == JArr(alts) && AlternativeNames(alts, root) == Ok(names)
    ensures TooManySatisfiedLines(e, root, isValid)
            == Ok([TooManyLine(names, SatisfiedNames(names, alts, root, e.instance, isValid))])
  {
  }

  /** Probes every alternative and lists the satisfied ones after the alternatives' names. */
  method TooManyAlternativesSatisfiedMessageLines(e: ValidationError, root: Json, isValid: Probe)
    returns (r: Result<seq<string>>)
    ensures r == TooManySatisfiedLines(e, root, isValid)
  {
    var altsR := AlternativeSchemas(e.validatorValue);
    if altsR.Err? {
      return Err(altsR.failure);
    }
    var alts := altsR.value;
    var namesR := GetOneOfAlternativeNames(alts, root);
    if namesR.Err? {
      return Err(namesR.failure);
    }
    var altNames := namesR.value;
    var errorDesc := OneOfHeader(altNames);
    var satisfiedAltNames: seq<string> := [];
    for i := 0 to |altNames|
      invariant satisfiedAltNames == SatisfiedNames(altNames[..i], alts[..i], root, e.instance, isValid)
    {
      SatisfiedNamesSnoc(altNames, alts, i, root, e.instance, isValid);
      if isValid(root, alts[i], e.instance) {
        satisfiedAltNames := satisfiedAltNames + [altNames[i]];
      }
    }
    assert altNames[..|altNames|] == altNames && alts[..|alts|] == alts;
    TooManyUnfold(e, root, isValid, alts, altNames);
    errorDesc := errorDesc + ".  Content satisfied more than one alternative: " + Join(satisfiedAltNames, ", ") + ".";
    return Ok([errorDesc]);
  }

  // ---------------------------------------------------------------------
  // No alternative satisfied

  function NoneHeader(names: seq<string>): string
  {
    OneOfHeader(names) + "; all alternatives failed validation."
  }

  function GroupHeader(name: string): string
  {
    "Errors associated with alternative \"" + name + "\":"
  }

  /** The name of the alternative a context error belongs to: the token after the oneOf's own schema path. */
  function ContextAltName(ctx: ValidationError, prefixLen: nat, names: seq<string>): Result<string>
  {
    if |ctx.absoluteSchemaPath| <= prefixLen then Err(AltIndexMissing)
    else
      match ctx.absoluteSchemaPath[prefixLen]
      case S(_) => Err(AltIndexNotInteger)
      case I(n) =>
        match PyIndex(|names|, n)
        case Some(k) => Ok(names[k])
        case None => Err(AltIndexOutOfRange)
  }

  /** The alternative name of every context error, or the failure of the first that has none. */
  function ContextAltNames(ctxs: seq<ValidationError>, prefixLen: nat, names: seq<string>): (r: Result<seq<string>>)
    ensures r.Ok? ==> |r.value| == |ctxs|
  {
    if ctxs == [] then Ok([])
    else
      var prev :- ContextAltNames(ctxs[..|ctxs| - 1], prefixLen, names);
      var k :- ContextAltName(ctxs[|ctxs| - 1], prefixLen, names);
      Ok(prev + [k])
  }

  /** The distinct names, in the order they are first met. */
  function Dedup(s: seq<string>): (r: seq<string>)
    ensures |s| > 0 ==> |r| > 0
  {
    if s == [] then []
    else
      var d := Dedup(s[..|s| - 1]);
      if s[|s| - 1] in d then d else d + [s[|s| - 1]]
  }

  lemma {:induction false} DedupMembers(s: seq<string>)
    ensures forall x :: x in Dedup(s) <==> x in s
  {
    if s != [] {
      var n := |s| - 1;
      DedupMembers(s[..n]);
      assert s == s[..n] + [s[n]];
    }
  }

  lemma {:induction false} DedupDistinct(s: seq<string>)
    ensures forall i, j :: 0 <= i < j < |Dedup(s)| ==> Dedup(s)[i] != Dedup(s)[j]
  {
    if s != [] {
      DedupDistinct(s[..|s| - 1]);
    }
  }

  /** Position of the first occurrence. */
  function FirstIndex(s: seq<string>, x: string): (r: nat)
    requires x in s
    ensures r < |s| && s[r] == x && x !in s[..r]
  {
    if s[0] == x then 0
    else
      assert x in s[1..];
      var k := FirstIndex(s[1..], x);
      assert s[..k + 1] == [s[0]] + s[1..][..k];
      k + 1
  }

  lemma FirstIndexOfPrefix(s: seq<string>, n: nat, x: string)
    requires n <= |s| && x in s[..n]
    ensures FirstIndex(s, x) == FirstIndex(s[..n], x)
  {
    var a, b := FirstIndex(s, x), FirstIndex(s[..n], x);
    assert s[..n][..b] == s[..b];
  }

  /** The distinct names come in the order of their first occurrence. */
  lemma {:induction false} DedupFirstEncountered(s: seq<string>)
    ensures forall p, q :: 0 <= p < q < |Dedup(s)|
              ==> Dedup(s)[p] in s && Dedup(s)[q] in s && FirstIndex(s, Dedup(s)[p]) < FirstIndex(s, Dedup(s)[q])
  {
    DedupMembers(s);
    if s != [] {
      var n := |s| - 1;
      var d := Dedup(s[..n]);
      DedupFirstEncountered(s[..n]);
      DedupMembers(s[..n]);
      assert s[..n] == s[..n][..n];
      forall p, q | 0 <= p < q < |Dedup(s)|
        ensures Dedup(s)[p] in s && Dedup(s)[q] in s && FirstIndex(s, Dedup(s)[p]) < FirstIndex(s, Dedup(s)[q])
      {
        assert Dedup(s)[p] in s && Dedup(s)[q] in s;
        FirstIndexOfPrefix(s, n, Dedup(s)[p]);
        if q < |d| {
          FirstIndexOfPrefix(s, n, Dedup(s)[q]);
        } else {
          assert Dedup(s)[q] == s[n] && s[n] !in s[..n];
        }
      }
    }
  }

  lemma DedupSingleton(x: string)
    ensures Dedup([x]) == [x]
  {
    assert [x][..0] == [];
  }

  lemma DedupSnoc(keys: seq<string>, name: string)
    ensures Dedup(keys + [name]) == if name in keys then Dedup(keys) else Dedup(keys) + [name]
  {
    assert (keys + [name])[..|keys|] == keys;
    DedupMembers(keys);
  }

  /** The context errors filed under one alternative name, in order. */
  function Members(ctxs: seq<ValidationError>, keys: seq<string>, k: string): (r: seq<ValidationError>)
    requires |keys| == |ctxs|
    ensures forall x :: x in r ==> x in ctxs
  {
    if ctxs == [] then []
    else
      Members(ctxs[..|ctxs| - 1], keys[..|keys| - 1], k)
      + (if keys[|keys| - 1] == k then [ctxs[|ctxs| - 1]] else [])
  }

  lemma MembersSnoc(ctxs: seq<ValidationError>, i: nat, keys: seq<string>, name: string, k: string)
    requires i < |ctxs| && |keys| == i
    ensures Members(ctxs[..i + 1], keys + [name], k)
            == Members(ctxs[..i], keys, k) + (if name == k then [ctxs[i]] else [])
  {
    assert ctxs[..i + 1][..i] == ctxs[..i];
    assert (keys + [name])[..i] == keys;
  }

  lemma {:induction false} MembersOfAbsent(ctxs: seq<ValidationError>, keys: seq<string>, k: string)
    requires |keys| == |ctxs| && k !in keys
    ensures Members(ctxs, keys, k) == []
  {
    if ctxs != [] {
      var n := |ctxs| - 1;
      assert keys[..n] + [keys[n]] == keys;
      MembersOfAbsent(ctxs[..n], keys[..n], k);
    }
  }

  /** Entry i is the alternative name of context error i; all succeed when each one does. */
  lemma {:induction false} ContextAltNamesAt(ctxs: seq<ValidationError>, prefixLen: nat, names: seq<string>)
    ensures ContextAltNames(ctxs, prefixLen, names).Ok?
            ==> forall i :: 0 <= i < |ctxs| ==> ContextAltName(ctxs[i], prefixLen, names) == Ok(ContextAltNames(ctxs, prefixLen, names).value[i])
    ensures (forall i :: 0 <= i < |ctxs| ==> ContextAltName(ctxs[i], prefixLen, names).Ok?)
            ==> ContextAltNames(ctxs, prefixLen, names).Ok?
  {
    if ctxs != [] {
      var n := |ctxs| - 1;
      var init := ctxs[..n];
      ContextAltNamesAt(init, prefixLen, names);
      assert forall i :: 0 <= i < n ==> init[i] == ctxs[i];
    }
  }

  /** The first context error without an alternative name decides the failure. */
  lemma ContextAltNamesFirstFailure(ctxs: seq<ValidationError>, prefixLen: nat, names: seq<string>, k: nat)
    requires k < |ctxs|
    requires forall j :: 0 <= j < k ==> ContextAltName(ctxs[j], prefixLen, names).Ok?
    requires ContextAltName(ctxs[k], prefixLen, names).Err?
    ensures ContextAltNames(ctxs, prefixLen, names) == Err(ContextAltName(ctxs[k], prefixLen, names).failure)
  {
    var init := ctxs[..k];
    assert forall j :: 0 <= j < k ==> init[j] == ctxs[j];
    ContextAltNamesAt(init, prefixLen, names);
    ContextAltNamesStep(ctxs, k, prefixLen, names);
    ContextAltNamesFailureStays(ctxs, k + 1, prefixLen, names);
  }

  /** An error is filed under k exactly when some position holds it with key k. */
  lemma {:induction false} MembersAt(ctxs: seq<ValidationError>, keys: seq<string>, k: string)
    requires |keys| == |ctxs|
    ensures forall x :: x in Members(ctxs, keys, k) <==> exists i :: 0 <= i < |ctxs| && ctxs[i] == x && keys[i] == k
  {
    if ctxs != [] {
      var n := |ctxs| - 1;
      MembersAt(ctxs[..n], keys[..n], k);
      forall x | x in Members(ctxs, keys, k)
        ensures exists i :: 0 <= i < |ctxs| && ctxs[i] == x && keys[i] == k
      {
        if x in Members(ctxs[..n], keys[..n], k) {
          var i :| 0 <= i < n && ctxs[..n][i] == x && keys[..n][i] == k;
          assert ctxs[i] == x && keys[i] == k;
        } else {
          assert ctxs[n] == x && keys[n] == k;
        }
      }
      forall x | exists i :: 0 <= i < |ctxs| && ctxs[i] == x && keys[i] == k
        ensures x in Members(ctxs, keys, k)
      {
        var i :| 0 <= i < |ctxs| && ctxs[i] == x && keys[i] == k;
        if i < n {
          assert ctxs[..n][i] == x && keys[..n][i] == k;
        }
      }
    }
  }

  /** Group k holds as many errors as there are keys k. */
  lemma {:induction false} MembersCount(ctxs: seq<ValidationError>, keys: seq<string>, k: string)
    requires |keys| == |ctxs|
    ensures |Members(ctxs, keys, k)| == multiset(keys)[k]
  {
    if ctxs != [] {
      var n := |ctxs| - 1;
      MembersCount(ctxs[..n], keys[..n], k);
      assert keys == keys[..n] + [keys[n]];
    }
  }

  /** The total number of errors in the groups named by order. */
  function GroupSizes(ctxs: seq<ValidationError>, keys: seq<string>, order: seq<string>): nat
    requires |keys| == |ctxs|
  {
    if order == [] then 0
    else GroupSizes(ctxs, keys, order[..|order| - 1]) + |Members(ctxs, keys, order[|order| - 1])|
  }

  /** How many keys fall under the names of order, counted with repeats. */
  function CountSum(keys: seq<string>, order: seq<string>): nat
  {
    if order == [] then 0
    else CountSum(keys, order[..|order| - 1]) + multiset(keys)[order[|order| - 1]]
  }

  lemma {:induction false} GroupSizesAsCounts(ctxs: seq<ValidationError>, keys: seq<string>, order: seq<string>)
    requires |keys| == |ctxs|
    ensures GroupSizes(ctxs, keys, order) == CountSum(keys, order)
  {
    if order != [] {
      GroupSizesAsCounts(ctxs, keys, order[..|order| - 1]);
      MembersCount(ctxs, keys, order[|order| - 1]);
    }
  }

  lemma {:induction false} CountSumSnoc(keys: seq<string>, name: string, order: seq<string>)
    ensures CountSum(keys + [name], order) == CountSum(keys, order) + multiset(order)[name]
  {
    assert multiset(keys + [name]) == multiset(keys) + multiset{name};
    if order != [] {
      var n := |order| - 1;
      CountSumSnoc(keys, name, order[..n]);
      assert order == order[..n] + [order[n]];
    }
  }

  lemma {:induction false} DistinctCountsOnce(d: seq<string>, x: string)
    requires forall i, j :: 0 <= i < j < |d| ==> d[i] != d[j]
    ensures multiset(d)[x] == if x in d then 1 else 0
  {
    if d != [] {
      var n := |d| - 1;
      DistinctCountsOnce(d[..n], x);
      assert d == d[..n] + [d[n]];
      if x == d[n] {
        assert x !in d[..n];
      }
    }
  }

  lemma {:induction false} CountSumDedup(keys: seq<string>)
    ensures CountSum(keys, Dedup(keys)) == |keys|
  {
    if keys != [] {
      var n := |keys| - 1;
      var init, name := keys[..n], keys[n];
      assert keys == init + [name];
      CountSumDedup(init);
      var d := Dedup(init);
      DedupMembers(init);
      DedupDistinct(init);
      CountSumSnoc(init, name, d);
      DistinctCountsOnce(d, name);
      if name !in d {
        assert Dedup(keys)[..|Dedup(keys)| - 1] == d;
        assert multiset(keys)[name] == multiset(init)[name] + 1;
      }
    }
  }

  /** The groups partition the context: their sizes add up to the number of context errors. */
  lemma GroupsPartitionContext(ctxs: seq<ValidationError>, keys: seq<string>)
    requires |keys| == |ctxs|
    ensures GroupSizes(ctxs, keys, Dedup(keys)) == |ctxs|
  {
    GroupSizesAsCounts(ctxs, keys, Dedup(keys));
    CountSumDedup(keys);
  }

  // ---------------------------------------------------------------------
  // The composer (mutually recursive over nested context errors)

  /** The message lines for one error: "In <location>: <what>", or "In <location>:" and the indented explanation. */
  function MessageLines(e: ValidationError, root: Json, isValid: Probe): Result<seq<string>>
    decreases e, 3
  {
    var location := InstancePathToDescription(e.absolutePath);
    var what :- if e.validator == "oneOf" then
                  (if |e.context| > 0 then NoneSatisfiedLines(e, root, isValid)
                   else TooManySatisfiedLines(e, root, isValid))
                else Ok([e.message]);
    Ok(Located(location, what))
  }

  /** One explanation line joins the location line; several go below it, indented. */
  function Located(location: string, what: seq<string>): seq<string>
  {
    if |what| == 1 then ["In " + location + ": " + what[0]]
    else ["In " + location + ":"] + Indented(what)
  }

  lemma LocatedOpens(location: string, what: seq<string>)
    ensures |Located(location, what)| >= 1
    ensures StartsWith(Located(location, what)[0], "In " + location + ":")
  {
    var head := "In " + location + ":";
    if |what| == 1 {
      assert Located(location, what)[0] == head + " " + what[0];
      assert (head + " " + what[0])[..|head|] == head;
    }
  }

  /** The explanation when no alternative was satisfied: a header, then each alternative's errors. */
  function NoneSatisfiedLines(e: ValidationError, root: Json, isValid: Probe): (r: Result<seq<string>>)
    ensures r.Ok? ==> |r.value| >= 2
    decreases e, 2
  {
    var alts :- AlternativeSchemas(e.validatorValue);
    var names :- AlternativeNames(alts, root);
    if |e.context| == 0 then Err(ContextEmpty)
    else
      var keys :- ContextAltNames(e.context, |e.absoluteSchemaPath|, names);
      var groups :- GroupLinesFrom(e, root, isValid, keys, Dedup(keys), 0);
      Ok([NoneHeader(names)] + groups)
  }

  /** The blocks of the alternatives order[i..]: each a header and its errors' lines, indented. */
  function GroupLinesFrom(e: ValidationError, root: Json, isValid: Probe, keys: seq<string>, order: seq<string>, i: nat)
    : (r: Result<seq<string>>)
    requires |keys| == |e.context|
    ensures r.Ok? && i < |order| ==> |r.value| >= 1
    decreases e, 1, |order| - i
  {
    if i >= |order| then Ok([])
    else
      var block :- BlockLines(e, root, isValid, Members(e.context, keys, order[i]), 0);
      var rest :- GroupLinesFrom(e, root, isValid, keys, order, i + 1);
      Ok([GroupHeader(order[i])] + block + rest)
  }

  /** The lines of errs[j..], each error's lines indented one level. */
  function BlockLines(e: ValidationError, root: Json, isValid: Probe, errs: seq<ValidationError>, j: nat)
    : Result<seq<string>>
    requires forall x :: x in errs ==> x in e.context
    decreases e, 0, |errs| - j
  {
    if j >= |errs| then Ok([])
    else
      assert errs[j] in e.context;
      var lines :- MessageLines(errs[j], root, isValid);
      var rest :- BlockLines(e, root, isValid, errs, j + 1);
      Ok(Indented(lines) + rest)
  }

  lemma ContextAltNamesStep(ctxs: seq<ValidationError>, i: nat, prefixLen: nat, names: seq<string>)
    requires i < |ctxs|
    ensures ContextAltNames(ctxs[..i + 1], prefixLen, names)
            == match ContextAltNames(ctxs[..i], prefixLen, names)
               case Err(f) => Err(f)
               case Ok(prev) =>
                 match ContextAltName(ctxs[i], prefixLen, names)
                 case Err(f) => Err(f)
                 case Ok(k) => Ok(prev + [k])
  {
    assert ctxs[..i + 1][..i] == ctxs[..i];
  }

  lemma {:induction false} ContextAltNamesFailureStays(ctxs: seq<ValidationError>, n: nat, prefixLen: nat, names: seq<string>)
    requires n <= |ctxs|
    requires ContextAltNames(ctxs[..n], prefixLen, names).Err?
    ensures ContextAltNames(ctxs, prefixLen, names) == ContextAltNames(ctxs[..n], prefixLen, names)
    decreases |ctxs| - n
  {
    if n < |ctxs| {
      assert ctxs[..n + 1][..n] == ctxs[..n];
      ContextAltNamesFailureStays(ctxs, n + 1, prefixLen, names);
    } else {
      assert ctxs[..n] == ctxs;
    }
  }

  lemma NoneSatisfiedUnfold(e: ValidationError, root: Json, isValid: Probe, alts: seq<Json>, names: seq<string>, keys: seq<string>)
    requires e.validatorValue == JArr(alts) && AlternativeNames(alts, root) == Ok(names)
    requires |e.context| > 0
    requires ContextAltNames(e.context, |e.absoluteSchemaPath|, names) == Ok(keys)
    ensures NoneSatisfiedLines(e, root, isValid) == PrependLines([NoneHeader(names)], GroupLinesFrom(e, root, isValid, keys, Dedup(keys), 0))
  {
  }

  lemma GroupStep(e: ValidationError, root: Json, isValid: Probe, keys: seq<string>, order: seq<string>, i: nat)
    requires |keys| == |e.context| && i < |order|
    ensures GroupLinesFrom(e, root, isValid, keys, order, i)
            == match BlockLines(e, root, isValid, Members(e.context, keys, order[i]), 0)
               case Err(f) => Err(f)
               case Ok(block) => PrependLines([GroupHeader(order[i])] + block, GroupLinesFrom(e, root, isValid, keys, order, i + 1))
  {
    var b := BlockLines(e, root, isValid, Members(e.context, keys, order[i]), 0);
    if b.Ok? {
      PrependTwice([GroupHeader(order[i])], b.value, GroupLinesFrom(e, root, isValid, keys, order, i + 1));
    }
  }

  lemma GroupsDone(e: ValidationError, root: Json, isValid: Probe, keys: seq<string>, order: seq<string>, acc: seq<string>)
    requires |keys| == |e.context|
    ensures PrependLines(acc, GroupLinesFrom(e, root, isValid, keys, order, |order|)) == Ok(acc)
  {
    assert acc + [] == acc;
  }

  lemma BlockStep(e: ValidationError, root: Json, isValid: Probe, errs: seq<ValidationError>, j: nat)
    requires forall x :: x in errs ==> x in e.context
    requires j < |errs|
    ensures BlockLines(e, root, isValid, errs, j)
            == match MessageLines(errs[j], root, isValid)
               case Err(f) => Err(f)
               case Ok(lines) => PrependLines(Indented(lines), BlockLines(e, root, isValid, errs, j + 1))
  {
  }

  /** A sub-message's lines in a fresh list, indented in place. */
  method IndentedCopy(sub: seq<string>) returns (r: seq<string>)
    ensures r == Indented(sub)
  {
    var subLines := new string[|sub|](k requires 0 <= k < |sub| => sub[k]);
    assert subLines[..] == sub;
    IndentLines(subLines);
    r := subLines[..];
  }

  /** The lines of one alternative's errors, each error's lines indented. */
  method AlternativeBlockLines(e: ValidationError, root: Json, isValid: Probe, altErrors: seq<ValidationError>)
    returns (r: Result<seq<string>>)
    requires forall x :: x in altErrors ==> x in e.context
    ensures r == BlockLines(e, root, isValid, altErrors, 0)
  {
    var lines: seq<string> := [];
    var j := 0;
    PrependNothing(BlockLines(e, root, isValid, altErrors, 0));
    while j < |altErrors|
      invariant 0 <= j <= |altErrors|
      invariant BlockLines(e, root, isValid, altErrors, 0) == PrependLines(lines, BlockLines(e, root, isValid, altErrors, j))
    {
      BlockStep(e, root, isValid, altErrors, j);
      var sub := MessageLines(altErrors[j], root, isValid);
      if sub.Err? {
        return Err(sub.failure);
      }
      var indented := IndentedCopy(sub.value);
      PrependTwice(lines, indented, BlockLines(e, root, isValid, altErrors, j + 1));
      lines := lines + indented;
      j := j + 1;
    }
    assert lines + [] == lines;
    return Ok(lines);
  }

  lemma ContextNameStep(ctxs: seq<ValidationError>, i: nat, prefixLen: nat, names: seq<string>,
                        keys: seq<string>, key: Result<string>)
    requires i < |ctxs| && ContextAltNames(ctxs[..i], prefixLen, names) == Ok(keys)
    requires key == ContextAltName(ctxs[i], prefixLen, names)
    ensures key.Ok? ==> ContextAltNames(ctxs[..i + 1], prefixLen, names) == Ok(keys + [key.value])
    ensures key.Err? ==> ContextAltNames(ctxs, prefixLen, names) == Err(key.failure)
  {
    ContextAltNamesStep(ctxs, i, prefixLen, names);
    if key.Err? {
      ContextAltNamesFailureStays(ctxs, i + 1, prefixLen, names);
    }
  }

  /** Files each context error under the name of its alternative; names in the order first met. */
  method GroupByAlternative(context: seq<ValidationError>, prefixLen: nat, altNames: seq<string>)
    returns (r: Result<(map<string, seq<ValidationError>>, seq<string>)>)
    ensures ContextAltNames(context, prefixLen, altNames).Err? ==> r == Err(ContextAltNames(context, prefixLen, altNames).failure)
    ensures ContextAltNames(context, prefixLen, altNames).Ok? ==>
              var keys := ContextAltNames(context, prefixLen, altNames).value;
              r.Ok? && r.value.1 == Dedup(keys)
              && (forall k :: k in r.value.0 <==> k in keys)
              && (forall k :: k in r.value.0 ==> r.value.0[k] == Members(context, keys, k))
  {
    var errorsByAlt: map<string, seq<ValidationError>> := map[];
    var order: seq<string> := [];
    ghost var keys: seq<string> := [];
    for i := 0 to |context|
      invariant ContextAltNames(context[..i], prefixLen, altNames) == Ok(keys)
      invariant order == Dedup(keys)
      invariant forall k :: k in errorsByAlt <==> k in keys
      invariant forall k :: k in errorsByAlt ==> errorsByAlt[k] == Members(context[..i], keys, k)
    {
      var key := ContextAltName(context[i], prefixLen, altNames);
      ContextNameStep(context, i, prefixLen, altNames, keys, key);
      if key.Err? {
        return Err(key.failure);
      }
      var name := key.value;
      errorsByAlt, order := FileUnder(context, i, name, errorsByAlt, order, keys);
      keys := keys + [name];
    }
    assert context[..|context|] == context;
    return Ok((errorsByAlt, order));
  }

  /** The loop body: append context error i to the group of its name, opening the group when it is new. */
  method FileUnder(context: seq<ValidationError>, i: nat, name: string,
                   errorsByAlt: map<string, seq<ValidationError>>, order: seq<string>, ghost keys: seq<string>)
    returns (errorsByAlt': map<string, seq<ValidationError>>, order': seq<string>)
    requires i < |context| && |keys| == i
    requires order == Dedup(keys)
    requires forall k :: k in errorsByAlt <==> k in keys
    requires forall k :: k in errorsByAlt ==> errorsByAlt[k] == Members(context[..i], keys, k)
    ensures order' == Dedup(keys + [name])
    ensures forall k :: k in errorsByAlt' <==> k in keys + [name]
    ensures forall k :: k in errorsByAlt' ==> errorsByAlt'[k] == Members(context[..i + 1], keys + [name], k)
  {
    DedupSnoc(keys, name);
    forall k ensures Members(context[..i + 1], keys + [name], k)
                     == Members(context[..i], keys, k) + (if name == k then [context[i]] else []) {
      MembersSnoc(context, i, keys, name, k);
    }
    if name in errorsByAlt {
      errorsByAlt' := errorsByAlt[name := errorsByAlt[name] + [context[i]]];
      order' := order;
    } else {
      MembersOfAbsent(context[..i], keys, name);
      errorsByAlt' := errorsByAlt[name := [context[i]]];
      order' := order + [name];
    }
  }

  /** Groups the context errors by alternative name in a map, then emits each group under its header. */
  method NoAlternativesSatisfiedMessageLines(e: ValidationError, root: Json, isValid: Probe)
    returns (r: Result<seq<string>>)
    ensures r == NoneSatisfiedLines(e, root, isValid)
  {
    var altsR := AlternativeSchemas(e.validatorValue);
    if altsR.Err? {
      return Err(altsR.failure);
    }
    var alts := altsR.value;
    var namesR := GetOneOfAlternativeNames(alts, root);
    if namesR.Err? {
      return Err(namesR.failure);
    }
    var altNames := namesR.value;
    var messageLines := [NoneHeader(altNames)];
    if |e.context| == 0 {
      return Err(ContextEmpty);
    }

    var grouped := GroupByAlternative(e.context, |e.absoluteSchemaPath|, altNames);
    if grouped.Err? {
      return Err(grouped.failure);
    }
    var (errorsByAlt, order) := grouped.value;
    ghost var keys := ContextAltNames(e.context, |e.absoluteSchemaPath|, altNames).value;
    NoneSatisfiedUnfold(e, root, isValid, alts, altNames, keys);
    DedupMembers(keys);

    r := AppendGroups(e, root, isValid, keys, errorsByAlt, order, messageLines);
  }

  /** Emits each group under its header, in the order the names were first met. */
  method AppendGroups(e: ValidationError, root: Json, isValid: Probe, ghost keys: seq<string>,
                      errorsByAlt: map<string, seq<ValidationError>>, order: seq<string>, lines: seq<string>)
    returns (r: Result<seq<string>>)
    requires |keys| == |e.context|
    requires forall k :: k in order ==> k in errorsByAlt && errorsByAlt[k] == Members(e.context, keys, k)
    ensures r == PrependLines(lines, GroupLinesFrom(e, root, isValid, keys, order, 0))
  {
    var messageLines := lines;
    ghost var target := PrependLines(lines, GroupLinesFrom(e, root, isValid, keys, order, 0));
    var g := 0;
    while g < |order|
      invariant 0 <= g <= |order|
      invariant target == PrependLines(messageLines, GroupLinesFrom(e, root, isValid, keys, order, g))
    {
      var altName := order[g];
      var altErrors := errorsByAlt[altName];
      var block := AlternativeBlockLines(e, root, isValid, altErrors);
      GroupStep(e, root, isValid, keys, order, g);
      if block.Err? {
        return Err(block.failure);
      }
      PrependTwice(messageLines, [GroupHeader(altName)] + block.value, GroupLinesFrom(e, root, isValid, keys, order, g + 1));
      messageLines := messageLines + ([GroupHeader(altName)] + block.value);
      g := g + 1;
    }
    GroupsDone(e, root, isValid, keys, order, messageLines);
    return Ok(messageLines);
  }

  // ---------------------------------------------------------------------
  // Properties of the composer

  /** Any keyword but "oneOf" gives the single line "In <location>: <message>". */
  lemma GenericErrorMessage(e: ValidationError, root: Json, isValid: Probe)
    requires e.validator != "oneOf"
    ensures MessageLines(e, root, isValid)
            == Ok(["In " + InstancePathToDescription(e.absolutePath) + ": " + e.message])
  {
  }

  /** Every message opens with its location, whichever explanation follows. */
  lemma MessageOpensWithLocation(e: ValidationError, root: Json, isValid: Probe)
    requires MessageLines(e, root, isValid).Ok?
    ensures |MessageLines(e, root, isValid).value| >= 1
    ensures StartsWith(MessageLines(e, root, isValid).value[0], "In " + InstancePathToDescription(e.absolutePath) + ":")
  {
    var location := InstancePathToDescription(e.absolutePath);
    var what := if e.validator == "oneOf" then
                  (if |e.context| > 0 then NoneSatisfiedLines(e, root, isValid)
                   else TooManySatisfiedLines(e, root, isValid))
                else Ok([e.message]);
    assert MessageLines(e, root, isValid) == Ok(Located(location, what.value));
    LocatedOpens(location, what.value);
  }

  /** "oneOf" without context errors: one line naming the alternatives and the satisfied ones. */
  lemma TooManyMessage(e: ValidationError, root: Json, isValid: Probe, alts: seq<Json>, names: seq<string>)
    requires e.validator == "oneOf" && e.context == []
    requires e.validatorValue == JArr(alts) && AlternativeNames(alts, root) == Ok(names)
    ensures MessageLines(e, root, isValid)
            == Ok(["In " + InstancePathToDescription(e.absolutePath) + ": "
                   + TooManyLine(names, SatisfiedNames(names, alts, root, e.instance, isValid))])
  {
  }

  /** "oneOf" with context errors: the location line, then the explanation indented. */
  lemma NoneSatisfiedMessage(e: ValidationError, root: Json, isValid: Probe)
    requires e.validator == "oneOf" && |e.context| > 0
    requires NoneSatisfiedLines(e, root, isValid).Ok?
    ensures MessageLines(e, root, isValid)
            == Ok(["In " + InstancePathToDescription(e.absolutePath) + ":"]
                  + Indented(NoneSatisfiedLines(e, root, isValid).value))
  {
  }

  /** One context error under alternative k: the header, one group header, and its lines indented. */
  lemma OneContextError(e: ValidationError, root: Json, isValid: Probe, alts: seq<Json>, names: seq<string>, k: nat, sub: seq<string>)
    requires e.validatorValue == JArr(alts) && AlternativeNames(alts, root) == Ok(names)
    requires |e.context| == 1 && k < |names|
    requires |e.context[0].absoluteSchemaPath| > |e.absoluteSchemaPath|
    requires e.context[0].absoluteSchemaPath[|e.absoluteSchemaPath|] == I(k)
    requires MessageLines(e.context[0], root, isValid) == Ok(sub)
    ensures NoneSatisfiedLines(e, root, isValid)
            == Ok([NoneHeader(names), GroupHeader(names[k])] + Indented(sub))
  {
    var keys := [names[k]];
    OneContextKeys(e.context, |e.absoluteSchemaPath|, names, k);
    DedupSingleton(names[k]);
    OneGroupLines(e, root, isValid, names[k], sub);
    NoneSatisfiedUnfold(e, root, isValid, alts, names, keys);
    TwoHeaders(NoneHeader(names), GroupHeader(names[k]), Indented(sub));
  }

  lemma TwoHeaders(a: string, b: string, rest: seq<string>)
    ensures PrependLines([a], Ok([b] + rest)) == Ok([a, b] + rest)
  {
    assert [a] + ([b] + rest) == [a, b] + rest;
  }

  lemma OneContextKeys(context: seq<ValidationError>, prefixLen: nat, names: seq<string>, k: nat)
    requires |context| == 1 && k < |names|
    requires |context[0].absoluteSchemaPath| > prefixLen && context[0].absoluteSchemaPath[prefixLen] == I(k)
    ensures ContextAltNames(context, prefixLen, names) == Ok([names[k]])
  {
    assert context[..0] == [];
    assert PyIndex(|names|, k) == Some(k);
    assert ContextAltName(context[0], prefixLen, names) == Ok(names[k]);
    assert [] + [names[k]] == [names[k]];
  }

  lemma OneGroupLines(e: ValidationError, root: Json, isValid: Probe, name: string, sub: seq<string>)
    requires |e.context| == 1
    requires MessageLines(e.context[0], root, isValid) == Ok(sub)
    ensures GroupLinesFrom(e, root, isValid, [name], [name], 0) == Ok([GroupHeader(name)] + Indented(sub))
  {
    var errs := [e.context[0]];
    assert [name][..0] == [] && e.context[..0] == [] && e.context == errs;
    assert Members(e.context, [name], name) == errs;
    BlockStep(e, root, isValid, errs, 0);
    PrependTwice(Indented(sub), [], Ok([]));
    assert Indented(sub) + [] == Indented(sub);
    assert BlockLines(e, root, isValid, errs, 0) == Ok(Indented(sub));
    GroupStep(e, root, isValid, [name], [name], 0);
    GroupsDone(e, root, isValid, [name], [name], [GroupHeader(name)] + Indented(sub));
  }

  /** When every alternative passes the probe, all names are listed as satisfied. */
  lemma TooManyAllSatisfied(e: ValidationError, root: Json, isValid: Probe, alts: seq<Json>, names: seq<string>)
    requires e.validatorValue == JArr(alts) && AlternativeNames(alts, root) == Ok(names)
    requires forall i :: 0 <= i < |alts| ==> isValid(root, alts[i], e.instance)
    ensures TooManySatisfiedLines(e, root, isValid) == Ok([TooManyLine(names, names)])
  {
    SatisfiedNamesExtremes(names, alts, root, e.instance, isValid);
  }

  // ---------------------------------------------------------------------
  // Entry points

  /** One error's message: its lines joined by newlines. */
  function ValidationErrorToMessage(e: ValidationError, root: Json, isValid: Probe): Result<string>
  {
    var lines :- MessageLines(e, root, isValid);
    Ok(Join(lines, "\n"))
  }

  /** When no line holds a newline, splitting the message at newlines gives back its lines. */
  lemma MessageSplitsIntoLines(e: ValidationError, root: Json, isValid: Probe)
    requires MessageLines(e, root, isValid).Ok?
    requires forall i :: 0 <= i < |MessageLines(e, root, isValid).value| ==> '\n' !in MessageLines(e, root, isValid).value[i]
    ensures Split(ValidationErrorToMessage(e, root, isValid).value, '\n') == MessageLines(e, root, isValid).value
  {
    MessageOpensWithLocation(e, root, isValid);
    JoinThenSplit(MessageLines(e, root, isValid).value, '\n');
  }

  /** The values of a list of results, or the failure of the first that failed. */
  function Collect(rs: seq<Result<string>>): (r: Result<seq<string>>)
    ensures r.Ok? ==> |r.value| == |rs| && forall i :: 0 <= i < |rs| ==> rs[i] == Ok(r.value[i])
  {
    if rs == [] then Ok([])
    else
      var prev :- Collect(rs[..|rs| - 1]);
      var last :- rs[|rs| - 1];
      Ok(prev + [last])
  }

  /** Collecting fails exactly when some result failed, and then with the first failure. */
  lemma {:induction false} CollectFails(rs: seq<Result<string>>)
    ensures Collect(rs).Err? <==> exists i :: 0 <= i < |rs| && rs[i].Err?
    ensures Collect(rs).Err? ==> exists i :: 0 <= i < |rs| && rs[i] == Err(Collect(rs).failure)
                                             && forall j :: 0 <= j < i ==> rs[j].Ok?
  {
    if rs != [] {
      var n := |rs| - 1;
      CollectFails(rs[..n]);
      if Collect(rs[..n]).Err? {
        var i :| 0 <= i < n && rs[..n][i] == Err(Collect(rs[..n]).failure) && forall j :: 0 <= j < i ==> rs[..n][j].Ok?;
        assert rs[i] == Err(Collect(rs).failure);
        assert forall j :: 0 <= j < i ==> rs[j] == rs[..n][j];
      } else {
        assert forall j :: 0 <= j < n ==> rs[j] == rs[..n][j];
        if rs[n].Err? {
          assert rs[n] == Err(Collect(rs).failure);
        }
      }
    }
  }

  lemma CollectSnoc(rs: seq<Result<string>>, m: string)
    requires Collect(rs).Ok?
    ensures Collect(rs + [Ok(m)]) == Ok(Collect(rs).value + [m])
  {
    assert (rs + [Ok(m)])[..|rs|] == rs;
  }

  /** Each error's message result, in input order. */
  function Rendered(es: seq<ValidationError>, root: Json, isValid: Probe): (r: seq<Result<string>>)
    ensures |r| == |es|
  {
    seq(|es|, i requires 0 <= i < |es| => ValidationErrorToMessage(es[i], root, isValid))
  }

  /** All errors' messages separated by blank lines. */
  function ValidationErrorsToMessage(es: seq<ValidationError>, root: Json, isValid: Probe): Result<string>
  {
    var messages :- Collect(Rendered(es, root, isValid));
    Ok(Join(messages, "\n\n"))
  }

  /** No errors give the empty message; one error gives its own message. */
  lemma ErrorsToMessageSmall(e: ValidationError, root: Json, isValid: Probe)
    ensures ValidationErrorsToMessage([], root, isValid) == Ok("")
    ensures ValidationErrorsToMessage([e], root, isValid) == ValidationErrorToMessage(e, root, isValid)
  {
    var rs := Rendered([e], root, isValid);
    assert rs[..0] == [];
    assert rs[0] == ValidationErrorToMessage(e, root, isValid);
  }

  /** One more error appends a blank line and its message. */
  lemma ErrorsToMessageAppend(es: seq<ValidationError>, e: ValidationError, root: Json, isValid: Probe)
    requires es != []
    requires ValidationErrorsToMessage(es, root, isValid).Ok?
    requires ValidationErrorToMessage(e, root, isValid).Ok?
    ensures ValidationErrorsToMessage(es + [e], root, isValid)
            == Ok(ValidationErrorsToMessage(es, root, isValid).value + "\n\n" + ValidationErrorToMessage(e, root, isValid).value)
  {
    var m := ValidationErrorToMessage(e, root, isValid).value;
    var rs := Rendered(es, root, isValid);
    assert Rendered(es + [e], root, isValid) == rs + [Ok(m)];
    CollectSnoc(rs, m);
    JoinAppend(Collect(rs).value, m, "\n\n");
  }

  /** The combined message fails exactly when one error's message fails, and then with the first such failure. */
  lemma ErrorsToMessageFails(es: seq<ValidationError>, root: Json, isValid: Probe)
    ensures ValidationErrorsToMessage(es, root, isValid).Err?
            <==> exists i :: 0 <= i < |es| && ValidationErrorToMessage(es[i], root, isValid).Err?
    ensures ValidationErrorsToMessage(es, root, isValid).Err? ==>
              exists i :: 0 <= i < |es| && ValidationErrorToMessage(es[i], root, isValid) == Err(ValidationErrorsToMessage(es, root, isValid).failure)
                          && forall j :: 0 <= j < i ==> ValidationErrorToMessage(es[j], root, isValid).Ok?
  {
    var rs := Rendered(es, root, isValid);
    CollectFails(rs);
    assert forall i :: 0 <= i < |es| ==> rs[i] == ValidationErrorToMessage(es[i], root, isValid);
    assert ValidationErrorsToMessage(es, root, isValid).Err? <==> Collect(rs).Err?;
    if Collect(rs).Err? {
      assert ValidationErrorsToMessage(es, root, isValid).failure == Collect(rs).failure;
    }
  }
}
