/**
 * Display names for the alternatives of a "oneOf": the title of each
 * (dereferenced) alternative, "Alternative #n" when there is none, with a
 * counter suffix on repeats.
 */
module AltNaming {
  import opened Results
  import opened PyText
  import opened JsonData
  import opened SchemaResolver
  import opened Paths

  /** What one alternative contributes: a name, or a number or boolean title. */
  datatype Candidate = Title(name: string) | NonStringTitle

  function FallbackName(idx: nat): string
  {
    "Alternative #" + IntToString(idx + 1)
  }

  /** The candidate name of the alternative at position `idx`. */
  function CandidateName(alt: Json, idx: nat, root: Json): (r: Result<Candidate>)
    ensures r.Ok? && r.value.Title? ==> r.value.name != ""
  {
    if alt.JObj? then
      var node :- ExtractBySchemaPath(MaxRefHops, [], root, alt);
      if !node.JObj? then Err(AlternativeNotMapping)
      else
        var title := if "title" in node.fields then node.fields["title"] else JNull;
        if !Truthy(title) then Ok(Title(FallbackName(idx)))
        else if title.JStr? then Ok(Title(title.str))
        else if title.JObj? || title.JArr? then Err(TitleUnhashable)
        else Ok(NonStringTitle)
    else Ok(Title(FallbackName(idx)))
  }

  /** The candidates of all alternatives, or the failure of the first one that fails. */
  function Candidates(alts: seq<Json>, root: Json): (r: Result<seq<Candidate>>)
    ensures r.Ok? ==> |r.value| == |alts|
  {
    if alts == [] then Ok([])
    else
      var prev :- Candidates(alts[..|alts| - 1], root);
      var c :- CandidateName(alts[|alts| - 1], |alts| - 1, root);
      Ok(prev + [c])
  }

  /** The string names among the candidates, in order. */
  function TitlesIn(cs: seq<Candidate>): seq<string>
  {
    if cs == [] then []
    else TitlesIn(cs[..|cs| - 1]) + (if cs[|cs| - 1].Title? then [cs[|cs| - 1].name] else [])
  }

  predicate AllTitles(cs: seq<Candidate>)
  {
    forall i :: 0 <= i < |cs| ==> cs[i].Title?
  }

  lemma {:induction false} TitlesInAll(cs: seq<Candidate>)
    requires AllTitles(cs)
    ensures |TitlesIn(cs)| == |cs|
    ensures forall i :: 0 <= i < |cs| ==> TitlesIn(cs)[i] == cs[i].name
  {
    if cs != [] { TitlesInAll(cs[..|cs| - 1]); }
  }

  /** Once a prefix fails, the whole sequence fails the same way. */
  lemma {:induction false} CandidatesFailureStays(alts: seq<Json>, n: nat, root: Json)
    requires n <= |alts|
    requires Candidates(alts[..n], root).Err?
    ensures Candidates(alts, root) == Candidates(alts[..n], root)
    decreases |alts| - n
  {
    if n < |alts| {
      assert alts[..n + 1][..n] == alts[..n];
      CandidatesFailureStays(alts, n + 1, root);
    } else {
      assert alts[..n] == alts;
    }
  }

  lemma CandidatesSnoc(cs: seq<Candidate>, c: Candidate)
    ensures AllTitles(cs + [c]) == (AllTitles(cs) && c.Title?)
    ensures TitlesIn(cs + [c]) == TitlesIn(cs) + (if c.Title? then [c.name] else [])
  {
    assert (cs + [c])[..|cs|] == cs;
    assert (cs + [c])[|cs|] == c;
    if AllTitles(cs) && c.Title? {
      forall i | 0 <= i < |cs| + 1 ensures (cs + [c])[i].Title? {
        if i < |cs| { assert (cs + [c])[i] == cs[i]; }
      }
    }
    if AllTitles(cs + [c]) {
      forall i | 0 <= i < |cs| ensures cs[i].Title? { assert (cs + [c])[i] == cs[i]; }
    }
  }

  function Occurrences(s: seq<string>, x: string): nat
  {
    multiset(s)[x]
  }

  /** The first occurrence keeps its name; the k-th repeat becomes name(k+1). */
  function Suffixed(name: string, repeats: nat): string
  {
    if repeats == 0 then name else name + "(" + IntToString(repeats + 1) + ")"
  }

  /** Reference definition of the naming: each name suffixed by how often it occurred before. */
  function Uniquified(titles: seq<string>): (r: seq<string>)
    ensures |r| == |titles|
    ensures forall i :: 0 <= i < |titles| ==> titles[i] <= r[i]
  {
    seq(|titles|, i requires 0 <= i < |titles| => Suffixed(titles[i], Occurrences(titles[..i], titles[i])))
  }

  /** One name per alternative, in order; a non-string title fails the way ", ".join would. */
  function AlternativeNames(alts: seq<Json>, root: Json): (r: Result<seq<string>>)
    ensures r.Ok? ==> |r.value| == |alts|
  {
    var cs :- Candidates(alts, root);
    if AllTitles(cs) then
      TitlesInAll(cs);
      Ok(Uniquified(TitlesIn(cs)))
    else Err(TitleNotString)
  }

  function CountOf(counts: map<string, nat>, name: string): nat
  {
    if name in counts then counts[name] else 0
  }

  lemma UniquifiedSnoc(titles: seq<string>, t: string)
    ensures Uniquified(titles + [t]) == Uniquified(titles) + [Suffixed(t, Occurrences(titles, t))]
  {
    var l, r := Uniquified(titles + [t]), Uniquified(titles) + [Suffixed(t, Occurrences(titles, t))];
    forall i | 0 <= i < |l| ensures l[i] == r[i] {
      if i < |titles| {
        assert (titles + [t])[..i] == titles[..i];
      } else {
        assert (titles + [t])[..i] == titles;
      }
    }
  }

  lemma CountsSnoc(counts: map<string, nat>, titles: seq<string>, name: string)
    requires forall k :: CountOf(counts, k) == Occurrences(titles, k)
    ensures forall k :: CountOf(counts[name := CountOf(counts, name) + 1], k) == Occurrences(titles + [name], k)
  {
    var counts' := counts[name := CountOf(counts, name) + 1];
    forall k ensures CountOf(counts', k) == Occurrences(titles + [name], k) {
      assert multiset(titles + [name]) == multiset(titles) + multiset{name};
      assert CountOf(counts, k) == Occurrences(titles, k);
    }
  }

  lemma CandidatesStep(alts: seq<Json>, idx: nat, root: Json, cs: seq<Candidate>, c: Result<Candidate>)
    requires idx < |alts| && Candidates(alts[..idx], root) == Ok(cs)
    requires c == CandidateName(alts[idx], idx, root)
    ensures c.Ok? ==> Candidates(alts[..idx + 1], root) == Ok(cs + [c.value])
    ensures c.Err? ==> Candidates(alts, root) == Err(c.failure)
  {
    assert alts[..idx + 1][..idx] == alts[..idx];
    if c.Err? {
      CandidatesFailureStays(alts, idx + 1, root);
    }
  }

  lemma NamesFromCandidates(alts: seq<Json>, root: Json, cs: seq<Candidate>)
    requires Candidates(alts, root) == Ok(cs)
    ensures AlternativeNames(alts, root) == if AllTitles(cs) then Ok(Uniquified(TitlesIn(cs))) else Err(TitleNotString)
  {
  }

  /** Names the alternatives, counting each name in a map as it goes. */
  method GetOneOfAlternativeNames(alts: seq<Json>, root: Json) returns (r: Result<seq<string>>)
    ensures r == AlternativeNames(alts, root)
  {
    var nameCounts: map<string, nat> := map[];
    var names: seq<string> := [];
    var sawNonString := false;
    ghost var cs: seq<Candidate> := [];
    for idx := 0 to |alts|
      invariant Candidates(alts[..idx], root) == Ok(cs)
      invariant sawNonString == !AllTitles(cs)
      invariant names == Uniquified(TitlesIn(cs))
      invariant forall k :: CountOf(nameCounts, k) == Occurrences(TitlesIn(cs), k)
    {
      var c := CandidateName(alts[idx], idx, root);
      CandidatesStep(alts, idx, root, cs, c);
      if c.Err? {
        return Err(c.failure);
      }
      nameCounts, names, sawNonString := CountCandidate(c.value, nameCounts, names, sawNonString, cs);
      cs := cs + [c.value];
    }
    assert alts[..|alts|] == alts;
    NamesFromCandidates(alts, root, cs);
    if sawNonString {
      return Err(TitleNotString);
    }
    return Ok(names);
  }

  /** The loop body: count a title and append its (possibly suffixed) name, or note a non-string title. */
  method CountCandidate(c: Candidate, nameCounts: map<string, nat>, names: seq<string>, sawNonString: bool,
                        ghost cs: seq<Candidate>)
    returns (nameCounts': map<string, nat>, names': seq<string>, sawNonString': bool)
    requires sawNonString == !AllTitles(cs)
    requires names == Uniquified(TitlesIn(cs))
    requires forall k :: CountOf(nameCounts, k) == Occurrences(TitlesIn(cs), k)
    ensures sawNonString' == !AllTitles(cs + [c])
    ensures names' == Uniquified(TitlesIn(cs + [c]))
    ensures forall k :: CountOf(nameCounts', k) == Occurrences(TitlesIn(cs + [c]), k)
  {
    CandidatesSnoc(cs, c);
    nameCounts', names', sawNonString' := nameCounts, names, sawNonString;
    if c.NonStringTitle? {
      assert TitlesIn(cs) + [] == TitlesIn(cs);
      sawNonString' := true;
    } else {
      var name := c.name;
      var nameCount := CountOf(nameCounts, name);
      CountsSnoc(nameCounts, TitlesIn(cs), name);
      UniquifiedSnoc(TitlesIn(cs), name);
      nameCounts' := nameCounts[name := nameCount + 1];
      names' := names + [Suffixed(name, nameCount)];
    }
  }

  /** A non-mapping alternative (a boolean schema, say) is named by its position. */
  lemma NonMappingUsesFallback(alt: Json, idx: nat, root: Json)
    requires !alt.JObj?
    ensures CandidateName(alt, idx, root) == Ok(Title(FallbackName(idx)))
  {
  }

  /**
   * A mapping alternative is named after the node it dereferences to: the
   * dereference's failure, an error when that node is not a mapping, its
   * title when that is a non-empty string, the position when the title is
   * missing or falsy, a failure for a list or mapping title, and a
   * non-string candidate for a number or boolean title.
   */
  lemma MappingCandidate(fields: map<string, Json>, idx: nat, root: Json)
    ensures var d := ExtractBySchemaPath(MaxRefHops, [], root, JObj(fields));
            var c := CandidateName(JObj(fields), idx, root);
            (d.Err? ==> c == Err(d.failure))
            && (d.Ok? && !d.value.JObj? ==> c == Err(AlternativeNotMapping))
            && (d.Ok? && d.value.JObj? && ("title" !in d.value.fields || !Truthy(d.value.fields["title"]))
                ==> c == Ok(Title(FallbackName(idx))))
            && (d.Ok? && d.value.JObj? && "title" in d.value.fields && d.value.fields["title"].JStr?
                && d.value.fields["title"].str != ""
                ==> c == Ok(Title(d.value.fields["title"].str)))
            && (d.Ok? && d.value.JObj? && "title" in d.value.fields && Truthy(d.value.fields["title"])
                && (d.value.fields["title"].JArr? || d.value.fields["title"].JObj?)
                ==> c == Err(TitleUnhashable))
            && (d.Ok? && d.value.JObj? && "title" in d.value.fields && Truthy(d.value.fields["title"])
                && (d.value.fields["title"].JNum? || d.value.fields["title"].JBool?)
                ==> c == Ok(NonStringTitle))
  {
  }

  /**
   * A mapping alternative without a reference is named by its title, or by
   * its position when the title is absent or falsy; a non-empty list title
   * cannot be counted and fails, and a non-zero number or true title is a
   * non-string candidate.
   */
  lemma MappingUsesTitle(fields: map<string, Json>, idx: nat, root: Json)
    requires "$ref" !in fields
    ensures "title" !in fields ==> CandidateName(JObj(fields), idx, root) == Ok(Title(FallbackName(idx)))
    ensures "title" in fields && !Truthy(fields["title"])
            ==> CandidateName(JObj(fields), idx, root) == Ok(Title(FallbackName(idx)))
    ensures "title" in fields && fields["title"].JStr? && fields["title"].str != ""
            ==> CandidateName(JObj(fields), idx, root) == Ok(Title(fields["title"].str))
    ensures "title" in fields && fields["title"].JArr? && fields["title"].items != []
            ==> CandidateName(JObj(fields), idx, root) == Err(TitleUnhashable)
    ensures "title" in fields && (fields["title"] == JBool(true) || (fields["title"].JNum? && fields["title"].num != 0))
            ==> CandidateName(JObj(fields), idx, root) == Ok(NonStringTitle)
  {
  }

  /**
   * An alternative {"$ref": ref, ...} is named by the title of the node the
   * reference reaches from the root (with one hop of the bound spent), or by
   * its position when that node has no usable title.
   */
  lemma ReferenceAlternativeUsesTargetTitle(fields: map<string, Json>, ref: string, idx: nat, root: Json,
                                            target: map<string, Json>)
    requires "$ref" in fields && fields["$ref"] == JStr(ref)
    requires ExtractBySchemaPath(MaxRefHops - 1, Keys(SchemaReferenceToPath(ref)), root, root) == Ok(JObj(target))
    ensures "title" in target && target["title"].JStr? && target["title"].str != ""
            ==> CandidateName(JObj(fields), idx, root) == Ok(Title(target["title"].str))
    ensures ("title" !in target || !Truthy(target["title"]))
            ==> CandidateName(JObj(fields), idx, root) == Ok(Title(FallbackName(idx)))
  {
    ReferenceRestartsFromRoot(MaxRefHops, [], root, fields, ref);
    assert Keys(SchemaReferenceToPath(ref)) + [] == Keys(SchemaReferenceToPath(ref));
  }

  /** Candidate i is exactly what alternative i contributes. */
  lemma {:induction false} CandidatesAt(alts: seq<Json>, root: Json)
    ensures Candidates(alts, root).Ok?
            ==> forall i :: 0 <= i < |alts| ==> CandidateName(alts[i], i, root) == Ok(Candidates(alts, root).value[i])
  {
    if alts != [] && Candidates(alts, root).Ok? {
      var n := |alts| - 1;
      var init := alts[..n];
      CandidatesAt(init, root);
      assert forall i :: 0 <= i < n ==> init[i] == alts[i];
    }
  }

  /** The candidates exist whenever every alternative contributes one. */
  lemma {:induction false} CandidatesAllOk(alts: seq<Json>, root: Json)
    requires forall i :: 0 <= i < |alts| ==> CandidateName(alts[i], i, root).Ok?
    ensures Candidates(alts, root).Ok?
  {
    if alts != [] {
      var n := |alts| - 1;
      var init := alts[..n];
      assert forall i :: 0 <= i < n ==> init[i] == alts[i];
      CandidatesAllOk(init, root);
    }
  }

  /** The first alternative without a candidate decides the failure of the candidates and of the names. */
  lemma CandidatesFirstFailure(alts: seq<Json>, root: Json, k: nat)
    requires k < |alts|
    requires forall j :: 0 <= j < k ==> CandidateName(alts[j], j, root).Ok?
    requires CandidateName(alts[k], k, root).Err?
    ensures Candidates(alts, root) == Err(CandidateName(alts[k], k, root).failure)
    ensures AlternativeNames(alts, root) == Err(CandidateName(alts[k], k, root).failure)
  {
    var init := alts[..k];
    assert forall j :: 0 <= j < k ==> init[j] == alts[j];
    CandidatesAllOk(init, root);
    var cs := Candidates(init, root).value;
    CandidatesStep(alts, k, root, cs, CandidateName(alts[k], k, root));
  }

  /** When alternative i is titled titles[i] for every i, the names are the uniquified titles, in input order. */
  lemma AlternativeNamesFromTitles(alts: seq<Json>, root: Json, titles: seq<string>)
    requires |titles| == |alts|
    requires forall i :: 0 <= i < |alts| ==> CandidateName(alts[i], i, root) == Ok(Title(titles[i]))
    ensures AlternativeNames(alts, root) == Ok(Uniquified(titles))
  {
    CandidatesAllOk(alts, root);
    CandidatesAt(alts, root);
    var cs := Candidates(alts, root).value;
    assert AllTitles(cs);
    TitlesInAll(cs);
    assert TitlesIn(cs) == titles;
  }

  /** Names exist only when every alternative has a string name. */
  lemma AlternativeNamesAreTitles(alts: seq<Json>, root: Json)
    ensures AlternativeNames(alts, root).Ok?
            ==> forall i :: 0 <= i < |alts| ==> CandidateName(alts[i], i, root).Ok? && CandidateName(alts[i], i, root).value.Title?
  {
    CandidatesAt(alts, root);
  }

  /** A number or boolean title, once every alternative has a candidate, fails the naming as a whole. */
  lemma AlternativeNamesNonString(alts: seq<Json>, root: Json, k: nat)
    requires forall i :: 0 <= i < |alts| ==> CandidateName(alts[i], i, root).Ok?
    requires k < |alts| && CandidateName(alts[k], k, root) == Ok(NonStringTitle)
    ensures AlternativeNames(alts, root) == Err(TitleNotString)
  {
    CandidatesAllOk(alts, root);
    CandidatesAt(alts, root);
  }

  /** A name seen before is suffixed by its count; a first occurrence is unchanged. */
  lemma UniquifiedAt(titles: seq<string>, i: nat)
    requires i < |titles|
    ensures titles[i] !in titles[..i] ==> Uniquified(titles)[i] == titles[i]
    ensures titles[i] in titles[..i]
            ==> Uniquified(titles)[i] == titles[i] + "(" + IntToString(Occurrences(titles[..i], titles[i]) + 1) + ")"
  {
  }

  lemma UniquifiedExample()
    ensures Uniquified(["A", "A", "B"]) == ["A", "A(2)", "B"]
  {
    var t := ["A", "A", "B"];
    var u := Uniquified(t);
    assert t[..0] == [] && t[..1] == ["A"] && t[..2] == ["A", "A"];
    assert Occurrences(t[..1], "A") == 1;
    assert Occurrences(t[..2], "B") == 0;
    assert IntToString(2) == "2";
    assert u[0] == Suffixed("A", 0) == "A";
    assert u[1] == Suffixed("A", 1) == "A(2)";
    assert u[2] == Suffixed("B", 0) == "B";
  }

  /** The suffixes do not always make names unique: titles A, A, A(2) give A, A(2), A(2). */
  lemma UniquifiedCanRepeat()
    ensures Uniquified(["A", "A", "A(2)"]) == ["A", "A(2)", "A(2)"]
  {
    var t := ["A", "A", "A(2)"];
    var u := Uniquified(t);
    assert t[..0] == [] && t[..1] == ["A"] && t[..2] == ["A", "A"];
    assert Occurrences(t[..1], "A") == 1;
    assert "A" != "A(2)";
    assert Occurrences(t[..2], "A(2)") == 0;
    assert IntToString(2) == "2";
    assert u[0] == Suffixed("A", 0) == "A";
    assert u[1] == Suffixed("A", 1) == "A(2)";
    assert u[2] == Suffixed("A(2)", 0) == "A(2)";
  }

  /** The text before the first "(". */
  function BeforeParen(s: string): string
  {
    if s == [] || s[0] == '(' then [] else [s[0]] + BeforeParen(s[1..])
  }

  lemma {:induction false} BeforeParenOf(b: string, rest: string)
    requires '(' !in b
    ensures BeforeParen(b) == b
    ensures BeforeParen(b + "(" + rest) == b
  {
    if b != [] {
      BeforeParenOf(b[1..], rest);
      assert (b + "(" + rest)[1..] == b[1..] + "(" + rest;
    }
  }

  lemma OccurrencesGrow(t: seq<string>, i: nat, j: nat)
    requires i < j <= |t|
    ensures Occurrences(t[..j], t[i]) >= Occurrences(t[..i], t[i]) + 1
  {
    assert t[..j] == t[..i] + [t[i]] + t[i + 1..j];
  }

  /** Two suffixed names are equal only when their base names and counts are. */
  lemma SuffixedInjective(a: string, ca: nat, b: string, cb: nat)
    requires '(' !in a && '(' !in b
    requires Suffixed(a, ca) == Suffixed(b, cb)
    ensures a == b && ca == cb
  {
    var da, db := IntToString(ca + 1) + ")", IntToString(cb + 1) + ")";
    BeforeParenOf(a, da);
    BeforeParenOf(b, db);
    var sa, sb := Suffixed(a, ca), Suffixed(b, cb);
    assert ca != 0 ==> sa == a + "(" + da;
    assert cb != 0 ==> sb == b + "(" + db;
    assert a == b;
    if ca != 0 && cb != 0 {
      var p := a + "(";
      assert sa == p + da && sb == p + db;
      assert da == sa[|p|..] == sb[|p|..] == db;
      assert IntToString(ca + 1) == da[..|da| - 1] == db[..|db| - 1] == IntToString(cb + 1);
      IntToStringInjective(ca + 1, cb + 1);
    }
  }

  /** When no title contains "(", the names are pairwise distinct. */
  lemma UniquifiedDistinct(titles: seq<string>)
    requires forall i :: 0 <= i < |titles| ==> '(' !in titles[i]
    ensures forall i, j :: 0 <= i < j < |titles| ==> Uniquified(titles)[i] != Uniquified(titles)[j]
  {
    var u := Uniquified(titles);
    forall i, j | 0 <= i < j < |titles| ensures u[i] != u[j] {
      var ci, cj := Occurrences(titles[..i], titles[i]), Occurrences(titles[..j], titles[j]);
      if u[i] == u[j] {
        SuffixedInjective(titles[i], ci, titles[j], cj);
        OccurrencesGrow(titles, i, j);
      }
    }
  }
}
