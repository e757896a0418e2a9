/** The structural JSON comparator (internal/compare/compare.go).

    Go's comparator walks two decoded values and appends path-tagged differences to a shared
    slice. The methods below do the same over a sequence accumulator: each takes the diffs so
    far and returns them extended. Go visits map keys in an unspecified order; the methods pick
    the next key with `:|`, so every order is allowed. What the methods append is specified,
    up to that order, by the ghost multiset function `Diffs`, and the lemmas state the
    comparator's properties about `Diffs`. */
module Compare {
  import opened Wrappers
  import opened Types
  import Text

  // ---------------------------------------------------------------------------------------
  // Paths

  /** `joinPath`: object keys joined with dots; the root contributes nothing. */
  function JoinPath(base: string, key: string): (r: string)
    ensures base == "" ==> r == key
    ensures base != "" ==> |r| == |base| + 1 + |key| && r[..|base|] == base && r[|base|] == '.'
                           && r[|base| + 1..] == key
  {
    if base == "" then key else base + "." + key
  }

  /** `pathOrRoot`: the empty path is shown as "(root)"; a reported path is never empty. */
  function PathOrRoot(path: string): (r: string)
    ensures r != ""
    ensures path == "" ==> r == "(root)"
    ensures path != "" ==> r == path
  {
    if path == "" then "(root)" else path
  }

  /** `fmt.Sprintf("%s[%d]", path, i)`: the path of array element `i`. */
  function IndexPath(path: string, i: nat): (r: string)
    ensures |r| == |path| + |Text.NatToString(i)| + 2
    ensures r[..|path|] == path && r[|path|] == '[' && r[|r| - 1] == ']'
    ensures r[|path| + 1..|r| - 1] == Text.NatToString(i)
  {
    path + "[" + Text.NatToString(i) + "]"
  }

  /** Distinct elements of one array get distinct paths. */
  lemma IndexPathInjective(path: string, i: nat, j: nat)
    requires IndexPath(path, i) == IndexPath(path, j)
    ensures i == j
  {
    var r := IndexPath(path, i);
    assert Text.NatToString(i) == r[|path| + 1..|r| - 1] == Text.NatToString(j);
    Text.NatToStringInjective(i, j);
  }

  // ---------------------------------------------------------------------------------------
  // Dynamic kinds: what `reflect.TypeOf` distinguishes among non-nil decoded values

  datatype Kind = NilKind | BoolKind | NumberKind | StringKind | ObjectKind | ArrayKind

  function KindOf(v: Json): Kind
  {
    match v
    case Null => NilKind
    case Bool(_) => BoolKind
    case Number(_) => NumberKind
    case Str(_) => StringKind
    case Object(_) => ObjectKind
    case Array(_) => ArrayKind
  }

  function Max(a: int, b: int): int { if a < b then b else a }

  // ---------------------------------------------------------------------------------------
  // Order-free sums of diff multisets

  /** The diffs contributed by every key of `keys`, in no particular order. */
  ghost function BagSum(keys: set<string>, f: string -> multiset<FieldDiff>): multiset<FieldDiff>
    decreases keys
  {
    if keys == {} then multiset{} else var k :| k in keys; f(k) + BagSum(keys - {k}, f)
  }

  /** The diffs contributed by indices `0 .. n-1`. */
  ghost function IndexSum(n: nat, f: nat -> multiset<FieldDiff>): multiset<FieldDiff>
  {
    if n == 0 then multiset{} else IndexSum(n - 1, f) + f(n - 1)
  }

  // ---------------------------------------------------------------------------------------
  // Specification of what the comparator reports

  /** What `compareValues(path, expected, actual, ...)` appends, as a multiset. */
  ghost function Diffs(path: string, expected: Json, actual: Json): multiset<FieldDiff>
    decreases expected, 3
  {
    if expected.Null? && actual.Null? then multiset{}
    else if expected.Null? || actual.Null? then multiset{FieldDiff(PathOrRoot(path), expected, actual)}
    else if KindOf(expected) != KindOf(actual) then multiset{FieldDiff(PathOrRoot(path), expected, actual)}
    else match expected
      case Object(em) =>
        ExpectedPassDiffs(path, em, actual.fields) + ExtraPassDiffs(path, em, actual.fields)
      case Array(xs) => ElementsDiffs(path, xs, actual.items)
      case _ => if expected == actual then multiset{} else multiset{FieldDiff(PathOrRoot(path), expected, actual)}
  }

  /** First object pass: one contribution per key of `expected`. */
  ghost function ExpectedPassDiffs(path: string, em: map<string, Json>, am: map<string, Json>): multiset<FieldDiff>
    decreases Json.Object(em), 2
  {
    BagSum(em.Keys, ExpectedKeyFn(path, em, am))
  }

  ghost function ExpectedKeyFn(path: string, em: map<string, Json>, am: map<string, Json>): string -> multiset<FieldDiff>
    decreases Json.Object(em), 1
  {
    k => ExpectedKeyDiffs(path, em, am, k)
  }

  /** A key of `expected`: recurse when `actual` has it (even with a null value), otherwise
      report it missing. */
  ghost function ExpectedKeyDiffs(path: string, em: map<string, Json>, am: map<string, Json>, k: string): multiset<FieldDiff>
    decreases Json.Object(em), 0
  {
    if k !in em then multiset{}
    else if k in am then Diffs(JoinPath(path, k), em[k], am[k])
    else multiset{FieldDiff(JoinPath(path, k), em[k], Null)}
  }

  /** Second object pass: the keys of `actual` that `expected` lacks. */
  ghost function ExtraPassDiffs(path: string, em: map<string, Json>, am: map<string, Json>): multiset<FieldDiff>
  {
    BagSum(am.Keys, ExtraKeyFn(path, em, am))
  }

  ghost function ExtraKeyFn(path: string, em: map<string, Json>, am: map<string, Json>): string -> multiset<FieldDiff>
  {
    k => ExtraKeyDiffs(path, em, am, k)
  }

  ghost function ExtraKeyDiffs(path: string, em: map<string, Json>, am: map<string, Json>, k: string): multiset<FieldDiff>
  {
    if k in am && k !in em then multiset{FieldDiff(JoinPath(path, k), Null, am[k])} else multiset{}
  }

  /** Both passes together, key by key over the union of the key sets (used by the proofs). */
  ghost function KeyFn(path: string, em: map<string, Json>, am: map<string, Json>): string -> multiset<FieldDiff>
  {
    k => ExpectedKeyDiffs(path, em, am, k) + ExtraKeyDiffs(path, em, am, k)
  }

  /** Arrays: indices `0 .. max(len)-1`. */
  ghost function ElementsDiffs(path: string, xs: seq<Json>, ys: seq<Json>): multiset<FieldDiff>
    decreases Json.Array(xs), 2
  {
    IndexSum(Max(|xs|, |ys|), ElementFn(path, xs, ys))
  }

  ghost function ElementFn(path: string, xs: seq<Json>, ys: seq<Json>): nat -> multiset<FieldDiff>
    decreases Json.Array(xs), 1
  {
    (i: nat) => ElementDiffs(path, xs, ys, i)
  }

  /** Index `i`: one-sided beyond the shorter array, recursive where both have an element. */
  ghost function ElementDiffs(path: string, xs: seq<Json>, ys: seq<Json>, i: nat): multiset<FieldDiff>
    decreases Json.Array(xs), 0
  {
    if i >= |xs| then (if i < |ys| then multiset{FieldDiff(IndexPath(path, i), Null, ys[i])} else multiset{})
    else if i >= |ys| then multiset{FieldDiff(IndexPath(path, i), xs[i], Null)}
    else Diffs(IndexPath(path, i), xs[i], ys[i])
  }

  // ---------------------------------------------------------------------------------------
  // The comparator

  /** The parse stage of `Compare`: `decode` stands for `json.Unmarshal`. */
  function ParseBoth(expected: string, actual: string, decode: string -> Result<Json, string>): (r: Result<(Json, Json), string>)
  {
    match decode(expected)
    case Failure(err) => Failure("failed to parse expected JSON: " + err)
    case Success(e) =>
      match decode(actual)
      case Failure(err) => Failure("failed to parse actual JSON: " + err)
      case Success(a) => Success((e, a))
  }

  /** `Compare`: an error and no diffs when either side does not parse; otherwise the diffs
      of the two values from the root, which are absent exactly when the values are equal. */
  method Compare(expected: string, actual: string, decode: string -> Result<Json, string>)
    returns (r: Result<seq<FieldDiff>, string>)
    ensures ParseBoth(expected, actual, decode).Failure? ==> r == Failure(ParseBoth(expected, actual, decode).error)
    ensures ParseBoth(expected, actual, decode).Success? ==>
              r.Success? && multiset(r.value) == Diffs("", decode(expected).value, decode(actual).value)
    ensures r.Success? ==> (r.value == [] <==> decode(expected).value == decode(actual).value)
  {
    var parsed := ParseBoth(expected, actual, decode);
    if parsed.Failure? {
      return Failure(parsed.error);
    }
    var diffs := CompareValues("", parsed.value.0, parsed.value.1, []);
    assert diffs[0..] == diffs;
    r := Success(diffs);
  }

  /** `compareValues`: appends to `diffs` and leaves what was there in place. */
  method CompareValues(path: string, expected: Json, actual: Json, diffs: seq<FieldDiff>) returns (r: seq<FieldDiff>)
    decreases expected, 4
    ensures |diffs| <= |r| && r[..|diffs|] == diffs
    ensures multiset(r[|diffs|..]) == Diffs(path, expected, actual)
    ensures expected.Null? != actual.Null? ==> r == diffs + [FieldDiff(PathOrRoot(path), expected, actual)]
    ensures !expected.Null? && !actual.Null? && KindOf(expected) != KindOf(actual) ==>
              r == diffs + [FieldDiff(PathOrRoot(path), expected, actual)]
    ensures r == diffs <==> expected == actual
  {
    if expected.Null? && actual.Null? {
      r := diffs;
    } else if expected.Null? || actual.Null? {
      r := diffs + [FieldDiff(PathOrRoot(path), expected, actual)];
    } else if KindOf(expected) != KindOf(actual) {
      r := diffs + [FieldDiff(PathOrRoot(path), expected, actual)];
    } else {
      r := CompareSameKind(path, expected, actual, diffs);
    }
    NothingAppended(path, expected, actual, diffs, r);
  }

  /** The type switch of `compareValues`, once both sides are non-nil values of one kind. */
  method CompareSameKind(path: string, expected: Json, actual: Json, diffs: seq<FieldDiff>) returns (r: seq<FieldDiff>)
    requires !expected.Null? && !actual.Null? && KindOf(expected) == KindOf(actual)
    decreases expected, 3
    ensures |diffs| <= |r| && r[..|diffs|] == diffs
    ensures multiset(r[|diffs|..]) == Diffs(path, expected, actual)
  {
    match expected {
      case Object(em) =>
        ghost var cut;
        r, cut := CompareObjects(path, em, actual.fields, diffs);
        assert r[|diffs|..] == r[|diffs|..cut] + r[cut..];
        ObjectDiffs(path, em, actual.fields);
      case Array(xs) =>
        ghost var cuts;
        r, cuts := CompareArrays(path, xs, actual.items, diffs);
        ArrayDiffs(path, xs, actual.items);
      case _ =>
        ScalarDiffs(path, expected, actual);
        if expected != actual {
          r := diffs + [FieldDiff(PathOrRoot(path), expected, actual)];
        } else {
          r := diffs;
        }
    }
  }

  /** The accumulator is unchanged exactly when the two values are equal. */
  lemma NothingAppended(path: string, expected: Json, actual: Json, diffs: seq<FieldDiff>, r: seq<FieldDiff>)
    requires |diffs| <= |r| && r[..|diffs|] == diffs
    requires multiset(r[|diffs|..]) == Diffs(path, expected, actual)
    ensures r == diffs <==> expected == actual
  {
    NoDiffsIffEqual(path, expected, actual);
    assert r == diffs <==> r[|diffs|..] == [];
  }

  /** `compareObjects`: the first pass's diffs, then (from `cut` on) the second pass's. */
  method CompareObjects(path: string, expected: map<string, Json>, actual: map<string, Json>, diffs: seq<FieldDiff>)
    returns (r: seq<FieldDiff>, ghost cut: nat)
    decreases Json.Object(expected), 2
    ensures |diffs| <= cut <= |r| && r[..|diffs|] == diffs
    ensures multiset(r[|diffs|..cut]) == ExpectedPassDiffs(path, expected, actual)
    ensures multiset(r[cut..]) == ExtraPassDiffs(path, expected, actual)
  {
    var firstPass := ExpectedPass(path, expected, actual, diffs);
    cut := |firstPass|;
    r := ExtraPass(path, expected, actual, firstPass);
    assert r[..|diffs|] == firstPass[..|diffs|];
    assert r[|diffs|..cut] == firstPass[|diffs|..];
  }

  /** Two objects contribute the diffs of both passes. */
  lemma ObjectDiffs(path: string, em: map<string, Json>, am: map<string, Json>)
    ensures Diffs(path, Object(em), Object(am)) == ExpectedPassDiffs(path, em, am) + ExtraPassDiffs(path, em, am)
  {
  }

  /** Two scalars of one kind contribute one diff exactly when they differ. */
  lemma ScalarDiffs(path: string, e: Json, a: Json)
    requires !e.Null? && !a.Null? && KindOf(e) == KindOf(a) && !e.Object? && !e.Array?
    ensures e == a ==> Diffs(path, e, a) == multiset{}
    ensures e != a ==> Diffs(path, e, a) == multiset{FieldDiff(PathOrRoot(path), e, a)}
  {
  }

  /** Two arrays contribute the diffs of their indices. */
  lemma ArrayDiffs(path: string, xs: seq<Json>, ys: seq<Json>)
    ensures Diffs(path, Array(xs), Array(ys)) == ElementsDiffs(path, xs, ys)
  {
  }

  /** The first loop of `compareObjects`: every key of `expected`, in any order. */
  method ExpectedPass(path: string, expected: map<string, Json>, actual: map<string, Json>, diffs: seq<FieldDiff>)
    returns (r: seq<FieldDiff>)
    decreases Json.Object(expected), 1
    ensures |diffs| <= |r| && r[..|diffs|] == diffs
    ensures multiset(r[|diffs|..]) == ExpectedPassDiffs(path, expected, actual)
  {
    r := diffs;
    var pending := expected.Keys;
    while pending != {}
      invariant pending <= expected.Keys
      invariant |diffs| <= |r| && r[..|diffs|] == diffs
      invariant multiset(r[|diffs|..]) == BagSum(expected.Keys - pending, ExpectedKeyFn(path, expected, actual))
      decreases pending
    {
      var key :| key in pending;
      var newPath := JoinPath(path, key);
      ghost var before := r;
      if key in actual {
        r := CompareValues(newPath, expected[key], actual[key], r);
      } else {
        r := r + [FieldDiff(newPath, expected[key], Null)];
      }
      PassStep(diffs, before, r, expected.Keys, pending, key, ExpectedKeyFn(path, expected, actual));
      pending := pending - {key};
    }
    assert expected.Keys - pending == expected.Keys;
  }

  /** The second loop of `compareObjects`: the keys of `actual` that `expected` lacks. */
  method ExtraPass(path: string, expected: map<string, Json>, actual: map<string, Json>, diffs: seq<FieldDiff>)
    returns (r: seq<FieldDiff>)
    ensures |diffs| <= |r| && r[..|diffs|] == diffs
    ensures multiset(r[|diffs|..]) == ExtraPassDiffs(path, expected, actual)
  {
    r := diffs;
    var pending := actual.Keys;
    while pending != {}
      invariant pending <= actual.Keys
      invariant |diffs| <= |r| && r[..|diffs|] == diffs
      invariant multiset(r[|diffs|..]) == BagSum(actual.Keys - pending, ExtraKeyFn(path, expected, actual))
      decreases pending
    {
      var key :| key in pending;
      ghost var before := r;
      if key !in expected {
        var newPath := JoinPath(path, key);
        r := r + [FieldDiff(newPath, Null, actual[key])];
      }
      PassStep(diffs, before, r, actual.Keys, pending, key, ExtraKeyFn(path, expected, actual));
      pending := pending - {key};
    }
    assert actual.Keys - pending == actual.Keys;
  }

  /** One key of an object pass: what the key appended joins the sum over the keys done. */
  lemma PassStep(diffs: seq<FieldDiff>, before: seq<FieldDiff>, after: seq<FieldDiff>, keys: set<string>,
                 pending: set<string>, key: string, f: string -> multiset<FieldDiff>)
    requires key in pending && pending <= keys
    requires |diffs| <= |before| <= |after| && before[..|diffs|] == diffs && after[..|before|] == before
    requires multiset(before[|diffs|..]) == BagSum(keys - pending, f)
    requires multiset(after[|before|..]) == f(key)
    ensures after[..|diffs|] == diffs
    ensures multiset(after[|diffs|..]) == BagSum(keys - (pending - {key}), f)
  {
    Appended(diffs, before, after);
    BagSumPick(keys - (pending - {key}), f, key);
    assert keys - (pending - {key}) - {key} == keys - pending;
  }

  /** `cuts` split `r` from `cuts[0]` on into consecutive segments, the `j`-th holding exactly the
      diffs of index `j` of the two arrays. */
  ghost predicate Segmented(r: seq<FieldDiff>, cuts: seq<nat>, path: string, xs: seq<Json>, ys: seq<Json>)
  {
    |cuts| >= 1 && cuts[|cuts| - 1] == |r| &&
    (forall j, k :: 0 <= j <= k < |cuts| ==> cuts[j] <= cuts[k]) &&
    forall j :: 0 <= j < |cuts| - 1 ==> multiset(r[cuts[j]..cuts[j + 1]]) == ElementDiffs(path, xs, ys, j)
  }

  /** `compareArrays`: indices in increasing order up to the longer length. The ghost `cuts`
      split what is appended into one segment per index, in index order. */
  method CompareArrays(path: string, expected: seq<Json>, actual: seq<Json>, diffs: seq<FieldDiff>)
    returns (r: seq<FieldDiff>, ghost cuts: seq<nat>)
    decreases Json.Array(expected), 2
    ensures |diffs| <= |r| && r[..|diffs|] == diffs
    ensures multiset(r[|diffs|..]) == ElementsDiffs(path, expected, actual)
    ensures |cuts| == Max(|expected|, |actual|) + 1 && cuts[0] == |diffs|
    ensures Segmented(r, cuts, path, expected, actual)
  {
    var maxLen := Max(|expected|, |actual|);
    ghost var f := ElementFn(path, expected, actual);
    r := diffs;
    cuts := [|diffs|];
    for i := 0 to maxLen
      invariant |diffs| <= |r| && r[..|diffs|] == diffs
      invariant multiset(r[|diffs|..]) == IndexSum(i, f)
      invariant |cuts| == i + 1 && cuts[0] == |diffs|
      invariant Segmented(r, cuts, path, expected, actual)
    {
      ghost var before := r;
      r := CompareElement(path, expected, actual, i, r);
      assert f(i) == ElementDiffs(path, expected, actual, i);
      Appended(diffs, before, r);
      SegmentStep(path, expected, actual, before, r, cuts);
      cuts := cuts + [|r|];
    }
  }

  /** Appending the next index's segment keeps the segments of the earlier indices in place. */
  lemma SegmentStep(path: string, xs: seq<Json>, ys: seq<Json>, before: seq<FieldDiff>, after: seq<FieldDiff>,
                    cuts: seq<nat>)
    requires Segmented(before, cuts, path, xs, ys)
    requires |before| <= |after| && after[..|before|] == before
    requires multiset(after[|before|..]) == ElementDiffs(path, xs, ys, |cuts| - 1)
    ensures Segmented(after, cuts + [|after|], path, xs, ys)
  {
    var i, next := |cuts| - 1, cuts + [|after|];
    forall j | 0 <= j < i + 1
      ensures multiset(after[next[j]..next[j + 1]]) == ElementDiffs(path, xs, ys, j)
    {
      if j < i {
        assert cuts[j + 1] <= cuts[i];
        SliceOfPrefix(before, after, cuts[j], cuts[j + 1]);
      } else {
        assert after[next[j]..next[j + 1]] == after[|before|..];
      }
    }
    CutsExtend(cuts, |after|);
  }

  /** A slice inside a prefix reads the same in the longer sequence. */
  lemma SliceOfPrefix(before: seq<FieldDiff>, after: seq<FieldDiff>, lo: nat, hi: nat)
    requires lo <= hi <= |before| <= |after| && after[..|before|] == before
    ensures after[lo..hi] == before[lo..hi]
  {
    forall m | 0 <= m < hi - lo
      ensures after[lo..hi][m] == before[lo..hi][m]
    {
      assert after[..|before|][lo + m] == after[lo + m];
    }
  }

  /** Appending a bound no smaller than the last one keeps the cuts non-decreasing. */
  lemma CutsExtend(cuts: seq<nat>, last: nat)
    requires |cuts| >= 1 && cuts[|cuts| - 1] <= last
    requires forall j, k :: 0 <= j <= k < |cuts| ==> cuts[j] <= cuts[k]
    ensures forall j, k :: 0 <= j <= k < |cuts| + 1 ==> (cuts + [last])[j] <= (cuts + [last])[k]
  {
    var next := cuts + [last];
    forall j, k | 0 <= j <= k < |next|
      ensures next[j] <= next[k]
    {
      if k < |cuts| {
        assert next[j] == cuts[j] && next[k] == cuts[k];
      } else if j < |cuts| {
        assert next[j] == cuts[j] <= cuts[|cuts| - 1];
      }
    }
  }

  /** One iteration of `compareArrays`: index `i` of either array. */
  method CompareElement(path: string, expected: seq<Json>, actual: seq<Json>, i: nat, diffs: seq<FieldDiff>)
    returns (r: seq<FieldDiff>)
    requires i < |expected| || i < |actual|
    decreases Json.Array(expected), 1
    ensures |diffs| <= |r| && r[..|diffs|] == diffs
    ensures multiset(r[|diffs|..]) == ElementDiffs(path, expected, actual, i)
  {
    var newPath := IndexPath(path, i);
    if i >= |expected| {
      r := diffs + [FieldDiff(newPath, Null, actual[i])];
      assert r[|diffs|..] == [FieldDiff(newPath, Null, actual[i])];
    } else if i >= |actual| {
      r := diffs + [FieldDiff(newPath, expected[i], Null)];
      assert r[|diffs|..] == [FieldDiff(newPath, expected[i], Null)];
    } else {
      r := CompareValues(newPath, expected[i], actual[i], diffs);
    }
  }

  lemma Appended(diffs: seq<FieldDiff>, before: seq<FieldDiff>, after: seq<FieldDiff>)
    requires |diffs| <= |before| <= |after| && before[..|diffs|] == diffs && after[..|before|] == before
    ensures after[..|diffs|] == diffs
    ensures multiset(after[|diffs|..]) == multiset(before[|diffs|..]) + multiset(after[|before|..])
  {
    assert after[|diffs|..] == before[|diffs|..] + after[|before|..];
  }

  // ---------------------------------------------------------------------------------------
  // Sums: order independence and the facts the proofs use

  /** A key set's sum does not depend on which key is taken first. */
  lemma BagSumPick(keys: set<string>, f: string -> multiset<FieldDiff>, k: string)
    requires k in keys
    ensures BagSum(keys, f) == f(k) + BagSum(keys - {k}, f)
    decreases keys
  {
    var j :| j in keys && BagSum(keys, f) == f(j) + BagSum(keys - {j}, f);
    if j != k {
      BagSumPick(keys - {j}, f, k);
      BagSumPick(keys - {k}, f, j);
      assert keys - {j} - {k} == keys - {k} - {j};
    }
  }

  lemma BagSumNone(keys: set<string>, f: string -> multiset<FieldDiff>)
    ensures BagSum(keys, f) == multiset{} <==> forall k :: k in keys ==> f(k) == multiset{}
    decreases keys
  {
    if keys != {} {
      var k :| k in keys;
      BagSumPick(keys, f, k);
      BagSumNone(keys - {k}, f);
    }
  }

  /** Keys that contribute nothing can be added to the sum. */
  lemma BagSumExtend(small: set<string>, big: set<string>, f: string -> multiset<FieldDiff>)
    requires small <= big
    requires forall k :: k in big - small ==> f(k) == multiset{}
    ensures BagSum(big, f) == BagSum(small, f)
    decreases big - small
  {
    if big != small {
      assert !(big <= small);
      var k :| k in big && k !in small;
      BagSumPick(big, f, k);
      BagSumExtend(small, big - {k}, f);
    }
  }

  lemma BagSumAdd(keys: set<string>, f: string -> multiset<FieldDiff>, g: string -> multiset<FieldDiff>,
                  h: string -> multiset<FieldDiff>)
    requires forall k :: k in keys ==> h(k) == f(k) + g(k)
    ensures BagSum(keys, h) == BagSum(keys, f) + BagSum(keys, g)
    decreases keys
  {
    if keys != {} {
      var k :| k in keys;
      BagSumPick(keys, f, k);
      BagSumPick(keys, g, k);
      BagSumPick(keys, h, k);
      BagSumAdd(keys - {k}, f, g, h);
    }
  }

  lemma BagSumIncludes(keys: set<string>, f: string -> multiset<FieldDiff>, k: string)
    requires k in keys
    ensures f(k) <= BagSum(keys, f)
  {
    BagSumPick(keys, f, k);
  }

  lemma BagSumFrom(keys: set<string>, f: string -> multiset<FieldDiff>, d: FieldDiff)
    requires d in BagSum(keys, f)
    ensures exists k :: k in keys && d in f(k)
    decreases keys
  {
    var k :| k in keys;
    BagSumPick(keys, f, k);
    if d !in f(k) {
      BagSumFrom(keys - {k}, f, d);
    }
  }

  /** Keys contributing one diff each give as many diffs as there are keys. */
  lemma BagSumSingles(keys: set<string>, f: string -> multiset<FieldDiff>)
    requires forall k :: k in keys ==> |f(k)| == 1
    ensures |BagSum(keys, f)| == |keys|
    decreases keys
  {
    if keys != {} {
      var k :| k in keys;
      BagSumPick(keys, f, k);
      BagSumSingles(keys - {k}, f);
    }
  }

  /** `m2` is `m1` with every diff's two sides exchanged. */
  ghost predicate Mirror(m1: multiset<FieldDiff>, m2: multiset<FieldDiff>)
  {
    forall d :: m1[d] == m2[d.Swapped()]
  }

  lemma MirrorAdd(a1: multiset<FieldDiff>, a2: multiset<FieldDiff>, b1: multiset<FieldDiff>, b2: multiset<FieldDiff>)
    requires Mirror(a1, a2) && Mirror(b1, b2)
    ensures Mirror(a1 + b1, a2 + b2)
  {
    forall d ensures (a1 + b1)[d] == (a2 + b2)[d.Swapped()] {
      assert a1[d] == a2[d.Swapped()] && b1[d] == b2[d.Swapped()];
    }
  }

  lemma MirrorSingle(x: FieldDiff)
    ensures Mirror(multiset{x}, multiset{x.Swapped()})
  {
    forall d ensures multiset{x}[d] == multiset{x.Swapped()}[d.Swapped()] {
      assert d == x <==> d.Swapped() == x.Swapped();
    }
  }

  lemma BagSumMirror(keys: set<string>, f: string -> multiset<FieldDiff>, g: string -> multiset<FieldDiff>)
    requires forall k :: k in keys ==> Mirror(f(k), g(k))
    ensures Mirror(BagSum(keys, f), BagSum(keys, g))
    decreases keys
  {
    if keys == {} {
      assert forall d :: BagSum(keys, f)[d] == 0 == BagSum(keys, g)[d.Swapped()];
    } else {
      var k :| k in keys;
      BagSumPick(keys, f, k);
      BagSumPick(keys, g, k);
      BagSumMirror(keys - {k}, f, g);
      MirrorAdd(f(k), g(k), BagSum(keys - {k}, f), BagSum(keys - {k}, g));
    }
  }

  lemma {:induction false} IndexSumNone(n: nat, f: nat -> multiset<FieldDiff>)
    ensures IndexSum(n, f) == multiset{} <==> forall i: nat :: i < n ==> f(i) == multiset{}
  {
    if n > 0 {
      IndexSumNone(n - 1, f);
    }
  }

  lemma {:induction false} IndexSumIncludes(n: nat, f: nat -> multiset<FieldDiff>, i: nat)
    requires i < n
    ensures f(i) <= IndexSum(n, f)
  {
    if i < n - 1 {
      IndexSumIncludes(n - 1, f, i);
    }
  }

  lemma {:induction false} IndexSumAtLeast(n: nat, f: nat -> multiset<FieldDiff>, from: nat)
    requires from <= n
    requires forall i: nat :: from <= i < n ==> |f(i)| >= 1
    ensures |IndexSum(n, f)| >= n - from
  {
    if n > from {
      IndexSumAtLeast(n - 1, f, from);
    }
  }

  lemma {:induction false} IndexSumMirror(n: nat, f: nat -> multiset<FieldDiff>, g: nat -> multiset<FieldDiff>)
    requires forall i: nat :: i < n ==> Mirror(f(i), g(i))
    ensures Mirror(IndexSum(n, f), IndexSum(n, g))
  {
    if n == 0 {
      assert forall d :: IndexSum(n, f)[d] == 0 == IndexSum(n, g)[d.Swapped()];
    } else {
      IndexSumMirror(n - 1, f, g);
      MirrorAdd(IndexSum(n - 1, f), IndexSum(n - 1, g), f(n - 1), g(n - 1));
    }
  }

  // ---------------------------------------------------------------------------------------
  // Properties of the comparator

  /** Both object passes together are one contribution per key of either side. */
  lemma ObjectDiffsByKey(path: string, em: map<string, Json>, am: map<string, Json>)
    ensures ExpectedPassDiffs(path, em, am) + ExtraPassDiffs(path, em, am)
            == BagSum(em.Keys + am.Keys, KeyFn(path, em, am))
  {
    var all := em.Keys + am.Keys;
    var f, g, h := ExpectedKeyFn(path, em, am), ExtraKeyFn(path, em, am), KeyFn(path, em, am);
    forall k | k in all - em.Keys ensures f(k) == multiset{} {
      assert f(k) == ExpectedKeyDiffs(path, em, am, k);
    }
    forall k | k in all - am.Keys ensures g(k) == multiset{} {
      assert g(k) == ExtraKeyDiffs(path, em, am, k);
    }
    forall k | k in all ensures h(k) == f(k) + g(k) {
      assert h(k) == ExpectedKeyDiffs(path, em, am, k) + ExtraKeyDiffs(path, em, am, k);
    }
    BagSumExtend(em.Keys, all, f);
    BagSumExtend(am.Keys, all, g);
    BagSumAdd(all, f, g, h);
  }

  /** No diff is reported exactly when the two values are equal: reflexivity, and every
      structural difference is found (numbers compare by value, as decoded float64s do). */
  lemma {:induction false} NoDiffsIffEqual(path: string, expected: Json, actual: Json)
    ensures Diffs(path, expected, actual) == multiset{} <==> expected == actual
    decreases expected, 1
  {
    if expected.Null? || actual.Null? || KindOf(expected) != KindOf(actual) {
    } else if expected.Object? {
      ObjectsNoDiffsIffEqual(path, expected.fields, actual.fields);
    } else if expected.Array? {
      ArraysNoDiffsIffEqual(path, expected.items, actual.items);
    }
  }

  lemma {:induction false} ObjectsNoDiffsIffEqual(path: string, em: map<string, Json>, am: map<string, Json>)
    ensures ExpectedPassDiffs(path, em, am) + ExtraPassDiffs(path, em, am) == multiset{} <==> em == am
    decreases Json.Object(em), 0
  {
    var f, g := ExpectedKeyFn(path, em, am), ExtraKeyFn(path, em, am);
    forall k | k in em
      ensures f(k) == multiset{} <==> k in am && em[k] == am[k]
    {
      assert f(k) == ExpectedKeyDiffs(path, em, am, k);
      if k in am {
        NoDiffsIffEqual(JoinPath(path, k), em[k], am[k]);
      }
    }
    forall k | k in am
      ensures g(k) == multiset{} <==> k in em
    {
      assert g(k) == ExtraKeyDiffs(path, em, am, k);
    }
    BagSumNone(em.Keys, f);
    BagSumNone(am.Keys, g);
  }

  lemma {:induction false} ArraysNoDiffsIffEqual(path: string, xs: seq<Json>, ys: seq<Json>)
    ensures ElementsDiffs(path, xs, ys) == multiset{} <==> xs == ys
    decreases Json.Array(xs), 0
  {
    var n, f := Max(|xs|, |ys|), ElementFn(path, xs, ys);
    forall i: nat | i < n
      ensures f(i) == multiset{} <==> i < |xs| && i < |ys| && xs[i] == ys[i]
    {
      assert f(i) == ElementDiffs(path, xs, ys, i);
      if i < |xs| && i < |ys| {
        NoDiffsIffEqual(IndexPath(path, i), xs[i], ys[i]);
      }
    }
    IndexSumNone(n, f);
    if xs == ys {
      assert forall i: nat :: i < n ==> i < |xs| && i < |ys| && xs[i] == ys[i];
    }
  }

  /** Swapping the two sides reports the same diffs with their sides exchanged. */
  lemma {:induction false} DiffsSymmetric(path: string, expected: Json, actual: Json)
    ensures Mirror(Diffs(path, expected, actual), Diffs(path, actual, expected))
    decreases expected, 3
  {
    if expected.Null? && actual.Null? {
      MirrorEmpty();
    } else if expected.Null? || actual.Null? || KindOf(expected) != KindOf(actual) {
      MirrorSingle(FieldDiff(PathOrRoot(path), expected, actual));
    } else if expected.Object? {
      ObjectsSymmetric(path, expected.fields, actual.fields);
    } else if expected.Array? {
      ArraysSymmetric(path, expected.items, actual.items);
    } else if expected == actual {
      MirrorEmpty();
    } else {
      MirrorSingle(FieldDiff(PathOrRoot(path), expected, actual));
    }
  }

  lemma MirrorEmpty()
    ensures Mirror(multiset{}, multiset{})
  {
  }

  lemma {:induction false} ObjectsSymmetric(path: string, em: map<string, Json>, am: map<string, Json>)
    ensures Mirror(ExpectedPassDiffs(path, em, am) + ExtraPassDiffs(path, em, am),
                   ExpectedPassDiffs(path, am, em) + ExtraPassDiffs(path, am, em))
    decreases Json.Object(em), 2
  {
    ObjectDiffsByKey(path, em, am);
    ObjectDiffsByKey(path, am, em);
    assert am.Keys + em.Keys == em.Keys + am.Keys;
    KeysMirror(path, em, am);
  }

  /** Key by key, the shares of the two orientations mirror each other. */
  lemma {:induction false} KeysMirror(path: string, em: map<string, Json>, am: map<string, Json>)
    ensures Mirror(BagSum(em.Keys + am.Keys, KeyFn(path, em, am)), BagSum(em.Keys + am.Keys, KeyFn(path, am, em)))
    decreases Json.Object(em), 1
  {
    var f, g := KeyFn(path, em, am), KeyFn(path, am, em);
    forall k | k in em.Keys + am.Keys
      ensures Mirror(f(k), g(k))
    {
      KeySymmetric(path, em, am, k);
    }
    BagSumMirror(em.Keys + am.Keys, f, g);
  }

  lemma {:induction false} KeySymmetric(path: string, em: map<string, Json>, am: map<string, Json>, k: string)
    requires k in em || k in am
    ensures Mirror(KeyFn(path, em, am)(k), KeyFn(path, am, em)(k))
    decreases Json.Object(em), 0
  {
    var j := JoinPath(path, k);
    var x, y := KeyFn(path, em, am)(k), KeyFn(path, am, em)(k);
    assert x == ExpectedKeyDiffs(path, em, am, k) + ExtraKeyDiffs(path, em, am, k);
    assert y == ExpectedKeyDiffs(path, am, em, k) + ExtraKeyDiffs(path, am, em, k);
    if k in em && k in am {
      assert x == Diffs(j, em[k], am[k]) && y == Diffs(j, am[k], em[k]);
      DiffsSymmetric(j, em[k], am[k]);
    } else if k in em {
      assert x == multiset{FieldDiff(j, em[k], Null)} && y == multiset{FieldDiff(j, Null, em[k])};
      MirrorSingle(FieldDiff(j, em[k], Null));
    } else {
      assert x == multiset{FieldDiff(j, Null, am[k])} && y == multiset{FieldDiff(j, am[k], Null)};
      MirrorSingle(FieldDiff(j, Null, am[k]));
    }
  }

  lemma {:induction false} ArraysSymmetric(path: string, xs: seq<Json>, ys: seq<Json>)
    ensures Mirror(ElementsDiffs(path, xs, ys), ElementsDiffs(path, ys, xs))
    decreases Json.Array(xs), 0
  {
    var n, f, g := Max(|xs|, |ys|), ElementFn(path, xs, ys), ElementFn(path, ys, xs);
    forall i: nat | i < n
      ensures Mirror(f(i), g(i))
    {
      assert f(i) == ElementDiffs(path, xs, ys, i);
      assert g(i) == ElementDiffs(path, ys, xs, i);
      if i < |xs| && i < |ys| {
        DiffsSymmetric(IndexPath(path, i), xs[i], ys[i]);
      } else if i < |xs| {
        MirrorSingle(FieldDiff(IndexPath(path, i), xs[i], Null));
      } else {
        MirrorSingle(FieldDiff(IndexPath(path, i), Null, ys[i]));
      }
    }
    IndexSumMirror(n, f, g);
    assert Max(|ys|, |xs|) == n;
  }

  /** First pass: a key of `expected` that `actual` lacks is reported with the actual side nil,
      and a key both have contributes what comparing the two values contributes. */
  lemma ExpectedPassReports(path: string, em: map<string, Json>, am: map<string, Json>, k: string)
    requires k in em
    ensures k !in am ==> FieldDiff(JoinPath(path, k), em[k], Null) in ExpectedPassDiffs(path, em, am)
    ensures k in am ==> Diffs(JoinPath(path, k), em[k], am[k]) <= ExpectedPassDiffs(path, em, am)
  {
    var f := ExpectedKeyFn(path, em, am);
    assert f(k) == ExpectedKeyDiffs(path, em, am, k);
    BagSumIncludes(em.Keys, f, k);
  }

  /** Second pass: exactly one diff, with the expected side nil, per key that only `actual`
      has, and nothing else. */
  lemma ExtraPassReports(path: string, em: map<string, Json>, am: map<string, Json>)
    ensures |ExtraPassDiffs(path, em, am)| == |am.Keys - em.Keys|
    ensures forall k :: k in am && k !in em ==> FieldDiff(JoinPath(path, k), Null, am[k]) in ExtraPassDiffs(path, em, am)
    ensures forall d :: d in ExtraPassDiffs(path, em, am) ==>
              exists k :: k in am && k !in em && d == FieldDiff(JoinPath(path, k), Null, am[k])
  {
    ExtraPassCount(path, em, am);
    ExtraPassMembers(path, em, am);
  }

  lemma ExtraPassCount(path: string, em: map<string, Json>, am: map<string, Json>)
    ensures |ExtraPassDiffs(path, em, am)| == |am.Keys - em.Keys|
  {
    var f := ExtraKeyFn(path, em, am);
    forall k | k in am.Keys - em.Keys ensures |f(k)| == 1 {
      assert f(k) == ExtraKeyDiffs(path, em, am, k);
    }
    forall k | k in am.Keys - (am.Keys - em.Keys) ensures f(k) == multiset{} {
      assert f(k) == ExtraKeyDiffs(path, em, am, k);
    }
    BagSumExtend(am.Keys - em.Keys, am.Keys, f);
    BagSumSingles(am.Keys - em.Keys, f);
  }

  lemma ExtraPassMembers(path: string, em: map<string, Json>, am: map<string, Json>)
    ensures forall k :: k in am && k !in em ==> FieldDiff(JoinPath(path, k), Null, am[k]) in ExtraPassDiffs(path, em, am)
    ensures forall d :: d in ExtraPassDiffs(path, em, am) ==>
              exists k :: k in am && k !in em && d == FieldDiff(JoinPath(path, k), Null, am[k])
  {
    var f := ExtraKeyFn(path, em, am);
    forall k | k in am && k !in em ensures FieldDiff(JoinPath(path, k), Null, am[k]) in ExtraPassDiffs(path, em, am) {
      assert f(k) == ExtraKeyDiffs(path, em, am, k);
      BagSumIncludes(am.Keys, f, k);
    }
    forall d | d in ExtraPassDiffs(path, em, am)
      ensures exists k :: k in am && k !in em && d == FieldDiff(JoinPath(path, k), Null, am[k])
    {
      BagSumFrom(am.Keys, f, d);
      var k :| k in am.Keys && d in f(k);
      assert f(k) == ExtraKeyDiffs(path, em, am, k);
    }
  }

  /** Arrays of different lengths: every index past the shorter one is reported one-sided, so
      there are at least as many diffs as the lengths differ. */
  lemma ArrayLengthMismatch(path: string, xs: seq<Json>, ys: seq<Json>)
    ensures forall i :: |xs| <= i < |ys| ==> FieldDiff(IndexPath(path, i), Null, ys[i]) in ElementsDiffs(path, xs, ys)
    ensures forall i :: |ys| <= i < |xs| ==> FieldDiff(IndexPath(path, i), xs[i], Null) in ElementsDiffs(path, xs, ys)
    ensures |ElementsDiffs(path, xs, ys)| >= Max(|xs|, |ys|) - (if |xs| < |ys| then |xs| else |ys|)
  {
    var n, f := Max(|xs|, |ys|), ElementFn(path, xs, ys);
    var shorter := if |xs| < |ys| then |xs| else |ys|;
    forall i: nat | shorter <= i < n ensures |f(i)| >= 1 {
      assert f(i) == ElementDiffs(path, xs, ys, i);
    }
    forall i | |xs| <= i < |ys| ensures FieldDiff(IndexPath(path, i), Null, ys[i]) in ElementsDiffs(path, xs, ys) {
      assert f(i) == ElementDiffs(path, xs, ys, i);
      IndexSumIncludes(n, f, i);
    }
    forall i | |ys| <= i < |xs| ensures FieldDiff(IndexPath(path, i), xs[i], Null) in ElementsDiffs(path, xs, ys) {
      assert f(i) == ElementDiffs(path, xs, ys, i);
      IndexSumIncludes(n, f, i);
    }
    IndexSumAtLeast(n, f, shorter);
  }

  /** `[1,2]` against `[1]`: one diff, at `[1]`, with the actual side nil. */
  lemma ArrayExample()
    ensures Diffs("", Array([Number(1.0), Number(2.0)]), Array([Number(1.0)]))
            == multiset{FieldDiff("[1]", Number(2.0), Null)}
  {
    var xs, ys := [Number(1.0), Number(2.0)], [Number(1.0)];
    assert IndexPath("", 1) == "[" + Text.NatToString(1) + "]" == "[1]";
    var f := ElementFn("", xs, ys);
    assert f(0) == ElementDiffs("", xs, ys, 0) == Diffs(IndexPath("", 0), Number(1.0), Number(1.0)) == multiset{};
    assert f(1) == ElementDiffs("", xs, ys, 1) == multiset{FieldDiff("[1]", Number(2.0), Null)};
    assert IndexSum(2, f) == IndexSum(1, f) + f(1) == IndexSum(0, f) + f(0) + f(1);
    ArrayDiffs("", xs, ys);
  }

  /** `[1]` against `[1,2]`: one diff, at `[1]`, with the expected side nil. */
  lemma ArrayExampleReversed()
    ensures Diffs("", Array([Number(1.0)]), Array([Number(1.0), Number(2.0)]))
            == multiset{FieldDiff("[1]", Null, Number(2.0))}
  {
    var xs, ys := [Number(1.0)], [Number(1.0), Number(2.0)];
    assert IndexPath("", 1) == "[" + Text.NatToString(1) + "]" == "[1]";
    var g := ElementFn("", xs, ys);
    assert g(0) == ElementDiffs("", xs, ys, 0) == Diffs(IndexPath("", 0), Number(1.0), Number(1.0)) == multiset{};
    assert g(1) == ElementDiffs("", xs, ys, 1) == multiset{FieldDiff("[1]", Null, Number(2.0))};
    assert IndexSum(2, g) == IndexSum(1, g) + g(1) == IndexSum(0, g) + g(0) + g(1);
    ArrayDiffs("", xs, ys);
  }

  /** `{"a":1}` against `{"a":1,"b":2}`: one diff, at `b`, with the expected side nil. */
  lemma ObjectExample()
    ensures Diffs("", Object(map["a" := Number(1.0)]), Object(map["a" := Number(1.0), "b" := Number(2.0)]))
            == multiset{FieldDiff("b", Null, Number(2.0))}
  {
    var em, am := map["a" := Number(1.0)], map["a" := Number(1.0), "b" := Number(2.0)];
    var f, g := ExpectedKeyFn("", em, am), ExtraKeyFn("", em, am);
    assert f("a") == ExpectedKeyDiffs("", em, am, "a") == Diffs("a", Number(1.0), Number(1.0)) == multiset{};
    assert g("a") == ExtraKeyDiffs("", em, am, "a") == multiset{};
    assert g("b") == ExtraKeyDiffs("", em, am, "b") == multiset{FieldDiff("b", Null, Number(2.0))};
    BagSumPick(em.Keys, f, "a");
    assert em.Keys - {"a"} == {};
    BagSumPick(am.Keys, g, "a");
    assert am.Keys - {"a"} == {"b"};
    BagSumPick(am.Keys - {"a"}, g, "b");
    assert am.Keys - {"a"} - {"b"} == {};
  }

  /** A key holding JSON null is not a missing key, yet when `actual` lacks it the diff shows
      nil on both sides. */
  lemma NullValueVersusMissingKey()
    ensures Diffs("", Object(map["a" := Null]), Object(map["a" := Null])) == multiset{}
    ensures Diffs("", Object(map["a" := Null]), Object(map[])) == multiset{FieldDiff("a", Null, Null)}
  {
    var em: map<string, Json> := map["a" := Null];
    var am: map<string, Json> := map[];
    NoDiffsIffEqual("", Object(em), Object(em));
    var f := ExpectedKeyFn("", em, am);
    assert f("a") == ExpectedKeyDiffs("", em, am, "a");
    BagSumPick(em.Keys, f, "a");
    assert em.Keys - {"a"} == {};
    assert BagSum(am.Keys, ExtraKeyFn("", em, am)) == multiset{};
  }

  /** The empty key at the root yields a missing-key diff whose path is empty: `joinPath` is
      used there without `pathOrRoot`. */
  lemma EmptyKeyAtRoot()
    ensures Diffs("", Object(map["" := Bool(true)]), Object(map[])) == multiset{FieldDiff("", Bool(true), Null)}
  {
    var em: map<string, Json> := map["" := Bool(true)];
    var am: map<string, Json> := map[];
    var f := ExpectedKeyFn("", em, am);
    assert f("") == ExpectedKeyDiffs("", em, am, "");
    BagSumPick(em.Keys, f, "");
    assert em.Keys - {""} == {};
    assert BagSum(am.Keys, ExtraKeyFn("", em, am)) == multiset{};
  }
}
