/** Template expansion of value trees and its interplay with merging, and the whole
    `prepareValues` pipeline (internal/helm/values.go). */
module HelmTemplating {
  import opened Common
  import opened TemplateText
  import opened HelmValues

  /** Go may range over the context in a different order at every string it expands. */
  ghost predicate TextExpandsTo(ctx: map<string, string>, s: string, t: string) {
    exists order: seq<string> ::
      IsOrder(order, ctx) && t == ReplaceKeys(DollarAndBrace, s, order, ctx)
  }

  /** `w` is a possible outcome of expanding `v`. */
  ghost predicate ExpandsTo(ctx: map<string, string>, v: Value, w: Value)
    decreases v
  {
    match v
    case Str(s) => w.Str? && TextExpandsTo(ctx, s, w.text)
    case Scalar(_) => w == v
    case List(xs) =>
      w.List? && |w.items| == |xs| && forall i | 0 <= i < |xs| :: ExpandsTo(ctx, xs[i], w.items[i])
    case Obj(m) =>
      w.Obj? && w.fields.Keys == m.Keys && forall k <- m :: ExpandsTo(ctx, m[k], w.fields[k])
  }

  ghost predicate FieldsExpandTo(ctx: map<string, string>, m: Fields, w: Fields) {
    ExpandsTo(ctx, Obj(m), Obj(w))
  }

  /* ---------- Source loops ---------- */

  method ProcessTemplatesInMap(input: Fields, ctx: map<string, string>) returns (result: Fields)
    ensures FieldsExpandTo(ctx, input, result)
    decreases Obj(input), 1
  {
    result := map[];
    var todo := input.Keys;
    while todo != {}
      invariant todo <= input.Keys && result.Keys == input.Keys - todo
      invariant forall k <- result :: ExpandsTo(ctx, input[k], result[k])
      decreases |todo|
    {
      var key :| key in todo;
      var processed := ProcessValue(input[key], ctx);
      result := result[key := processed];
      todo := todo - {key};
    }
  }

  method ProcessTemplatesInSlice(input: seq<Value>, ctx: map<string, string>) returns (result: seq<Value>)
    ensures ExpandsTo(ctx, List(input), List(result))
    decreases List(input), 1
  {
    result := [];
    for i := 0 to |input|
      invariant |result| == i
      invariant forall j | 0 <= j < i :: ExpandsTo(ctx, input[j], result[j])
    {
      assert input[i] in input && input[i] < List(input);
      var processed := ProcessValue(input[i], ctx);
      result := result + [processed];
    }
  }

  /** The type switch shared by the two loops. */
  method ProcessValue(v: Value, ctx: map<string, string>) returns (w: Value)
    ensures ExpandsTo(ctx, v, w)
    decreases v, 2
  {
    match v
    case Str(s) =>
      var text, order := ExpandString(s, ctx);
      w := Str(text);
    case Obj(m) =>
      var nested := ProcessTemplatesInMap(m, ctx);
      w := Obj(nested);
    case List(xs) =>
      var nested := ProcessTemplatesInSlice(xs, ctx);
      w := List(nested);
    case Scalar(_) =>
      w := v;
  }

  /* ---------- Shape ---------- */

  /** Same kind of node, same keys, same length, same non-string leaf. */
  predicate SameNode(x: Value, y: Value) {
    match x
    case Str(_) => y.Str?
    case Scalar(_) => y == x
    case List(xs) => y.List? && |y.items| == |xs|
    case Obj(m) => y.Obj? && y.fields.Keys == m.Keys
  }

  /** At every path, through maps and slices, expansion keeps everything but string contents. */
  lemma {:induction false} ExpansionKeepsShape(ctx: map<string, string>, v: Value, w: Value, p: Path)
    requires ExpandsTo(ctx, v, w)
    ensures At(v, p).None? <==> At(w, p).None?
    ensures At(v, p).Some? ==> SameNode(At(v, p).value, At(w, p).value) && ExpandsTo(ctx, At(v, p).value, At(w, p).value)
    decreases |p|
  {
    if p != [] && Child(v, p[0]).Some? {
      ExpansionKeepsShape(ctx, Child(v, p[0]).value, Child(w, p[0]).value, p[1..]);
    }
  }

  /** With plain keys and values, a known token in plain text is filled in at every path, and an unknown one
      stays. */
  lemma TokensAreFilledIn(ctx: map<string, string>, v: Value, w: Value, p: Path, a: string, key: string, b: string)
    requires ExpandsTo(ctx, v, w) && PlainContext(ctx) && Plain(a) && Plain(b) && Plain(key)
    requires At(v, p) == Some(Str(a + ("${" + key + "}") + b)) || At(v, p) == Some(Str(a + ("{{" + key + "}}") + b))
    ensures At(w, p) == if key in ctx then Some(Str(a + ctx[key] + b)) else At(v, p)
  {
    ExpansionKeepsShape(ctx, v, w, p);
    var s := At(v, p).value.text;
    var order: seq<string> :| IsOrder(order, ctx) && At(w, p).value.text == ReplaceKeys(DollarAndBrace, s, order, ctx);
    OneTokenExpands(DollarAndBrace, a, key, b, order, ctx);
  }

  /* ---------- Determinism on templates ---------- */

  /** Every string of the tree is a template of plain literals and tokens. */
  ghost predicate PlainTree(v: Value) {
    match v
    case Str(s) => IsTemplate(s)
    case Scalar(_) => true
    case List(xs) => forall x <- xs :: PlainTree(x)
    case Obj(m) => forall k <- m :: PlainTree(m[k])
  }

  lemma {:induction false} StableIsDeterministic(ctx: map<string, string>, v: Value, w1: Value, w2: Value)
    requires OpenContext(ctx) && Stable(DollarAndBrace, ctx) && PlainTree(v)
    requires ExpandsTo(ctx, v, w1) && ExpandsTo(ctx, v, w2)
    ensures w1 == w2
    decreases v
  {
    match v
    case Str(s) =>
      var ps: seq<Piece> :| PlainPieces(ps) && s == Render(ps);
      OrderIndependentIff(DollarAndBrace, ctx);
      assert OrdersAgree(DollarAndBrace, Render(ps), ctx);
    case Scalar(_) =>
    case List(xs) =>
      forall i | 0 <= i < |xs| ensures w1.items[i] == w2.items[i] {
        assert xs[i] in xs;
        StableIsDeterministic(ctx, xs[i], w1.items[i], w2.items[i]);
      }
    case Obj(m) =>
      forall k <- m ensures w1.fields[k] == w2.fields[k] {
        StableIsDeterministic(ctx, m[k], w1.fields[k], w2.fields[k]);
      }
  }

  /** Every tree of templates has one outcome. */
  ghost predicate Deterministic(ctx: map<string, string>) {
    forall v, w1, w2 | PlainTree(v) && ExpandsTo(ctx, v, w1) && ExpandsTo(ctx, v, w2) :: w1 == w2
  }

  /** The outcome of expanding any tree of templates is determined if and only if no entry of the context
      changes another entry's value. */
  lemma DeterministicIff(ctx: map<string, string>)
    requires OpenContext(ctx)
    ensures Deterministic(ctx) <==> Stable(DollarAndBrace, ctx)
  {
    if Stable(DollarAndBrace, ctx) {
      forall v, w1, w2 | PlainTree(v) && ExpandsTo(ctx, v, w1) && ExpandsTo(ctx, v, w2) ensures w1 == w2 {
        StableIsDeterministic(ctx, v, w1, w2);
      }
    }
    if Deterministic(ctx) {
      forall ps: seq<Piece> | PlainPieces(ps) ensures OrdersAgree(DollarAndBrace, Render(ps), ctx) {
        DeterministicAgrees(ctx, Render(ps));
      }
      OrderIndependentIff(DollarAndBrace, ctx);
    }
  }

  lemma DeterministicAgrees(ctx: map<string, string>, s: string)
    requires Deterministic(ctx) && IsTemplate(s)
    ensures OrdersAgree(DollarAndBrace, s, ctx)
  {
    forall o, p | IsOrder(o, ctx) && IsOrder(p, ctx)
      ensures ReplaceKeys(DollarAndBrace, s, o, ctx) == ReplaceKeys(DollarAndBrace, s, p, ctx)
    {
      var w1, w2 := Str(ReplaceKeys(DollarAndBrace, s, o, ctx)), Str(ReplaceKeys(DollarAndBrace, s, p, ctx));
      assert PlainTree(Str(s)) && ExpandsTo(ctx, Str(s), w1) && ExpandsTo(ctx, Str(s), w2);
    }
  }

  /* ---------- Expansion commutes with merging ---------- */

  /** Merging expansions gives an expansion of the merge. */
  lemma {:induction false} MergeOfExpansions(ctx: map<string, string>, a: Fields, b: Fields, a': Fields, b': Fields)
    requires FieldsExpandTo(ctx, a, a') && FieldsExpandTo(ctx, b, b')
    ensures FieldsExpandTo(ctx, Merge(a, b), Merge(a', b'))
    decreases Obj(b)
  {
    var m, m' := Merge(a, b), Merge(a', b');
    forall k <- m ensures ExpandsTo(ctx, m[k], m'[k]) {
      assert m[k] == MergeAt(a, b, k) && m'[k] == MergeAt(a', b', k);
      if k in a && k in b {
        assert ExpandsTo(ctx, a[k], a'[k]) && ExpandsTo(ctx, b[k], b'[k]);
        if a[k].Obj? && b[k].Obj? {
          MergeOfExpansions(ctx, a[k].fields, b[k].fields, a'[k].fields, b'[k].fields);
        }
      }
    }
  }

  /** Some context order exists, so every tree has an expansion. */
  lemma {:induction false} SomeExpansion(ctx: map<string, string>, v: Value) returns (w: Value)
    ensures ExpandsTo(ctx, v, w)
    decreases v
  {
    match v
    case Str(s) =>
      var order := Listing(ctx.Keys);
      assert IsOrder(order, ctx);
      w := Str(ReplaceKeys(DollarAndBrace, s, order, ctx));
    case Scalar(_) => w := v;
    case List(xs) =>
      forall x <- xs ensures exists y :: ExpandsTo(ctx, x, y) {
        var y := SomeExpansion(ctx, x);
      }
      w := List(seq(|xs|, i requires 0 <= i < |xs| =>
        assert xs[i] in xs; var y :| ExpandsTo(ctx, xs[i], y); y));
    case Obj(m) =>
      forall k <- m ensures exists y :: ExpandsTo(ctx, m[k], y) {
        var y := SomeExpansion(ctx, m[k]);
      }
      w := Obj(map k <- m :: var y :| ExpandsTo(ctx, m[k], y); y);
  }

  /** Every expansion of a merge is a merge of expansions. */
  lemma {:induction false} ExpansionOfMerge(ctx: map<string, string>, a: Fields, b: Fields, w: Fields)
    requires FieldsExpandTo(ctx, Merge(a, b), w)
    ensures exists a': Fields, b': Fields ::
      FieldsExpandTo(ctx, a, a') && FieldsExpandTo(ctx, b, b') && w == Merge(a', b')
    decreases Obj(b)
  {
    forall k <- w
      ensures exists x: Value, y: Value :: SplitAt(ctx, a, b, w, k, x, y)
    {
      SplitOneKey(ctx, a, b, w, k);
    }
    CollectSplits(ctx, a, b, w);
  }

  /** `x` and `y` are expansions of `a`'s and `b`'s value at `k` that merge to `w[k]`. */
  ghost predicate SplitAt(ctx: map<string, string>, a: Fields, b: Fields, w: Fields, k: string, x: Value, y: Value) {
    && k in w
    && (k in a ==> ExpandsTo(ctx, a[k], x))
    && (k in b ==> ExpandsTo(ctx, b[k], y))
    && w[k] == if k !in b then x
               else if k in a && x.Obj? && y.Obj? then Obj(Merge(x.fields, y.fields))
               else y
  }

  lemma SplitOneKey(ctx: map<string, string>, a: Fields, b: Fields, w: Fields, k: string)
    requires FieldsExpandTo(ctx, Merge(a, b), w) && k in a.Keys + b.Keys
    ensures exists x: Value, y: Value :: SplitAt(ctx, a, b, w, k, x, y)
    decreases Obj(b), 0
  {
    assert ExpandsTo(ctx, Merge(a, b)[k], w[k]);
    assert Merge(a, b)[k] == MergeAt(a, b, k);
    if k !in b {
      assert SplitAt(ctx, a, b, w, k, w[k], w[k]);
    } else if k !in a {
      assert SplitAt(ctx, a, b, w, k, w[k], w[k]);
    } else if a[k].Obj? && b[k].Obj? {
      ExpansionOfMerge(ctx, a[k].fields, b[k].fields, w[k].fields);
      var x: Fields, y: Fields :|
        FieldsExpandTo(ctx, a[k].fields, x) && FieldsExpandTo(ctx, b[k].fields, y) && w[k].fields == Merge(x, y);
      assert SplitAt(ctx, a, b, w, k, Obj(x), Obj(y));
    } else {
      var x := SomeExpansion(ctx, a[k]);
      assert SplitAt(ctx, a, b, w, k, x, w[k]);
    }
  }

  lemma CollectSplits(ctx: map<string, string>, a: Fields, b: Fields, w: Fields)
    requires w.Keys == a.Keys + b.Keys
    requires forall k <- w :: exists x: Value, y: Value :: SplitAt(ctx, a, b, w, k, x, y)
    ensures exists a': Fields, b': Fields ::
      FieldsExpandTo(ctx, a, a') && FieldsExpandTo(ctx, b, b') && w == Merge(a', b')
  {
    var splits := map k | k in w :: var x: Value, y: Value :| SplitAt(ctx, a, b, w, k, x, y); (x, y);
    var a' := map k | k in a :: splits[k].0;
    var b' := map k | k in b :: splits[k].1;
    assert forall k <- w :: SplitAt(ctx, a, b, w, k, splits[k].0, splits[k].1);
    SplitsMerge(ctx, a, b, w, a', b');
  }

  lemma SplitsMerge(ctx: map<string, string>, a: Fields, b: Fields, w: Fields, a': Fields, b': Fields)
    requires w.Keys == a.Keys + b.Keys && a'.Keys == a.Keys && b'.Keys == b.Keys
    requires forall k <- w ::
      SplitAt(ctx, a, b, w, k, if k in a then a'[k] else b'[k], if k in b then b'[k] else a'[k])
    ensures FieldsExpandTo(ctx, a, a') && FieldsExpandTo(ctx, b, b') && w == Merge(a', b')
  {
    var m := Merge(a', b');
    forall k <- w ensures m[k] == w[k] {
      assert m[k] == MergeAt(a', b', k);
    }
  }

  /* ---------- prepareValues ---------- */

  /** The merge fold: later sources take precedence. */
  function MergeSources(sources: seq<Fields>): Fields {
    if sources == [] then map[]
    else Merge(MergeSources(sources[..|sources| - 1]), sources[|sources| - 1])
  }

  ghost predicate SourcesExpandTo(ctx: map<string, string>, sources: seq<Fields>, expanded: seq<Fields>) {
    |expanded| == |sources| && forall i | 0 <= i < |sources| :: FieldsExpandTo(ctx, sources[i], expanded[i])
  }

  lemma {:induction false} SplitMergedExpansion(ctx: map<string, string>, sources: seq<Fields>, w: Fields)
      returns (expanded: seq<Fields>)
    requires FieldsExpandTo(ctx, MergeSources(sources), w)
    ensures SourcesExpandTo(ctx, sources, expanded) && w == MergeSources(expanded)
    decreases |sources|
  {
    if sources == [] {
      expanded := [];
      assert w == map[];
    } else {
      var front, last := sources[..|sources| - 1], sources[|sources| - 1];
      ExpansionOfMerge(ctx, MergeSources(front), last, w);
      var f: Fields, l: Fields :|
        FieldsExpandTo(ctx, MergeSources(front), f) && FieldsExpandTo(ctx, last, l) && w == Merge(f, l);
      var fs := SplitMergedExpansion(ctx, front, f);
      expanded := fs + [l];
      assert expanded[..|expanded| - 1] == fs;
    }
  }

  lemma {:induction false} MergeSeparateExpansions(ctx: map<string, string>, sources: seq<Fields>, expanded: seq<Fields>)
    requires SourcesExpandTo(ctx, sources, expanded)
    ensures FieldsExpandTo(ctx, MergeSources(sources), MergeSources(expanded))
    decreases |sources|
  {
    if sources != [] {
      var front, fs := sources[..|sources| - 1], expanded[..|expanded| - 1];
      MergeSeparateExpansions(ctx, front, fs);
      MergeOfExpansions(ctx, MergeSources(front), sources[|sources| - 1], MergeSources(fs), expanded[|expanded| - 1]);
    }
  }

  /** Expanding the merge of any number of sources has exactly the outcomes of merging
      the separately expanded sources. */
  lemma ExpansionCommutesWithMerging(ctx: map<string, string>, sources: seq<Fields>, w: Fields)
    ensures FieldsExpandTo(ctx, MergeSources(sources), w) <==>
            exists expanded: seq<Fields> :: SourcesExpandTo(ctx, sources, expanded) && w == MergeSources(expanded)
  {
    if FieldsExpandTo(ctx, MergeSources(sources), w) {
      var expanded := SplitMergedExpansion(ctx, sources, w);
    }
    forall expanded: seq<Fields> | SourcesExpandTo(ctx, sources, expanded) && w == MergeSources(expanded) {
      MergeSeparateExpansions(ctx, sources, expanded);
    }
  }

  /** The value sources of a roost, already fetched and parsed; `None` is a failed load. */
  datatype ValuesSpec = ValuesSpec(
    inline: Option<Option<Fields>>,
    configMaps: seq<Option<Fields>>,
    secrets: seq<Option<Fields>>,
    template: Option<map<string, string>>)

  function Sources(spec: ValuesSpec): seq<Option<Fields>> {
    (if spec.inline.Some? then [spec.inline.value] else []) + spec.configMaps + spec.secrets
  }

  function Loaded(sources: seq<Option<Fields>>): seq<Fields>
    requires forall s <- sources :: s.Some?
  {
    seq(|sources|, i requires 0 <= i < |sources| => assert sources[i] in sources; sources[i].value)
  }

  /* ---------- Which source shows at a path ---------- */

  /** None of the sources has a value at the path or a non-map above it. */
  predicate Silent(sources: seq<Fields>, p: Path) {
    forall f <- sources :: At(Obj(f), p) == None && !Blocked(Obj(f), p)
  }

  /** The last of the sources that is not silent at the path holds `x` there. */
  predicate LastHolds(sources: seq<Fields>, p: Path, x: Value) {
    exists i | 0 <= i < |sources| :: At(Obj(sources[i]), p) == Some(x) && Silent(sources[i + 1..], p)
  }

  predicate LastHoldsMap(sources: seq<Fields>, p: Path) {
    exists i | 0 <= i < |sources| :: MapAt(Obj(sources[i]), p) && Silent(sources[i + 1..], p)
  }

  lemma OneMoreSource(front: seq<Fields>, last: Fields, p: Path, x: Value)
    ensures LastHolds(front + [last], p, x) <==>
      At(Obj(last), p) == Some(x) || (Silent([last], p) && LastHolds(front, p, x))
    ensures LastHoldsMap(front + [last], p) <==> MapAt(Obj(last), p) || (Silent([last], p) && LastHoldsMap(front, p))
  {
    var all := front + [last];
    assert all[|front| + 1..] == [] && all[|front|] == last;
    forall i | 0 <= i < |front|
      ensures all[i] == front[i] && (Silent(all[i + 1..], p) <==> Silent(front[i + 1..], p) && Silent([last], p))
    {
      SilentBoth(front[i + 1..], [last], p);
      assert all[i + 1..] == front[i + 1..] + [last];
    }
    if At(Obj(last), p) == Some(x) {
      assert At(Obj(all[|front|]), p) == Some(x) && Silent(all[|front| + 1..], p);
    }
    if MapAt(Obj(last), p) {
      assert MapAt(Obj(all[|front|]), p) && Silent(all[|front| + 1..], p);
    }
  }

  lemma SilentBoth(a: seq<Fields>, b: seq<Fields>, p: Path)
    ensures Silent(a + b, p) <==> Silent(a, p) && Silent(b, p)
  {
    if Silent(a + b, p) {
      assert forall f <- a :: f in a + b;
      assert forall f <- b :: f in a + b;
    }
  }

  /** The merge of sources holds at a path what the last source holds that is not silent there. */
  lemma {:induction false} MergedAtPath(sources: seq<Fields>, p: Path, x: Value)
    requires KeyPath(p) && !x.Obj?
    ensures At(Obj(MergeSources(sources)), p) == Some(x) <==> LastHolds(sources, p, x)
    ensures MapAt(Obj(MergeSources(sources)), p) <==> p == [] || LastHoldsMap(sources, p)
    decreases |sources|
  {
    if sources != [] {
      var front, last := sources[..|sources| - 1], sources[|sources| - 1];
      assert sources == front + [last];
      MergedAtPath(front, p, x);
      MergeAtPath(MergeSources(front), last, p, x);
      OneMoreSource(front, last, p, x);
    }
  }

  lemma {:induction false} LaterSourcesWin(a: seq<Fields>, b: seq<Fields>, p: Path, x: Value)
    ensures LastHolds(a + b, p, x) <==> LastHolds(b, p, x) || (Silent(b, p) && LastHolds(a, p, x))
    decreases |b|
  {
    if b == [] {
      assert a + b == a;
    } else {
      var front, last := b[..|b| - 1], b[|b| - 1];
      assert b == front + [last] && a + b == (a + front) + [last];
      LaterSourcesWin(a, front, p, x);
      OneMoreSource(a + front, last, p, x);
      OneMoreSource(front, last, p, x);
      SilentBoth(front, [last], p);
    }
  }

  predicate AllLoaded(spec: ValuesSpec) {
    spec.inline != Some(None) && None !in spec.configMaps && None !in spec.secrets
  }

  /** Secrets over config maps over inline values, and later ones over earlier ones, path by path. */
  ghost predicate ByPrecedence(spec: ValuesSpec, merged: Fields)
    requires AllLoaded(spec)
  {
    var configMaps, secrets := Loaded(spec.configMaps), Loaded(spec.secrets);
    forall p, x: Value | KeyPath(p) && !x.Obj? ::
      At(Obj(merged), p) == Some(x) <==>
        || LastHolds(secrets, p, x)
        || (Silent(secrets, p) && LastHolds(configMaps, p, x))
        || (Silent(secrets, p) && Silent(configMaps, p)
            && spec.inline.Some? && At(Obj(spec.inline.value.value), p) == Some(x))
  }

  lemma SourcesByPrecedence(spec: ValuesSpec)
    requires AllLoaded(spec)
    ensures (forall s <- Sources(spec) :: s.Some?) && ByPrecedence(spec, MergeSources(Loaded(Sources(spec))))
  {
    var inline := if spec.inline.Some? then [spec.inline.value] else [];
    var configMaps, secrets := Loaded(spec.configMaps), Loaded(spec.secrets);
    assert forall s <- Sources(spec) :: s in inline || s in spec.configMaps || s in spec.secrets;
    var all := Loaded(Sources(spec));
    assert all == Loaded(inline) + configMaps + secrets;
    forall p, x: Value | KeyPath(p) && !x.Obj?
      ensures At(Obj(MergeSources(all)), p) == Some(x) <==>
        || LastHolds(secrets, p, x)
        || (Silent(secrets, p) && LastHolds(configMaps, p, x))
        || (Silent(secrets, p) && Silent(configMaps, p)
            && spec.inline.Some? && At(Obj(spec.inline.value.value), p) == Some(x))
    {
      MergedAtPath(all, p, x);
      LaterSourcesWin(Loaded(inline) + configMaps, secrets, p, x);
      LaterSourcesWin(Loaded(inline), configMaps, p, x);
      if spec.inline.Some? {
        assert Loaded(inline) == [] + [spec.inline.value.value];
        OneMoreSource([], spec.inline.value.value, p, x);
      }
    }
  }

  /* ---------- prepareValues itself ---------- */

  lemma LoadedNext(sources: seq<Option<Fields>>, next: Option<Fields>)
    requires (forall s <- sources :: s.Some?) && next.Some?
    ensures forall s <- sources + [next] :: s.Some?
    ensures MergeSources(Loaded(sources + [next])) == Merge(MergeSources(Loaded(sources)), next.value)
  {
    var more := Loaded(sources + [next]);
    assert more[..|more| - 1] == Loaded(sources);
  }

  /** Merges each source over what there is; a failed load ends it. */
  method MergeOver(values: Fields, sources: seq<Option<Fields>>, ghost before: seq<Option<Fields>>) returns (merged: Option<Fields>)
    requires (forall s <- before :: s.Some?) && values == MergeSources(Loaded(before))
    ensures merged.None? <==> None in sources
    ensures merged.Some? ==> (forall s <- before + sources :: s.Some?) && merged.value == MergeSources(Loaded(before + sources))
  {
    var result := values;
    assert before + sources[..0] == before;
    for i := 0 to |sources|
      invariant forall s <- before + sources[..i] :: s.Some?
      invariant result == MergeSources(Loaded(before + sources[..i]))
    {
      if sources[i].None? {
        return None;
      }
      LoadedNext(before + sources[..i], sources[i]);
      assert before + sources[..i + 1] == before + sources[..i] + [sources[i]];
      result := MergeMaps(result, sources[i].value);
    }
    assert sources[..|sources|] == sources;
    assert forall s <- sources :: s in before + sources;
    return Some(result);
  }

  /** `prepareValues`: inline values, then config maps, then secrets, then one expansion.  Any failed load
      fails the whole call. */
  method PrepareValues(spec: Option<ValuesSpec>, name: string, namespace: string, target: string)
    returns (result: Option<Fields>)
    ensures spec.None? ==> result == Some(map[])
    ensures spec.Some? ==> (result.Some? <==> AllLoaded(spec.value))
    ensures spec.Some? && result.Some? ==>
      (forall s <- Sources(spec.value) :: s.Some?) &&
      var merged := MergeSources(Loaded(Sources(spec.value)));
      ByPrecedence(spec.value, merged) &&
      if spec.value.template.None? then result.value == merged
      else
        var ctx := spec.value.template.value + map["ROOST_NAME" := name, "ROOST_NAMESPACE" := namespace, "TARGET_NAMESPACE" := target];
        FieldsExpandTo(ctx, merged, result.value)
  {
    if spec.None? {
      return Some(map[]);
    }
    var values: Fields := map[];
    ghost var done: seq<Option<Fields>> := [];
    if spec.value.inline.Some? {
      if spec.value.inline.value.None? {
        return None;
      }
      values := MergeMaps(values, spec.value.inline.value.value);
      done := [spec.value.inline.value];
      assert Loaded(done)[..0] == [];
    }
    var merged := MergeOver(values, spec.value.configMaps, done);
    if merged.None? {
      return None;
    }
    merged := MergeOver(merged.value, spec.value.secrets, done + spec.value.configMaps);
    if merged.None? {
      return None;
    }
    values := merged.value;
    SourcesByPrecedence(spec.value);
    assert Sources(spec.value) == done + spec.value.configMaps + spec.value.secrets;
    if spec.value.template.Some? {
      var ctx := spec.value.template.value;
      ctx := ctx["ROOST_NAME" := name];
      ctx := ctx["ROOST_NAMESPACE" := namespace];
      ctx := ctx["TARGET_NAMESPACE" := target];
      assert ctx == spec.value.template.value + map["ROOST_NAME" := name, "ROOST_NAMESPACE" := namespace, "TARGET_NAMESPACE" := target];
      values := ProcessTemplatesInMap(values, ctx);
    }
    return Some(values);
  }
}
