/** Helm chart values: deep merge of value trees, then template expansion
    (internal/helm/values.go). */
module HelmValues {
  import opened Common
  import opened TemplateText

  /** A parsed YAML value.  `Scalar` stands for every leaf that is not a string. */
  datatype Value =
    | Str(text: string)
    | Scalar(tag: int)
    | List(items: seq<Value>)
    | Obj(fields: Fields)

  type Fields = map<string, Value>

  /* ---------- mergeMaps ---------- */

  function Merge(base: Fields, over: Fields): (r: Fields)
    ensures r.Keys == base.Keys + over.Keys
    decreases Obj(over), 1
  {
    map k | k in base.Keys + over.Keys :: MergeAt(base, over, k)
  }

  function MergeAt(base: Fields, over: Fields, k: string): Value
    requires k in base.Keys + over.Keys
    decreases Obj(over), 0
  {
    if k !in over then base[k]
    else if k in base && base[k].Obj? && over[k].Obj? then Obj(Merge(base[k].fields, over[k].fields))
    else over[k]
  }

  /** `result` holds the merged value of every key already visited, `base`'s value elsewhere. */
  ghost predicate MergedSoFar(base: Fields, over: Fields, todo: set<string>, result: Fields) {
    && todo <= over.Keys
    && result.Keys == base.Keys + (over.Keys - todo)
    && forall k <- result :: result[k] == if k in todo then base[k] else MergeAt(base, over, k)
  }

  lemma MergedOneMore(base: Fields, over: Fields, todo: set<string>, result: Fields, k: string)
    requires MergedSoFar(base, over, todo, result) && k in todo
    ensures MergedSoFar(base, over, todo - {k}, result[k := MergeAt(base, over, k)])
  {
  }

  lemma MergedAll(base: Fields, over: Fields, result: Fields)
    requires MergedSoFar(base, over, {}, result)
    ensures result == Merge(base, over)
  {
  }

  /** The loops of `mergeMaps`; Go chooses the order in which `over` is visited. */
  method MergeMaps(base: Fields, over: Fields) returns (result: Fields)
    ensures result == Merge(base, over)
    decreases Obj(over), 1
  {
    result := base;
    var todo := over.Keys;
    assert MergedSoFar(base, over, todo, result);
    while todo != {}
      invariant todo <= over.Keys && MergedSoFar(base, over, todo, result)
      decreases |todo|
    {
      var k :| k in todo;
      var merged := MergeEntry(base, over, k);
      MergedOneMore(base, over, todo, result, k);
      result := result[k := merged];
      todo := todo - {k};
    }
    MergedAll(base, over, result);
  }

  /** One iteration of the second loop: two maps are merged, anything else is overridden. */
  method MergeEntry(base: Fields, over: Fields, k: string) returns (merged: Value)
    requires k in over
    ensures merged == MergeAt(base, over, k)
    decreases Obj(over), 0
  {
    if k in base && base[k].Obj? && over[k].Obj? {
      var nested := MergeMaps(base[k].fields, over[k].fields);
      return Obj(nested);
    }
    return over[k];
  }

  /* ---------- Looking into a tree ---------- */

  datatype Step = Key(key: string) | Index(index: nat)

  type Path = seq<Step>

  function Child(v: Value, s: Step): Option<Value> {
    match (v, s)
    case (Obj(m), Key(k)) => if k in m then Some(m[k]) else None
    case (List(xs), Index(i)) => if i < |xs| then Some(xs[i]) else None
    case _ => None
  }

  function At(v: Value, p: Path): Option<Value> {
    if p == [] then Some(v)
    else
      match Child(v, p[0])
      case None => None
      case Some(c) => At(c, p[1..])
  }

  lemma AtCons(v: Value, s: Step, p: Path)
    ensures At(v, [s] + p) == if Child(v, s).None? then None else At(Child(v, s).value, p)
    ensures At(v, [s]) == Child(v, s)
  {
    assert ([s] + p)[1..] == p && [s][1..] == [];
  }

  predicate MapAt(v: Value, p: Path) {
    At(v, p).Some? && At(v, p).value.Obj?
  }

  predicate NonMapAt(v: Value, p: Path) {
    At(v, p).Some? && !At(v, p).value.Obj?
  }

  /** Some proper prefix of `p` already holds a value that is not a map. */
  predicate Blocked(v: Value, p: Path) {
    exists i | 0 <= i < |p| :: NonMapAt(v, p[..i])
  }

  lemma BlockedUnfolds(v: Value, p: Path)
    requires p != []
    ensures Blocked(v, p) <==> !v.Obj? || (Child(v, p[0]).Some? && Blocked(Child(v, p[0]).value, p[1..]))
  {
    assert p[..0] == [];
    var c := Child(v, p[0]);
    forall i | 0 < i < |p|
      ensures NonMapAt(v, p[..i]) <==> c.Some? && NonMapAt(c.value, p[1..][..i - 1])
    {
      assert p[..i][0] == p[0] && p[..i][1..] == p[1..][..i - 1];
    }
    if c.Some? && Blocked(c.value, p[1..]) {
      var i :| 0 <= i < |p[1..]| && NonMapAt(c.value, p[1..][..i]);
      assert NonMapAt(v, p[..i + 1]);
    }
  }

  predicate KeyPath(p: Path) {
    forall s <- p :: s.Key?
  }

  /** What the merged tree holds at a path: `over` wins, and `base` shows through exactly
      where `over` has nothing and is not blocked by a non-map above. */
  lemma {:induction false} MergeAtPath(base: Fields, over: Fields, p: Path, x: Value)
    requires KeyPath(p) && !x.Obj?
    ensures At(Obj(Merge(base, over)), p) == Some(x) <==>
            || At(Obj(over), p) == Some(x)
            || (At(Obj(base), p) == Some(x) && At(Obj(over), p) == None && !Blocked(Obj(over), p))
    ensures MapAt(Obj(Merge(base, over)), p) <==>
            || MapAt(Obj(over), p)
            || (MapAt(Obj(base), p) && At(Obj(over), p) == None && !Blocked(Obj(over), p))
    decreases |p|
  {
    if p != [] {
      var k := p[0].key;
      BlockedUnfolds(Obj(over), p);
      if k in base && k in over {
        assert Child(Obj(Merge(base, over)), p[0]) == Some(MergeAt(base, over, k));
        if base[k].Obj? && over[k].Obj? {
          MergeAtPath(base[k].fields, over[k].fields, p[1..], x);
        } else if !over[k].Obj? && p[1..] != [] {
          BlockedUnfolds(over[k], p[1..]);
        } else if p[1..] != [] {
          assert p[1..][0].Key? && At(base[k], p[1..]) == None;
        }
      }
    }
  }

  /** Two trees hold the same thing at `p`: nothing, a map, or the same non-map. */
  predicate SameAt(v: Value, w: Value, p: Path) {
    || At(v, p) == At(w, p)
    || (MapAt(v, p) && MapAt(w, p))
  }

  /** A tree is determined by what it holds at its key paths. */
  lemma {:induction false} TreeDetermined(v: Value, w: Value)
    requires forall p | KeyPath(p) :: SameAt(v, w, p)
    ensures v == w
    decreases v
  {
    assert KeyPath([]) && SameAt(v, w, []);
    if v.Obj? {
      forall k | k in v.fields || k in w.fields
        ensures k in v.fields && k in w.fields && v.fields[k] == w.fields[k]
      {
        AtCons(v, Key(k), []);
        AtCons(w, Key(k), []);
        assert KeyPath([Key(k)]) && SameAt(v, w, [Key(k)]);
        forall p | KeyPath(p) ensures SameAt(v.fields[k], w.fields[k], p) {
          AtCons(v, Key(k), p);
          AtCons(w, Key(k), p);
          assert KeyPath([Key(k)] + p) && SameAt(v, w, [Key(k)] + p);
        }
        TreeDetermined(v.fields[k], w.fields[k]);
      }
    }
  }

  /** `MergeAtPath` leaves no freedom: it is a complete description of the merge. */
  lemma MergeIsUnique(base: Fields, over: Fields, m: Fields)
    requires forall p, x: Value | KeyPath(p) && !x.Obj? :: At(Obj(m), p) == Some(x) <==>
               || At(Obj(over), p) == Some(x)
               || (At(Obj(base), p) == Some(x) && At(Obj(over), p) == None && !Blocked(Obj(over), p))
    requires forall p | KeyPath(p) :: MapAt(Obj(m), p) <==>
               || MapAt(Obj(over), p)
               || (MapAt(Obj(base), p) && At(Obj(over), p) == None && !Blocked(Obj(over), p))
    ensures m == Merge(base, over)
  {
    var r := Obj(Merge(base, over));
    forall p | KeyPath(p) ensures SameAt(Obj(m), r, p) {
      MergeAtPath(base, over, p, Scalar(0));
      if NonMapAt(Obj(m), p) {
        MergeAtPath(base, over, p, At(Obj(m), p).value);
      }
      if NonMapAt(r, p) {
        MergeAtPath(base, over, p, At(r, p).value);
        assert At(r, p) == Some(At(r, p).value);
        assert At(Obj(m), p) == Some(At(r, p).value);
      }
    }
    TreeDetermined(Obj(m), r);
  }

  /* ---------- Laws ---------- */

  /** `a` adds nothing when `c` is laid over it. */
  predicate Covers(c: Fields, a: Fields)
    decreases Obj(c)
  {
    forall k <- a :: k in c && (a[k].Obj? && c[k].Obj? ==> Covers(c[k].fields, a[k].fields))
  }

  lemma {:induction false} CoveredIffAbsorbed(a: Fields, c: Fields)
    ensures Merge(a, c) == c <==> Covers(c, a)
    decreases Obj(c)
  {
    forall k | k in a && k in c && a[k].Obj? && c[k].Obj? {
      CoveredIffAbsorbed(a[k].fields, c[k].fields);
    }
    var m := Merge(a, c);
    if Covers(c, a) {
      assert forall k <- m :: m[k] == MergeAt(a, c, k) == c[k];
    }
    if m == c {
      forall k <- a
        ensures k in c && (a[k].Obj? && c[k].Obj? ==> Covers(c[k].fields, a[k].fields))
      {
        assert k in m && m[k] == MergeAt(a, c, k);
      }
    }
  }

  lemma {:induction false} CoversItself(a: Fields)
    ensures Covers(a, a)
    decreases Obj(a)
  {
    forall k <- a | a[k].Obj? {
      CoversItself(a[k].fields);
    }
  }

  lemma {:induction false} MergeCovers(a: Fields, b: Fields)
    ensures Covers(Merge(a, b), a)
    decreases Obj(b)
  {
    var m := Merge(a, b);
    forall k <- a
      ensures k in m && (a[k].Obj? && m[k].Obj? ==> Covers(m[k].fields, a[k].fields))
    {
      assert m[k] == MergeAt(a, b, k);
      if a[k].Obj? && m[k].Obj? {
        if k in b {
          MergeCovers(a[k].fields, b[k].fields);
        } else {
          CoversItself(a[k].fields);
        }
      }
    }
  }

  lemma {:induction false} MergeOverriddenTwice(a: Fields, b: Fields)
    ensures Merge(Merge(a, b), b) == Merge(a, b)
    decreases Obj(b)
  {
    var m := Merge(a, b);
    forall k <- m ensures MergeAt(m, b, k) == m[k] {
      assert m[k] == MergeAt(a, b, k);
      if k in b && m[k].Obj? && b[k].Obj? {
        if k in a && a[k].Obj? {
          MergeOverriddenTwice(a[k].fields, b[k].fields);
        } else {
          CoversItself(b[k].fields);
          CoveredIffAbsorbed(b[k].fields, b[k].fields);
        }
      }
    }
    assert Merge(m, b).Keys == m.Keys;
  }

  /** The empty map is an identity, merging is idempotent, and re-applying either operand is absorbed. */
  lemma MergeLaws(a: Fields, b: Fields)
    ensures Merge(map[], a) == a && Merge(a, map[]) == a
    ensures Merge(a, a) == a
    ensures Merge(a, Merge(a, b)) == Merge(a, b) == Merge(Merge(a, b), b)
  {
    assert Merge(a, map[]) == a;
    assert Merge(map[], a) == a;
    CoversItself(a);
    CoveredIffAbsorbed(a, a);
    MergeCovers(a, b);
    CoveredIffAbsorbed(a, Merge(a, b));
    MergeOverriddenTwice(a, b);
  }

  /* ---------- Associativity ---------- */

  /** Wherever the outer operands hold maps and the middle one a non-map, the last map
      already covers the first. */
  ghost predicate ShadowSafe(a: Fields, b: Fields, c: Fields) {
    forall p | KeyPath(p) && MapAt(Obj(a), p) && NonMapAt(Obj(b), p) && MapAt(Obj(c), p) ::
      Covers(At(Obj(c), p).value.fields, At(Obj(a), p).value.fields)
  }

  /** `ShadowSafe` followed key by key. */
  predicate SafeAt(a: Fields, b: Fields, c: Fields, k: string)
    decreases Obj(c)
  {
    k in a && k in b && k in c && a[k].Obj? && c[k].Obj? ==>
      if b[k].Obj? then forall j <- c[k].fields :: SafeAt(a[k].fields, b[k].fields, c[k].fields, j)
      else Covers(c[k].fields, a[k].fields)
  }

  predicate Safe(a: Fields, b: Fields, c: Fields) {
    forall k <- c :: SafeAt(a, b, c, k)
  }

  lemma {:induction false} SafeCoversPaths(a: Fields, b: Fields, c: Fields, p: Path)
    requires Safe(a, b, c) && KeyPath(p)
    requires MapAt(Obj(a), p) && NonMapAt(Obj(b), p) && MapAt(Obj(c), p)
    ensures Covers(At(Obj(c), p).value.fields, At(Obj(a), p).value.fields)
    decreases |p|
  {
    if p != [] {
      var k := p[0].key;
      assert SafeAt(a, b, c, k);
      var q := p[1..];
      assert At(Obj(a), p) == At(a[k], q) && At(Obj(b), p) == At(b[k], q) && At(Obj(c), p) == At(c[k], q);
      if q == [] {
        assert At(Obj(a), p) == Some(a[k]) && At(Obj(b), p) == Some(b[k]) && At(Obj(c), p) == Some(c[k]);
      } else {
        assert q[0].Key? && Child(a[k], q[0]).Some? && Child(b[k], q[0]).Some? && Child(c[k], q[0]).Some?;
        SafeCoversPaths(a[k].fields, b[k].fields, c[k].fields, q);
      }
    }
  }

  lemma {:induction false} PathsMakeSafe(a: Fields, b: Fields, c: Fields)
    requires ShadowSafe(a, b, c)
    ensures Safe(a, b, c)
    decreases Obj(c)
  {
    forall k <- c | k in a && k in b && a[k].Obj? && c[k].Obj?
      ensures SafeAt(a, b, c, k)
    {
      forall p | KeyPath(p)
        ensures At(Obj(a), [Key(k)] + p) == At(a[k], p)
        ensures At(Obj(b), [Key(k)] + p) == At(b[k], p)
        ensures At(Obj(c), [Key(k)] + p) == At(c[k], p)
        ensures KeyPath([Key(k)] + p)
      {
        AtCons(Obj(a), Key(k), p);
        AtCons(Obj(b), Key(k), p);
        AtCons(Obj(c), Key(k), p);
      }
      if b[k].Obj? {
        assert ShadowSafe(a[k].fields, b[k].fields, c[k].fields);
        PathsMakeSafe(a[k].fields, b[k].fields, c[k].fields);
      } else {
        assert KeyPath([]) && KeyPath([Key(k)] + []);
        assert At(Obj(a), [Key(k)] + []) == Some(a[k]);
        assert At(Obj(c), [Key(k)] + []) == Some(c[k]);
      }
    }
  }

  lemma {:induction false} AssociativeAtKey(a: Fields, b: Fields, c: Fields, k: string)
    requires k in a.Keys + b.Keys + c.Keys
    ensures MergeAt(Merge(a, b), c, k) == MergeAt(a, Merge(b, c), k) <==> SafeAt(a, b, c, k)
    decreases Obj(c)
  {
    var ab, bc := Merge(a, b), Merge(b, c);
    if k in a && k in b && k in c && a[k].Obj? && c[k].Obj? {
      assert bc[k] == MergeAt(b, c, k) && ab[k] == MergeAt(a, b, k);
      if b[k].Obj? {
        var x, y, z := a[k].fields, b[k].fields, c[k].fields;
        forall j | j in x.Keys + y.Keys + z.Keys {
          AssociativeAtKey(x, y, z, j);
        }
        AssociativeFromKeys(x, y, z);
      } else {
        CoveredIffAbsorbed(a[k].fields, c[k].fields);
      }
    } else {
      assert k in ab ==> ab[k] == MergeAt(a, b, k);
      assert k in bc ==> bc[k] == MergeAt(b, c, k);
    }
  }

  lemma AssociativeFromKeys(a: Fields, b: Fields, c: Fields)
    requires forall k | k in a.Keys + b.Keys + c.Keys ::
      MergeAt(Merge(a, b), c, k) == MergeAt(a, Merge(b, c), k) <==> SafeAt(a, b, c, k)
    ensures Merge(Merge(a, b), c) == Merge(a, Merge(b, c)) <==> Safe(a, b, c)
  {
    var l, r := Merge(Merge(a, b), c), Merge(a, Merge(b, c));
    assert l.Keys == r.Keys == a.Keys + b.Keys + c.Keys;
    assert forall k <- l :: l[k] == MergeAt(Merge(a, b), c, k);
    assert forall k <- r :: r[k] == MergeAt(a, Merge(b, c), k);
    if l == r {
      forall k <- c ensures SafeAt(a, b, c, k) {
        assert l[k] == r[k];
      }
    }
    if Safe(a, b, c) {
      forall k <- l ensures l[k] == r[k] {
        assert k in c || SafeAt(a, b, c, k);
      }
    }
  }

  /** Three trees on which merging is not associative: laid over `b` alone, `c` starts afresh; laid over
      `a`, it lets `a` show through. */
  lemma NotAssociative(k: string, j: string, x: Value, y: Value)
    requires !x.Obj?
    ensures var a, b, c := map[k := Obj(map[j := y])], map[k := x], map[k := Obj(map[])];
      Merge(Merge(a, b), c) != Merge(a, Merge(b, c))
  {
    var a: Fields, b: Fields, c: Fields := map[k := Obj(map[j := y])], map[k := x], map[k := Obj(map[])];
    assert Merge(Merge(a, b), c)[k] == Obj(map[]);
    assert Merge(b, c) == c;
    assert MergeAt(a, c, k) == Obj(Merge(map[j := y], map[]));
    assert j in Merge(map[j := y], map[]);
  }

  /** Merging is not associative in general; this is exactly when it is. */
  lemma AssociativeIff(a: Fields, b: Fields, c: Fields)
    ensures Merge(Merge(a, b), c) == Merge(a, Merge(b, c)) <==> ShadowSafe(a, b, c)
  {
    forall k | k in a.Keys + b.Keys + c.Keys {
      AssociativeAtKey(a, b, c, k);
    }
    AssociativeFromKeys(a, b, c);
    if Safe(a, b, c) {
      forall p | KeyPath(p) && MapAt(Obj(a), p) && NonMapAt(Obj(b), p) && MapAt(Obj(c), p) {
        SafeCoversPaths(a, b, c, p);
      }
    }
    if ShadowSafe(a, b, c) {
      PathsMakeSafe(a, b, c);
    }
  }

  /** In particular when the middle operand never puts a non-map between two maps. */
  lemma AssociativeWithoutShadows(a: Fields, b: Fields, c: Fields)
    requires forall p | KeyPath(p) && MapAt(Obj(a), p) && MapAt(Obj(c), p) :: !NonMapAt(Obj(b), p)
    ensures Merge(Merge(a, b), c) == Merge(a, Merge(b, c))
  {
    AssociativeIff(a, b, c);
  }
}
