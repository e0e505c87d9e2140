/** Placeholder substitution by repeated `strings.ReplaceAll`.

    Helm values use `${K}` and `{{K}}`, RBAC rules use `{{.K}}`.  Both are expanded by one
    `ReplaceAll` per context entry, in whatever order Go ranges over the context map.  The
    reference semantics is a template of literal and token pieces on which every token is
    replaced at once. */
module TemplateText {
  import opened Common

  /** `strings.ReplaceAll` for a non-empty pattern: leftmost, non-overlapping, left to right. */
  function ReplaceAll(s: string, pattern: string, value: string): string
    requires pattern != ""
    decreases |s|
  {
    if |s| < |pattern| then s
    else if pattern <= s then value + ReplaceAll(s[|pattern|..], pattern, value)
    else [s[0]] + ReplaceAll(s[1..], pattern, value)
  }

  function DollarToken(key: string): (r: string) {
    "${" + key + "}"
  }

  function BraceToken(key: string): (r: string) {
    "{{" + key + "}}"
  }

  /** Which tokens a context entry replaces: both kinds in Helm values, `{{K}}` alone in RBAC rules. */
  datatype Syntax = DollarAndBrace | BraceOnly

  /** The replacements made for one context entry. */
  function ReplaceKey(x: Syntax, s: string, key: string, value: string): string {
    ReplaceAll(if x.BraceOnly? then s else ReplaceAll(s, DollarToken(key), value), BraceToken(key), value)
  }

  /** One pass over the context in the given order. */
  function ReplaceKeys(x: Syntax, s: string, order: seq<string>, ctx: map<string, string>): string
    requires forall k <- order :: k in ctx
  {
    if order == [] then s
    else
      var last := order[|order| - 1];
      ReplaceKey(x, ReplaceKeys(x, s, order[..|order| - 1], ctx), last, ctx[last])
  }

  /** A way Go may range over the context: every key once. */
  ghost predicate IsOrder(order: seq<string>, ctx: map<string, string>) {
    Distinct(order) && forall k :: k in order <==> k in ctx
  }

  /* ---------- Reference semantics: all tokens at once ---------- */

  datatype Piece = Lit(text: string) | Dollar(key: string) | Brace(key: string) {
    function Text(): string {
      match this
      case Lit(t) => t
      case Dollar(k) => DollarToken(k)
      case Brace(k) => BraceToken(k)
    }

    function Body(): string {
      if Lit? then text else key
    }
  }

  function Render(ps: seq<Piece>): string {
    if ps == [] then "" else ps[0].Text() + Render(ps[1..])
  }

  function SubstPiece(p: Piece, ctx: map<string, string>): Piece {
    if !p.Lit? && p.key in ctx then Lit(ctx[p.key]) else p
  }

  function Subst(ps: seq<Piece>, ctx: map<string, string>): seq<Piece> {
    seq(|ps|, i requires 0 <= i < |ps| => SubstPiece(ps[i], ctx))
  }

  /** `{{K}}` tokens only, as the RBAC rules do it. */
  function SubstBracePiece(p: Piece, ctx: map<string, string>): Piece {
    if p.Brace? && p.key in ctx then Lit(ctx[p.key]) else p
  }

  function SubstBraces(ps: seq<Piece>, ctx: map<string, string>): seq<Piece> {
    seq(|ps|, i requires 0 <= i < |ps| => SubstBracePiece(ps[i], ctx))
  }

  function SubstDollarPiece(p: Piece, key: string, value: string): Piece {
    if p == Dollar(key) then Lit(value) else p
  }

  predicate Plain(t: string) {
    '$' !in t && '{' !in t && '}' !in t
  }

  predicate PlainPieces(ps: seq<Piece>) {
    forall p <- ps :: Plain(p.Body())
  }

  predicate PlainContext(ctx: map<string, string>) {
    forall k <- ctx :: Plain(k) && Plain(ctx[k])
  }

  /* ---------- Scanning lemmas ---------- */

  /** Text that never holds the pattern's first character is copied unchanged. */
  lemma {:induction false} ReplaceAllSkips(t: string, rest: string, pattern: string, value: string)
    requires pattern != "" && pattern[0] !in t
    ensures ReplaceAll(t + rest, pattern, value) == t + ReplaceAll(rest, pattern, value)
    decreases |t|
  {
    if t == "" {
      assert t + rest == rest;
    } else {
      var s := t + rest;
      assert s[0] == t[0] && s[1..] == t[1..] + rest;
      ReplaceAllSkips(t[1..], rest, pattern, value);
      if |s| < |pattern| {
        assert |rest| < |pattern|;
      } else {
        assert !(pattern <= s);
        assert [t[0]] + (t[1..] + ReplaceAll(rest, pattern, value)) == t + ReplaceAll(rest, pattern, value);
      }
    }
  }

  lemma ReplaceAllMatches(rest: string, pattern: string, value: string)
    requires pattern != ""
    ensures ReplaceAll(pattern + rest, pattern, value) == value + ReplaceAll(rest, pattern, value)
  {
    assert (pattern + rest)[|pattern|..] == rest;
  }

  /** A character at which no match starts is copied. */
  lemma ReplaceAllSteps(c: char, rest: string, pattern: string, value: string)
    requires pattern != "" && !(pattern <= [c] + rest)
    ensures ReplaceAll([c] + rest, pattern, value) == [c] + ReplaceAll(rest, pattern, value)
  {
    assert ([c] + rest)[1..] == rest;
  }

  /** Keys closed by `}` agree as prefixes only if they are the same key. */
  lemma KeysAgree(k: string, j: string, tail: string, rest: string)
    requires Plain(k) && Plain(j) && tail != "" && tail[0] == '}'
    ensures k + tail <= j + tail + rest ==> k == j
  {
    var a, b := k + tail, j + tail + rest;
    assert |k| < |j| ==> a[|k|] == '}' && b[|k|] == j[|k|];
    assert |k| > |j| ==> a[|j|] == k[|j|] && b[|j|] == '}';
    assert |k| == |j| ==> k == a[..|k|] && b[..|k|] == j;
  }

  lemma TokensDiffer(prefix: string, k: string, j: string, tail: string, rest: string)
    requires Plain(k) && Plain(j) && k != j && tail != "" && tail[0] == '}'
    ensures !(prefix + (k + tail) <= prefix + (j + tail + rest))
  {
    KeysAgree(k, j, tail, rest);
    PrefixCancels(prefix, k + tail, j + tail + rest);
  }

  lemma PrefixCancels(prefix: string, x: string, y: string)
    ensures prefix + x <= prefix + y ==> x <= y
  {
    assert (prefix + x)[|prefix|..] == x && (prefix + y)[|prefix|..] == y;
    assert prefix + x <= prefix + y ==> forall i | 0 <= i < |x| :: (prefix + x)[|prefix| + i] == x[i];
  }

  /** An opening `c` that starts no match, then text free of the pattern's first character. */
  lemma StepThenSkip(c: char, t: string, rest: string, pattern: string, value: string)
    requires pattern != "" && pattern[0] !in t && !(pattern <= [c] + (t + rest))
    ensures ReplaceAll([c] + (t + rest), pattern, value) == [c] + (t + ReplaceAll(rest, pattern, value))
  {
    ReplaceAllSteps(c, t + rest, pattern, value);
    ReplaceAllSkips(t, rest, pattern, value);
  }

  lemma DollarOverOtherDollar(j: string, rest: string, k: string, value: string)
    requires Plain(j) && Plain(k) && j != k
    ensures ReplaceAll(DollarToken(j) + rest, DollarToken(k), value)
         == DollarToken(j) + ReplaceAll(rest, DollarToken(k), value)
  {
    var t := "{" + j + "}";
    TokensDiffer("${", k, j, "}", rest);
    assert DollarToken(k) == "${" + (k + "}");
    assert DollarToken(j) + rest == "${" + (j + "}" + rest) == ['$'] + (t + rest);
    StepThenSkip('$', t, rest, DollarToken(k), value);
    assert forall r :: ['$'] + (t + r) == DollarToken(j) + r;
  }

  lemma BraceOverOtherBrace(j: string, rest: string, k: string, value: string)
    requires Plain(j) && Plain(k) && j != k
    ensures ReplaceAll(BraceToken(j) + rest, BraceToken(k), value)
         == BraceToken(j) + ReplaceAll(rest, BraceToken(k), value)
  {
    var t := j + "}}";
    var inner := ['{'] + (t + rest);
    assert inner[1] != '{';
    StepThenSkip('{', t, rest, BraceToken(k), value);
    BraceTokenShape(j, rest);
    TokensDiffer("{{", k, j, "}}", rest);
    BraceTokenShape(k, "");
    ReplaceAllSteps('{', inner, BraceToken(k), value);
    BraceTokenShape(j, ReplaceAll(rest, BraceToken(k), value));
  }

  lemma BraceTokenShape(j: string, rest: string)
    ensures BraceToken(j) + rest == ['{'] + (['{'] + (j + "}}" + rest)) == "{{" + (j + "}}" + rest)
    ensures BraceToken(j) == "{{" + (j + "}}")
  {
  }

  lemma BraceOverDollar(j: string, rest: string, k: string, value: string)
    requires Plain(j)
    ensures ReplaceAll(DollarToken(j) + rest, BraceToken(k), value)
         == DollarToken(j) + ReplaceAll(rest, BraceToken(k), value)
  {
    var t := j + "}";
    var inner := ['{'] + (t + rest);
    assert inner[1] == (if j == "" then '}' else j[0]);
    StepThenSkip('{', t, rest, BraceToken(k), value);
    assert DollarToken(j) + rest == ['$'] + inner;
    ReplaceAllSteps('$', inner, BraceToken(k), value);
    assert forall r :: ['$'] + (['{'] + (t + r)) == DollarToken(j) + r;
  }

  /** Pattern `${k}` against one piece followed by anything. */
  lemma DollarOverPiece(p: Piece, rest: string, k: string, value: string)
    requires Plain(p.Body()) && Plain(k)
    ensures ReplaceAll(p.Text() + rest, DollarToken(k), value)
         == SubstDollarPiece(p, k, value).Text() + ReplaceAll(rest, DollarToken(k), value)
  {
    if p == Dollar(k) {
      ReplaceAllMatches(rest, DollarToken(k), value);
    } else if p.Dollar? {
      DollarOverOtherDollar(p.key, rest, k, value);
    } else {
      ReplaceAllSkips(p.Text(), rest, DollarToken(k), value);
    }
  }

  /** Pattern `{{k}}` against one piece followed by anything. */
  lemma BraceOverPiece(p: Piece, rest: string, k: string, value: string)
    requires Plain(p.Body()) && Plain(k)
    ensures ReplaceAll(p.Text() + rest, BraceToken(k), value)
         == SubstBracePiece(p, map[k := value]).Text() + ReplaceAll(rest, BraceToken(k), value)
  {
    match p
    case Lit(t) => ReplaceAllSkips(t, rest, BraceToken(k), value);
    case Dollar(j) => BraceOverDollar(j, rest, k, value);
    case Brace(j) =>
      if j == k {
        ReplaceAllMatches(rest, BraceToken(k), value);
      } else {
        BraceOverOtherBrace(j, rest, k, value);
      }
  }

  /* ---------- One context entry over a whole template ---------- */

  /** A template of plain literals and tokens with plain keys. */
  ghost predicate IsTemplate(t: string) {
    exists ps: seq<Piece> :: PlainPieces(ps) && t == Render(ps)
  }

  /** Contexts whose keys are plain and whose values may themselves hold tokens. */
  ghost predicate OpenContext(ctx: map<string, string>) {
    forall k <- ctx :: Plain(k) && IsTemplate(ctx[k])
  }

  /** Whether the entry for `k` replaces the piece. */
  predicate Replaces(x: Syntax, p: Piece, k: string) {
    p == Brace(k) || (x.DollarAndBrace? && p == Dollar(k))
  }

  /** What the entry for `k` makes of one piece.  A value put in for `${k}` is met again by the second
      replacement. */
  function Image(x: Syntax, p: Piece, k: string, value: string): string {
    if !Replaces(x, p, k) then p.Text()
    else if p.Brace? then value
    else ReplaceAll(value, BraceToken(k), value)
  }

  function Images(x: Syntax, ps: seq<Piece>, k: string, value: string): string {
    if ps == [] then "" else Image(x, ps[0], k, value) + Images(x, ps[1..], k, value)
  }

  lemma {:induction false} BraceOverTemplate(ps: seq<Piece>, rest: string, k: string, value: string)
    requires PlainPieces(ps) && Plain(k)
    ensures ReplaceAll(Render(ps) + rest, BraceToken(k), value)
         == ReplaceAll(Render(ps), BraceToken(k), value) + ReplaceAll(rest, BraceToken(k), value)
  {
    if ps == [] {
      assert Render(ps) + rest == rest;
    } else {
      BraceOverTemplate(ps[1..], rest, k, value);
      BraceOverTwo(ps[0], Render(ps[1..]), rest, k, value);
    }
  }

  lemma Assoc(a: string, b: string, c: string)
    ensures a + (b + c) == (a + b) + c
  {
  }

  lemma BraceOverTwo(p: Piece, tail: string, rest: string, k: string, value: string)
    requires Plain(p.Body()) && Plain(k)
    requires ReplaceAll(tail + rest, BraceToken(k), value)
          == ReplaceAll(tail, BraceToken(k), value) + ReplaceAll(rest, BraceToken(k), value)
    ensures ReplaceAll((p.Text() + tail) + rest, BraceToken(k), value)
         == ReplaceAll(p.Text() + tail, BraceToken(k), value) + ReplaceAll(rest, BraceToken(k), value)
  {
    var h := SubstBracePiece(p, map[k := value]).Text();
    Assoc(p.Text(), tail, rest);
    BraceOverPiece(p, tail + rest, k, value);
    BraceOverPiece(p, tail, k, value);
    Assoc(h, ReplaceAll(tail, BraceToken(k), value), ReplaceAll(rest, BraceToken(k), value));
  }

  lemma KeyOverPiece(x: Syntax, p: Piece, rest: string, k: string, value: string)
    requires Plain(p.Body()) && Plain(k) && IsTemplate(value)
    ensures ReplaceKey(x, p.Text() + rest, k, value) == Image(x, p, k, value) + ReplaceKey(x, rest, k, value)
  {
    if x.BraceOnly? {
      BraceOverPiece(p, rest, k, value);
    } else {
      var after := ReplaceAll(rest, DollarToken(k), value);
      DollarOverPiece(p, rest, k, value);
      if p == Dollar(k) {
        var vs: seq<Piece> :| PlainPieces(vs) && value == Render(vs);
        BraceOverTemplate(vs, after, k, value);
      } else {
        BraceOverPiece(p, after, k, value);
      }
    }
  }

  lemma {:induction false} KeyOverTemplate(x: Syntax, ps: seq<Piece>, rest: string, k: string, value: string)
    requires PlainPieces(ps) && Plain(k) && IsTemplate(value)
    ensures ReplaceKey(x, Render(ps) + rest, k, value) == Images(x, ps, k, value) + ReplaceKey(x, rest, k, value)
  {
    if ps == [] {
      assert Render(ps) + rest == rest;
    } else {
      Assoc(ps[0].Text(), Render(ps[1..]), rest);
      KeyOverPiece(x, ps[0], Render(ps[1..]) + rest, k, value);
      KeyOverTemplate(x, ps[1..], rest, k, value);
      Assoc(Image(x, ps[0], k, value), Images(x, ps[1..], k, value), ReplaceKey(x, rest, k, value));
    }
  }

  lemma KeyOverWhole(x: Syntax, ps: seq<Piece>, k: string, value: string)
    requires PlainPieces(ps) && Plain(k) && IsTemplate(value)
    ensures ReplaceKey(x, Render(ps), k, value) == Images(x, ps, k, value)
  {
    KeyOverTemplate(x, ps, "", k, value);
    assert Render(ps) + "" == Render(ps) && ReplaceKey(x, "", k, value) == "";
  }

  /* ---------- Values an entry leaves alone ---------- */

  /** Every piece is its own image: no token of `k`, or one that is replaced by itself. */
  predicate FixedPieces(x: Syntax, ps: seq<Piece>, k: string, value: string) {
    forall p <- ps :: Image(x, p, k, value) == p.Text()
  }

  /** Replacing tokens by something at least as long does not shorten a text. */
  lemma {:induction false} ReplaceAllGrows(s: string, pattern: string, value: string)
    requires pattern != "" && |pattern| <= |value|
    ensures |s| <= |ReplaceAll(s, pattern, value)|
    decreases |s|
  {
    if |s| >= |pattern| {
      if pattern <= s {
        ReplaceAllGrows(s[|pattern|..], pattern, value);
      } else {
        ReplaceAllGrows(s[1..], pattern, value);
      }
    }
  }

  /** Either no image is shorter than its piece, or none is longer. */
  lemma ImagesLeanOneWay(x: Syntax, p: Piece, k: string, value: string)
    ensures |value| >= |k| + 4 ==> |Image(x, p, k, value)| >= |p.Text()|
    ensures |value| < |k| + 4 ==> |Image(x, p, k, value)| <= |p.Text()|
  {
    assert |BraceToken(k)| == |k| + 4 && |DollarToken(k)| == |k| + 3;
    if |value| >= |k| + 4 {
      ReplaceAllGrows(value, BraceToken(k), value);
    }
  }

  lemma {:induction false} ImagesLength(x: Syntax, ps: seq<Piece>, k: string, value: string)
    ensures |value| >= |k| + 4 ==> |Images(x, ps, k, value)| >= |Render(ps)|
    ensures |value| < |k| + 4 ==> |Images(x, ps, k, value)| <= |Render(ps)|
  {
    if ps != [] {
      ImagesLeanOneWay(x, ps[0], k, value);
      ImagesLength(x, ps[1..], k, value);
    }
  }

  /** A template an entry leaves unchanged is left unchanged piece by piece. */
  lemma {:induction false} UnchangedIsFixed(x: Syntax, ps: seq<Piece>, k: string, value: string)
    requires Images(x, ps, k, value) == Render(ps)
    ensures FixedPieces(x, ps, k, value)
  {
    if ps != [] {
      var image, tail := Image(x, ps[0], k, value), Images(x, ps[1..], k, value);
      ImagesLeanOneWay(x, ps[0], k, value);
      ImagesLength(x, ps[1..], k, value);
      assert |image| + |tail| == |ps[0].Text()| + |Render(ps[1..])|;
      assert |image| == |ps[0].Text()|;
      assert image == (image + tail)[..|image|] && tail == (image + tail)[|image|..];
      assert ps[0].Text() == Render(ps)[..|image|] && Render(ps[1..]) == Render(ps)[|image|..];
      UnchangedIsFixed(x, ps[1..], k, value);
      assert ps == [ps[0]] + ps[1..];
    }
  }

  lemma {:induction false} FixedRender(x: Syntax, ps: seq<Piece>, k: string, value: string)
    requires FixedPieces(x, ps, k, value)
    ensures Images(x, ps, k, value) == Render(ps)
  {
    if ps != [] {
      assert ps[0] in ps;
      FixedRender(x, ps[1..], k, value);
    }
  }

  /** The entry for `k` copies `h`, whatever follows it. */
  ghost predicate Copies(x: Syntax, h: string, k: string, value: string) {
    forall rest :: ReplaceKey(x, h + rest, k, value) == h + ReplaceKey(x, rest, k, value)
  }

  lemma CopiesBoth(x: Syntax, h: string, j: string, k: string, value: string)
    requires Copies(x, h, k, value) && Copies(x, j, k, value)
    ensures Copies(x, h + j, k, value)
  {
    forall rest ensures ReplaceKey(x, (h + j) + rest, k, value) == (h + j) + ReplaceKey(x, rest, k, value) {
      Assoc(h, j, rest);
      assert ReplaceKey(x, h + (j + rest), k, value) == h + ReplaceKey(x, j + rest, k, value);
      assert ReplaceKey(x, j + rest, k, value) == j + ReplaceKey(x, rest, k, value);
      Assoc(h, j, ReplaceKey(x, rest, k, value));
    }
  }

  lemma CopiesNothing(x: Syntax, k: string, value: string)
    ensures Copies(x, "", k, value)
  {
    forall rest ensures ReplaceKey(x, "" + rest, k, value) == "" + ReplaceKey(x, rest, k, value) {
      assert "" + rest == rest;
    }
  }

  lemma CopiesPiece(x: Syntax, p: Piece, k: string, value: string)
    requires Plain(p.Body()) && Plain(k) && IsTemplate(value) && Image(x, p, k, value) == p.Text()
    ensures Copies(x, p.Text(), k, value)
  {
    forall rest ensures ReplaceKey(x, p.Text() + rest, k, value) == p.Text() + ReplaceKey(x, rest, k, value) {
      KeyOverPiece(x, p, rest, k, value);
    }
  }

  lemma {:induction false} CopiesFixed(x: Syntax, ps: seq<Piece>, k: string, value: string)
    requires PlainPieces(ps) && Plain(k) && IsTemplate(value) && FixedPieces(x, ps, k, value)
    ensures Copies(x, Render(ps), k, value)
  {
    if ps == [] {
      CopiesNothing(x, k, value);
    } else {
      CopiesPiece(x, ps[0], k, value);
      CopiesFixed(x, ps[1..], k, value);
      CopiesBoth(x, ps[0].Text(), Render(ps[1..]), k, value);
    }
  }

  /** The value put in for `${a}`, a copy of `own` for each `{{a}}` in it, is copied as well. */
  lemma {:induction false} CopiesNested(x: Syntax, ps: seq<Piece>, a: string, own: string, k: string, value: string)
    requires PlainPieces(ps) && Plain(k) && IsTemplate(value) && FixedPieces(x, ps, k, value) && Copies(x, own, k, value)
    ensures Copies(x, Images(BraceOnly, ps, a, own), k, value)
  {
    if ps == [] {
      CopiesNothing(x, k, value);
    } else {
      if ps[0] != Brace(a) {
        CopiesPiece(x, ps[0], k, value);
      }
      CopiesNested(x, ps[1..], a, own, k, value);
      CopiesBoth(x, Image(BraceOnly, ps[0], a, own), Images(BraceOnly, ps[1..], a, own), k, value);
    }
  }

  /* ---------- Iterated replacement is simultaneous ---------- */

  /** No entry changes another entry's value. */
  ghost predicate Stable(x: Syntax, ctx: map<string, string>) {
    forall a, b | a in ctx && b in ctx && a != b :: ReplaceKey(x, ctx[a], b, ctx[b]) == ctx[a]
  }

  predicate Expands(x: Syntax, p: Piece, keys: set<string>) {
    !p.Lit? && p.key in keys && Replaces(x, p, p.key)
  }

  /** Every token of `keys` replaced at once, by what its own entry makes of it. */
  function Simultaneous(x: Syntax, ps: seq<Piece>, keys: set<string>, ctx: map<string, string>): string
    requires keys <= ctx.Keys
  {
    if ps == [] then ""
    else (if Expands(x, ps[0], keys) then Image(x, ps[0], ps[0].key, ctx[ps[0].key]) else ps[0].Text())
         + Simultaneous(x, ps[1..], keys, ctx)
  }

  /** Another entry copies whatever an entry has put in. */
  lemma OthersCopy(x: Syntax, p: Piece, b: string, ctx: map<string, string>)
    requires OpenContext(ctx) && Stable(x, ctx) && b in ctx && Expands(x, p, ctx.Keys) && p.key != b
    ensures Copies(x, Image(x, p, p.key, ctx[p.key]), b, ctx[b])
  {
    var a := p.key;
    var vs: seq<Piece> :| PlainPieces(vs) && ctx[a] == Render(vs);
    assert ReplaceKey(x, ctx[a], b, ctx[b]) == ctx[a];
    KeyOverWhole(x, vs, b, ctx[b]);
    UnchangedIsFixed(x, vs, b, ctx[b]);
    CopiesFixed(x, vs, b, ctx[b]);
    if p.Dollar? {
      KeyOverWhole(BraceOnly, vs, a, ctx[a]);
      CopiesNested(x, vs, a, ctx[a], b, ctx[b]);
    }
  }

  lemma {:induction false} OneMoreKey(x: Syntax, ps: seq<Piece>, done: set<string>, b: string, ctx: map<string, string>)
    requires PlainPieces(ps) && OpenContext(ctx) && Stable(x, ctx) && done <= ctx.Keys && b in ctx && b !in done
    ensures ReplaceKey(x, Simultaneous(x, ps, done, ctx), b, ctx[b]) == Simultaneous(x, ps, done + {b}, ctx)
  {
    if ps != [] {
      var rest := Simultaneous(x, ps[1..], done, ctx);
      OneMoreKey(x, ps[1..], done, b, ctx);
      if Expands(x, ps[0], done) {
        OthersCopy(x, ps[0], b, ctx);
        assert Copies(x, Image(x, ps[0], ps[0].key, ctx[ps[0].key]), b, ctx[b]);
      } else {
        KeyOverPiece(x, ps[0], rest, b, ctx[b]);
      }
    }
  }

  lemma {:induction false} OrderPrefix(x: Syntax, ps: seq<Piece>, order: seq<string>, ctx: map<string, string>)
    requires PlainPieces(ps) && OpenContext(ctx) && Stable(x, ctx) && Distinct(order) && forall k <- order :: k in ctx
    ensures ReplaceKeys(x, Render(ps), order, ctx) == Simultaneous(x, ps, Keys(order), ctx)
  {
    if order == [] {
      assert Keys(order) == {};
      NothingExpands(x, ps, ctx);
    } else {
      var front, last := order[..|order| - 1], order[|order| - 1];
      assert order == front + [last] && last in order && last !in front;
      OrderPrefix(x, ps, front, ctx);
      OneMoreKey(x, ps, Keys(front), last, ctx);
      assert Keys(order) == Keys(front) + {last};
    }
  }

  function Keys(order: seq<string>): set<string> {
    set k | k in order
  }

  lemma {:induction false} NothingExpands(x: Syntax, ps: seq<Piece>, ctx: map<string, string>)
    ensures Simultaneous(x, ps, {}, ctx) == Render(ps)
  {
    if ps != [] {
      NothingExpands(x, ps[1..], ctx);
    }
  }

  /** When no entry changes another's value, one pass in any order replaces every token of a template at
      once. */
  lemma StableIsSimultaneous(x: Syntax, ps: seq<Piece>, order: seq<string>, ctx: map<string, string>)
    requires PlainPieces(ps) && OpenContext(ctx) && Stable(x, ctx) && IsOrder(order, ctx)
    ensures ReplaceKeys(x, Render(ps), order, ctx) == Simultaneous(x, ps, ctx.Keys, ctx)
  {
    OrderPrefix(x, ps, order, ctx);
    assert Keys(order) == ctx.Keys;
  }

  /* ---------- Exactly when the order does not matter ---------- */

  /** All orders agree on this text. */
  ghost predicate OrdersAgree(x: Syntax, s: string, ctx: map<string, string>) {
    forall o, p | IsOrder(o, ctx) && IsOrder(p, ctx) :: ReplaceKeys(x, s, o, ctx) == ReplaceKeys(x, s, p, ctx)
  }

  /** Entries for other keys leave a token alone. */
  lemma {:induction false} TokenSurvives(x: Syntax, a: string, order: seq<string>, ctx: map<string, string>)
    requires OpenContext(ctx) && Plain(a) && a !in order && forall k <- order :: k in ctx
    ensures ReplaceKeys(x, BraceToken(a), order, ctx) == BraceToken(a)
  {
    if order != [] {
      var front, last := order[..|order| - 1], order[|order| - 1];
      assert order == front + [last] && last in order;
      TokenSurvives(x, a, front, ctx);
      TokenAlone(x, a, last, ctx[last]);
    }
  }

  lemma TokenAlone(x: Syntax, a: string, k: string, value: string)
    requires Plain(a) && Plain(k) && IsTemplate(value)
    ensures ReplaceKey(x, BraceToken(a), k, value) == if a == k then value else BraceToken(a)
  {
    KeyOverPiece(x, Brace(a), "", k, value);
    assert BraceToken(a) + "" == BraceToken(a) && ReplaceKey(x, "", k, value) == "";
  }

  lemma ReplaceOneMore(x: Syntax, s: string, order: seq<string>, k: string, ctx: map<string, string>)
    requires k in ctx && forall j <- order :: j in ctx
    ensures ReplaceKeys(x, s, order + [k], ctx) == ReplaceKey(x, ReplaceKeys(x, s, order, ctx), k, ctx[k])
  {
    assert (order + [k])[..|order|] == order;
  }

  /** Putting `a` and `b` last, in either order, shows whether `b` changes the value of `a`. */
  lemma AgreementIsStability(x: Syntax, a: string, b: string, ctx: map<string, string>)
    requires OpenContext(ctx) && a in ctx && b in ctx && a != b && OrdersAgree(x, BraceToken(a), ctx)
    ensures ReplaceKey(x, ctx[a], b, ctx[b]) == ctx[a]
  {
    var rest := Listing(ctx.Keys - {a, b});
    TwoLast(rest, a, b, ctx);
    TwoLast(rest, b, a, ctx);
    ValueThenOther(x, rest, a, b, ctx);
    OtherThenValue(x, rest, a, b, ctx);
    Agreed(x, BraceToken(a), rest + [a] + [b], rest + [b] + [a], ctx);
  }

  lemma Agreed(x: Syntax, s: string, o: seq<string>, p: seq<string>, ctx: map<string, string>)
    requires OrdersAgree(x, s, ctx) && IsOrder(o, ctx) && IsOrder(p, ctx)
    ensures ReplaceKeys(x, s, o, ctx) == ReplaceKeys(x, s, p, ctx)
  {
  }

  lemma ValueThenOther(x: Syntax, rest: seq<string>, a: string, b: string, ctx: map<string, string>)
    requires OpenContext(ctx) && a in ctx && b in ctx && a !in rest && forall k <- rest :: k in ctx
    ensures ReplaceKeys(x, BraceToken(a), rest + [a] + [b], ctx) == ReplaceKey(x, ctx[a], b, ctx[b])
  {
    TokenSurvives(x, a, rest, ctx);
    TokenAlone(x, a, a, ctx[a]);
    ReplaceTwoMore(x, BraceToken(a), rest, a, b, ctx);
  }

  lemma OtherThenValue(x: Syntax, rest: seq<string>, a: string, b: string, ctx: map<string, string>)
    requires OpenContext(ctx) && a in ctx && b in ctx && a != b && a !in rest && forall k <- rest :: k in ctx
    ensures ReplaceKeys(x, BraceToken(a), rest + [b] + [a], ctx) == ctx[a]
  {
    TokenSurvives(x, a, rest, ctx);
    TokenAlone(x, a, b, ctx[b]);
    TokenAlone(x, a, a, ctx[a]);
    ReplaceTwoMore(x, BraceToken(a), rest, b, a, ctx);
  }

  lemma TwoLast(rest: seq<string>, a: string, b: string, ctx: map<string, string>)
    requires a in ctx && b in ctx && a != b && Distinct(rest) && forall k :: k in rest <==> k in ctx && k != a && k != b
    ensures IsOrder(rest + [a] + [b], ctx)
  {
  }

  lemma ReplaceTwoMore(x: Syntax, s: string, order: seq<string>, j: string, k: string, ctx: map<string, string>)
    requires j in ctx && k in ctx && forall i <- order :: i in ctx
    ensures ReplaceKeys(x, s, order + [j] + [k], ctx)
         == ReplaceKey(x, ReplaceKey(x, ReplaceKeys(x, s, order, ctx), j, ctx[j]), k, ctx[k])
  {
    ReplaceOneMore(x, s, order, j, ctx);
    ReplaceOneMore(x, s, order + [j], k, ctx);
  }

  lemma TokenIsTemplate(a: string)
    requires Plain(a)
    ensures PlainPieces([Brace(a)]) && Render([Brace(a)]) == BraceToken(a)
  {
    assert [Brace(a)][1..] == [] && Render([]) == "";
    assert BraceToken(a) + "" == BraceToken(a);
  }

  /** For contexts with plain keys and templates as values: the order of replacement is unobservable on
      every template if and only if no entry changes another entry's value. */
  lemma OrderIndependentIff(x: Syntax, ctx: map<string, string>)
    requires OpenContext(ctx)
    ensures (forall ps: seq<Piece> | PlainPieces(ps) :: OrdersAgree(x, Render(ps), ctx)) <==> Stable(x, ctx)
  {
    if Stable(x, ctx) {
      forall ps: seq<Piece> | PlainPieces(ps) ensures OrdersAgree(x, Render(ps), ctx) {
        forall o, p | IsOrder(o, ctx) && IsOrder(p, ctx)
          ensures ReplaceKeys(x, Render(ps), o, ctx) == ReplaceKeys(x, Render(ps), p, ctx)
        {
          StableIsSimultaneous(x, ps, o, ctx);
          StableIsSimultaneous(x, ps, p, ctx);
        }
      }
    } else {
      var a, b :| a in ctx && b in ctx && a != b && ReplaceKey(x, ctx[a], b, ctx[b]) != ctx[a];
      TokenIsTemplate(a);
      if OrdersAgree(x, Render([Brace(a)]), ctx) {
        AgreementIsStability(x, a, b, ctx);
      }
    }
  }

  /* ---------- Exactly when a second pass changes nothing ---------- */

  /** Whatever the orders of the two passes, the second changes nothing. */
  ghost predicate Settles(x: Syntax, s: string, ctx: map<string, string>) {
    forall o, p | IsOrder(o, ctx) && IsOrder(p, ctx) ::
      ReplaceKeys(x, ReplaceKeys(x, s, o, ctx), p, ctx) == ReplaceKeys(x, s, o, ctx)
  }

  /** Expansion is idempotent on every template. */
  ghost predicate Idempotent(x: Syntax, ctx: map<string, string>) {
    forall ps: seq<Piece> | PlainPieces(ps) :: Settles(x, Render(ps), ctx)
  }

  /** No entry changes its own value. */
  ghost predicate SelfStable(x: Syntax, ctx: map<string, string>) {
    forall a <- ctx :: ReplaceKey(x, ctx[a], a, ctx[a]) == ctx[a]
  }

  /** Then what an entry puts in is just its value. */
  lemma ImageIsValue(x: Syntax, p: Piece, ctx: map<string, string>)
    requires OpenContext(ctx) && SelfStable(x, ctx) && Expands(x, p, ctx.Keys)
    ensures Image(x, p, p.key, ctx[p.key]) == ctx[p.key]
  {
    var a := p.key;
    if p.Dollar? {
      var vs: seq<Piece> :| PlainPieces(vs) && ctx[a] == Render(vs);
      KeyOverWhole(x, vs, a, ctx[a]);
      UnchangedIsFixed(x, vs, a, ctx[a]);
      KeyOverWhole(BraceOnly, vs, a, ctx[a]);
      FixedRender(BraceOnly, vs, a, ctx[a]);
    }
  }

  lemma {:induction false} AllCopy(x: Syntax, ps: seq<Piece>, b: string, ctx: map<string, string>)
    requires PlainPieces(ps) && OpenContext(ctx) && Stable(x, ctx) && SelfStable(x, ctx) && b in ctx
    ensures Copies(x, Simultaneous(x, ps, ctx.Keys, ctx), b, ctx[b])
  {
    if ps == [] {
      CopiesNothing(x, b, ctx[b]);
    } else {
      if Expands(x, ps[0], ctx.Keys) {
        ValueCopied(x, ps[0], b, ctx);
      } else {
        CopiesPiece(x, ps[0], b, ctx[b]);
      }
      AllCopy(x, ps[1..], b, ctx);
      CopiesBoth(x, if Expands(x, ps[0], ctx.Keys) then Image(x, ps[0], ps[0].key, ctx[ps[0].key]) else ps[0].Text(),
        Simultaneous(x, ps[1..], ctx.Keys, ctx), b, ctx[b]);
    }
  }

  lemma ValueCopied(x: Syntax, p: Piece, b: string, ctx: map<string, string>)
    requires OpenContext(ctx) && Stable(x, ctx) && SelfStable(x, ctx) && b in ctx && Expands(x, p, ctx.Keys)
    ensures Copies(x, Image(x, p, p.key, ctx[p.key]), b, ctx[b])
  {
    if p.key != b {
      OthersCopy(x, p, b, ctx);
    } else {
      ImageIsValue(x, p, ctx);
      var vs: seq<Piece> :| PlainPieces(vs) && ctx[b] == Render(vs);
      KeyOverWhole(x, vs, b, ctx[b]);
      UnchangedIsFixed(x, vs, b, ctx[b]);
      CopiesFixed(x, vs, b, ctx[b]);
    }
  }

  lemma {:induction false} CopiedByAll(x: Syntax, s: string, order: seq<string>, ctx: map<string, string>)
    requires (forall k <- order :: k in ctx) && forall k <- ctx :: Copies(x, s, k, ctx[k])
    ensures ReplaceKeys(x, s, order, ctx) == s
  {
    if order != [] {
      var front, last := order[..|order| - 1], order[|order| - 1];
      assert order == front + [last] && last in order;
      CopiedByAll(x, s, front, ctx);
      assert Copies(x, s, last, ctx[last]) && s + "" == s && ReplaceKey(x, "", last, ctx[last]) == "";
      assert ReplaceKey(x, s + "", last, ctx[last]) == s + "";
    }
  }

  /** If no entry changes any value, a second pass changes nothing. */
  lemma StableSettles(x: Syntax, ps: seq<Piece>, ctx: map<string, string>)
    requires PlainPieces(ps) && OpenContext(ctx) && Stable(x, ctx) && SelfStable(x, ctx)
    ensures Settles(x, Render(ps), ctx)
  {
    forall k <- ctx ensures Copies(x, Simultaneous(x, ps, ctx.Keys, ctx), k, ctx[k]) {
      AllCopy(x, ps, k, ctx);
    }
    forall o, p | IsOrder(o, ctx) && IsOrder(p, ctx)
      ensures ReplaceKeys(x, ReplaceKeys(x, Render(ps), o, ctx), p, ctx) == ReplaceKeys(x, Render(ps), o, ctx)
    {
      StableIsSimultaneous(x, ps, o, ctx);
      CopiedByAll(x, Simultaneous(x, ps, ctx.Keys, ctx), p, ctx);
    }
  }

  /* ---------- Templates that some entries leave alone ---------- */

  predicate PieceKept(x: Syntax, p: Piece, keys: set<string>, ctx: map<string, string>)
    requires keys <= ctx.Keys
  {
    Plain(p.Body()) && forall j <- keys :: Image(x, p, j, ctx[j]) == p.Text()
  }

  /** A template no piece of which an entry for `keys` changes. */
  ghost predicate Kept(x: Syntax, s: string, keys: set<string>, ctx: map<string, string>)
    requires keys <= ctx.Keys
  {
    exists ps: seq<Piece> :: s == Render(ps) && forall p <- ps :: PieceKept(x, p, keys, ctx)
  }

  lemma KeptFirst(x: Syntax, p: Piece, t: string, keys: set<string>, ctx: map<string, string>)
    requires keys <= ctx.Keys && PieceKept(x, p, keys, ctx) && Kept(x, t, keys, ctx)
    ensures Kept(x, p.Text() + t, keys, ctx)
  {
    var qs: seq<Piece> :| t == Render(qs) && forall q <- qs :: PieceKept(x, q, keys, ctx);
    assert ([p] + qs)[1..] == qs && Render([p] + qs) == p.Text() + t;
    assert forall q <- [p] + qs :: PieceKept(x, q, keys, ctx);
  }

  lemma {:induction false} KeptAfter(x: Syntax, ps: seq<Piece>, t: string, keys: set<string>, ctx: map<string, string>)
    requires keys <= ctx.Keys && (forall p <- ps :: PieceKept(x, p, keys, ctx)) && Kept(x, t, keys, ctx)
    ensures Kept(x, Render(ps) + t, keys, ctx)
  {
    if ps == [] {
      assert "" + t == t;
    } else {
      KeptAfter(x, ps[1..], t, keys, ctx);
      KeptFirst(x, ps[0], Render(ps[1..]) + t, keys, ctx);
      Assoc(ps[0].Text(), Render(ps[1..]), t);
    }
  }

  lemma KeptBoth(x: Syntax, s: string, t: string, keys: set<string>, ctx: map<string, string>)
    requires keys <= ctx.Keys && Kept(x, s, keys, ctx) && Kept(x, t, keys, ctx)
    ensures Kept(x, s + t, keys, ctx)
  {
    var ps: seq<Piece> :| s == Render(ps) && forall p <- ps :: PieceKept(x, p, keys, ctx);
    KeptAfter(x, ps, t, keys, ctx);
  }

  lemma KeptPiece(x: Syntax, p: Piece, keys: set<string>, ctx: map<string, string>)
    requires keys <= ctx.Keys && PieceKept(x, p, keys, ctx)
    ensures Kept(x, p.Text(), keys, ctx)
  {
    assert [p][1..] == [] && Render([]) == "" && p.Text() + "" == p.Text();
    assert p.Text() == Render([p]) && forall q <- [p] :: PieceKept(x, q, keys, ctx);
  }

  /** Such templates stay so when tokens in them are replaced by such templates. */
  lemma {:induction false} ImagesKept(y: Syntax, x: Syntax, ps: seq<Piece>, k: string, keys: set<string>, ctx: map<string, string>)
    requires keys <= ctx.Keys && k in ctx && Plain(k) && Kept(x, ctx[k], keys, ctx) && forall p <- ps :: PieceKept(x, p, keys, ctx)
    ensures Kept(x, Images(y, ps, k, ctx[k]), keys, ctx)
    decreases y.DollarAndBrace?, |ps|
  {
    if ps == [] {
      assert Images(y, ps, k, ctx[k]) == Render([]);
    } else {
      assert ps[0] in ps;
      if !Replaces(y, ps[0], k) {
        KeptPiece(x, ps[0], keys, ctx);
      } else if ps[0].Dollar? {
        var vs: seq<Piece> :| ctx[k] == Render(vs) && forall p <- vs :: PieceKept(x, p, keys, ctx);
        ImagesKept(BraceOnly, x, vs, k, keys, ctx);
        KeyOverWhole(BraceOnly, vs, k, ctx[k]);
      }
      ImagesKept(y, x, ps[1..], k, keys, ctx);
      KeptBoth(x, Image(y, ps[0], k, ctx[k]), Images(y, ps[1..], k, ctx[k]), keys, ctx);
    }
  }

  /** One entry: the template stays so, is unchanged by an entry of `keys`, and is not shortened by a long one. */
  lemma KeyKeeps(x: Syntax, s: string, k: string, keys: set<string>, ctx: map<string, string>)
    requires OpenContext(ctx) && keys <= ctx.Keys && k in ctx && Kept(x, s, keys, ctx) && Kept(x, ctx[k], keys, ctx)
    ensures Kept(x, ReplaceKey(x, s, k, ctx[k]), keys, ctx)
    ensures k in keys ==> ReplaceKey(x, s, k, ctx[k]) == s
    ensures |ctx[k]| >= |k| + 4 ==> |ReplaceKey(x, s, k, ctx[k])| >= |s|
  {
    var ps: seq<Piece> :| s == Render(ps) && forall p <- ps :: PieceKept(x, p, keys, ctx);
    KeyOverWhole(x, ps, k, ctx[k]);
    ImagesKept(x, x, ps, k, keys, ctx);
    ImagesLength(x, ps, k, ctx[k]);
    if k in keys {
      FixedRender(x, ps, k, ctx[k]);
    }
  }

  /** A whole pass in which every entry is one of `keys` or long. */
  lemma {:induction false} PassKeeps(x: Syntax, s: string, order: seq<string>, keys: set<string>, ctx: map<string, string>)
    requires OpenContext(ctx) && keys <= ctx.Keys && Kept(x, s, keys, ctx)
    requires forall k <- order :: k in ctx
    requires forall k <- ctx :: Kept(x, ctx[k], keys, ctx)
    ensures Kept(x, ReplaceKeys(x, s, order, ctx), keys, ctx)
    ensures (forall k <- order :: k in keys || |ctx[k]| >= |k| + 4) ==> |ReplaceKeys(x, s, order, ctx)| >= |s|
  {
    if order != [] {
      var front, last := order[..|order| - 1], order[|order| - 1];
      assert order == front + [last] && last in order;
      PassKeeps(x, s, front, keys, ctx);
      KeyKeeps(x, ReplaceKeys(x, s, front, ctx), last, keys, ctx);
    }
  }

  /** A template each of `keys` leaves unchanged is one of these. */
  lemma UnchangedIsKept(x: Syntax, s: string, keys: set<string>, ctx: map<string, string>)
    requires OpenContext(ctx) && keys <= ctx.Keys && IsTemplate(s)
    requires forall k <- keys :: ReplaceKey(x, s, k, ctx[k]) == s
    ensures Kept(x, s, keys, ctx)
  {
    var ps: seq<Piece> :| PlainPieces(ps) && s == Render(ps);
    forall k <- keys ensures FixedPieces(x, ps, k, ctx[k]) {
      KeyOverWhole(x, ps, k, ctx[k]);
      UnchangedIsFixed(x, ps, k, ctx[k]);
    }
    assert forall p <- ps :: PieceKept(x, p, keys, ctx);
  }

  /** A pass turns templates into templates. */
  lemma PassKeepsTemplate(x: Syntax, s: string, order: seq<string>, ctx: map<string, string>)
    requires OpenContext(ctx) && IsTemplate(s) && forall k <- order :: k in ctx
    ensures IsTemplate(ReplaceKeys(x, s, order, ctx))
  {
    UnchangedIsKept(x, s, {}, ctx);
    forall k <- ctx ensures Kept(x, ctx[k], {}, ctx) {
      UnchangedIsKept(x, ctx[k], {}, ctx);
    }
    PassKeeps(x, s, order, {}, ctx);
    var ps: seq<Piece> :| ReplaceKeys(x, s, order, ctx) == Render(ps) && forall p <- ps :: PieceKept(x, p, {}, ctx);
    assert PlainPieces(ps);
  }

  /* ---------- Idempotent contexts are stable ---------- */

  /** No pass changes the text. */
  ghost predicate Settled(x: Syntax, s: string, ctx: map<string, string>) {
    forall o | IsOrder(o, ctx) :: ReplaceKeys(x, s, o, ctx) == s
  }

  /** A value is what a pass with its entry last makes of its own token. */
  lemma ValuesSettle(x: Syntax, a: string, ctx: map<string, string>)
    requires OpenContext(ctx) && Idempotent(x, ctx) && a in ctx
    ensures Settled(x, ctx[a], ctx)
  {
    var rest := Listing(ctx.Keys - {a});
    assert IsOrder(rest + [a], ctx);
    TokenSurvives(x, a, rest, ctx);
    TokenAlone(x, a, a, ctx[a]);
    ReplaceOneMore(x, BraceToken(a), rest, a, ctx);
    TokenIsTemplate(a);
    assert Settles(x, Render([Brace(a)]), ctx);
  }

  /** An entry that does not change its own value does the same thing twice. */
  lemma KeyIdempotent(x: Syntax, s: string, k: string, ctx: map<string, string>)
    requires OpenContext(ctx) && k in ctx && IsTemplate(s) && ReplaceKey(x, ctx[k], k, ctx[k]) == ctx[k]
    ensures var once := ReplaceKey(x, s, k, ctx[k]); ReplaceKey(x, once, k, ctx[k]) == once
  {
    var ps: seq<Piece> :| PlainPieces(ps) && s == Render(ps);
    var alone := map[k := ctx[k]];
    StableSettles(x, ps, alone);
    assert IsOrder([k], alone);
    OneKey(x, s, k, alone);
    OneKey(x, ReplaceKey(x, s, k, ctx[k]), k, alone);
  }

  lemma OneKey(x: Syntax, s: string, k: string, ctx: map<string, string>)
    requires k in ctx
    ensures ReplaceKeys(x, s, [k], ctx) == ReplaceKey(x, s, k, ctx[k])
  {
    assert [k][..0] == [];
  }

  /** Put last, it therefore leaves every settled template alone. */
  lemma SettledUnchanged(x: Syntax, s: string, k: string, ctx: map<string, string>)
    requires OpenContext(ctx) && k in ctx && IsTemplate(s) && Settled(x, s, ctx)
    requires ReplaceKey(x, ctx[k], k, ctx[k]) == ctx[k]
    ensures ReplaceKey(x, s, k, ctx[k]) == s
  {
    var rest := Listing(ctx.Keys - {k});
    assert IsOrder(rest + [k], ctx);
    ReplaceOneMore(x, s, rest, k, ctx);
    PassKeepsTemplate(x, s, rest, ctx);
    KeyIdempotent(x, ReplaceKeys(x, s, rest, ctx), k, ctx);
  }

  lemma NoLongerIsSame(value: string, pattern: string)
    requires pattern != "" && |value| <= |pattern|
    ensures ReplaceAll(value, pattern, value) == value
  {
    if value == pattern {
      ReplaceAllMatches("", pattern, value);
      assert value + "" == value;
    } else if |value| == |pattern| {
      assert [value[0]] + value[1..] == value;
    }
  }

  /** A value shorter than `{{k}}` has no room for a token of `k` other than itself. */
  lemma ShortIsSelfStable(x: Syntax, k: string, value: string)
    requires |value| < |k| + 4
    ensures ReplaceKey(x, value, k, value) == value
  {
    assert |BraceToken(k)| == |k| + 4 && |DollarToken(k)| == |k| + 3;
    NoLongerIsSame(value, DollarToken(k));
    NoLongerIsSame(value, BraceToken(k));
  }

  /** The entries whose replacements can shorten a text. */
  function ShortKeys(ctx: map<string, string>): set<string> {
    set k | k in ctx && |ctx[k]| < |k| + 4
  }

  lemma ValuesKept(x: Syntax, a: string, ctx: map<string, string>)
    requires OpenContext(ctx) && Idempotent(x, ctx) && a in ctx
    ensures Kept(x, ctx[a], ShortKeys(ctx), ctx)
  {
    ValuesSettle(x, a, ctx);
    forall k <- ShortKeys(ctx) ensures ReplaceKey(x, ctx[a], k, ctx[k]) == ctx[a] {
      ShortIsSelfStable(x, k, ctx[k]);
      SettledUnchanged(x, ctx[a], k, ctx);
    }
    UnchangedIsKept(x, ctx[a], ShortKeys(ctx), ctx);
  }

  lemma {:induction false} ReplaceFirst(x: Syntax, s: string, k: string, rest: seq<string>, ctx: map<string, string>)
    requires k in ctx && forall j <- rest :: j in ctx
    ensures ReplaceKeys(x, s, [k] + rest, ctx) == ReplaceKeys(x, ReplaceKey(x, s, k, ctx[k]), rest, ctx)
  {
    if rest == [] {
      OneKey(x, s, k, ctx);
      assert [k] + rest == [k];
    } else {
      var front, last := rest[..|rest| - 1], rest[|rest| - 1];
      assert rest == front + [last] && last in rest;
      ReplaceFirst(x, s, k, front, ctx);
      assert [k] + rest == ([k] + front) + [last];
      ReplaceOneMore(x, s, [k] + front, last, ctx);
    }
  }

  lemma FirstFixed(x: Syntax, a: string, k: string, rest: seq<string>, ctx: map<string, string>)
    requires OpenContext(ctx) && Idempotent(x, ctx) && a in ctx && k in ctx
    requires Distinct(rest) && forall j :: j in rest <==> j in ctx && j != k
    ensures ReplaceKeys(x, ReplaceKey(x, ctx[a], k, ctx[k]), rest, ctx) == ctx[a]
  {
    assert IsOrder([k] + rest, ctx);
    ValuesSettle(x, a, ctx);
    ReplaceFirst(x, ctx[a], k, rest, ctx);
  }

  /** No entry of an idempotent context lengthens a value: nothing in the rest of the pass could shorten it. */
  lemma FirstKeepsLength(x: Syntax, a: string, k: string, ctx: map<string, string>)
    requires OpenContext(ctx) && Idempotent(x, ctx) && a in ctx && k in ctx
    ensures |ReplaceKey(x, ctx[a], k, ctx[k])| <= |ctx[a]|
  {
    var keys := ShortKeys(ctx);
    forall b <- ctx ensures Kept(x, ctx[b], keys, ctx) {
      ValuesKept(x, b, ctx);
    }
    var rest := Listing(ctx.Keys - {k});
    FirstFixed(x, a, k, rest, ctx);
    KeyKeeps(x, ctx[a], k, keys, ctx);
    PassKeeps(x, ReplaceKey(x, ctx[a], k, ctx[k]), rest, keys, ctx);
  }

  /** A long value that its own entry does not lengthen holds no token of its key, or is that token. */
  lemma {:induction false} LengthIsFixed(x: Syntax, ps: seq<Piece>, k: string, value: string)
    requires |value| >= |k| + 4 && |Images(x, ps, k, value)| <= |Render(ps)|
    requires |value| == |k| + 4 && Brace(k) in ps ==> value == BraceToken(k)
    ensures FixedPieces(x, ps, k, value)
  {
    if ps != [] {
      var p, tail := ps[0], ps[1..];
      ImagesLeanOneWay(x, p, k, value);
      ImagesLength(x, tail, k, value);
      assert |Images(x, ps, k, value)| == |Image(x, p, k, value)| + |Images(x, tail, k, value)|;
      assert |Render(ps)| == |p.Text()| + |Render(tail)|;
      LengthIsFixed(x, tail, k, value);
      PieceLengthIsFixed(x, p, k, value);
      assert forall q <- ps :: q == p || q in tail;
    }
  }

  lemma PieceLengthIsFixed(x: Syntax, p: Piece, k: string, value: string)
    requires |value| >= |k| + 4 && |Image(x, p, k, value)| <= |p.Text()|
    requires |value| == |k| + 4 && p == Brace(k) ==> value == BraceToken(k)
    ensures Image(x, p, k, value) == p.Text()
  {
    assert |BraceToken(k)| == |k| + 4 && |DollarToken(k)| == |k| + 3;
    ReplaceAllGrows(value, BraceToken(k), value);
  }

  lemma {:induction false} PieceFits(ps: seq<Piece>, p: Piece)
    requires p in ps
    ensures |p.Text()| <= |Render(ps)| && (|p.Text()| == |Render(ps)| ==> p.Text() == Render(ps))
  {
    var head, tail := ps[0].Text(), Render(ps[1..]);
    if p == ps[0] {
      assert |tail| == 0 ==> head + tail == head;
    } else {
      PieceFits(ps[1..], p);
      assert |head| == 0 ==> head + tail == tail;
    }
  }

  lemma IdempotentIsSelfStable(x: Syntax, a: string, ctx: map<string, string>)
    requires OpenContext(ctx) && Idempotent(x, ctx) && a in ctx
    ensures ReplaceKey(x, ctx[a], a, ctx[a]) == ctx[a]
  {
    if |ctx[a]| < |a| + 4 {
      ShortIsSelfStable(x, a, ctx[a]);
    } else {
      var vs: seq<Piece> :| PlainPieces(vs) && ctx[a] == Render(vs);
      FirstKeepsLength(x, a, a, ctx);
      KeyOverWhole(x, vs, a, ctx[a]);
      if Brace(a) in vs {
        PieceFits(vs, Brace(a));
      }
      LengthIsFixed(x, vs, a, ctx[a]);
      FixedRender(x, vs, a, ctx[a]);
    }
  }

  /** For contexts with plain keys and templates as values: expansion is idempotent on every template if and
      only if no entry changes any value, its own included. */
  lemma IdempotentIff(x: Syntax, ctx: map<string, string>)
    requires OpenContext(ctx)
    ensures Idempotent(x, ctx) <==> Stable(x, ctx) && SelfStable(x, ctx)
  {
    if Stable(x, ctx) && SelfStable(x, ctx) {
      forall ps: seq<Piece> | PlainPieces(ps) ensures Settles(x, Render(ps), ctx) {
        StableSettles(x, ps, ctx);
      }
    }
    if Idempotent(x, ctx) {
      forall a <- ctx ensures ReplaceKey(x, ctx[a], a, ctx[a]) == ctx[a] {
        IdempotentIsSelfStable(x, a, ctx);
      }
      forall a, b | a in ctx && b in ctx ensures ReplaceKey(x, ctx[a], b, ctx[b]) == ctx[a] {
        ValuesSettle(x, a, ctx);
        SettledUnchanged(x, ctx[a], b, ctx);
      }
    }
  }

  /* ---------- Plain contexts ---------- */

  lemma PlainIsTemplate(t: string)
    requires Plain(t)
    ensures IsTemplate(t)
  {
    assert PlainPieces([Lit(t)]) && [Lit(t)][1..] == [] && Render([]) == "";
    assert t == Render([Lit(t)]) by {
      assert t + "" == t;
    }
  }

  lemma PlainUnchanged(x: Syntax, t: string, k: string, value: string)
    requires Plain(t)
    ensures ReplaceKey(x, t, k, value) == t
  {
    ReplaceAllSkips(t, "", DollarToken(k), value);
    ReplaceAllSkips(t, "", BraceToken(k), value);
    assert t + "" == t;
  }

  /** Plain values hold no tokens, so a plain context is stable in every sense. */
  lemma PlainIsStable(x: Syntax, ctx: map<string, string>)
    requires PlainContext(ctx)
    ensures OpenContext(ctx) && Stable(x, ctx) && SelfStable(x, ctx)
  {
    forall k <- ctx ensures IsTemplate(ctx[k]) {
      PlainIsTemplate(ctx[k]);
    }
    forall a, b | a in ctx && b in ctx ensures ReplaceKey(x, ctx[a], b, ctx[b]) == ctx[a] {
      PlainUnchanged(x, ctx[a], b, ctx[b]);
    }
  }

  /** The reference substitution of each syntax. */
  function SubstAll(x: Syntax, ps: seq<Piece>, ctx: map<string, string>): seq<Piece> {
    if x.BraceOnly? then SubstBraces(ps, ctx) else Subst(ps, ctx)
  }

  /** Where only `{{K}}` is replaced, what an entry makes of its token is its value, whatever that holds. */
  lemma {:induction false} BraceSimultaneous(ps: seq<Piece>, ctx: map<string, string>)
    ensures Simultaneous(BraceOnly, ps, ctx.Keys, ctx) == Render(SubstBraces(ps, ctx))
  {
    if ps != [] {
      BraceSimultaneous(ps[1..], ctx);
      assert SubstBraces(ps, ctx)[1..] == SubstBraces(ps[1..], ctx);
    }
  }

  lemma {:induction false} PlainSimultaneous(x: Syntax, ps: seq<Piece>, ctx: map<string, string>)
    requires PlainContext(ctx)
    ensures Simultaneous(x, ps, ctx.Keys, ctx) == Render(SubstAll(x, ps, ctx))
  {
    if ps != [] {
      PlainSimultaneous(x, ps[1..], ctx);
      assert SubstAll(x, ps, ctx)[1..] == SubstAll(x, ps[1..], ctx);
      if Expands(x, ps[0], ctx.Keys) {
        PlainUnchanged(BraceOnly, ctx[ps[0].key], ps[0].key, ctx[ps[0].key]);
      }
    }
  }

  /** For plain keys and values, one pass in any order is one simultaneous substitution. */
  lemma IteratedIsSimultaneous(x: Syntax, ps: seq<Piece>, order: seq<string>, ctx: map<string, string>)
    requires PlainPieces(ps) && PlainContext(ctx) && IsOrder(order, ctx)
    ensures ReplaceKeys(x, Render(ps), order, ctx) == Render(SubstAll(x, ps, ctx))
  {
    PlainIsStable(x, ctx);
    StableIsSimultaneous(x, ps, order, ctx);
    PlainSimultaneous(x, ps, ctx);
  }

  lemma Around(a: string, p: Piece, b: string)
    ensures Render([Lit(a), p, Lit(b)]) == a + p.Text() + b
  {
    var ps := [Lit(a), p, Lit(b)];
    assert ps[1..] == [p, Lit(b)] && ps[1..][1..] == [Lit(b)] && [Lit(b)][1..] == [];
    assert Render([Lit(b)]) == b + "" == b;
    assert Render(ps[1..]) == p.Text() + b;
    Assoc(a, p.Text(), b);
  }

  lemma AroundSubst(x: Syntax, a: string, p: Piece, b: string, ctx: map<string, string>)
    ensures SubstAll(x, [Lit(a), p, Lit(b)], ctx) == [Lit(a), SubstAll(x, [p], ctx)[0], Lit(b)]
  {
  }

  /** In plain text, `{{K}}` becomes the value of a known `K`, in whatever order the entries are applied, and
      so does `${K}` in Helm values; in RBAC rules `${K}` stays, and so does any token of an unknown key. */
  lemma OneTokenExpands(x: Syntax, a: string, key: string, b: string, order: seq<string>, ctx: map<string, string>)
    requires Plain(a) && Plain(b) && Plain(key) && PlainContext(ctx) && IsOrder(order, ctx)
    ensures var t := a + ("{{" + key + "}}") + b;
      ReplaceKeys(x, t, order, ctx) == if key in ctx then a + ctx[key] + b else t
    ensures var t := a + ("${" + key + "}") + b;
      ReplaceKeys(x, t, order, ctx) == if x.DollarAndBrace? && key in ctx then a + ctx[key] + b else t
  {
    OnePieceExpands(x, a, Brace(key), b, order, ctx);
    OnePieceExpands(x, a, Dollar(key), b, order, ctx);
  }

  lemma OnePieceExpands(x: Syntax, a: string, p: Piece, b: string, order: seq<string>, ctx: map<string, string>)
    requires Plain(a) && Plain(b) && Plain(p.Body()) && PlainContext(ctx) && IsOrder(order, ctx)
    ensures ReplaceKeys(x, a + p.Text() + b, order, ctx) == a + SubstAll(x, [p], ctx)[0].Text() + b
  {
    var ps := [Lit(a), p, Lit(b)];
    Around(a, p, b);
    IteratedIsSimultaneous(x, ps, order, ctx);
    AroundSubst(x, a, p, b, ctx);
    Around(a, SubstAll(x, [p], ctx)[0], b);
  }

  /** And expanding an expanded text again, in any order, changes nothing. */
  lemma ExpansionIsIdempotent(x: Syntax, ps: seq<Piece>, ctx: map<string, string>)
    requires PlainPieces(ps) && PlainContext(ctx)
    ensures Settles(x, Render(ps), ctx)
  {
    PlainIsStable(x, ctx);
    StableSettles(x, ps, ctx);
  }

  /* ---------- Neither condition is idle ---------- */

  /** A value that is another entry's token: no entry changes its own value, but one changes the other's. */
  lemma ChainedContext(x: Syntax) returns (ctx: map<string, string>)
    ensures OpenContext(ctx) && SelfStable(x, ctx) && !Stable(x, ctx)
  {
    var token := BraceToken("B");
    ctx := map["A" := token, "B" := "x"];
    TokenIsTemplate("B");
    PlainIsTemplate("x");
    TokenAlone(x, "B", "B", "x");
    TokenAlone(x, "B", "A", token);
    PlainUnchanged(x, "x", "B", "x");
    assert ctx["A"] == token && ctx["B"] == "x" && |token| > 1;
  }

  /** A value that holds its own token: one entry, which changes its own value. */
  lemma NestedContext(x: Syntax) returns (ctx: map<string, string>)
    ensures OpenContext(ctx) && Stable(x, ctx) && !SelfStable(x, ctx)
  {
    var vs := [Lit("x"), Brace("A")];
    var v := Render(vs);
    ctx := map["A" := v];
    assert PlainPieces(vs) && OpenContext(ctx);
    KeyOverWhole(x, vs, "A", v);
    var tail := vs[1..];
    assert tail == [Brace("A")] && tail[1..] == [] && Images(x, [], "A", v) == "";
    assert Images(x, tail, "A", v) == v + "";
    assert |Images(x, vs, "A", v)| == 1 + |v|;
    assert ctx["A"] == v && ReplaceKey(x, v, "A", v) != v;
  }

  /** With such values two orders can differ on a template. */
  lemma OrderMattersForOpenValues(x: Syntax)
    ensures exists ctx, ps: seq<Piece> :: OpenContext(ctx) && PlainPieces(ps) && !OrdersAgree(x, Render(ps), ctx)
  {
    var ctx := ChainedContext(x);
    OrderIndependentIff(x, ctx);
  }

  /** And a second pass can change something, whichever of the two conditions fails. */
  lemma SecondPassCanChange(x: Syntax)
    ensures exists ctx, ps: seq<Piece> ::
              OpenContext(ctx) && SelfStable(x, ctx) && PlainPieces(ps) && !Settles(x, Render(ps), ctx)
    ensures exists ctx, ps: seq<Piece> ::
              OpenContext(ctx) && Stable(x, ctx) && PlainPieces(ps) && !Settles(x, Render(ps), ctx)
  {
    var chained := ChainedContext(x);
    IdempotentIff(x, chained);
    var nested := NestedContext(x);
    IdempotentIff(x, nested);
  }

  /** The loop of `processTemplatesInMap` over one string: Go picks the order. */
  method ExpandString(s: string, ctx: map<string, string>) returns (processed: string, ghost order: seq<string>)
    ensures IsOrder(order, ctx)
    ensures processed == ReplaceKeys(DollarAndBrace, s, order, ctx)
    ensures forall ps: seq<Piece> | PlainPieces(ps) && OpenContext(ctx) && Stable(DollarAndBrace, ctx) && s == Render(ps) ::
      processed == Simultaneous(DollarAndBrace, ps, ctx.Keys, ctx)
  {
    processed, order := s, [];
    var todo := ctx.Keys;
    while todo != {}
      invariant todo <= ctx.Keys
      invariant Distinct(order) && forall k :: k in order <==> k in ctx && k !in todo
      invariant processed == ReplaceKeys(DollarAndBrace, s, order, ctx)
      decreases |todo|
    {
      var placeholder :| placeholder in todo;
      var replacement := ctx[placeholder];
      processed := ReplaceAll(processed, DollarToken(placeholder), replacement);
      processed := ReplaceAll(processed, BraceToken(placeholder), replacement);
      todo := todo - {placeholder};
      ghost var longer := order + [placeholder];
      assert longer[..|longer| - 1] == order;
      order := longer;
    }
    forall ps: seq<Piece> | PlainPieces(ps) && OpenContext(ctx) && Stable(DollarAndBrace, ctx) && s == Render(ps)
      ensures processed == Simultaneous(DollarAndBrace, ps, ctx.Keys, ctx)
    {
      StableIsSimultaneous(DollarAndBrace, ps, order, ctx);
    }
  }
}
