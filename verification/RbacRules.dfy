/** Role rules built from policy templates (internal/rbac/manager.go).

    Rules are objects whose slices are rewritten in place, so building works on deep copies;
    the registered templates and the role specification must come out untouched. */
module RbacRules {
  import opened Common
  import opened TemplateText

  class PolicyRule {
    const verbs: seq<string>
    const resourceNames: array<string>
    const resources: array<string>

    constructor (verbs: seq<string>, resourceNames: array<string>, resources: array<string>)
      ensures this.verbs == verbs && this.resourceNames == resourceNames && this.resources == resources
    {
      this.verbs, this.resourceNames, this.resources := verbs, resourceNames, resources;
    }

    /** `DeepCopy`. */
    method DeepCopy() returns (copy: PolicyRule)
      ensures fresh(copy) && fresh(copy.resourceNames) && fresh(copy.resources)
      ensures copy.resourceNames != copy.resources && copy.verbs == verbs
      ensures copy.resourceNames[..] == resourceNames[..] && copy.resources[..] == resources[..]
    {
      var names := new string[resourceNames.Length](i requires 0 <= i < resourceNames.Length reads resourceNames => resourceNames[i]);
      var res := new string[resources.Length](i requires 0 <= i < resources.Length reads resources => resources[i]);
      copy := new PolicyRule(verbs, names, res);
    }
  }

  type Parameters = map<string, string>

  /** `{{.Name}}` is the brace token of `.Name`. */
  function Placeholder(name: string): string {
    BraceToken("." + name)
  }

  /** One pass of `ReplaceAll` per parameter in the given order. */
  function ApplyOrder(s: string, order: seq<string>, params: Parameters): string
    requires forall k <- order :: k in params
  {
    if order == [] then s
    else
      var last := order[|order| - 1];
      ReplaceAll(ApplyOrder(s, order[..|order| - 1], params), Placeholder(last), params[last])
  }

  /** The parameters as a template context. */
  function Dotted(params: Parameters): (r: map<string, string>)
    ensures forall d :: d in r <==> d != "" && d[0] == '.' && d[1..] in params
    ensures forall d <- r :: r[d] == params[d[1..]]
  {
    var keys := set k <- params.Keys :: "." + k;
    assert forall d :: d in keys <==> d != "" && d[0] == '.' && d[1..] in params by {
      forall d: string | d != "" && d[0] == '.' && d[1..] in params ensures d in keys {
        assert d == "." + d[1..];
      }
      assert forall k <- params :: ("." + k)[1..] == k;
    }
    map d <- keys :: params[d[1..]]
  }

  /* ---------- One pass is a pass over the dotted context ---------- */

  function Dots(order: seq<string>): seq<string> {
    seq(|order|, i requires 0 <= i < |order| => "." + order[i])
  }

  function Undotted(order: seq<string>): seq<string>
    requires forall d <- order :: d != ""
  {
    seq(|order|, i requires 0 <= i < |order| => assert order[i] in order; order[i][1..])
  }

  lemma DottedValue(params: Parameters, k: string)
    requires k in params
    ensures "." + k in Dotted(params) && Dotted(params)["." + k] == params[k]
  {
    assert ("." + k)[1..] == k;
  }

  lemma DotsAreKeys(order: seq<string>, params: Parameters)
    requires forall k <- order :: k in params
    ensures forall d <- Dots(order) :: d in Dotted(params)
  {
    forall d <- Dots(order) ensures d in Dotted(params) {
      var i :| 0 <= i < |order| && Dots(order)[i] == d;
      assert order[i] in order;
      DottedValue(params, order[i]);
    }
  }

  lemma {:induction false} ApplyIsReplaceKeys(s: string, order: seq<string>, params: Parameters)
    requires forall k <- order :: k in params
    ensures forall d <- Dots(order) :: d in Dotted(params)
    ensures ApplyOrder(s, order, params) == ReplaceKeys(BraceOnly, s, Dots(order), Dotted(params))
  {
    DotsAreKeys(order, params);
    if order != [] {
      var front, last := order[..|order| - 1], order[|order| - 1];
      assert order == front + [last] && last in order;
      ApplyIsReplaceKeys(s, front, params);
      assert Dots(order)[..|order| - 1] == Dots(front);
      DottedValue(params, last);
    }
  }

  /** Orders of the parameters are orders of the dotted context, and the other way round. */
  lemma OrderDotted(order: seq<string>, params: Parameters)
    requires IsOrder(order, params)
    ensures IsOrder(Dots(order), Dotted(params))
  {
    DotsAreKeys(order, params);
    forall d <- Dotted(params) ensures d in Dots(order) {
      assert d[1..] in order;
      var i :| 0 <= i < |order| && order[i] == d[1..];
      assert Dots(order)[i] == "." + d[1..] == d;
    }
    forall i, j | 0 <= i < j < |order| ensures Dots(order)[i] != Dots(order)[j] {
      assert Dots(order)[i][1..] == order[i] && Dots(order)[j][1..] == order[j];
    }
  }

  lemma OrderUndotted(order: seq<string>, params: Parameters)
    requires IsOrder(order, Dotted(params))
    ensures (forall d <- order :: d != "") && IsOrder(Undotted(order), params) && Dots(Undotted(order)) == order
  {
    assert forall d <- order :: d in Dotted(params);
    forall i | 0 <= i < |order| ensures order[i] != "" && "." + order[i][1..] == order[i] && order[i][1..] in params {
      assert order[i] in order;
    }
    var un := Undotted(order);
    forall k <- params ensures k in un {
      DottedValue(params, k);
      var i :| 0 <= i < |order| && order[i] == "." + k;
      assert un[i] == k;
    }
    forall i, j | 0 <= i < j < |order| ensures un[i] != un[j] {
      assert order[i] == "." + un[i] && order[j] == "." + un[j];
    }
  }

  /* ---------- Exactly when the order does not matter ---------- */

  /** No parameter's placeholder changes another parameter's value. */
  ghost predicate ParametersStable(params: Parameters) {
    forall a, b | a in params && b in params && a != b :: ReplaceAll(params[a], Placeholder(b), params[b]) == params[a]
  }

  lemma StableDotted(params: Parameters)
    ensures ParametersStable(params) <==> Stable(BraceOnly, Dotted(params))
  {
    forall a, b | a in params && b in params && a != b
      ensures "." + a in Dotted(params) && "." + b in Dotted(params) && "." + a != "." + b
      ensures ReplaceKey(BraceOnly, Dotted(params)["." + a], "." + b, Dotted(params)["." + b])
           == ReplaceAll(params[a], Placeholder(b), params[b])
    {
      DottedValue(params, a);
      DottedValue(params, b);
      assert ("." + a)[1..] == a && ("." + b)[1..] == b;
    }
    if ParametersStable(params) {
      forall c, d | c in Dotted(params) && d in Dotted(params) && c != d
        ensures ReplaceKey(BraceOnly, Dotted(params)[c], d, Dotted(params)[d]) == Dotted(params)[c]
      {
        assert c == "." + c[1..] && d == "." + d[1..] && c[1..] != d[1..];
      }
    }
  }

  lemma OpenDotted(params: Parameters)
    requires OpenContext(params)
    ensures OpenContext(Dotted(params))
  {
    forall d <- Dotted(params) ensures Plain(d) && IsTemplate(Dotted(params)[d]) {
      assert Plain(d[1..]) && d == [d[0]] + d[1..];
    }
  }

  /** All orders of the parameters agree on this text. */
  ghost predicate ApplicationsAgree(s: string, params: Parameters) {
    forall o, p | IsOrder(o, params) && IsOrder(p, params) :: ApplyOrder(s, o, params) == ApplyOrder(s, p, params)
  }

  lemma AgreementDotted(s: string, params: Parameters)
    ensures ApplicationsAgree(s, params) <==> OrdersAgree(BraceOnly, s, Dotted(params))
  {
    if OrdersAgree(BraceOnly, s, Dotted(params)) {
      forall o, p | IsOrder(o, params) && IsOrder(p, params) ensures ApplyOrder(s, o, params) == ApplyOrder(s, p, params) {
        OrderDotted(o, params);
        OrderDotted(p, params);
        ApplyIsReplaceKeys(s, o, params);
        ApplyIsReplaceKeys(s, p, params);
      }
    }
    if ApplicationsAgree(s, params) {
      forall o, p | IsOrder(o, Dotted(params)) && IsOrder(p, Dotted(params))
        ensures ReplaceKeys(BraceOnly, s, o, Dotted(params)) == ReplaceKeys(BraceOnly, s, p, Dotted(params))
      {
        OrderUndotted(o, params);
        OrderUndotted(p, params);
        ApplyIsReplaceKeys(s, Undotted(o), params);
        ApplyIsReplaceKeys(s, Undotted(p), params);
      }
    }
  }

  /** For plain names and templates as values: the order of the parameters is unobservable on every
      template if and only if no placeholder changes another parameter's value. */
  lemma ApplicationOrderIff(params: Parameters)
    requires OpenContext(params)
    ensures (forall ps: seq<Piece> | PlainPieces(ps) :: ApplicationsAgree(Render(ps), params)) <==> ParametersStable(params)
  {
    OpenDotted(params);
    StableDotted(params);
    OrderIndependentIff(BraceOnly, Dotted(params));
    forall ps: seq<Piece> ensures ApplicationsAgree(Render(ps), params) <==> OrdersAgree(BraceOnly, Render(ps), Dotted(params)) {
      AgreementDotted(Render(ps), params);
    }
  }

  /* ---------- What a pass makes of a template ---------- */

  /** A template with every placeholder replaced at once. */
  function Substituted(ps: seq<Piece>, params: Parameters): string {
    Render(SubstBraces(ps, Dotted(params)))
  }

  /** When no placeholder changes another parameter's value, any order of the parameters gives one
      simultaneous substitution. */
  lemma OrderIsSimultaneous(ps: seq<Piece>, order: seq<string>, params: Parameters)
    requires PlainPieces(ps) && OpenContext(params) && ParametersStable(params) && IsOrder(order, params)
    ensures ApplyOrder(Render(ps), order, params) == Substituted(ps, params)
  {
    OpenDotted(params);
    StableDotted(params);
    OrderDotted(order, params);
    ApplyIsReplaceKeys(Render(ps), order, params);
    StableIsSimultaneous(BraceOnly, ps, Dots(order), Dotted(params));
    BraceSimultaneous(ps, Dotted(params));
  }

  lemma DottedPlain(params: Parameters)
    requires PlainContext(params)
    ensures PlainContext(Dotted(params))
  {
    forall d <- Dotted(params) ensures Plain(d) && Plain(Dotted(params)[d]) {
      assert Plain(d[1..]) && d == [d[0]] + d[1..];
    }
  }

  /** With plain parameters, `{{.Name}}` in plain text becomes the value of a known `Name`, whatever the
      order, and stays for an unknown one; `${.Name}` stays. */
  lemma PlaceholdersAreFilledIn(a: string, name: string, b: string, order: seq<string>, params: Parameters)
    requires Plain(a) && Plain(b) && Plain(name) && PlainContext(params) && IsOrder(order, params)
    ensures forall k <- order :: k in params
    ensures var t := a + ("{{" + ("." + name) + "}}") + b;
      ApplyOrder(t, order, params) == if name in params then a + params[name] + b else t
    ensures var t := a + ("${" + ("." + name) + "}") + b; ApplyOrder(t, order, params) == t
  {
    DottedPlain(params);
    OrderDotted(order, params);
    assert ("." + name)[1..] == name;
    OneTokenExpands(BraceOnly, a, "." + name, b, Dots(order), Dotted(params));
    ApplyIsReplaceKeys(a + ("{{" + ("." + name) + "}}") + b, order, params);
    ApplyIsReplaceKeys(a + ("${" + ("." + name) + "}") + b, order, params);
  }

  /** A token without the dot is no placeholder. */
  lemma DotIsNeeded(a: string, name: string, b: string, order: seq<string>, params: Parameters)
    requires Plain(a) && Plain(b) && Plain(name) && PlainContext(params) && IsOrder(order, params)
    requires name == "" || name[0] != '.'
    ensures forall k <- order :: k in params
    ensures var t := a + ("{{" + name + "}}") + b; ApplyOrder(t, order, params) == t
  {
    DottedPlain(params);
    OrderDotted(order, params);
    OneTokenExpands(BraceOnly, a, name, b, Dots(order), Dotted(params));
    ApplyIsReplaceKeys(a + ("{{" + name + "}}") + b, order, params);
  }

  /** A text's one possible result, when it is a template. */
  ghost predicate SubstitutedText(s: string, t: string, params: Parameters) {
    forall ps: seq<Piece> | PlainPieces(ps) && s == Render(ps) :: t == Substituted(ps, params)
  }

  lemma TextAfterOnePass(s: string, order: seq<string>, params: Parameters)
    requires OpenContext(params) && ParametersStable(params) && IsOrder(order, params)
    ensures (forall k <- order :: k in params) && SubstitutedText(s, ApplyOrder(s, order, params), params)
  {
    forall ps: seq<Piece> | PlainPieces(ps) && s == Render(ps) ensures ApplyOrder(s, order, params) == Substituted(ps, params) {
      OrderIsSimultaneous(ps, order, params);
    }
  }

  /* ---------- Two passes ---------- */

  /** The parameters of `inner`, their own placeholders resolved by `outer`, take precedence over `outer`. */
  ghost predicate Resolved(inner: Parameters, outer: Parameters, both: Parameters) {
    && both.Keys == inner.Keys + outer.Keys
    && forall k <- both :: if k in inner then SubstitutedText(inner[k], both[k], outer) else both[k] == outer[k]
  }

  lemma Resolve(inner: Parameters, outer: Parameters) returns (both: Parameters)
    requires OpenContext(outer) && ParametersStable(outer)
    ensures Resolved(inner, outer, both)
  {
    var order := Listing(outer.Keys);
    both := map k | k in inner.Keys + outer.Keys :: if k in inner then ApplyOrder(inner[k], order, outer) else outer[k];
    forall k <- inner ensures SubstitutedText(inner[k], both[k], outer) {
      TextAfterOnePass(inner[k], order, outer);
    }
  }

  /** Plain values need no resolving. */
  lemma PlainResolved(inner: Parameters, outer: Parameters, both: Parameters)
    requires PlainContext(inner) && Resolved(inner, outer, both)
    ensures both == outer + inner
  {
    forall k <- inner ensures both[k] == inner[k] {
      var ps := [Lit(inner[k])];
      assert SubstBraces(ps, Dotted(outer)) == ps;
      assert ps[1..] == [] && Render(ps) == inner[k] + "" == inner[k];
      assert PlainPieces(ps);
    }
  }

  lemma SubstitutedFirst(p: Piece, tail: seq<Piece>, params: Parameters)
    ensures Substituted([p] + tail, params) == SubstBracePiece(p, Dotted(params)).Text() + Substituted(tail, params)
    ensures Render([p] + tail) == p.Text() + Render(tail)
  {
    var first, rest := SubstBracePiece(p, Dotted(params)), SubstBraces(tail, Dotted(params));
    assert SubstBraces([p] + tail, Dotted(params)) == [first] + rest;
    assert ([first] + rest)[1..] == rest && ([p] + tail)[1..] == tail;
  }

  /** Two templates side by side. */
  lemma {:induction false} Append(ps: seq<Piece>, qs: seq<Piece>, params: Parameters) returns (rs: seq<Piece>)
    requires PlainPieces(ps) && PlainPieces(qs)
    ensures PlainPieces(rs) && Render(rs) == Render(ps) + Render(qs)
    ensures Substituted(rs, params) == Substituted(ps, params) + Substituted(qs, params)
  {
    if ps == [] {
      rs := qs;
      assert "" + Render(qs) == Render(qs) && "" + Substituted(qs, params) == Substituted(qs, params);
    } else {
      var p, tail := ps[0], ps[1..];
      var rest := Append(tail, qs, params);
      rs := [p] + rest;
      SubstitutedFirst(p, rest, params);
      SubstitutedFirst(p, tail, params);
      assert [p] + tail == ps;
      Assoc(p.Text(), Render(tail), Render(qs));
      Assoc(SubstBracePiece(p, Dotted(params)).Text(), Substituted(tail, params), Substituted(qs, params));
    }
  }

  /** What the inner pass leaves is a template on which the outer pass completes the substitution. */
  lemma {:induction false} Flatten(ps: seq<Piece>, inner: Parameters, outer: Parameters, both: Parameters)
      returns (qs: seq<Piece>)
    requires PlainPieces(ps) && OpenContext(inner) && Resolved(inner, outer, both)
    ensures PlainPieces(qs) && Render(qs) == Substituted(ps, inner)
    ensures Substituted(qs, outer) == Substituted(ps, both)
  {
    if ps == [] {
      qs := [];
    } else {
      var p, tail := ps[0], ps[1..];
      var rest := Flatten(tail, inner, outer, both);
      var head := FlattenPiece(p, inner, outer, both);
      qs := Append(head, rest, outer);
      SubstitutedFirst(p, tail, inner);
      SubstitutedFirst(p, tail, both);
      assert [p] + tail == ps;
    }
  }

  lemma FlattenPiece(p: Piece, inner: Parameters, outer: Parameters, both: Parameters) returns (qs: seq<Piece>)
    requires Plain(p.Body()) && OpenContext(inner) && Resolved(inner, outer, both)
    ensures PlainPieces(qs) && Render(qs) == SubstBracePiece(p, Dotted(inner)).Text()
    ensures Substituted(qs, outer) == SubstBracePiece(p, Dotted(both)).Text()
  {
    if p.Brace? && p.key in Dotted(inner) {
      var k := p.key[1..];
      qs :| PlainPieces(qs) && inner[k] == Render(qs);
      assert SubstitutedText(inner[k], both[k], outer);
    } else {
      qs := [p];
      SubstitutedFirst(p, [], outer);
      assert [p] + [] == [p] && Substituted([], outer) == "";
      assert forall t: string :: t + "" == t;
    }
  }

  /** Substituting one set of parameters and then another is substituting both at once: the first takes
      precedence, with the placeholders in its values resolved by the second. */
  lemma TwoPassesAreOne(s: string, t: string, u: string, inner: Parameters, outer: Parameters, both: Parameters)
    requires OpenContext(inner) && Resolved(inner, outer, both)
    requires SubstitutedText(s, t, inner) && SubstitutedText(t, u, outer)
    ensures SubstitutedText(s, u, both)
  {
    forall ps: seq<Piece> | PlainPieces(ps) && s == Render(ps) ensures u == Substituted(ps, both) {
      var qs := Flatten(ps, inner, outer, both);
    }
  }

  /* ---------- Rule objects ---------- */

  /** `t` is what one pass over `params` makes of `s`. */
  ghost predicate Expanded(s: seq<string>, t: seq<string>, order: seq<string>, params: Parameters)
    requires forall k <- order :: k in params
  {
    |t| == |s| && forall j | 0 <= j < |s| :: t[j] == ApplyOrder(s[j], order, params)
  }

  ghost predicate SomeOrder(rule: PolicyRule, result: PolicyRule, params: Parameters)
    reads rule.resourceNames, rule.resources, result.resourceNames, result.resources
  {
    exists order: seq<string> :: IsOrder(order, params) && (forall k <- order :: k in params)
      && Expanded(rule.resourceNames[..], result.resourceNames[..], order, params)
      && Expanded(rule.resources[..], result.resources[..], order, params)
  }

  /** The inner loops over one slice. */
  method ReplaceInSlice(a: array<string>, placeholder: string, value: string)
    requires placeholder != ""
    modifies a
    ensures forall j | 0 <= j < a.Length :: a[j] == ReplaceAll(old(a[j]), placeholder, value)
  {
    for j := 0 to a.Length
      invariant forall i | 0 <= i < j :: a[i] == ReplaceAll(old(a[i]), placeholder, value)
      invariant forall i | j <= i < a.Length :: a[i] == old(a[i])
    {
      a[j] := ReplaceAll(a[j], placeholder, value);
    }
  }

  lemma ExpandedOneMore(s: seq<string>, t: seq<string>, u: seq<string>, order: seq<string>, k: string, params: Parameters)
    requires (forall j <- order :: j in params) && k in params && Expanded(s, t, order, params)
    requires |u| == |t| && forall j | 0 <= j < |t| :: u[j] == ReplaceAll(t[j], Placeholder(k), params[k])
    ensures Expanded(s, u, order + [k], params)
  {
    assert (order + [k])[..|order|] == order;
  }

  /** Deep-copies one rule and rewrites the copy; Go picks the order of the parameters. */
  method SubstituteRule(rule: PolicyRule, params: Parameters) returns (copy: PolicyRule)
    ensures fresh(copy) && fresh(copy.resourceNames) && fresh(copy.resources) && copy.verbs == rule.verbs
    ensures SomeOrder(rule, copy, params)
  {
    copy := rule.DeepCopy();
    ghost var order: seq<string> := [];
    var todo := params.Keys;
    while todo != {}
      invariant todo <= params.Keys && Distinct(order) && forall k :: k in order <==> k in params && k !in todo
      invariant Expanded(rule.resourceNames[..], copy.resourceNames[..], order, params)
      invariant Expanded(rule.resources[..], copy.resources[..], order, params)
      decreases |todo|
    {
      var name :| name in todo;
      ghost var names, res := copy.resourceNames[..], copy.resources[..];
      ReplaceInSlice(copy.resourceNames, Placeholder(name), params[name]);
      assert copy.resources[..] == res;
      ReplaceInSlice(copy.resources, Placeholder(name), params[name]);
      ExpandedOneMore(rule.resourceNames[..], names, copy.resourceNames[..], order, name, params);
      ExpandedOneMore(rule.resources[..], res, copy.resources[..], order, name, params);
      order := order + [name];
      todo := todo - {name};
    }
    assert IsOrder(order, params);
  }

  /** `applyTemplateParameters` and `substituteParameters`: nothing that existed is modified. */
  method SubstituteRules(rules: seq<PolicyRule>, params: Parameters) returns (result: seq<PolicyRule>)
    ensures |result| == |rules|
    ensures forall i | 0 <= i < |rules| ::
      && fresh(result[i]) && fresh(result[i].resourceNames) && fresh(result[i].resources)
      && result[i].verbs == rules[i].verbs && SomeOrder(rules[i], result[i], params)
  {
    result := [];
    for i := 0 to |rules|
      invariant |result| == i
      invariant forall j | 0 <= j < i ::
        && fresh(result[j]) && fresh(result[j].resourceNames) && fresh(result[j].resources)
        && result[j].verbs == rules[j].verbs && SomeOrder(rules[j], result[j], params)
    {
      var copy := SubstituteRule(rules[i], params);
      result := result + [copy];
    }
  }

  /* ---------- createRole ---------- */

  datatype RoleSpec = RoleSpec(template: string, templateParameters: Parameters, rules: seq<PolicyRule>)

  /** The three built-in parameters, overridden by the specification's own. */
  function GlobalParameters(roostName: string, namespace: string, tenantId: string, specParams: Parameters): Parameters {
    map["RoostName" := roostName, "Namespace" := namespace, "TenantID" := tenantId] + specParams
  }

  ghost predicate SubstitutedRule(rule: PolicyRule, result: PolicyRule, params: Parameters)
    reads rule.resourceNames, rule.resources, result.resourceNames, result.resources
  {
    && result.verbs == rule.verbs
    && result.resourceNames.Length == rule.resourceNames.Length && result.resources.Length == rule.resources.Length
    && (forall j | 0 <= j < rule.resourceNames.Length :: SubstitutedText(rule.resourceNames[j], result.resourceNames[j], params))
    && (forall j | 0 <= j < rule.resources.Length :: SubstitutedText(rule.resources[j], result.resources[j], params))
  }

  lemma RuleAfterOnePass(rule: PolicyRule, result: PolicyRule, params: Parameters)
    requires OpenContext(params) && ParametersStable(params) && SomeOrder(rule, result, params) && result.verbs == rule.verbs
    ensures SubstitutedRule(rule, result, params)
  {
    var order: seq<string> :| IsOrder(order, params) && (forall k <- order :: k in params)
      && Expanded(rule.resourceNames[..], result.resourceNames[..], order, params)
      && Expanded(rule.resources[..], result.resources[..], order, params);
    forall j | 0 <= j < rule.resourceNames.Length
      ensures SubstitutedText(rule.resourceNames[j], result.resourceNames[j], params)
    {
      assert result.resourceNames[..][j] == ApplyOrder(rule.resourceNames[..][j], order, params);
      TextAfterOnePass(rule.resourceNames[j], order, params);
    }
    forall j | 0 <= j < rule.resources.Length
      ensures SubstitutedText(rule.resources[j], result.resources[j], params)
    {
      assert result.resources[..][j] == ApplyOrder(rule.resources[..][j], order, params);
      TextAfterOnePass(rule.resources[j], order, params);
    }
  }

  lemma RuleAfterTwoPasses(rule: PolicyRule, mid: PolicyRule, result: PolicyRule, inner: Parameters, outer: Parameters, both: Parameters)
    requires OpenContext(inner) && Resolved(inner, outer, both)
    requires SubstitutedRule(rule, mid, inner) && SubstitutedRule(mid, result, outer)
    ensures SubstitutedRule(rule, result, both)
  {
    forall j | 0 <= j < rule.resourceNames.Length
      ensures SubstitutedText(rule.resourceNames[j], result.resourceNames[j], both)
    {
      TwoPassesAreOne(rule.resourceNames[j], mid.resourceNames[j], result.resourceNames[j], inner, outer, both);
    }
    forall j | 0 <= j < rule.resources.Length
      ensures SubstitutedText(rule.resources[j], result.resources[j], both)
    {
      TwoPassesAreOne(rule.resources[j], mid.resources[j], result.resources[j], inner, outer, both);
    }
  }

  lemma GlobalsTell(roostName: string, namespace: string, tenantId: string, specParams: Parameters)
    ensures var globals := GlobalParameters(roostName, namespace, tenantId, specParams);
      && globals.Keys == {"RoostName", "Namespace", "TenantID"} + specParams.Keys
      && (forall k <- specParams :: globals[k] == specParams[k])
      && ("RoostName" !in specParams ==> globals["RoostName"] == roostName)
      && ("Namespace" !in specParams ==> globals["Namespace"] == namespace)
      && ("TenantID" !in specParams ==> globals["TenantID"] == tenantId)
  {
    assert "RoostName" != "Namespace" && "RoostName" != "TenantID" && "Namespace" != "TenantID" by {
      assert "RoostName"[0] != "Namespace"[0] && "RoostName"[0] != "TenantID"[0] && "Namespace"[0] != "TenantID"[0];
    }
  }

  /** The built-in parameters, then the specification's own, which override them. */
  method CollectGlobals(roostName: string, namespace: string, tenantId: string, specParams: Parameters)
      returns (globals: Parameters)
    ensures globals == GlobalParameters(roostName, namespace, tenantId, specParams)
  {
    globals := map["RoostName" := roostName, "Namespace" := namespace, "TenantID" := tenantId];
    ghost var builtIn := globals;
    ghost var taken: set<string> := {};
    var todo := specParams.Keys;
    while todo != {}
      invariant todo <= specParams.Keys && taken == specParams.Keys - todo
      invariant globals == builtIn + map k | k in specParams && k in taken :: specParams[k]
      decreases |todo|
    {
      var key :| key in todo;
      globals := globals[key := specParams[key]];
      todo := todo - {key};
      taken := taken + {key};
    }
    assert specParams == map k | k in specParams && k in taken :: specParams[k];
  }

  /** No placeholder of either set changes another value of that set. */
  ghost predicate EachSetStable(inner: Parameters, outer: Parameters) {
    OpenContext(inner) && ParametersStable(inner) && OpenContext(outer) && ParametersStable(outer)
  }

  ghost predicate Built(source: seq<PolicyRule>, result: seq<PolicyRule>, inner: Parameters, outer: Parameters)
    requires |result| == |source|
    reads set i | 0 <= i < |source| :: source[i].resourceNames, set i | 0 <= i < |source| :: source[i].resources
    reads set i | 0 <= i < |result| :: result[i].resourceNames, set i | 0 <= i < |result| :: result[i].resources
  {
    exists params :: Resolved(inner, outer, params) && forall i | 0 <= i < |source| :: SubstitutedRule(source[i], result[i], params)
  }

  /** The rule-building part of `createRole`.  It modifies nothing that existed, so registered
      templates and the specification keep their rules; unless a placeholder changes a value of its own
      set, every template text comes out with all placeholders replaced at once, role parameters first,
      then the specification's, then the built-in ones. */
  method BuildRules(templates: map<string, seq<PolicyRule>>, role: RoleSpec,
      roostName: string, namespace: string, tenantId: string, specParams: Parameters)
    returns (result: Option<seq<PolicyRule>>)
    ensures result.None? <==> role.template != "" && role.template !in templates
    ensures result.Some? ==>
      var globals := GlobalParameters(roostName, namespace, tenantId, specParams);
      var source := if role.template == "" then role.rules else templates[role.template];
      var inner := if role.template == "" then map[] else role.templateParameters;
      && |result.value| == |source|
      && (forall i | 0 <= i < |source| ::
            fresh(result.value[i]) && fresh(result.value[i].resourceNames) && fresh(result.value[i].resources))
      && (EachSetStable(inner, globals) ==> Built(source, result.value, inner, globals))
  {
    if role.template != "" && role.template !in templates {
      return None;
    }
    var globals := CollectGlobals(roostName, namespace, tenantId, specParams);
    if role.template == "" {
      var built := SubstituteRules(role.rules, globals);
      if EachSetStable(map[], globals) {
        BuiltInOnePass(role.rules, built, globals);
      }
      return Some(built);
    }
    var rules := templates[role.template];
    var mid := SubstituteRules(rules, role.templateParameters);
    var built := SubstituteRules(mid, globals);
    if EachSetStable(role.templateParameters, globals) {
      BuiltInTwoPasses(rules, mid, built, role.templateParameters, globals);
    }
    return Some(built);
  }

  /** Each rule after one pass, in an order of its own. */
  ghost predicate Passed(source: seq<PolicyRule>, result: seq<PolicyRule>, params: Parameters)
    reads set i | 0 <= i < |source| :: source[i].resourceNames, set i | 0 <= i < |source| :: source[i].resources
    reads set i | 0 <= i < |result| :: result[i].resourceNames, set i | 0 <= i < |result| :: result[i].resources
  {
    |result| == |source| && forall i | 0 <= i < |source| :: result[i].verbs == source[i].verbs && SomeOrder(source[i], result[i], params)
  }

  lemma BuiltInOnePass(source: seq<PolicyRule>, result: seq<PolicyRule>, outer: Parameters)
    requires OpenContext(outer) && ParametersStable(outer) && Passed(source, result, outer)
    ensures Built(source, result, map[], outer)
  {
    assert Resolved(map[], outer, outer);
    forall i | 0 <= i < |source| ensures SubstitutedRule(source[i], result[i], outer) {
      RuleAfterOnePass(source[i], result[i], outer);
    }
  }

  lemma BuiltInTwoPasses(source: seq<PolicyRule>, mid: seq<PolicyRule>, result: seq<PolicyRule>, inner: Parameters, outer: Parameters)
    requires EachSetStable(inner, outer) && Passed(source, mid, inner) && Passed(mid, result, outer)
    ensures Built(source, result, inner, outer)
  {
    var both := Resolve(inner, outer);
    forall i | 0 <= i < |source| ensures SubstitutedRule(source[i], result[i], both) {
      RuleAfterOnePass(source[i], mid[i], inner);
      RuleAfterOnePass(mid[i], result[i], outer);
      RuleAfterTwoPasses(source[i], mid[i], result[i], inner, outer, both);
    }
  }

  /** Plain parameters are always stable, and then the sets are merely overlaid. */
  lemma PlainSetsOverlay(source: seq<PolicyRule>, result: seq<PolicyRule>, inner: Parameters, outer: Parameters)
    requires PlainContext(inner) && PlainContext(outer) && |result| == |source|
    ensures EachSetStable(inner, outer)
    ensures Built(source, result, inner, outer) ==>
      forall i | 0 <= i < |source| :: SubstitutedRule(source[i], result[i], outer + inner)
  {
    PlainParameters(inner);
    PlainParameters(outer);
    if Built(source, result, inner, outer) {
      var both :| Resolved(inner, outer, both) && forall i | 0 <= i < |source| :: SubstitutedRule(source[i], result[i], both);
      PlainResolved(inner, outer, both);
    }
  }

  lemma PlainParameters(params: Parameters)
    requires PlainContext(params)
    ensures OpenContext(params) && ParametersStable(params)
  {
    PlainIsStable(BraceOnly, params);
    forall a, b | a in params && b in params ensures ReplaceAll(params[a], Placeholder(b), params[b]) == params[a] {
      PlainUnchanged(BraceOnly, params[a], "." + b, params[b]);
    }
  }
}
