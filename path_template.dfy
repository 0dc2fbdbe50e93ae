/** `{name}` substitution in a method's path template: extractPathParams
    collects the @Path arguments into a HashMap, and replacePathParams
    rewrites the template once per entry, in the map's iteration order, with
    String.replace. */
module PathTemplate {
  import opened Wrappers
  import opened Text
  import opened Errors
  import opened Descriptor

  // -------------------------------------------------------- the bindings

  /** The map extractPathParams builds from the first `n` parameters: each
      @Path parameter puts its argument's text under its name, a later
      parameter overriding an earlier one of the same name; a null argument
      throws NullPointerException. */
  function PathBindings(params: seq<ParamRole>, args: seq<Arg>, n: nat): Result<map<string, string>, Fault>
    requires n <= |params| == |args|
    decreases n
  {
    if n == 0 then Success(map[])
    else match PathBindings(params, args, n - 1)
      case Failure(f) => Failure(f)
      case Success(m) =>
        if !params[n - 1].PathParam? then Success(m)
        else match ArgText(args[n - 1])
          case None => Failure(NullDereference)
          case Some(t) => Success(m[params[n - 1].name := t])
  }

  /** The meaning of the bindings: they fail exactly when some @Path argument
      is null; otherwise their keys are the @Path names and each name is
      bound to the text of the LAST argument declared under it. */
  lemma PathBindingsMeaning(params: seq<ParamRole>, args: seq<Arg>, n: nat)
    requires n <= |params| == |args|
    ensures PathBindings(params, args, n).Success? <==>
      forall i :: 0 <= i < n && params[i].PathParam? ==> !args[i].NullArg?
    ensures PathBindings(params, args, n).Success? ==>
      var m := PathBindings(params, args, n).value;
      && (forall name :: name in m <==> exists i :: 0 <= i < n && params[i] == PathParam(name))
      && (forall i :: (0 <= i < n && params[i].PathParam? &&
                       (forall j :: i < j < n ==> params[j] != params[i])) ==>
            params[i].name in m && m[params[i].name] == ArgText(args[i]).value)
  {
    PathBindingsSucceed(params, args, n);
    if PathBindings(params, args, n).Success? {
      PathBindingsKeys(params, args, n);
      PathBindingsLastWins(params, args, n);
    }
  }

  /** The bindings fail exactly when some @Path argument is null. */
  lemma {:induction false} PathBindingsSucceed(params: seq<ParamRole>, args: seq<Arg>, n: nat)
    requires n <= |params| == |args|
    ensures PathBindings(params, args, n).Success? <==>
      forall i :: 0 <= i < n && params[i].PathParam? ==> !args[i].NullArg?
    decreases n
  {
    if n > 0 {
      PathBindingsSucceed(params, args, n - 1);
    }
  }

  /** The keys are exactly the @Path names. */
  lemma {:induction false} PathBindingsKeys(params: seq<ParamRole>, args: seq<Arg>, n: nat)
    requires n <= |params| == |args|
    requires PathBindings(params, args, n).Success?
    ensures forall name :: name in PathBindings(params, args, n).value <==>
      exists i :: 0 <= i < n && params[i] == PathParam(name)
    decreases n
  {
    if n > 0 {
      PathBindingsKeys(params, args, n - 1);
      var m := PathBindings(params, args, n - 1).value;
      var m' := PathBindings(params, args, n).value;
      forall name ensures name in m' <==> exists i :: 0 <= i < n && params[i] == PathParam(name) {
        if params[n - 1] == PathParam(name) {
          assert name in m';
        } else {
          assert name in m' <==> name in m;
          if name in m' {
            var i :| 0 <= i < n - 1 && params[i] == PathParam(name);
          }
        }
      }
    }
  }

  /** Each name is bound to the text of the last argument declared under it. */
  lemma {:induction false} PathBindingsLastWins(params: seq<ParamRole>, args: seq<Arg>, n: nat)
    requires n <= |params| == |args|
    requires PathBindings(params, args, n).Success?
    ensures var m := PathBindings(params, args, n).value;
      forall i :: (0 <= i < n && params[i].PathParam? &&
                   (forall j :: i < j < n ==> params[j] != params[i])) ==>
        params[i].name in m && ArgText(args[i]) == Some(m[params[i].name])
    decreases n
  {
    if n > 0 {
      PathBindingsLastWins(params, args, n - 1);
      var m := PathBindings(params, args, n - 1).value;
      var m' := PathBindings(params, args, n).value;
      forall i | 0 <= i < n && params[i].PathParam? && (forall j :: i < j < n ==> params[j] != params[i])
        ensures params[i].name in m' && ArgText(args[i]) == Some(m'[params[i].name])
      {
        if i < n - 1 {
          assert params[n - 1] != params[i];
          assert forall j :: i < j < n - 1 ==> params[j] != params[i];
          assert params[i].name in m && ArgText(args[i]) == Some(m[params[i].name]);
        }
      }
    }
  }

  /** extractPathParams: one pass over the parameters in declaration order,
      filling the map. */
  method ExtractPathParams(params: seq<ParamRole>, args: seq<Arg>) returns (r: Result<map<string, string>, Fault>)
    requires |params| == |args|
    ensures r == PathBindings(params, args, |params|)
  {
    var m: map<string, string> := map[];
    var i := 0;
    while i < |params|
      invariant 0 <= i <= |params|
      invariant PathBindings(params, args, i) == Success(m)
    {
      if params[i].PathParam? {
        var text := ArgText(args[i]);
        if text.None? {
          PathBindingsFailurePersists(params, args, i + 1, |params|);
          return Failure(NullDereference);
        }
        m := m[params[i].name := text.value];
      }
      i := i + 1;
    }
    return Success(m);
  }

  /** Once a null @Path argument has thrown, later parameters do not matter. */
  lemma {:induction false} PathBindingsFailurePersists(params: seq<ParamRole>, args: seq<Arg>, k: nat, n: nat)
    requires k <= n <= |params| == |args|
    requires PathBindings(params, args, k) == Failure(NullDereference)
    ensures PathBindings(params, args, n) == Failure(NullDereference)
    decreases n
  {
    if n > k {
      PathBindingsFailurePersists(params, args, k, n - 1);
    }
  }

  // ------------------------------------------------------- the rewriting

  /** The template after one String.replace per binding, in the order
      `order` lists the names. */
  function ReplaceInOrder(template: string, m: map<string, string>, order: seq<string>): string
    requires forall k :: k in order ==> k in m
    decreases |order|
  {
    if order == [] then template
    else
      var last := order[|order| - 1];
      ReplaceAll(ReplaceInOrder(template, m, order[..|order| - 1]), "{" + last + "}", m[last])
  }

  /** `order` lists every key of `m` exactly once. */
  ghost predicate Enumerates(order: seq<string>, keys: set<string>) {
    && (forall i, j :: 0 <= i < j < |order| ==> order[i] != order[j])
    && (forall k :: k in order <==> k in keys)
  }

  /** replacePathParams: one String.replace per map entry. HashMap's
      iteration order is unspecified, so the method picks the entries in an
      arbitrary order and reports that order. Whatever that order, a
      template, bindings and values free of braces come out with every
      bound hole filled and the rest kept. */
  method ReplacePathParams(template: string, m: map<string, string>) returns (path: string, ghost order: seq<string>)
    ensures Enumerates(order, m.Keys)
    ensures path == ReplaceInOrder(template, m, order)
    ensures forall segs :: WellFormed(segs) && BraceFreeBindings(m) && template == Render(segs, map[]) ==>
      path == Render(segs, m)
  {
    path := template;
    order := [];
    var rest := m.Keys;
    while rest != {}
      invariant rest <= m.Keys
      invariant forall k :: k in order <==> k in m.Keys && k !in rest
      invariant forall i, j :: 0 <= i < j < |order| ==> order[i] != order[j]
      invariant path == ReplaceInOrder(template, m, order)
      decreases rest
    {
      var k :| k in rest;
      path := ReplaceAll(path, "{" + k + "}", m[k]);
      assert (order + [k])[..|order|] == order;
      order := order + [k];
      rest := rest - {k};
    }
    forall segs | WellFormed(segs) && BraceFreeBindings(m) && template == Render(segs, map[])
      ensures path == Render(segs, m)
    {
      ReplacePathParamsFillsTemplate(segs, m, order);
    }
  }

  // ------------------------------------------ what the rewriting achieves

  /** A template read as literal text and `{name}` holes. */
  datatype Segment = Lit(text: string) | Hole(name: string)

  /** The text of a template whose holes in `m` are filled and whose other
      holes are left as `{name}`. */
  function Render(segs: seq<Segment>, m: map<string, string>): string
    decreases |segs|
  {
    if segs == [] then ""
    else
      (match segs[0]
       case Lit(t) => t
       case Hole(n) => if n in m then m[n] else "{" + n + "}")
      + Render(segs[1..], m)
  }

  predicate BraceFree(s: string) {
    forall i :: 0 <= i < |s| ==> s[i] != '{' && s[i] != '}'
  }

  /** Literal text and hole names contain no brace. */
  predicate WellFormed(segs: seq<Segment>) {
    forall i :: 0 <= i < |segs| ==>
      (segs[i].Lit? ==> BraceFree(segs[i].text)) && (segs[i].Hole? ==> BraceFree(segs[i].name))
  }

  predicate BraceFreeBindings(m: map<string, string>) {
    forall k :: k in m ==> BraceFree(k) && BraceFree(m[k])
  }

  /** Text with no '{' cannot hold the start of a `{name}` target. */
  lemma {:induction false} ReplaceSkipsPrefix(x: string, y: string, p: string, r: string)
    requires |p| > 0 && p[0] == '{'
    requires forall i :: 0 <= i < |x| ==> x[i] != '{'
    ensures ReplaceAll(x + y, p, r) == x + ReplaceAll(y, p, r)
    decreases |x|
  {
    if x != [] {
      var s := x + y;
      assert s[0] == x[0];
      if |s| >= |p| {
        assert s[..|p|][0] != p[0];
        assert ReplaceAll(s, p, r) == [s[0]] + ReplaceAll(s[1..], p, r);
        assert s[1..] == x[1..] + y;
        ReplaceSkipsPrefix(x[1..], y, p, r);
        calc {
          ReplaceAll(s, p, r);
          [x[0]] + (x[1..] + ReplaceAll(y, p, r));
          ([x[0]] + x[1..]) + ReplaceAll(y, p, r);
          { assert [x[0]] + x[1..] == x; }
          x + ReplaceAll(y, p, r);
        }
      } else {
        ReplaceAllShort(s, p, r);
        ReplaceAllShort(y, p, r);
      }
    } else {
      assert x + y == y;
    }
  }

  lemma ReplaceAllShort(s: string, p: string, r: string)
    requires 0 < |p| && |s| < |p|
    ensures ReplaceAll(s, p, r) == s
  {
  }

  /** The hole `{n}` is not a `{k}` target when n and k differ. */
  lemma ReplaceSkipsOtherHole(n: string, k: string, y: string, v: string)
    requires BraceFree(n) && BraceFree(k) && n != k
    ensures ReplaceAll("{" + n + "}" + y, "{" + k + "}", v) == "{" + n + "}" + ReplaceAll(y, "{" + k + "}", v)
  {
    var p := "{" + k + "}";
    var s := "{" + n + "}" + y;
    var r := ReplaceAll(y, p, v);
    HoleShape(n, y, r);
    if |s| >= |p| {
      OtherHoleMismatch(n, k, y);
      assert ReplaceAll(s, p, v) == [s[0]] + ReplaceAll(s[1..], p, v);
      ReplaceSkipsPrefix(n + "}", y, p, v);
    } else {
      ReplaceAllShort(s, p, v);
      ReplaceAllShort(y, p, v);
    }
  }

  /** How `{n}` followed by `y` splits after its first char. */
  lemma HoleShape(n: string, y: string, r: string)
    ensures ("{" + n + "}" + y)[0] == '{'
    ensures ("{" + n + "}" + y)[1..] == (n + "}") + y
    ensures ['{'] + ((n + "}") + r) == "{" + n + "}" + r
  {
  }

  /** `{n}` and `{k}` differ within the first |`{k}`| chars. */
  lemma OtherHoleMismatch(n: string, k: string, y: string)
    requires BraceFree(n) && BraceFree(k) && n != k
    requires |"{" + n + "}" + y| >= |"{" + k + "}"|
    ensures ("{" + n + "}" + y)[..|k| + 2] != "{" + k + "}"
  {
    var p := "{" + k + "}";
    var s := "{" + n + "}" + y;
    if |k| < |n| {
      assert s[|k| + 1] == n[|k|] != '}' == p[|k| + 1];
    } else if |n| < |k| {
      assert s[|n| + 1] == '}' != k[|n|] == p[|n| + 1];
    } else {
      var j :| 0 <= j < |n| && n[j] != k[j];
      assert s[j + 1] == n[j] && p[j + 1] == k[j];
    }
  }

  /** The hole `{k}` itself is replaced. */
  lemma ReplaceOwnHole(k: string, y: string, v: string)
    ensures ReplaceAll("{" + k + "}" + y, "{" + k + "}", v) == v + ReplaceAll(y, "{" + k + "}", v)
  {
    var p := "{" + k + "}";
    var s := p + y;
    assert s[..|p|] == p && s[|p|..] == y;
  }

  /** One replace step fills exactly the hole it names: literal text, other
      holes and filled holes pass through unchanged. */
  lemma {:induction false} ReplaceFillsHole(segs: seq<Segment>, m: map<string, string>, k: string, v: string)
    requires WellFormed(segs) && BraceFreeBindings(m) && BraceFree(k) && BraceFree(v) && k !in m
    ensures ReplaceAll(Render(segs, m), "{" + k + "}", v) == Render(segs, m[k := v])
    decreases |segs|
  {
    var p := "{" + k + "}";
    if segs != [] {
      var rest := Render(segs[1..], m);
      assert WellFormed(segs[1..]) by {
        forall i | 0 <= i < |segs[1..]| ensures
          (segs[1..][i].Lit? ==> BraceFree(segs[1..][i].text)) && (segs[1..][i].Hole? ==> BraceFree(segs[1..][i].name))
        {
          assert segs[1..][i] == segs[i + 1];
        }
      }
      ReplaceFillsHole(segs[1..], m, k, v);
      assert segs[0].Lit? ==> BraceFree(segs[0].text);
      assert segs[0].Hole? ==> BraceFree(segs[0].name);
      match segs[0]
      case Lit(t) =>
        ReplaceSkipsPrefix(t, rest, p, v);
      case Hole(n) =>
        if n == k {
          ReplaceOwnHole(k, rest, v);
        } else if n in m {
          ReplaceSkipsPrefix(m[n], rest, p, v);
        } else {
          ReplaceSkipsOtherHole(n, k, rest, v);
        }
    }
  }

  /** `m` cut down to the keys listed in `ks`. */
  function Restrict(m: map<string, string>, ks: seq<string>): (r: map<string, string>)
    ensures forall k :: k in r <==> k in m && k in ks
    ensures forall k :: k in r ==> r[k] == m[k]
  {
    map k | k in m && k in ks :: m[k]
  }

  /** Replacing along a prefix of the order fills exactly the holes that
      prefix names. */
  lemma {:induction false} ReplaceInOrderFills(segs: seq<Segment>, m: map<string, string>, order: seq<string>)
    requires WellFormed(segs) && BraceFreeBindings(m)
    requires forall i, j :: 0 <= i < j < |order| ==> order[i] != order[j]
    requires forall k :: k in order ==> k in m
    ensures ReplaceInOrder(Render(segs, map[]), m, order) == Render(segs, Restrict(m, order))
    decreases |order|
  {
    if order == [] {
      assert Restrict(m, []) == map[];
    } else {
      var init := order[..|order| - 1];
      var last := order[|order| - 1];
      DropLast(order);
      ReplaceInOrderFills(segs, m, init);
      RestrictExtend(m, init, last);
      ReplaceFillsHole(segs, Restrict(m, init), last, m[last]);
    }
  }

  /** The order without its last name: still duplicate-free, and without
      that name. */
  lemma DropLast(order: seq<string>)
    requires order != [] && forall i, j :: 0 <= i < j < |order| ==> order[i] != order[j]
    ensures var init := order[..|order| - 1];
      && order == init + [order[|order| - 1]]
      && order[|order| - 1] !in init
      && (forall k :: k in init ==> k in order)
      && (forall i, j :: 0 <= i < j < |init| ==> init[i] != init[j])
  {
    var init := order[..|order| - 1];
    assert order == init + [order[|order| - 1]];
  }

  /** Restricting to one more key adds exactly that binding. */
  lemma RestrictExtend(m: map<string, string>, init: seq<string>, last: string)
    requires last in m && last !in init && BraceFreeBindings(m)
    ensures last !in Restrict(m, init)
    ensures BraceFreeBindings(Restrict(m, init)) && BraceFree(last) && BraceFree(m[last])
    ensures Restrict(m, init)[last := m[last]] == Restrict(m, init + [last])
  {
    var done := Restrict(m, init);
    var full := Restrict(m, init + [last]);
    assert forall k :: k in init + [last] <==> k in init || k == last;
    assert forall k :: k in full <==> k in done[last := m[last]];
  }

  /** replacePathParams does what the template promises, whatever order the
      HashMap yields its entries in, provided no brace occurs in the literal
      text, the names or the values: every `{name}` with a binding becomes
      its value, every other `{name}` stays verbatim, and literal text is
      kept. */
  lemma ReplacePathParamsFillsTemplate(segs: seq<Segment>, m: map<string, string>, order: seq<string>)
    requires WellFormed(segs) && BraceFreeBindings(m) && Enumerates(order, m.Keys)
    ensures ReplaceInOrder(Render(segs, map[]), m, order) == Render(segs, m)
  {
    ReplaceInOrderFills(segs, m, order);
    assert Restrict(m, order) == m;
  }

  /** Without the brace condition the order matters: with id bound to
      "name" and name bound to "x", the template "{{id}}" becomes "x" when
      id is replaced first and "{name}" when name is replaced first. */
  lemma ReplaceOrderMatters()
    ensures var m := map["id" := "name", "name" := "x"];
      && ReplaceInOrder("{{id}}", m, ["id", "name"]) == "x"
      && ReplaceInOrder("{{id}}", m, ["name", "id"]) == "{name}"
  {
    IdReplacedFirst();
    NameReplacedFirst();
  }

  /** `{id}` inside `{{id}}` becomes `name`, uncovering `{name}`. */
  lemma FillId()
    ensures ReplaceAll("{{id}}", "{id}", "name") == "{name}"
  {
    var s := "{{id}}";
    assert s[..4][1] == '{' != "{id}"[1];
    assert s[1..] == "{id}}";
    assert s[1..][..4] == "{id}";
    assert s[1..][4..] == "}";
    assert ReplaceAll("}", "{id}", "name") == "}";
    assert ReplaceAll(s[1..], "{id}", "name") == "name}";
    assert [s[0]] + "name}" == "{name}";
  }

  /** `{{id}}` holds no `{name}`. */
  lemma NoNameHole()
    ensures ReplaceAll("{{id}}", "{name}", "x") == "{{id}}"
  {
    var s := "{{id}}";
    assert s[..6][1] == '{' != "{name}"[1];
    assert s[1..] == "{id}}";
    assert ReplaceAll(s[1..], "{name}", "x") == "{id}}";
    assert [s[0]] + "{id}}" == s;
  }

  /** `{name}` becomes `x`. */
  lemma FillName()
    ensures ReplaceAll("{name}", "{name}", "x") == "x"
  {
    assert "{name}"[..6] == "{name}" && "{name}"[6..] == "";
    assert ReplaceAll("", "{name}", "x") == "";
  }

  /** One more name at the end of the order is one more replace. */
  lemma ReplaceInOrderStep(t: string, m: map<string, string>, init: seq<string>, last: string)
    requires (forall k :: k in init ==> k in m) && last in m
    ensures ReplaceInOrder(t, m, init + [last]) == ReplaceAll(ReplaceInOrder(t, m, init), "{" + last + "}", m[last])
  {
    assert (init + [last])[..|init|] == init;
  }

  /** `{id}` first: it uncovers `{name}`, which the second replace fills. */
  lemma IdReplacedFirst()
    ensures ReplaceInOrder("{{id}}", map["id" := "name", "name" := "x"], ["id", "name"]) == "x"
  {
    var m := map["id" := "name", "name" := "x"];
    ReplaceInOrderStep("{{id}}", m, [], "id");
    ReplaceInOrderStep("{{id}}", m, ["id"], "name");
    assert [] + ["id"] == ["id"] && ["id"] + ["name"] == ["id", "name"];
    assert "{" + "id" + "}" == "{id}" && "{" + "name" + "}" == "{name}";
    assert m["id"] == "name" && m["name"] == "x";
    FillId();
    FillName();
  }

  /** `{name}` first: it is not there yet, so only `{id}` is filled. */
  lemma NameReplacedFirst()
    ensures ReplaceInOrder("{{id}}", map["id" := "name", "name" := "x"], ["name", "id"]) == "{name}"
  {
    var m := map["id" := "name", "name" := "x"];
    NoNameHole();
    FillId();
    assert ["name", "id"][..1] == ["name"] && ["name"][..0] == [];
    assert ReplaceInOrder("{{id}}", m, []) == "{{id}}";
    assert ReplaceInOrder("{{id}}", m, ["name"]) == "{{id}}";
  }
}
