/** The endpoint browser of the API playground: it files every operation of
    the organization API's OpenAPI document under each of its tags, labels
    the endpoints of a tag and selects one by label, collects the path and
    query parameters typed for it, and builds the request URL from the
    path template.

    The document arrives already decoded; the user's choices and typed
    values are parameters. */
module Playground {
  import opened Strings
  import opened Api

  // ----- Python dictionaries -----

  /** A Python `dict` with string keys: the keys in insertion order, and
      the entries. */
  datatype Dict<V> = Dict(keys: seq<string>, entries: map<string, V>)
  {
    /** Every key is listed once, and exactly the keys of the entries are
        listed. */
    ghost predicate Valid()
    {
      && (forall i, j :: 0 <= i < j < |keys| ==> keys[i] != keys[j])
      && (forall k :: k in entries <==> k in keys)
    }

    /** `d[k] = v`: the entry for `k` becomes `v`; a new key goes after all
        others and an existing key keeps its place. */
    function Put(k: string, v: V): (d: Dict<V>)
      ensures Valid() ==> d.Valid()
      ensures d.entries == entries[k := v]
      ensures |keys| <= |d.keys| && d.keys[..|keys|] == keys
    {
      if k in entries then Dict(keys, entries[k := v]) else Dict(keys + [k], entries[k := v])
    }
  }

  /** `{}` */
  function EmptyDict<V>(): Dict<V>
  {
    Dict([], map[])
  }

  /** The keys a dictionary acquires when `ts` are assigned in order to one
      that has `ks`: each new name once, at its first assignment. */
  function Extend(ks: seq<string>, ts: seq<string>): seq<string>
    decreases |ts|
  {
    if ts == [] then ks
    else
      var e := Extend(ks, ts[..|ts| - 1]);
      if ts[|ts| - 1] in e then e else e + [ts[|ts| - 1]]
  }

  /** Extending keeps the names already there, adds exactly those of `ts`,
      and repeats none. */
  lemma {:induction false} ExtendMembers(ks: seq<string>, ts: seq<string>)
    requires forall i, j :: 0 <= i < j < |ks| ==> ks[i] != ks[j]
    ensures var e := Extend(ks, ts);
      && (forall x :: x in e <==> x in ks || x in ts)
      && (forall i, j :: 0 <= i < j < |e| ==> e[i] != e[j])
      && |ks| <= |e| && e[..|ks|] == ks
    decreases |ts|
  {
    if ts != [] {
      var n := |ts| - 1;
      ExtendMembers(ks, ts[..n]);
      assert ts == ts[..n] + [ts[n]];
    }
  }

  /** Extending by `a + b` is extending by `a`, then by `b`. */
  lemma {:induction false} ExtendAppend(ks: seq<string>, a: seq<string>, b: seq<string>)
    ensures Extend(ks, a + b) == Extend(Extend(ks, a), b)
    decreases |b|
  {
    if b == [] {
      assert a + b == a;
    } else {
      var n := |b| - 1;
      ExtendAppend(ks, a, b[..n]);
      assert (a + b)[..|a + b| - 1] == a + b[..n];
    }
  }

  // ----- the OpenAPI document -----

  /** A parameter object of an operation, by its string-valued fields. */
  datatype Param = Param(fields: map<string, string>)
  {
    /** `param.get("name", "unnamed_param")` */
    function Name(): string
    {
      if "name" in fields then fields["name"] else "unnamed_param"
    }

    /** `param.get("in", "")` */
    function Location(): string
    {
      if "in" in fields then fields["in"] else ""
    }
  }

  /** An operation object: its tags (none when it declares none), and its
      `parameters` list when it has one. */
  datatype Details = Details(tags: seq<string>, parameters: Option<seq<Param>>)
  {
    /** The parameters the input loop visits: none without a `parameters` key. */
    function Params(): seq<Param>
    {
      if parameters.Some? then parameters.value else []
    }
  }

  /** One HTTP method of a path and its operation object. */
  datatype Operation = Operation(httpMethod: string, details: Details)

  /** One entry of the document's `paths`: a path template and its
      operations in document order. */
  datatype PathItem = PathItem(path: string, operations: seq<Operation>)

  /** What a tag lists: the path, the upper-cased HTTP method and the
      operation object. */
  datatype Endpoint = Endpoint(path: string, httpMethod: string, details: Details)

  /** The endpoint of one operation of `path`. */
  function EndpointOf(path: string, op: Operation): (ep: Endpoint)
    ensures ep.path == path && ep.details == op.details
    ensures |ep.httpMethod| == |op.httpMethod|
    ensures forall i :: 0 <= i < |op.httpMethod| ==> ep.httpMethod[i] == UpperChar(op.httpMethod[i])
  {
    Endpoint(path, Upper(op.httpMethod), op.details)
  }

  /** The endpoints of one path, in the order of its methods. */
  function PathEndpoints(item: PathItem): seq<Endpoint>
  {
    seq(|item.operations|, j requires 0 <= j < |item.operations| => EndpointOf(item.path, item.operations[j]))
  }

  /** Every endpoint of the document: path by path, method by method. */
  function Endpoints(paths: seq<PathItem>): seq<Endpoint>
    decreases |paths|
  {
    if paths == [] then []
    else Endpoints(paths[..|paths| - 1]) + PathEndpoints(paths[|paths| - 1])
  }

  // ----- the tag index -----

  /** The index for tag `t`: its list, or nothing while `t` is no key. */
  function ListOf(d: Dict<seq<Endpoint>>, t: string): seq<Endpoint>
  {
    if t in d.entries then d.entries[t] else []
  }

  /** Filing `ep` under `t`: the list of `t`, created empty when missing,
      gets `ep` appended. */
  function File(d: Dict<seq<Endpoint>>, t: string, ep: Endpoint): Dict<seq<Endpoint>>
  {
    d.Put(t, ListOf(d, t) + [ep])
  }

  /** `ep` filed under each of `ts`, in order. */
  function FileAll(d: Dict<seq<Endpoint>>, ep: Endpoint, ts: seq<string>): Dict<seq<Endpoint>>
    decreases |ts|
  {
    if ts == [] then d
    else File(FileAll(d, ep, ts[..|ts| - 1]), ts[|ts| - 1], ep)
  }

  /** The index once every endpoint of `eps` is filed under its tags. */
  function IndexFrom(d: Dict<seq<Endpoint>>, eps: seq<Endpoint>): Dict<seq<Endpoint>>
    decreases |eps|
  {
    if eps == [] then d
    else
      var last := eps[|eps| - 1];
      FileAll(IndexFrom(d, eps[..|eps| - 1]), last, last.details.tags)
  }

  /** The `tags` dictionary built from the document's `paths`. */
  function TagIndex(paths: seq<PathItem>): Dict<seq<Endpoint>>
  {
    IndexFrom(EmptyDict(), Endpoints(paths))
  }

  /** The inner loop: one endpoint filed under each tag it declares. */
  method FileEndpoint(tags: Dict<seq<Endpoint>>, ep: Endpoint) returns (r: Dict<seq<Endpoint>>)
    ensures r == FileAll(tags, ep, ep.details.tags)
  {
    var ts := ep.details.tags;
    r := tags;
    for i := 0 to |ts|
      invariant r == FileAll(tags, ep, ts[..i])
    {
      var tag := ts[i];
      assert ts[..i + 1][..i] == ts[..i];
      if tag !in r.entries {
        r := r.Put(tag, []);
      }
      r := r.Put(tag, r.entries[tag] + [ep]);
    }
    assert ts[..|ts|] == ts;
  }

  /** The middle loop: every method of one path, in order. */
  method FilePath(tags: Dict<seq<Endpoint>>, item: PathItem) returns (r: Dict<seq<Endpoint>>)
    ensures r == IndexFrom(tags, PathEndpoints(item))
  {
    ghost var eps := PathEndpoints(item);
    r := tags;
    for j := 0 to |item.operations|
      invariant r == IndexFrom(tags, eps[..j])
    {
      var op := item.operations[j];
      var ep := Endpoint(item.path, Upper(op.httpMethod), op.details);
      assert eps[..j + 1][..j] == eps[..j];
      r := FileEndpoint(r, ep);
    }
    assert eps[..|eps|] == eps;
  }

  /** The tag loop over the document's `paths`. */
  method BuildTagIndex(paths: seq<PathItem>) returns (tags: Dict<seq<Endpoint>>)
    ensures tags == TagIndex(paths)
  {
    tags := EmptyDict();
    for i := 0 to |paths|
      invariant tags == TagIndex(paths[..i])
    {
      IndexFromAppend(EmptyDict(), Endpoints(paths[..i]), PathEndpoints(paths[i]));
      assert paths[..i + 1][..i] == paths[..i];
      tags := FilePath(tags, paths[i]);
    }
    assert paths[..|paths|] == paths;
  }

  /** Filing `a + b` is filing `a`, then `b`. */
  lemma {:induction false} IndexFromAppend(d: Dict<seq<Endpoint>>, a: seq<Endpoint>, b: seq<Endpoint>)
    ensures IndexFrom(d, a + b) == IndexFrom(IndexFrom(d, a), b)
    decreases |b|
  {
    if b == [] {
      assert a + b == a;
    } else {
      var n := |b| - 1;
      IndexFromAppend(d, a, b[..n]);
      assert (a + b)[..|a + b| - 1] == a + b[..n];
    }
  }

  /** How often `t` occurs in `ts`. */
  function Count(ts: seq<string>, t: string): nat
    decreases |ts|
  {
    if ts == [] then 0
    else Count(ts[..|ts| - 1], t) + (if ts[|ts| - 1] == t then 1 else 0)
  }

  /** `n` copies of `ep`. */
  function Repeat(ep: Endpoint, n: nat): (r: seq<Endpoint>)
    ensures |r| == n && forall i :: 0 <= i < n ==> r[i] == ep
  {
    seq(n, _ => ep)
  }

  /** The endpoints of `eps` that declare tag `t`, in document order, each
      as often as it declares `t`. */
  function Tagged(eps: seq<Endpoint>, t: string): seq<Endpoint>
    decreases |eps|
  {
    if eps == [] then []
    else
      var last := eps[|eps| - 1];
      Tagged(eps[..|eps| - 1], t) + Repeat(last, Count(last.details.tags, t))
  }

  /** Every tag name declared by the endpoints of `eps`, in order. */
  function AllTags(eps: seq<Endpoint>): seq<string>
    decreases |eps|
  {
    if eps == [] then [] else AllTags(eps[..|eps| - 1]) + eps[|eps| - 1].details.tags
  }

  /** A name is among all declared tags exactly when some endpoint declares it. */
  lemma {:induction false} AllTagsMembers(eps: seq<Endpoint>, t: string)
    ensures t in AllTags(eps) <==> exists i :: 0 <= i < |eps| && t in eps[i].details.tags
    decreases |eps|
  {
    if eps != [] {
      var n := |eps| - 1;
      var pre := eps[..n];
      AllTagsMembers(pre, t);
      assert AllTags(eps) == AllTags(pre) + eps[n].details.tags;
      if t in AllTags(eps) {
        if t in AllTags(pre) {
          var i :| 0 <= i < n && t in pre[i].details.tags;
          assert eps[i] == pre[i];
        } else {
          assert t in eps[n].details.tags;
        }
      }
      if exists i :: 0 <= i < |eps| && t in eps[i].details.tags {
        var i :| 0 <= i < |eps| && t in eps[i].details.tags;
        if i < n {
          assert pre[i] == eps[i];
        }
      }
    }
  }

  /** Filing one endpoint under the names `ts` keeps the dictionary well
      formed and adds as keys the names not yet present, in order. */
  lemma {:induction false} FileAllKeys(d: Dict<seq<Endpoint>>, ep: Endpoint, ts: seq<string>)
    requires d.Valid()
    ensures var r := FileAll(d, ep, ts);
      r.Valid() && r.keys == Extend(d.keys, ts)
    decreases |ts|
  {
    if ts != [] {
      FileAllKeys(d, ep, ts[..|ts| - 1]);
    }
  }

  /** Filing under `x` appends to the list of `x` and leaves every other
      list alone. */
  lemma FileList(d: Dict<seq<Endpoint>>, x: string, ep: Endpoint, t: string)
    ensures ListOf(File(d, x, ep), t) == if x == t then ListOf(d, t) + [ep] else ListOf(d, t)
  {
  }

  /** Filing one endpoint under the names `ts` appends it to the list of
      `t` once per occurrence of `t` in `ts`. */
  lemma {:induction false} FileAllList(d: Dict<seq<Endpoint>>, ep: Endpoint, ts: seq<string>, t: string)
    ensures ListOf(FileAll(d, ep, ts), t) == ListOf(d, t) + Repeat(ep, Count(ts, t))
    decreases |ts|
  {
    if ts == [] {
      assert ListOf(d, t) + Repeat(ep, 0) == ListOf(d, t);
    } else {
      var n := |ts| - 1;
      var prev := FileAll(d, ep, ts[..n]);
      FileAllList(d, ep, ts[..n], t);
      FileList(prev, ts[n], ep, t);
      if ts[n] == t {
        assert Repeat(ep, Count(ts, t)) == Repeat(ep, Count(ts[..n], t)) + [ep];
      }
    }
  }

  /** Filing the endpoints `eps` onto `d`: the list of `t` gains the
      endpoints declaring `t`, and the keys gain the declared tags in
      order of first declaration. */
  lemma {:induction false} IndexFromEffect(d: Dict<seq<Endpoint>>, eps: seq<Endpoint>, t: string)
    requires d.Valid()
    ensures var r := IndexFrom(d, eps);
      && r.Valid()
      && r.keys == Extend(d.keys, AllTags(eps))
      && ListOf(r, t) == ListOf(d, t) + Tagged(eps, t)
    decreases |eps|
  {
    if eps == [] {
      assert ListOf(d, t) + [] == ListOf(d, t);
    } else {
      var n := |eps| - 1;
      var last := eps[n];
      IndexFromEffect(d, eps[..n], t);
      var prev := IndexFrom(d, eps[..n]);
      FileAllKeys(prev, last, last.details.tags);
      FileAllList(prev, last, last.details.tags, t);
      ExtendAppend(d.keys, AllTags(eps[..n]), last.details.tags);
      var rep := Repeat(last, Count(last.details.tags, t));
      assert ListOf(d, t) + Tagged(eps[..n], t) + rep == ListOf(d, t) + (Tagged(eps[..n], t) + rep);
    }
  }

  /** The tag index: its keys are the declared tags, each once, in order of
      first declaration, so a name is a key exactly when some operation
      declares it; and a tag's list holds the endpoints declaring it, in
      document order, once per declaration. */
  lemma TagIndexMeaning(paths: seq<PathItem>, t: string)
    ensures var r := TagIndex(paths);
      var eps := Endpoints(paths);
      && r.Valid()
      && r.keys == Extend([], AllTags(eps))
      && (t in r.entries <==> exists i :: 0 <= i < |eps| && t in eps[i].details.tags)
      && (t in r.entries ==> r.entries[t] == Tagged(eps, t))
  {
    var eps := Endpoints(paths);
    IndexFromEffect(EmptyDict(), eps, t);
    ExtendMembers([], AllTags(eps));
    AllTagsMembers(eps, t);
  }

  /** Every operation of the document is listed, as the endpoint of its
      path with its upper-cased method. */
  lemma {:induction false} EndpointsComplete(paths: seq<PathItem>, i: nat, j: nat)
    requires i < |paths| && j < |paths[i].operations|
    ensures EndpointOf(paths[i].path, paths[i].operations[j]) in Endpoints(paths)
    decreases |paths|
  {
    var n := |paths| - 1;
    var pre := paths[..n];
    assert Endpoints(paths) == Endpoints(pre) + PathEndpoints(paths[n]);
    if i == n {
      assert PathEndpoints(paths[n])[j] == EndpointOf(paths[i].path, paths[i].operations[j]);
    } else {
      assert pre[i] == paths[i];
      EndpointsComplete(pre, i, j);
    }
  }

  /** Every listed endpoint is that of some operation of the document. */
  lemma {:induction false} EndpointsSound(paths: seq<PathItem>, k: nat)
    requires k < |Endpoints(paths)|
    ensures exists i, j ::
              && 0 <= i < |paths| && 0 <= j < |paths[i].operations|
              && Endpoints(paths)[k] == EndpointOf(paths[i].path, paths[i].operations[j])
    decreases |paths|
  {
    var n := |paths| - 1;
    var pre := paths[..n];
    var eps := Endpoints(pre);
    assert Endpoints(paths) == eps + PathEndpoints(paths[n]);
    if k < |eps| {
      EndpointsSound(pre, k);
      var i, j :| 0 <= i < n && 0 <= j < |pre[i].operations|
        && eps[k] == EndpointOf(pre[i].path, pre[i].operations[j]);
      assert pre[i] == paths[i];
    } else {
      var j := k - |eps|;
      assert Endpoints(paths)[k] == EndpointOf(paths[n].path, paths[n].operations[j]);
    }
  }

  // ----- choosing an endpoint -----

  /** `f"{ep['method']} {ep['path']}"` */
  function Label(ep: Endpoint): string
  {
    ep.httpMethod + " " + ep.path
  }

  /** `endpoint_options`: the labels of a tag's endpoints, in list order. */
  function Options(eps: seq<Endpoint>): seq<string>
  {
    seq(|eps|, i requires 0 <= i < |eps| => Label(eps[i]))
  }

  /** `next(ep for ep in endpoints if label == option)`: the position of
      the first endpoint carrying the chosen label, or `None` where Python
      raises `StopIteration`. */
  function Select(eps: seq<Endpoint>, option: string): (r: Option<nat>)
    ensures r.Some? ==> r.value < |eps| && Label(eps[r.value]) == option
    ensures r.Some? ==> forall j :: 0 <= j < r.value ==> Label(eps[j]) != option
    ensures r.None? <==> option !in Options(eps)
    decreases |eps|
  {
    if eps == [] then None
    else
      assert Options(eps) == [Label(eps[0])] + Options(eps[1..]);
      if Label(eps[0]) == option then Some(0)
      else
        var rest := Select(eps[1..], option);
        if rest.None? then None else Some(rest.value + 1)
  }

  // ----- parameters -----

  /** A parameter's value is recorded in the dictionary for locations
      `kind`: always when `keepEmpty`, otherwise only when it is not empty. */
  predicate Kept(p: Param, input: string, kind: string, keepEmpty: bool)
  {
    p.Location() == kind && (keepEmpty || input != "")
  }

  /** The dictionary for locations `kind` after the parameter loop, where
      `inputs[i]` is what was typed into the field of `params[i]`. */
  function Fill(params: seq<Param>, inputs: seq<string>, kind: string, keepEmpty: bool): Dict<string>
    requires |inputs| == |params|
    decreases |params|
  {
    if params == [] then EmptyDict()
    else
      var n := |params| - 1;
      var d := Fill(params[..n], inputs[..n], kind, keepEmpty);
      if Kept(params[n], inputs[n], kind, keepEmpty) then d.Put(params[n].Name(), inputs[n]) else d
  }

  /** `path_params`: every path parameter, even with nothing typed. */
  function PathParams(params: seq<Param>, inputs: seq<string>): Dict<string>
    requires |inputs| == |params|
  {
    Fill(params, inputs, "path", true)
  }

  /** `query_params`: the query parameters that were given a value. */
  function QueryParams(params: seq<Param>, inputs: seq<string>): Dict<string>
    requires |inputs| == |params|
  {
    Fill(params, inputs, "query", false)
  }

  /** The parameter loop: each parameter's typed value goes to the
      dictionary of its location. */
  method CollectParams(details: Details, inputs: seq<string>)
    returns (pathParams: Dict<string>, queryParams: Dict<string>)
    requires |inputs| == |details.Params()|
    ensures pathParams == PathParams(details.Params(), inputs)
    ensures queryParams == QueryParams(details.Params(), inputs)
  {
    var params := details.Params();
    pathParams := EmptyDict();
    queryParams := EmptyDict();
    for i := 0 to |params|
      invariant pathParams == PathParams(params[..i], inputs[..i])
      invariant queryParams == QueryParams(params[..i], inputs[..i])
    {
      assert params[..i + 1][..i] == params[..i];
      assert inputs[..i + 1][..i] == inputs[..i];
      var name := params[i].Name();
      var kind := params[i].Location();
      if kind == "path" {
        pathParams := pathParams.Put(name, inputs[i]);
      } else if kind == "query" {
        if inputs[i] != "" {
          queryParams := queryParams.Put(name, inputs[i]);
        }
      }
    }
    assert params[..|params|] == params;
    assert inputs[..|inputs|] == inputs;
  }

  /** The names of the recorded parameters, in loop order. */
  function KeptNames(params: seq<Param>, inputs: seq<string>, kind: string, keepEmpty: bool): seq<string>
    requires |inputs| == |params|
    decreases |params|
  {
    if params == [] then []
    else
      var n := |params| - 1;
      KeptNames(params[..n], inputs[..n], kind, keepEmpty)
        + (if Kept(params[n], inputs[n], kind, keepEmpty) then [params[n].Name()] else [])
  }

  /** A filled dictionary lists the names of the recorded parameters, each
      once, in order of first occurrence. */
  lemma {:induction false} FillKeys(params: seq<Param>, inputs: seq<string>, kind: string, keepEmpty: bool)
    requires |inputs| == |params|
    ensures var d := Fill(params, inputs, kind, keepEmpty);
      d.Valid() && d.keys == Extend([], KeptNames(params, inputs, kind, keepEmpty))
    decreases |params|
  {
    if params != [] {
      var n := |params| - 1;
      FillKeys(params[..n], inputs[..n], kind, keepEmpty);
      var names := KeptNames(params[..n], inputs[..n], kind, keepEmpty);
      if Kept(params[n], inputs[n], kind, keepEmpty) {
        ExtendAppend([], names, [params[n].Name()]);
        assert [params[n].Name()][..0] == [];
      } else {
        assert names + [] == names;
      }
    }
  }

  /** A name is among the recorded names exactly when some recorded
      parameter has it. */
  lemma {:induction false} KeptNamesMembers(params: seq<Param>, inputs: seq<string>, kind: string, keepEmpty: bool, k: string)
    requires |inputs| == |params|
    ensures k in KeptNames(params, inputs, kind, keepEmpty) <==>
      exists i :: 0 <= i < |params| && Kept(params[i], inputs[i], kind, keepEmpty) && params[i].Name() == k
    decreases |params|
  {
    if params != [] {
      var n := |params| - 1;
      var ps, ins := params[..n], inputs[..n];
      KeptNamesMembers(ps, ins, kind, keepEmpty, k);
      forall i | 0 <= i < n ensures params[i] == ps[i] && inputs[i] == ins[i] { }
    }
  }

  /** The value of a recorded name is the one typed for the last recorded
      parameter of that name. */
  lemma {:induction false} FillValues(params: seq<Param>, inputs: seq<string>, kind: string, keepEmpty: bool, k: string)
    requires |inputs| == |params|
    ensures var d := Fill(params, inputs, kind, keepEmpty);
      k in d.entries ==>
        exists i :: 0 <= i < |params| && Kept(params[i], inputs[i], kind, keepEmpty) && params[i].Name() == k
          && d.entries[k] == inputs[i]
    ensures var d := Fill(params, inputs, kind, keepEmpty);
      forall i :: 0 <= i < |params| && Kept(params[i], inputs[i], kind, keepEmpty) && params[i].Name() == k
        && (forall j :: i < j < |params| && Kept(params[j], inputs[j], kind, keepEmpty) ==> params[j].Name() != k)
        ==> k in d.entries && d.entries[k] == inputs[i]
    decreases |params|
  {
    if params != [] {
      var n := |params| - 1;
      var ps, ins := params[..n], inputs[..n];
      FillValues(ps, ins, kind, keepEmpty, k);
      var prev := Fill(ps, ins, kind, keepEmpty);
      var d := Fill(params, inputs, kind, keepEmpty);
      forall i | 0 <= i < n ensures params[i] == ps[i] && inputs[i] == ins[i] { }
      var hit := Kept(params[n], inputs[n], kind, keepEmpty) && params[n].Name() == k;
      if hit {
        assert d.entries[k] == inputs[n];
      } else {
        assert d.entries == prev.entries || d.entries == prev.entries[params[n].Name() := inputs[n]];
        assert k in d.entries <==> k in prev.entries;
        if k in prev.entries {
          assert d.entries[k] == prev.entries[k];
        }
      }
    }
  }

  /** The filled dictionary's meaning: its keys are the names of the
      recorded parameters, each once, in order of first occurrence; a name
      is a key exactly when some recorded parameter has it; and its value
      is the one typed for the last such parameter. */
  lemma FillMeaning(params: seq<Param>, inputs: seq<string>, kind: string, keepEmpty: bool, k: string)
    requires |inputs| == |params|
    ensures var d := Fill(params, inputs, kind, keepEmpty);
      && d.Valid()
      && d.keys == Extend([], KeptNames(params, inputs, kind, keepEmpty))
      && (k in d.entries <==>
            exists i :: 0 <= i < |params| && Kept(params[i], inputs[i], kind, keepEmpty) && params[i].Name() == k)
      && (k in d.entries ==>
            exists i :: 0 <= i < |params| && Kept(params[i], inputs[i], kind, keepEmpty) && params[i].Name() == k
              && d.entries[k] == inputs[i])
      && (forall i :: 0 <= i < |params| && Kept(params[i], inputs[i], kind, keepEmpty) && params[i].Name() == k
            && (forall j :: i < j < |params| && Kept(params[j], inputs[j], kind, keepEmpty) ==> params[j].Name() != k)
            ==> d.entries[k] == inputs[i])
  {
    FillKeys(params, inputs, kind, keepEmpty);
    ExtendMembers([], KeptNames(params, inputs, kind, keepEmpty));
    KeptNamesMembers(params, inputs, kind, keepEmpty, k);
    FillValues(params, inputs, kind, keepEmpty, k);
  }

  /** Path parameters are recorded whatever was typed, later ones of the
      same name overwriting earlier ones; query parameters are recorded
      only with a non-empty value, so no query value is ever empty. */
  lemma ParamsMeaning(params: seq<Param>, inputs: seq<string>, k: string)
    requires |inputs| == |params|
    ensures var d := PathParams(params, inputs);
      k in d.entries <==> exists i :: 0 <= i < |params| && params[i].Location() == "path" && params[i].Name() == k
    ensures var q := QueryParams(params, inputs);
      k in q.entries <==>
        exists i :: 0 <= i < |params| && params[i].Location() == "query" && params[i].Name() == k && inputs[i] != ""
    ensures var q := QueryParams(params, inputs);
      k in q.entries ==> q.entries[k] != ""
  {
    FillMeaning(params, inputs, "path", true, k);
    FillMeaning(params, inputs, "query", false, k);
  }

  // ----- the request URL -----

  /** The API root every path template is appended to. */
  const API_ROOT := "https://api.atlassian.com/admin/v2"

  /** `f"{{{name}}}"`: the placeholder of a path parameter. */
  function Placeholder(name: string): string
  {
    "{" + name + "}"
  }

  /** `default_url`: the root followed by the path template, with every
      `{orgId}` filled in when an organization ID was given. */
  function DefaultUrl(path: string, orgId: string): string
  {
    var u := API_ROOT + path;
    if Contains(u, "{orgId}") && orgId != "" then Replace(u, "{orgId}", orgId) else u
  }

  /** Without an organization ID, or without any placeholder in the
      template, the default URL is the root followed by the template as it
      is; with an ID, a template holding one `{orgId}` gets the ID there. */
  lemma DefaultUrlMeaning(path: string, orgId: string, a: string, b: string)
    ensures orgId == "" ==> DefaultUrl(path, orgId) == API_ROOT + path
    ensures '{' !in path ==> DefaultUrl(path, orgId) == API_ROOT + path
    ensures orgId != "" && path == a + "{orgId}" + b && '{' !in a ==>
      DefaultUrl(path, orgId) == API_ROOT + a + orgId + Replace(b, "{orgId}", orgId)
    ensures orgId != "" && path == a + "{orgId}" + b && '{' !in a && '{' !in b ==>
      DefaultUrl(path, orgId) == API_ROOT + a + orgId + b
  {
    var u := API_ROOT + path;
    assert '{' !in API_ROOT;
    if '{' !in path {
      NotContainsWithoutHead(u, "{orgId}");
    }
    if orgId != "" && path == a + "{orgId}" + b && '{' !in a {
      DefaultUrlFirstPlaceholder(a, b, orgId);
      if '{' !in b {
        NotContainsWithoutHead(b, "{orgId}");
        ReplaceAbsent(b, "{orgId}", orgId);
      }
    }
  }

  /** The first `{orgId}` of a path becomes the id, and every later one is
      replaced too. */
  lemma DefaultUrlFirstPlaceholder(a: string, b: string, orgId: string)
    requires orgId != "" && '{' !in a
    ensures DefaultUrl(a + "{orgId}" + b, orgId) == API_ROOT + a + orgId + Replace(b, "{orgId}", orgId)
  {
    var pat := "{orgId}";
    var s := pat + b;
    var u := API_ROOT + (a + pat + b);
    assert '{' !in API_ROOT + a;
    assert u == (API_ROOT + a) + s;
    ContainsMiddle(API_ROOT + a, pat, b);
    assert (API_ROOT + a) + pat + b == u;
    ReplaceSkips(API_ROOT + a, s, pat, orgId);
    assert s[..|pat|] == pat && s[|pat|..] == b;
    assert Replace(s, pat, orgId) == orgId + Replace(b, pat, orgId);
  }

  /** `pat in a + pat + b` */
  lemma {:induction false} ContainsMiddle(a: string, pat: string, b: string)
    ensures Contains(a + pat + b, pat)
    decreases |a|
  {
    if a == [] {
      assert (a + pat + b)[..|pat|] == pat;
    } else {
      ContainsMiddle(a[1..], pat, b);
      assert (a + pat + b)[1..] == a[1..] + pat + b;
    }
  }

  /** Replacing the one placeholder of a template whose other text holds no
      `{` puts the value in its place. */
  lemma ReplaceHit(a: string, name: string, b: string, v: string)
    requires '{' !in a && '{' !in b
    ensures Replace(a + Placeholder(name) + b, Placeholder(name), v) == a + v + b
  {
    var p := Placeholder(name);
    assert a + p + b == a + (p + b);
    ReplaceSkips(a, p + b, p, v);
    assert (p + b)[..|p|] == p && (p + b)[|p|..] == b;
    NotContainsWithoutHead(b, p);
    ReplaceAbsent(b, p, v);
  }

  /** The placeholder of one brace-free name does not start the text
      that begins with the placeholder of another. */
  lemma PlaceholderMismatch(name: string, other: string, b: string)
    requires '}' !in name && '}' !in other
    requires other != name
    ensures var s, q := Placeholder(name) + b, Placeholder(other);
      !(|q| <= |s| && s[..|q|] == q)
  {
    var s, q := Placeholder(name) + b, Placeholder(other);
    if |q| <= |s| {
      var t := s[..|q|];
      if |other| < |name| {
        assert t[|other| + 1] == name[|other|] != '}' == q[|other| + 1];
      } else if |other| > |name| {
        assert t[|name| + 1] == '}' != other[|name|] == q[|name| + 1];
      } else {
        if forall i :: 0 <= i < |name| ==> name[i] == other[i] {
          assert false;
        }
        var i :| 0 <= i < |name| && name[i] != other[i];
        assert t[i + 1] == name[i] != other[i] == q[i + 1];
      }
    }
  }

  /** Replacing another parameter's placeholder leaves a template holding
      one placeholder as it is, when names hold no braces. */
  lemma ReplaceMiss(a: string, name: string, b: string, other: string, v: string)
    requires '{' !in a && '{' !in b
    requires '{' !in name && '}' !in name && '}' !in other
    requires other != name
    ensures Replace(a + Placeholder(name) + b, Placeholder(other), v) == a + Placeholder(name) + b
  {
    var p, q := Placeholder(name), Placeholder(other);
    var s := p + b;
    assert a + p + b == a + s;
    ReplaceSkips(a, s, q, v);
    PlaceholderMismatch(name, other, b);
    assert s == ['{'] + (name + "}" + b);
    assert s[1..] == name + "}" + b;
    NotContainsWithoutHead(s[1..], q);
    ReplaceAbsent(s[1..], q, v);
    if |s| >= |q| {
      assert Replace(s, q, v) == ['{'] + Replace(s[1..], q, v);
    }
  }

  /** The URL after each path parameter's placeholder is replaced by its
      value, parameter by parameter in the order of `keys`. */
  function SubstituteAll(url: string, keys: seq<string>, values: map<string, string>): string
    requires forall k :: k in keys ==> k in values
    decreases |keys|
  {
    if keys == [] then url
    else
      var n := |keys| - 1;
      Replace(SubstituteAll(url, keys[..n], values), Placeholder(keys[n]), values[keys[n]])
  }

  /** The substitution loop run when the request is sent. */
  method Substitute(url: string, pathParams: Dict<string>) returns (r: string)
    requires pathParams.Valid()
    ensures r == SubstituteAll(url, pathParams.keys, pathParams.entries)
  {
    var keys := pathParams.keys;
    r := url;
    for i := 0 to |keys|
      invariant r == SubstituteAll(url, keys[..i], pathParams.entries)
    {
      var name := keys[i];
      assert keys[..i + 1][..i] == keys[..i];
      r := Replace(r, "{" + name + "}", pathParams.entries[name]);
    }
    assert keys[..|keys|] == keys;
  }

  /** A URL without `{` passes through the substitution unchanged. */
  lemma {:induction false} SubstituteNoPlaceholder(url: string, keys: seq<string>, values: map<string, string>)
    requires forall k :: k in keys ==> k in values
    requires '{' !in url
    ensures SubstituteAll(url, keys, values) == url
    decreases |keys|
  {
    if keys != [] {
      var n := |keys| - 1;
      SubstituteNoPlaceholder(url, keys[..n], values);
      NotContainsWithoutHead(url, Placeholder(keys[n]));
      ReplaceAbsent(url, Placeholder(keys[n]), values[keys[n]]);
    }
  }

  /** With brace-free names and values, a template holding the placeholder
      of one parameter and no other `{` gets that parameter's value in its
      place when the parameter is among those substituted, and is left as
      it is otherwise. */
  lemma {:induction false} SubstituteOne(a: string, name: string, b: string, keys: seq<string>, values: map<string, string>)
    requires forall k :: k in keys ==> k in values
    requires '{' !in a && '{' !in b
    requires forall k :: k in keys ==> '{' !in k && '}' !in k
    requires forall k :: k in keys ==> '{' !in values[k]
    requires '{' !in name && '}' !in name
    ensures name in keys ==> SubstituteAll(a + Placeholder(name) + b, keys, values) == a + values[name] + b
    ensures name !in keys ==> SubstituteAll(a + Placeholder(name) + b, keys, values) == a + Placeholder(name) + b
    decreases |keys|
  {
    var url := a + Placeholder(name) + b;
    if keys != [] {
      var n := |keys| - 1;
      var k := keys[n];
      SubstituteOne(a, name, b, keys[..n], values);
      var prev := SubstituteAll(url, keys[..n], values);
      if name in keys[..n] {
        var done := a + values[name] + b;
        assert '{' !in done;
        NotContainsWithoutHead(done, Placeholder(k));
        ReplaceAbsent(done, Placeholder(k), values[k]);
      } else if k == name {
        ReplaceHit(a, name, b, values[name]);
      } else {
        assert name !in keys;
        ReplaceMiss(a, name, b, k, values[k]);
      }
    }
  }
}

