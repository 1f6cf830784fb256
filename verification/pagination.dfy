/** `paginate` of the paginated crawler: follow `links.next` from page to
    page, concatenating every page's `data`, and stop quietly at the first
    response whose status is not 200.

    The source loops while the server keeps handing out next links; the
    model bounds the number of requests by `fuel`, so nothing here claims
    that pagination ends for an arbitrary server. */
module Pagination {
  import opened Strings
  import opened Api

  /** `url.split("?")[0]`: the URL without its query string. */
  function BaseOf(url: string): string
  {
    Split(url, '?')[0]
  }

  /** The base is the longest `?`-free prefix of the URL: the whole URL
      when it has no `?`, otherwise everything before its first `?`. */
  lemma BaseOfShape(url: string)
    ensures var r := BaseOf(url);
      && '?' !in r
      && StartsWith(url, r)
      && (|r| < |url| ==> url[|r|] == '?')
      && ('?' !in url ==> r == url)
  {
    SplitFirst(url, '?');
    SplitSingle(url, '?');
  }

  /** The URL of the page after `url`, given the page's `links.next`:
      an absolute link as it is, a `?`-fragment after the current base,
      any other link as a `cursor` parameter on the current base, and
      `None` (the loop ends) for an absent or empty link. */
  function NextUrl(url: string, next: Option<string>): (r: Option<string>)
    ensures r.None? <==> !Truthy(next)
  {
    if !Truthy(next) then None
    else
      var link := next.value;
      if StartsWith(link, "http") then Some(link)
      else if StartsWith(link, "?") then Some(BaseOf(url) + link)
      else Some(BaseOf(url) + "?cursor=" + link)
  }

  /** A next URL is never empty; an absolute link is followed verbatim; a
      relative one stays on the current URL's base (the part before `?`)
      and ends with the link; a bare cursor becomes `?cursor=<link>` right
      after that base. */
  lemma NextUrlShape(url: string, next: Option<string>)
    requires Truthy(next)
    ensures var r := NextUrl(url, next).value;
      && r != ""
      && (StartsWith(next.value, "http") ==> r == next.value)
      && (StartsWith(next.value, "?") ==> r == BaseOf(url) + next.value)
      && (!StartsWith(next.value, "http") ==>
            && BaseOf(r) == BaseOf(url)
            && |next.value| <= |r| && r[|r| - |next.value|..] == next.value)
      && (!StartsWith(next.value, "http") && !StartsWith(next.value, "?") ==>
            r[|BaseOf(url)|..] == "?cursor=" + next.value)
  {
    var link := next.value;
    if !StartsWith(link, "http") {
      var base := BaseOf(url);
      BaseOfShape(url);
      if StartsWith(link, "?") {
        assert link == ['?'] + link[1..];
        OnBase(base, link[1..]);
        assert NextUrl(url, next).value == base + ['?'] + link[1..];
        assert base + ['?'] + link[1..] == base + link;
      } else {
        var tail := "cursor=" + link;
        OnBase(base, tail);
        assert NextUrl(url, next).value == base + ['?'] + tail;
        assert ['?'] + tail == "?cursor=" + link;
      }
    } else {
      assert link[0] == 'h';
    }
  }

  /** A URL built as `base ? tail` with a `?`-free base has that base. */
  lemma OnBase(base: string, tail: string)
    requires '?' !in base
    ensures var r := base + ['?'] + tail;
      && BaseOf(r) == base
      && r[|base|..] == ['?'] + tail
      && r[|r| - |tail|..] == tail
  {
    SplitFirstOfJoined(base, '?', tail);
  }

  /** Everything `paginate` returns when it starts at `url` and may issue
      at most `fuel` requests. */
  function Collect(server: Server, url: Option<string>, fuel: nat): seq<Item>
    decreases fuel
  {
    if !Truthy(url) || fuel == 0 then []
    else
      var resp := server(url.value);
      if resp.status != 200 then []
      else resp.body.Data() + Collect(server, NextUrl(url.value, resp.body.next), fuel - 1)
  }

  /** Pagination from `url` stops by itself within `fuel` requests: a page
      without a next link, or a failed response, is reached in time. */
  predicate Ends(server: Server, url: Option<string>, fuel: nat)
    decreases fuel
  {
    !Truthy(url)
    || (fuel > 0
        && (server(url.value).status != 200
            || Ends(server, NextUrl(url.value, server(url.value).body.next), fuel - 1)))
  }

  /** `paginate(url, headers, debug)`, with at most `fuel` requests. */
  method Paginate(server: Server, url: string, fuel: nat) returns (results: seq<Item>)
    ensures results == Collect(server, Some(url), fuel)
  {
    results := [];
    var current := Some(url);
    var budget := fuel;
    while Truthy(current) && budget > 0
      invariant results + Collect(server, current, budget) == Collect(server, Some(url), fuel)
      decreases budget
    {
      var resp := server(current.value);
      if resp.status != 200 {
        assert Collect(server, current, budget) == [];
        break;
      }
      var next := NextUrl(current.value, resp.body.next);
      CollectStep(server, current.value, budget);
      ghost var rest := Collect(server, next, budget - 1);
      assert results + (resp.body.Data() + rest) == (results + resp.body.Data()) + rest;
      results := results + resp.body.Data();
      current := next;
      budget := budget - 1;
    }
    assert results + [] == results;
  }

  /** One successful page: its items, then whatever follows its next link. */
  lemma CollectStep(server: Server, url: string, fuel: nat)
    requires url != "" && fuel > 0 && server(url).status == 200
    ensures Collect(server, Some(url), fuel)
      == server(url).body.Data() + Collect(server, NextUrl(url, server(url).body.next), fuel - 1)
  {
  }

  /** Once pagination ends on its own, more fuel changes nothing: the
      result is that of the unbounded loop of the source. */
  lemma {:induction false} CollectEnough(server: Server, url: Option<string>, fuel: nat, more: nat)
    requires Ends(server, url, fuel)
    requires fuel <= more
    ensures Ends(server, url, more)
    ensures Collect(server, url, more) == Collect(server, url, fuel)
    decreases fuel
  {
    if Truthy(url) && server(url.value).status == 200 {
      var next := NextUrl(url.value, server(url.value).body.next);
      CollectEnough(server, next, fuel - 1, more - 1);
    }
  }

  /** One more request only extends the result: pages are accumulated in
      order and nothing collected is lost. */
  lemma {:induction false} CollectGrows(server: Server, url: Option<string>, fuel: nat)
    ensures var a := Collect(server, url, fuel);
      var b := Collect(server, url, fuel + 1);
      |a| <= |b| && b[..|a|] == a
    decreases fuel
  {
    if Truthy(url) && server(url.value).status == 200 && fuel > 0 {
      var resp := server(url.value);
      var next := NextUrl(url.value, resp.body.next);
      CollectGrows(server, next, fuel - 1);
      var a' := Collect(server, next, fuel - 1);
      var b' := Collect(server, next, fuel);
      assert (resp.body.Data() + b')[..|resp.body.Data() + a'|] == resp.body.Data() + b'[..|a'|];
    }
  }

  /** A failing first response yields nothing; a page whose successor
      fails contributes its own items and nothing else. */
  lemma StopsAtFailure(server: Server, url: string, fuel: nat)
    requires url != "" && fuel > 0
    ensures server(url).status != 200 ==> Collect(server, Some(url), fuel) == []
    ensures
      var resp := server(url);
      var next := NextUrl(url, resp.body.next);
      resp.status == 200 && next.Some? && server(next.value).status != 200 ==>
        Collect(server, Some(url), fuel) == resp.body.Data()
  {
    var resp := server(url);
    var next := NextUrl(url, resp.body.next);
    if resp.status == 200 && next.Some? && server(next.value).status != 200 {
      assert Collect(server, next, fuel - 1) == [];
      assert resp.body.Data() + [] == resp.body.Data();
    }
  }
}
