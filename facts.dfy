/**
 * What a run of the pagination loop does, stated without the loop: the fetches form a
 * chain from the show URL along next links, each page is what the server returned for
 * its request decoded by position, and the chain ends at the first page with an empty
 * next link or after which the running count equals the first page's total. `Run` is
 * proved to collect exactly that chain, so the collected items are the chain's items.
 */
module Facts {

  import opened Catalog
  import opened Transport
  import opened Loop

  /** The items of the logged pages, page after page, each page's in its own order. */
  function Flatten(log: seq<Fetch>): seq<Item>
    decreases |log|
  {
    if log == [] then [] else Flatten(log[..|log| - 1]) + log[|log| - 1].page.Items()
  }

  /** The expected count: the first page's `totalEpisodes`, and nothing else. */
  function FirstTotal(log: seq<Fetch>): int
  {
    if log != [] && log[0].page.First? then log[0].page.info.totalEpisodes else 0
  }

  /** Whether the loop leaves after fetch `j`: the page has no next link, or the
      items read up to and including it number exactly the expected count. */
  predicate StopsAfter(log: seq<Fetch>, j: nat)
    requires j < |log|
  {
    log[j].page.Next() == "" || |Flatten(log[..j + 1])| == FirstTotal(log)
  }

  /** The value `pin` holds when the body of fetch `j` is decoded into it. */
  function PinBefore(log: seq<Fetch>, j: nat): ProgramInfoNext
    requires j <= |log|
  {
    if j >= 2 && log[j - 1].page.Later? then log[j - 1].page.rest else NoNextPage
  }

  /** Fetch `j` carried the bearer token, got a 200 with a readable body, and its page is
      that body decoded as the first-page record (fetch 0) or as a later page. */
  predicate Delivered(env: Env, token: string, log: seq<Fetch>, j: nat)
    requires j < |log|
  {
    var f := log[j];
    f.request.authorization == Authorization(token) &&
    match GetProgramData(env.server(f.request))
    case Err(_) => false
    case Ok(body) =>
      if j == 0 then f.page.First? && env.decodeInfo(body) == Some(f.page.info)
      else f.page.Later? && env.decodeNext(body, PinBefore(log, j)) == Some(f.page.rest)
  }

  /** Fetch 0 asks for `start`; every later fetch asks for the previous page's next link. */
  predicate Linked(start: string, log: seq<Fetch>)
  {
    (log != [] ==> log[0].request.url == start) &&
    forall j :: 0 < j < |log| ==> log[j].request.url == log[j - 1].page.Next()
  }

  /** `log` is how a run starting at `start` may begin: linked, delivered, and no fetch
      before the last one made the loop leave. */
  predicate Fetched(env: Env, token: string, start: string, log: seq<Fetch>)
  {
    Linked(start, log) &&
    (forall j :: 0 <= j < |log| ==> Delivered(env, token, log, j)) &&
    (forall j :: 0 <= j < |log| - 1 ==> !StopsAfter(log, j))
  }

  /** The counters agree with the log: `items` is the pages' items in fetch order,
      `readItem` its length and `totalItem` the first page's total. */
  predicate Tally(s: State)
  {
    s.items == Flatten(s.log) && s.readItem == |s.items| && s.totalItem == FirstTotal(s.log)
  }

  /** `s` is the loop's state at the top of pass `s.i` of a run starting at `start`. */
  predicate Continuing(env: Env, token: string, start: string, s: State)
  {
    Fetched(env, token, start, s.log) && Tally(s) && |s.log| == s.i &&
    (s.log == [] ==> s.url == start) &&
    (s.log != [] ==> !StopsAfter(s.log, |s.log| - 1) && s.url == s.log[|s.log| - 1].page.Next()) &&
    s.pin == PinBefore(s.log, |s.log|)
  }

  /** `s` is the loop's state after it left at pass `s.i`: the last page stopped it, the URL
      stays at that page's own when its next link was empty and has moved on otherwise. */
  predicate Complete(env: Env, token: string, start: string, s: State)
  {
    Fetched(env, token, start, s.log) && Tally(s) && |s.log| == s.i + 1 &&
    StopsAfter(s.log, |s.log| - 1) &&
    var last := s.log[|s.log| - 1];
    s.url == (if last.page.Next() == "" then last.request.url else last.page.Next()) &&
    s.pin == PinBefore(s.log, |s.log|)
  }

  lemma FlattenAppend(log: seq<Fetch>, f: Fetch)
    ensures Flatten(log + [f]) == Flatten(log) + f.page.Items()
  {
    assert (log + [f])[..|log|] == log;
  }

  lemma StopsAfterPrefix(log: seq<Fetch>, k: nat, j: nat)
    requires j < k <= |log|
    ensures StopsAfter(log[..k], j) == StopsAfter(log, j)
  {
    assert log[..k][..j + 1] == log[..j + 1];
  }

  lemma PinBeforePrefix(log: seq<Fetch>, k: nat, j: nat)
    requires j <= k <= |log|
    ensures PinBefore(log[..k], j) == PinBefore(log, j)
  {
  }

  /** Appending a fetch that asks for the right URL and was delivered keeps a log `Fetched`. */
  lemma AppendFetched(env: Env, token: string, start: string, log: seq<Fetch>, f: Fetch)
    requires Fetched(env, token, start, log)
    requires log != [] ==> !StopsAfter(log, |log| - 1)
    requires f.request.url == if log == [] then start else log[|log| - 1].page.Next()
    requires Delivered(env, token, log + [f], |log|)
    ensures Fetched(env, token, start, log + [f])
  {
    var log' := log + [f];
    assert log'[..|log|] == log;
    forall j | 0 <= j < |log|
      ensures Delivered(env, token, log', j) && (j < |log'| - 1 ==> !StopsAfter(log', j))
    {
      PinBeforePrefix(log', |log|, j);
      assert Delivered(env, token, log, j);
      StopsAfterPrefix(log', |log|, j);
    }
  }

  /** The state a pass reaches after appending fetch `f`, before it follows the next link:
      a `Complete` state once the loop leaves there, a `Continuing` one otherwise. */
  lemma Absorbed(env: Env, token: string, start: string, s: State, f: Fetch, t: State)
    requires Continuing(env, token, start, s)
    requires f.request == PageRequest(token, s.url)
    requires Delivered(env, token, s.log + [f], |s.log|)
    requires t.log == s.log + [f] && t.i == s.i
    requires t.items == s.items + f.page.Items() && t.readItem == s.readItem + |f.page.Items()|
    requires t.totalItem == if s.i == 0 then f.page.info.totalEpisodes else s.totalItem
    requires t.pin == if s.i == 0 then s.pin else f.page.rest
    ensures Fetched(env, token, start, t.log) && Tally(t) && t.pin == PinBefore(t.log, |t.log|)
    ensures StopsAfter(t.log, |s.log|) <==> f.page.Next() == "" || t.totalItem == t.readItem
  {
    AppendFetched(env, token, start, s.log, f);
    FlattenAppend(s.log, f);
    assert t.log[..|t.log|] == t.log;
  }

  /** One pass from a `Continuing` state appends exactly one fetch: it ends in a `Complete`
      state when that fetch stops the loop and in a `Continuing` state when it does not. */
  lemma StepFromContinuing(env: Env, token: string, start: string, s: State)
    requires Continuing(env, token, start, s)
    ensures match Step(env, token, s)
      case Fail(_) => true
      case Stop(t) => Complete(env, token, start, t) && |t.log| == |s.log| + 1 && t.log[..|s.log|] == s.log
      case Continue(t) => Continuing(env, token, start, t) && |t.log| == |s.log| + 1 && t.log[..|s.log|] == s.log
  {
    var request := PageRequest(token, s.url);
    match GetProgramData(env.server(request))
    case Err(_) =>
    case Ok(body) =>
      if s.i == 0 {
        match env.decodeInfo(body)
        case None =>
        case Some(pi) =>
          var f := Fetch(request, First(pi));
          var t := s.(totalItem := pi.totalEpisodes,
                      readItem := s.readItem + |pi.episodes.items|,
                      items := s.items + pi.episodes.items,
                      log := s.log + [f]);
          assert Delivered(env, token, t.log, 0);
          Absorbed(env, token, start, s, f, t);
          assert t.log[..|s.log|] == s.log;
      } else {
        match env.decodeNext(body, s.pin)
        case None =>
        case Some(pin) =>
          var f := Fetch(request, Later(pin));
          var t := s.(pin := pin,
                      readItem := s.readItem + |pin.items|,
                      items := s.items + pin.items,
                      log := s.log + [f]);
          PinBeforePrefix(t.log, |s.log|, |s.log|);
          assert t.log[..|s.log|] == s.log;
          assert Delivered(env, token, t.log, |s.log|);
          Absorbed(env, token, start, s, f, t);
      }
  }

  lemma InitContinuing(env: Env, token: string, start: string)
    ensures Continuing(env, token, start, Init(start))
  {
  }

  /** Every run from a `Continuing` state ends collected in a `Complete` state, or pending
      in a `Continuing` one after using all its fetches. */
  lemma {:induction false} RunSound(env: Env, token: string, start: string, s: State, fuel: nat)
    requires Continuing(env, token, start, s)
    ensures var r := Run(env, token, s, fuel);
      (r.Collected? ==> Complete(env, token, start, r.final) && |s.log| < |r.final.log| <= |s.log| + fuel) &&
      (r.Unfinished? ==> Continuing(env, token, start, r.pending) && |r.pending.log| == |s.log| + fuel)
    decreases fuel
  {
    if fuel > 0 {
      StepFromContinuing(env, token, start, s);
      match Step(env, token, s)
      case Fail(_) =>
      case Stop(_) =>
      case Continue(t) => RunSound(env, token, start, t, fuel - 1);
    }
  }

  /** From a state on a `Complete` state's chain, the next pass makes the chain's next
      fetch and succeeds. */
  lemma StepFollows(env: Env, token: string, start: string, s: State, t: State)
    requires Continuing(env, token, start, s) && Complete(env, token, start, t)
    requires |s.log| < |t.log| && t.log[..|s.log|] == s.log
    ensures !Step(env, token, s).Fail? && Step(env, token, s).state.log == t.log[..|s.log| + 1]
  {
    var k := |s.log|;
    var f := t.log[k];
    assert Delivered(env, token, t.log, k);
    if k > 0 {
      assert s.log[k - 1] == t.log[k - 1];
      PinBeforePrefix(t.log, k, k);
    }
    assert f.request == PageRequest(token, s.url);
    assert t.log[..k + 1] == s.log + [f];
  }

  /** A `Complete` state is determined by its log. */
  lemma CompleteDetermined(env: Env, token: string, start: string, t: State, u: State)
    requires Complete(env, token, start, t) && Complete(env, token, start, u)
    requires t.log == u.log
    ensures t == u
  {
  }

  /** From a state on a `Complete` state's chain, the next pass either stops in exactly
      that state or continues along the chain. */
  lemma StepOnChain(env: Env, token: string, start: string, s: State, t: State)
    requires Continuing(env, token, start, s) && Complete(env, token, start, t)
    requires |s.log| < |t.log| && t.log[..|s.log|] == s.log
    ensures Step(env, token, s) == Stop(t) || Step(env, token, s).Continue?
    ensures Step(env, token, s).Continue? ==>
      var u := Step(env, token, s).state;
      Continuing(env, token, start, u) && |u.log| == |s.log| + 1 && |u.log| < |t.log| && t.log[..|u.log|] == u.log
  {
    var k := |s.log|;
    StepFollows(env, token, start, s, t);
    StepFromContinuing(env, token, start, s);
    StopsAfterPrefix(t.log, k + 1, k);
    var u := Step(env, token, s).state;
    if Step(env, token, s).Stop? {
      assert k == |t.log| - 1;
      assert u.log == t.log;
      CompleteDetermined(env, token, start, t, u);
    } else {
      assert k + 1 < |t.log|;
    }
  }

  /** A run from a prefix of a `Complete` state's chain, with fetches enough left, follows
      that chain to its end and stops in exactly that state. */
  lemma {:induction false} RunReaches(env: Env, token: string, start: string, s: State, t: State, fuel: nat)
    requires Continuing(env, token, start, s) && Complete(env, token, start, t)
    requires |s.log| < |t.log| && t.log[..|s.log|] == s.log
    requires |t.log| - |s.log| <= fuel
    ensures Run(env, token, s, fuel) == Collected(t)
    decreases fuel
  {
    StepOnChain(env, token, start, s, t);
    if Step(env, token, s).Continue? {
      RunReaches(env, token, start, Step(env, token, s).state, t, fuel - 1);
    }
  }

  /** A run from the show URL either collects in a `Complete` state, or is still pending
      after exactly `fuel` fetches, or was aborted. */
  lemma CollectedIsComplete(env: Env, token: string, start: string, fuel: nat)
    ensures var r := Run(env, token, Init(start), fuel);
      (r.Collected? ==> Complete(env, token, start, r.final) && 1 <= |r.final.log| <= fuel) &&
      (r.Unfinished? ==> Continuing(env, token, start, r.pending) && |r.pending.log| == fuel)
  {
    InitContinuing(env, token, start);
    RunSound(env, token, start, Init(start), fuel);
  }

  /** The loop collects `t` exactly when `t` is a `Complete` chain from the show URL that
      the allowed number of fetches reaches. */
  lemma CollectsExactlyTheChain(env: Env, token: string, start: string, fuel: nat, t: State)
    requires Complete(env, token, start, t)
    ensures Run(env, token, Init(start), fuel) == Collected(t) <==> |t.log| <= fuel
  {
    CollectedIsComplete(env, token, start, fuel);
    if |t.log| <= fuel {
      InitContinuing(env, token, start);
      RunReaches(env, token, start, Init(start), t, fuel);
    }
  }

  /** There is at most one way for the loop to finish. */
  lemma CompleteUnique(env: Env, token: string, start: string, t: State, u: State)
    ensures Complete(env, token, start, t) && Complete(env, token, start, u) ==> t == u
  {
    if Complete(env, token, start, t) && Complete(env, token, start, u) {
      var fuel := |t.log| + |u.log|;
      CollectsExactlyTheChain(env, token, start, fuel, t);
      CollectsExactlyTheChain(env, token, start, fuel, u);
    }
  }

  /** Allowing more fetches continues a pending run and leaves a finished one as it was. */
  lemma {:induction false} RunSplit(env: Env, token: string, s: State, a: nat, b: nat)
    ensures Run(env, token, s, a + b) ==
      match Run(env, token, s, a)
      case Unfinished(t) => Run(env, token, t, b)
      case other => other
    decreases a
  {
    if a > 0 {
      match Step(env, token, s)
      case Fail(_) =>
      case Stop(_) =>
      case Continue(t) =>
        RunSplit(env, token, t, a - 1, b);
        assert a + b - 1 == (a - 1) + b;
    }
  }

  /** A fault on any fetch aborts the run for every larger allowance of fetches. */
  lemma AbortAtAnyFetch(env: Env, token: string, s: State, k: nat, n: nat)
    requires k < n
    requires Run(env, token, s, k).Unfinished?
    requires Step(env, token, Run(env, token, s, k).pending).Fail?
    ensures Run(env, token, s, n) == Aborted(Step(env, token, Run(env, token, s, k).pending).fault)
  {
    RunSplit(env, token, s, k, n - k);
  }

  /** An aborted run was pending after some number of fetches and then failed on the next. */
  lemma {:induction false} AbortedAtSomeFetch(env: Env, token: string, s: State, n: nat)
    requires Run(env, token, s, n).Aborted?
    ensures exists k: nat ::
              k < n && Run(env, token, s, k).Unfinished? &&
              Step(env, token, Run(env, token, s, k).pending) == Fail(Run(env, token, s, n).fault)
    decreases n
  {
    match Step(env, token, s)
    case Fail(_) =>
      assert Run(env, token, s, 0) == Unfinished(s);
    case Continue(t) =>
      AbortedAtSomeFetch(env, token, t, n - 1);
      var k: nat :| k < n - 1 && Run(env, token, t, k).Unfinished? &&
        Step(env, token, Run(env, token, t, k).pending) == Fail(Run(env, token, t, n - 1).fault);
      assert Run(env, token, s, k + 1) == Run(env, token, t, k);
  }

  /** Logs whose pages agree on their items have the same items. */
  lemma {:induction false} FlattenItemsOnly(log1: seq<Fetch>, log2: seq<Fetch>)
    requires |log1| == |log2|
    requires forall j :: 0 <= j < |log1| ==> log1[j].page.Items() == log2[j].page.Items()
    ensures Flatten(log1) == Flatten(log2)
    decreases |log1|
  {
    if log1 != [] {
      var n := |log1| - 1;
      FlattenItemsOnly(log1[..n], log2[..n]);
    }
  }

  /** Two logs whose pages agree on items and next links and whose first pages agree on
      `totalEpisodes` lead to the same items and the same stop decisions: no other field,
      in particular no page's `total`, takes part. This is a fact about `Flatten` and
      `StopsAfter`; it bears on the loop through `CollectsExactlyTheChain`, whose chains
      are built from those two. */
  lemma DecisionsIgnoreTotals(log1: seq<Fetch>, log2: seq<Fetch>)
    requires |log1| == |log2| && FirstTotal(log1) == FirstTotal(log2)
    requires forall j :: 0 <= j < |log1| ==>
      log1[j].page.Items() == log2[j].page.Items() && log1[j].page.Next() == log2[j].page.Next()
    ensures Flatten(log1) == Flatten(log2)
    ensures forall j :: 0 <= j < |log1| ==> StopsAfter(log1, j) == StopsAfter(log2, j)
  {
    FlattenItemsOnly(log1, log2);
    forall j | 0 <= j < |log1|
      ensures StopsAfter(log1, j) == StopsAfter(log2, j)
    {
      FlattenItemsOnly(log1[..j + 1], log2[..j + 1]);
    }
  }

  /** The count of items read never decreases from one fetch to a later one. */
  lemma {:induction false} FlattenPrefixGrows(log: seq<Fetch>, a: nat, b: nat)
    requires a <= b <= |log|
    ensures |Flatten(log[..a])| <= |Flatten(log[..b])|
    decreases b - a
  {
    if a < b {
      FlattenPrefixGrows(log, a, b - 1);
      assert log[..b][..b - 1] == log[..b - 1];
    }
  }

  /** The stop test is an equality: once the count read has passed the expected total,
      only an empty next link can end the chain, so a finished chain whose count passed the
      total at any fetch ends on a page without a next link. */
  lemma OvershootOnlyEmptyNext(env: Env, token: string, start: string, t: State, j: nat)
    requires Complete(env, token, start, t)
    requires j < |t.log| && |Flatten(t.log[..j + 1])| > FirstTotal(t.log)
    ensures t.log[|t.log| - 1].page.Next() == ""
  {
    FlattenPrefixGrows(t.log, j + 1, |t.log|);
    assert t.log[..|t.log|] == t.log;
  }

  /** For every server: a run whose count passed the first page's total after some fetch
      can only have been collected because its last page had no next link; while next links
      keep coming it goes on, however many fetches it is allowed. */
  lemma OvershootRunsOn(env: Env, token: string, start: string, fuel: nat, j: nat)
    ensures var r := Run(env, token, Init(start), fuel);
      r.Collected? && j < |r.final.log| && |Flatten(r.final.log[..j + 1])| > r.final.totalItem ==>
        r.final.log[|r.final.log| - 1].page.Next() == ""
  {
    CollectedIsComplete(env, token, start, fuel);
    var r := Run(env, token, Init(start), fuel);
    if r.Collected? && j < |r.final.log| && |Flatten(r.final.log[..j + 1])| > r.final.totalItem {
      OvershootOnlyEmptyNext(env, token, start, r.final, j);
    }
  }
}
