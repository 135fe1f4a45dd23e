/**
 * Concrete runs of the collection loop against small catalog servers: a two-page show,
 * a first page that already holds every episode, an upstream error, a short result, and
 * a count that overshoots the total so that the loop never leaves.
 */
module Scenarios {

  import opened Catalog
  import opened Transport
  import opened Loop

  const A := Item("a", "Episode A", "first")
  const B := Item("b", "Episode B", "second")
  const C := Item("c", "Episode C", "third")

  const Page2 := "https://api.spotify.com/v1/shows/next"

  /** A server answering the show URL with body [0] and `Page2` with body [1]. */
  function TwoPageServer(req: Request): Exchange
  {
    if req.url == ShowUrl then Reply(StatusOK, Some([0]))
    else if req.url == Page2 then Reply(StatusOK, Some([1]))
    else NoResponse
  }

  /** The first page lists A and B of `total` episodes and links to `Page2`, which lists C
      and ends. The `total` fields deliberately disagree with everything. */
  function TwoPageShow(total: int): Env
  {
    Env(TwoPageServer,
        b => if b == [0] then Some(ProgramInfo(total, Episodes([A, B], Page2, 40))) else None,
        (b, p) => if b == [1] then Some(ProgramInfoNext([C], "", 7)) else None)
  }

  /** Three episodes over two pages: both pages are fetched, in link order, and the episodes
      come out in arrival order. */
  lemma TwoPagesCollected(token: string)
    ensures var r := Run(TwoPageShow(3), token, Init(ShowUrl), 5);
      r.Collected? && r.final.items == [A, B, C] && r.final.readItem == 3 &&
      |r.final.log| == 2 &&
      r.final.log[0].request == PageRequest(token, ShowUrl) &&
      r.final.log[1].request == PageRequest(token, Page2)
  {
    var env := TwoPageShow(3);
    var s0 := Init(ShowUrl);
    assert ShowUrl != Page2;
    var s1 := Step(env, token, s0).state;
    assert Step(env, token, s0).Continue?;
    assert s1.items == [A, B] && s1.url == Page2 && s1.i == 1;
    assert Step(env, token, s1).Stop?;
  }

  /** A first page that holds all of its show's episodes ends the run after one fetch, even
      though it links to a further page: that page is never requested. */
  lemma FirstPageHoldsAll(token: string)
    ensures var r := Run(TwoPageShow(2), token, Init(ShowUrl), 5);
      r.Collected? && r.final.items == [A, B] && |r.final.log| == 1 && r.final.url == Page2
  {
    assert Step(TwoPageShow(2), token, Init(ShowUrl)).Stop?;
  }

  /** An empty next link ends the run even when fewer episodes than the total were read:
      the show claims 9 episodes and only three are collected. */
  lemma ShortResult(token: string)
    ensures var r := Run(TwoPageShow(9), token, Init(ShowUrl), 5);
      r.Collected? && r.final.items == [A, B, C] && r.final.readItem < r.final.totalItem
  {
    var env := TwoPageShow(9);
    assert ShowUrl != Page2;
    var s1 := Step(env, token, Init(ShowUrl)).state;
    assert s1.url == Page2 && s1.i == 1;
    assert Step(env, token, s1).Stop?;
  }

  /** A 500 from the first request aborts the run, with no episodes. */
  lemma ServerErrorAborts(token: string, fuel: nat)
    requires fuel >= 1
    ensures Run(Env(req => Reply(500, Some([])), TwoPageShow(3).decodeInfo, TwoPageShow(3).decodeNext),
                token, Init(ShowUrl), fuel) == Aborted(UpstreamStatus(500))
  {
  }

  /** A show whose every page lists A and B and links back to the show URL, with a total
      of one episode. */
  function EndlessShow(): Env
  {
    Env(req => Reply(StatusOK, Some([0])),
        b => Some(ProgramInfo(1, Episodes([A, B], ShowUrl, 1))),
        (b, p) => Some(ProgramInfoNext([A, B], ShowUrl, 1)))
  }

  lemma {:induction false} EndlessFrom(token: string, s: State, fuel: nat)
    requires s.i >= 1 && s.totalItem == 1 && s.readItem >= 2
    ensures Run(EndlessShow(), token, s, fuel).Unfinished?
    decreases fuel
  {
    if fuel > 0 {
      var t := Step(EndlessShow(), token, s);
      assert t.Continue? && t.state.readItem == s.readItem + 2;
      EndlessFrom(token, t.state, fuel - 1);
    }
  }

  /** Once the count has passed the total the equality test never fires again, so with next
      links always present the loop never leaves, however many fetches it is allowed; it
      appends the same episodes over and over. */
  lemma OvershootNeverStops(token: string, fuel: nat)
    ensures Run(EndlessShow(), token, Init(ShowUrl), fuel).Unfinished?
  {
    if fuel > 0 {
      var t := Step(EndlessShow(), token, Init(ShowUrl));
      assert t.Continue? && t.state.readItem == 2 && t.state.i == 1;
      EndlessFrom(token, t.state, fuel - 1);
    }
  }
}
