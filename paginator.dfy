/**
 * The episode collection loop of `main`, as the program runs it: fetch the page at `url`,
 * decode it as the first page on pass 0 and as a later page after that, append its items,
 * follow its next link, and leave on an empty next link or once the count read equals the
 * first page's total. The program loops without bound; here `maxFetches` bounds the number
 * of fetches and a run that reaches it ends `Unfinished`.
 */
module Paginator {

  import opened Catalog
  import opened Transport
  import opened Loop
  import opened Facts

  method CollectEpisodes(env: Env, token: string, start: string, maxFetches: nat) returns (r: Outcome)
    ensures r == Run(env, token, Init(start), maxFetches)
    ensures r.Collected? ==> Complete(env, token, start, r.final) && |r.final.log| <= maxFetches
    ensures r.Unfinished? ==> Continuing(env, token, start, r.pending) && |r.pending.log| == maxFetches
  {
    CollectedIsComplete(env, token, start, maxFetches);
    var url := start;
    var pin := NoNextPage;
    var items: seq<Item> := [];
    var totalItem := 0;
    var readItem := 0;
    var log: seq<Fetch> := [];
    var i: nat := 0;
    while i < maxFetches
      invariant i <= maxFetches
      invariant readItem == |items|
      invariant Run(env, token, Init(start), maxFetches)
             == Run(env, token, State(url, i, pin, items, readItem, totalItem, log), maxFetches - i)
    {
      var request := PageRequest(token, url);
      var fetched := GetProgramData(env.server(request));
      if fetched.Err? {
        return Aborted(fetched.fault);
      }
      var body := fetched.value;
      if i == 0 {
        var decoded := env.decodeInfo(body);
        if decoded.None? {
          return Aborted(ParseError);
        }
        var pi := decoded.value;
        totalItem := pi.totalEpisodes;
        readItem := readItem + |pi.episodes.items|;
        items := items + pi.episodes.items;
        log := log + [Fetch(request, First(pi))];
        if pi.episodes.next != "" {
          url := pi.episodes.next;
        } else {
          return Collected(State(url, i, pin, items, readItem, totalItem, log));
        }
      } else {
        var decoded := env.decodeNext(body, pin);
        if decoded.None? {
          return Aborted(ParseError);
        }
        pin := decoded.value;
        readItem := readItem + |pin.items|;
        items := items + pin.items;
        log := log + [Fetch(request, Later(pin))];
        if pin.next != "" {
          url := pin.next;
        } else {
          return Collected(State(url, i, pin, items, readItem, totalItem, log));
        }
      }
      if totalItem == readItem {
        return Collected(State(url, i, pin, items, readItem, totalItem, log));
      }
      i := i + 1;
    }
    r := Unfinished(State(url, i, pin, items, readItem, totalItem, log));
  }
}
