/**
 * One pass of the pagination loop in `main` and the loop itself, as functions of the
 * loop's variables. The collection method in module Paginator is proved equal to `Run`;
 * what `Run` does is described and proved in module Facts.
 */
module Loop {

  import opened Catalog
  import opened Transport

  /** What the loop calls but cannot see: the catalog server behind `GetProgramData`,
      and JSON decoding into the first-page record and into the later-page record.
      The later-page decoder receives the record it decodes into, because `pin` lives
      outside the loop and each later body is decoded into the previous page's value. */
  datatype Env = Env(
    server: Request -> Exchange,
    decodeInfo: Bytes -> Option<ProgramInfo>,
    decodeNext: (Bytes, ProgramInfoNext) -> Option<ProgramInfoNext>)

  /** One fetch: the request sent and the page its body was decoded into. */
  datatype Fetch = Fetch(request: Request, page: Page)

  /** The loop's variables: the URL to fetch next, the counter `i`, the later-page record
      `pin`, the episodes collected so far, `readItem` and `totalItem`. `log` records the
      fetches made so far; the program keeps no such list, it is there to state facts. */
  datatype State = State(
    url: string, i: nat, pin: ProgramInfoNext,
    items: seq<Item>, readItem: int, totalItem: int,
    log: seq<Fetch>)

  /** The variables before the first fetch. */
  function Init(start: string): State
  {
    State(start, 0, NoNextPage, [], 0, 0, [])
  }

  /** How one pass ends: a fatal fault, a `break`, or on to the next pass. */
  datatype Turn = Fail(fault: Fault) | Stop(state: State) | Continue(state: State)

  /** How a run ends: aborted by a fault with nothing collected, finished with its final
      variables, or still going when the allowed number of fetches ran out. */
  datatype Outcome = Aborted(fault: Fault) | Collected(final: State) | Unfinished(pending: State)

  /** The count test at the end of a pass that did not stop on an empty next link. */
  function CheckCount(s: State): Turn
  {
    if s.totalItem == s.readItem then Stop(s) else Continue(s.(i := s.i + 1))
  }

  /** One pass of the loop body: fetch `url`, decode it by position, append its items,
      follow its next link or stop. */
  function Step(env: Env, token: string, s: State): Turn
  {
    var request := PageRequest(token, s.url);
    match GetProgramData(env.server(request))
    case Err(fault) => Fail(fault)
    case Ok(body) =>
      if s.i == 0 then
        match env.decodeInfo(body)
        case None => Fail(ParseError)
        case Some(pi) =>
          var t := s.(totalItem := pi.totalEpisodes,
                      readItem := s.readItem + |pi.episodes.items|,
                      items := s.items + pi.episodes.items,
                      log := s.log + [Fetch(request, First(pi))]);
          if pi.episodes.next != "" then CheckCount(t.(url := pi.episodes.next)) else Stop(t)
      else
        match env.decodeNext(body, s.pin)
        case None => Fail(ParseError)
        case Some(pin) =>
          var t := s.(pin := pin,
                      readItem := s.readItem + |pin.items|,
                      items := s.items + pin.items,
                      log := s.log + [Fetch(request, Later(pin))]);
          if pin.next != "" then CheckCount(t.(url := pin.next)) else Stop(t)
  }

  /** The loop from `s` on, allowed at most `fuel` more fetches. */
  function Run(env: Env, token: string, s: State, fuel: nat): Outcome
    decreases fuel
  {
    if fuel == 0 then Unfinished(s)
    else
      match Step(env, token, s)
      case Fail(fault) => Aborted(fault)
      case Stop(t) => Collected(t)
      case Continue(t) => Run(env, token, t, fuel - 1)
  }
}
