/**
 * The records the episode collector decodes catalog pages into (the `ProgramInfo`,
 * `ProgramInfoNext` and `Item` structs of main.go). Only the fields the collection loop
 * reads are kept, together with the two `total` counters it never reads, so that the
 * model can say they are ignored. Images, markets, URLs and the other metadata are
 * passed through untouched by the loop and are not modelled.
 */
module Catalog {

  datatype Option<T> = None | Some(value: T)

  /** One episode. `id` stands for the identity of the record; only `name` and
      `description` are read downstream (by the table writer). */
  datatype Item = Item(id: string, name: string, description: string)

  /** The paginated container that the first page nests under `episodes`. */
  datatype Episodes = Episodes(items: seq<Item>, next: string, total: int)

  /** The first page of a show (`ProgramInfo`). */
  datatype ProgramInfo = ProgramInfo(totalEpisodes: int, episodes: Episodes)

  /** Every later page (`ProgramInfoNext`): items and next link at the top level. */
  datatype ProgramInfoNext = ProgramInfoNext(items: seq<Item>, next: string, total: int)

  /** The zero value `pin` holds before the first later page is decoded into it. */
  const NoNextPage := ProgramInfoNext([], "", 0)

  /** A decoded page. Which of the two records a body was decoded into is decided by
      the page's position in the loop, never by the payload. */
  datatype Page = First(info: ProgramInfo) | Later(rest: ProgramInfoNext)
  {
    /** The page's episodes, in the order the body lists them. */
    function Items(): seq<Item>
    {
      match this
      case First(info) => info.episodes.items
      case Later(rest) => rest.items
    }

    /** The page's next link; the empty string means there is none. */
    function Next(): string
    {
      match this
      case First(info) => info.episodes.next
      case Later(rest) => rest.next
    }
  }
}
