/** The route table generated for the example project: `dispatch` maps a
    path to the rendered page for it, or to a fixed not-found text, and
    `routes` lists the paths the table serves. */
module Routes {
  import opened Markup

  const NotFound := "404 Not Found"

  /** What the project's two page functions return; their content is the
      pages' business, not the table's. */
  datatype Pages = Pages(index: Component, about: Component)

  /** The arms of the `match` in `dispatch`. */
  datatype Arm = IndexArm | AboutArm | Fallback

  function ArmFor(path: string): Arm
  {
    if path == "/" then IndexArm else if path == "/about" then AboutArm else Fallback
  }

  /** `dispatch(path)`: total, every path gets some text. */
  function Dispatch(path: string, pages: Pages): (html: string)
    ensures ArmFor(path) == IndexArm ==> html == Rendered(pages.index)
    ensures ArmFor(path) == AboutArm ==> html == Rendered(pages.about)
    ensures ArmFor(path) == Fallback ==> html == NotFound
  {
    match ArmFor(path)
    case IndexArm => Rendered(pages.index)
    case AboutArm => Rendered(pages.about)
    case Fallback => NotFound
  }

  /** `routes()` */
  function RouteList(): seq<string>
  {
    ["/", "/about"]
  }

  /** The two pages are served at `/` and `/about`; `/contact`, which has a
      page in the project's sources, is not in the table. */
  lemma DispatchExamples(pages: Pages)
    ensures Dispatch("/", pages) == Rendered(pages.index)
    ensures Dispatch("/about", pages) == Rendered(pages.about)
    ensures Dispatch("/contact", pages) == "404 Not Found"
  {
  }

  /** The listed routes are exactly the paths with an arm of their own,
      and the list has no duplicates. */
  lemma RouteListMatchesArms()
    ensures forall path :: path in RouteList() <==> ArmFor(path) != Fallback
    ensures forall i, j :: 0 <= i < j < |RouteList()| ==> RouteList()[i] != RouteList()[j]
  {
  }
}
