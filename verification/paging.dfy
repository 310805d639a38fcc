/** Spring Data's page request as the services build it: a page number, a
    page size and a single sort order. */
module Paging {

  import opened Common
  import opened JavaText

  datatype Direction = Asc | Desc

  datatype Pageable = Pageable(page: int, size: int, property: string, direction: Direction)

  /** The direction text that selects each direction. */
  function DirectionText(d: Direction): string {
    if d == Desc then "desc" else "asc"
  }

  /** Sort.Direction chosen by "desc".equalsIgnoreCase(dir): anything that is
      not "desc" in some letter case sorts ascending. */
  function DirectionOf(dir: string): (d: Direction)
    ensures d == Desc <==> IsDescIgnoreCase(dir)
  {
    if IsDescIgnoreCase(dir) then Desc else Asc
  }

  lemma {:induction false} DirectionOfText(d: Direction)
    ensures DirectionOf(DirectionText(d)) == d
  {
  }

  /** PageRequest.of(page, size, Sort.by(new Sort.Order(direction, property))):
      Sort.Order refuses a property without text, PageRequest refuses a
      negative page index and a size below one, each with
      IllegalArgumentException. */
  function PageRequestOf(page: int, size: int, direction: Direction, property: string): (r: Result<Pageable>)
    ensures r.Ok? ==> r.value.page >= 0 && r.value.size >= 1 && HasText(r.value.property)
    ensures r.Ok? <==> HasText(property) && page >= 0 && size >= 1
    ensures r.Err? ==> r.error == IllegalArgument
    ensures r.Ok? ==> && r.value.page == page && r.value.size == size
                      && r.value.property == property && r.value.direction == direction
  {
    if !HasText(property) || page < 0 || size < 1 then Err(IllegalArgument)
    else Ok(Pageable(page, size, property, direction))
  }
}
