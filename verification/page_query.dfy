/** PageQuery: the generic paging parameters of a list request, with their
    defaults and the translation of "property,direction" into a page request
    whose property must belong to an allow-list. The sort text is used as
    given: it is neither trimmed before nor after the split. */
module PageQueries {

  import opened Common
  import opened JavaText
  import opened Paging

  datatype PageQuery = PageQuery(page: Option<int>, size: Option<int>, sort: Option<string>)

  const DEFAULT_PAGE: int := 0
  const DEFAULT_SIZE: int := 20
  const DEFAULT_SORT: string := "createdAt,desc"

  function PageOrDefault(q: PageQuery): (p: int)
    ensures q.page.Some? ==> p == q.page.value
    ensures q.page.None? ==> p == DEFAULT_PAGE
  {
    if q.page.None? then DEFAULT_PAGE else q.page.value
  }

  function SizeOrDefault(q: PageQuery): (n: int)
    ensures q.size.Some? ==> n == q.size.value
    ensures q.size.None? ==> n == DEFAULT_SIZE
  {
    if q.size.None? then DEFAULT_SIZE else q.size.value
  }

  /** The effective sort: the default when absent or blank, otherwise the
      text exactly as given. */
  function SortOrDefault(q: PageQuery): (s: string)
    ensures HasText(s)
    ensures q.sort.Some? && HasText(q.sort.value) ==> s == q.sort.value
  {
    assert !IsJavaWhitespace(DEFAULT_SORT[0]);
    if q.sort.None? || IsBlank(q.sort.value) then DEFAULT_SORT else q.sort.value
  }

  /** The property is the text before the first comma; the direction text is
      what follows it, or "asc" when there is no comma. */
  function SortParts(q: PageQuery): (parts: (string, string))
    ensures ',' !in parts.0
    ensures ',' in SortOrDefault(q) ==> SortOrDefault(q) == parts.0 + "," + parts.1
    ensures ',' !in SortOrDefault(q) ==> parts == (SortOrDefault(q), "asc")
  {
    var split := SplitFirstComma(SortOrDefault(q));
    (split.head, if split.tail.Some? then split.tail.value else "asc")
  }

  /** toPageable: the property must be in the allow-list, and the direction is
      descending exactly when the direction text is "desc" in any case. */
  function ToPageable(q: PageQuery, allowed: set<string>): (r: Result<Pageable>)
    ensures r.Ok? <==> (SortParts(q).0 in allowed && HasText(SortParts(q).0)
                        && PageOrDefault(q) >= 0 && SizeOrDefault(q) >= 1)
    ensures r.Err? ==> r.error == IllegalArgument
    ensures r.Ok? ==> && r.value.property in allowed && ',' !in r.value.property
                      && r.value.property == SortParts(q).0
                      && r.value.page == PageOrDefault(q) && r.value.size == SizeOrDefault(q)
                      && (r.value.direction == Desc <==> IsDescIgnoreCase(SortParts(q).1))
  {
    var (property, dir) := SortParts(q);
    if property !in allowed then Err(IllegalArgument)
    else PageRequestOf(PageOrDefault(q), SizeOrDefault(q), DirectionOf(dir), property)
  }

  lemma {:induction false} SortPartsOf(q: PageQuery, property: string, dir: string)
    requires ',' !in property && SortOrDefault(q) == property + "," + dir
    ensures SortParts(q) == (property, dir)
  {
    SplitJoined(property, dir);
  }

  /** A request written as "property,asc" or "property,desc" for an allowed
      property comes back as exactly that page request. */
  lemma {:induction false} ToPageableRoundTrip(page: int, size: int, property: string, d: Direction, allowed: set<string>)
    requires page >= 0 && size >= 1
    requires property in allowed && HasText(property) && ',' !in property
    ensures ToPageable(PageQuery(Some(page), Some(size), Some(property + "," + DirectionText(d))), allowed)
            == Ok(Pageable(page, size, property, d))
  {
    var s := property + "," + DirectionText(d);
    var q := PageQuery(Some(page), Some(size), Some(s));
    var i :| 0 <= i < |property| && !IsJavaWhitespace(property[i]);
    assert s[i] == property[i];
    assert SortOrDefault(q) == s;
    SortPartsOf(q, property, DirectionText(d));
  }

  /** With no parameters (or a blank sort) the request is page 0 of 20 sorted
      by createdAt descending, provided createdAt is allowed. */
  lemma {:induction false} ToPageableDefaults(q: PageQuery, allowed: set<string>)
    requires q.page.None? && q.size.None? && (q.sort.None? || IsBlank(q.sort.value))
    ensures ToPageable(q, allowed)
            == if "createdAt" in allowed then Ok(Pageable(0, 20, "createdAt", Desc)) else Err(IllegalArgument)
  {
    assert SortOrDefault(q) == DEFAULT_SORT;
    assert DEFAULT_SORT == "createdAt" + "," + DirectionText(Desc);
    SortPartsOf(q, "createdAt", DirectionText(Desc));
    DirectionOfText(Desc);
    CreatedAtHasText();
  }

  lemma {:induction false} CreatedAtHasText()
    ensures HasText("createdAt")
  {
    assert !IsJavaWhitespace("createdAt"[0]);
  }

  /** Without a comma the whole sort text is the property and the order is
      ascending. */
  lemma {:induction false} NoCommaSortsAscending(q: PageQuery, allowed: set<string>)
    requires q.sort.Some? && HasText(q.sort.value) && ',' !in q.sort.value
    requires ToPageable(q, allowed).Ok?
    ensures ToPageable(q, allowed).value.property == q.sort.value
    ensures ToPageable(q, allowed).value.direction == Asc
  {
  }

  /** Because nothing is trimmed, a leading space makes an otherwise allowed
      property unknown. */
  lemma {:induction false} LeadingSpaceIsRejected()
    ensures ToPageable(PageQuery(None, None, Some(" createdAt,desc")), {"createdAt"}) == Err(IllegalArgument)
  {
    var q := PageQuery(None, None, Some(" createdAt,desc"));
    assert !IsJavaWhitespace(q.sort.value[1]);
    assert SortOrDefault(q) == " createdAt" + "," + "desc";
    SortPartsOf(q, " createdAt", "desc");
  }
}
