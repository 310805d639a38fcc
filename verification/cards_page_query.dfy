/** CardsPageQuery: the paging parameters of the card listing, with the same
    defaults as PageQuery, the free-text and tag filters, and a sort text that
    is trimmed as a whole and again in each of its two pieces. */
module CardsPageQueries {

  import opened Common
  import opened JavaText
  import opened Paging

  datatype CardsPageQuery = CardsPageQuery(
    page: Option<int>, size: Option<int>, sort: Option<string>,
    q: Option<string>, tag: Option<string>)

  const DEFAULT_PAGE: int := 0
  const DEFAULT_SIZE: int := 20
  const DEFAULT_SORT: string := "createdAt,desc"

  function PageOrDefault(c: CardsPageQuery): (p: int)
    ensures c.page.Some? ==> p == c.page.value
    ensures c.page.None? ==> p == DEFAULT_PAGE
  {
    if c.page.None? then DEFAULT_PAGE else c.page.value
  }

  function SizeOrDefault(c: CardsPageQuery): (n: int)
    ensures c.size.Some? ==> n == c.size.value
    ensures c.size.None? ==> n == DEFAULT_SIZE
  {
    if c.size.None? then DEFAULT_SIZE else c.size.value
  }

  /** The effective sort: the default when absent or blank, otherwise the
      given text with its trimmable ends cut off. */
  function SortOrDefault(c: CardsPageQuery): (s: string)
    ensures c.sort.None? || IsBlank(c.sort.value) ==> s == DEFAULT_SORT
    ensures c.sort.Some? && HasText(c.sort.value) ==> s == Trim(c.sort.value)
  {
    if c.sort.None? || IsBlank(c.sort.value) then DEFAULT_SORT else Trim(c.sort.value)
  }

  /** normOrNull: the trimmed text, or nothing when absent or empty once
      trimmed. */
  function NormOrNull(s: Option<string>): (r: Option<string>)
    ensures r.Some? ==> s.Some? && r.value == Trim(s.value) && r.value != []
    ensures r.None? <==> (s.None? || forall i :: 0 <= i < |s.value| ==> IsTrimmable(s.value[i]))
  {
    if s.None? then None
    else
      TrimIsInfix(s.value);
      var t := Trim(s.value);
      if t == [] then None else Some(t)
  }

  /** Normalising an already normalised filter changes nothing. */
  lemma {:induction false} NormOrNullIdempotent(s: Option<string>)
    ensures NormOrNull(NormOrNull(s)) == NormOrNull(s)
  {
    if NormOrNull(s).Some? {
      TrimIdempotent(s.value);
    }
  }

  /** qOrNull: the text filter, trimmed; no filter when absent or empty
      once trimmed. */
  function QOrNull(c: CardsPageQuery): (r: Option<string>)
    ensures r.Some? ==> c.q.Some? && r.value == Trim(c.q.value) && r.value != []
    ensures r.None? <==> (c.q.None? || forall i :: 0 <= i < |c.q.value| ==> IsTrimmable(c.q.value[i]))
  {
    NormOrNull(c.q)
  }

  /** tagOrNull: the tag filter, trimmed; no filter when absent or empty
      once trimmed. */
  function TagOrNull(c: CardsPageQuery): (r: Option<string>)
    ensures r.Some? ==> c.tag.Some? && r.value == Trim(c.tag.value) && r.value != []
    ensures r.None? <==> (c.tag.None? || forall i :: 0 <= i < |c.tag.value| ==> IsTrimmable(c.tag.value[i]))
  {
    NormOrNull(c.tag)
  }

  /** The property is the trimmed text before the first comma; the direction
      text is the trimmed rest, or "asc" when there is no comma. */
  function SortParts(c: CardsPageQuery): (parts: (string, string))
    ensures ',' in SortOrDefault(c) ==>
              exists head, tail :: SortOrDefault(c) == head + "," + tail && ',' !in head
                                   && parts == (Trim(head), Trim(tail))
    ensures ',' !in SortOrDefault(c) ==> parts == (Trim(SortOrDefault(c)), "asc")
  {
    var split := SplitFirstComma(SortOrDefault(c));
    (Trim(split.head), if split.tail.Some? then Trim(split.tail.value) else "asc")
  }

  /** toPageable: the trimmed property must be in the allow-list, and the
      direction is descending exactly when the trimmed direction text is
      "desc" in any case. */
  function ToPageable(c: CardsPageQuery, allowed: set<string>): (r: Result<Pageable>)
    ensures r.Ok? <==> (SortParts(c).0 in allowed && HasText(SortParts(c).0)
                        && PageOrDefault(c) >= 0 && SizeOrDefault(c) >= 1)
    ensures r.Err? ==> r.error == IllegalArgument
    ensures r.Ok? ==> && r.value.property in allowed
                      && r.value.property == SortParts(c).0
                      && r.value.page == PageOrDefault(c) && r.value.size == SizeOrDefault(c)
                      && (r.value.direction == Desc <==> IsDescIgnoreCase(SortParts(c).1))
  {
    var (property, dir) := SortParts(c);
    if property !in allowed then Err(IllegalArgument)
    else PageRequestOf(PageOrDefault(c), SizeOrDefault(c), DirectionOf(dir), property)
  }

  lemma {:induction false} SortPartsOf(c: CardsPageQuery, head: string, tail: string)
    requires ',' !in head && SortOrDefault(c) == head + "," + tail
    ensures SortParts(c) == (Trim(head), Trim(tail))
  {
    SplitJoined(head, tail);
  }

  /** Padding around the property and around the direction does not matter:
      " p , desc " selects p descending, as does "p,desc". */
  lemma {:induction false} PaddingIsIgnored(c: CardsPageQuery, allowed: set<string>, p: string, d: Direction,
                         w1: string, w2: string, w3: string, w4: string)
    requires c.page.Some? && c.page.value >= 0 && c.size.Some? && c.size.value >= 1
    requires p in allowed && ',' !in p && HasText(p) && p != [] && !IsTrimmable(p[0]) && !IsTrimmable(p[|p| - 1])
    requires AllTrimmable(w1) && AllTrimmable(w2) && AllTrimmable(w3) && AllTrimmable(w4)
    requires c.sort == Some(w1 + p + w2 + "," + w3 + DirectionText(d) + w4)
    ensures ToPageable(c, allowed) == Ok(Pageable(c.page.value, c.size.value, p, d))
  {
    PaddedSortParts(c, p, DirectionText(d), w1, w2, w3, w4);
    DirectionOfText(d);
  }

  lemma {:induction false} PaddedSortParts(c: CardsPageQuery, p: string, dt: string,
                                           w1: string, w2: string, w3: string, w4: string)
    requires ',' !in p && HasText(p) && p != [] && !IsTrimmable(p[0]) && !IsTrimmable(p[|p| - 1])
    requires dt != [] && !IsTrimmable(dt[0]) && !IsTrimmable(dt[|dt| - 1])
    requires AllTrimmable(w1) && AllTrimmable(w2) && AllTrimmable(w3) && AllTrimmable(w4)
    requires c.sort == Some(w1 + p + w2 + "," + w3 + dt + w4)
    ensures SortParts(c) == (p, dt)
  {
    var head := p + w2;
    var tail := w3 + dt;
    var mid := head + "," + tail;
    Regroup(w1, p, w2, w3, dt, w4);
    HasTextBefore(p, w2 + "," + tail);
    PaddedSort(c, mid, w1, w4);
    assert ',' !in head by {
      forall j | 0 <= j < |w2| ensures w2[j] != ',' { assert IsTrimmable(w2[j]); }
    }
    SortPartsOf(c, head, tail);
    TrimOf([], p, w2);
    TrimOf(w3, dt, []);
  }

  /** The seven pieces of a padded sort text, grouped as padding around
      "head,tail". */
  lemma {:induction false} Regroup(w1: string, p: string, w2: string, w3: string, dt: string, w4: string)
    ensures w1 + p + w2 + "," + w3 + dt + w4 == w1 + ((p + w2) + "," + (w3 + dt)) + w4
    ensures (p + w2) + "," + (w3 + dt) == p + (w2 + "," + (w3 + dt))
    ensures |(p + w2) + "," + (w3 + dt)| == |p| + |w2| + 1 + |w3| + |dt|
  {
  }

  lemma {:induction false} HasTextBefore(s: string, rest: string)
    requires HasText(s)
    ensures HasText(s + rest)
  {
    var i :| 0 <= i < |s| && !IsJavaWhitespace(s[i]);
    assert (s + rest)[i] == s[i];
  }

  /** A sort text with text in it, padded with trimmable characters, is
      used without its padding. */
  lemma {:induction false} PaddedSort(c: CardsPageQuery, t: string, w1: string, w4: string)
    requires HasText(t) && t != [] && !IsTrimmable(t[0]) && !IsTrimmable(t[|t| - 1])
    requires AllTrimmable(w1) && AllTrimmable(w4)
    requires c.sort == Some(w1 + t + w4)
    ensures SortOrDefault(c) == t
  {
    TrimOf(w1, t, w4);
    var i :| 0 <= i < |t| && !IsJavaWhitespace(t[i]);
    assert c.sort.value[|w1| + i] == t[i];
  }

  predicate AllTrimmable(w: string) {
    forall i :: 0 <= i < |w| ==> IsTrimmable(w[i])
  }

  /** Trimming removes exactly the trimmable padding around a core that starts
      and ends with a non-trimmable character. */
  lemma {:induction false} TrimOf(pre: string, core: string, post: string)
    requires core != [] && !IsTrimmable(core[0]) && !IsTrimmable(core[|core| - 1])
    requires AllTrimmable(pre) && AllTrimmable(post)
    ensures Trim(pre + core + post) == core
    ensures pre == [] ==> Trim(core + post) == core
    ensures post == [] ==> Trim(pre + core) == core
  {
    TrimStartOf(pre, core + post);
    assert pre + core + post == pre + (core + post);
    TrimEndOf(core, post);
    if pre == [] {
      assert pre + core + post == core + post;
    }
    if post == [] {
      assert pre + core + post == pre + core;
    }
  }

  lemma {:induction false} TrimStartOf(pre: string, rest: string)
    requires rest != [] && !IsTrimmable(rest[0])
    requires AllTrimmable(pre)
    ensures TrimStart(pre + rest) == rest
  {
    if pre != [] {
      var s := pre + rest;
      assert s[0] == pre[0] && IsTrimmable(s[0]);
      assert s[1..] == pre[1..] + rest;
      var tail := pre[1..];
      assert AllTrimmable(tail) by {
        forall i | 0 <= i < |tail| ensures IsTrimmable(tail[i]) { assert tail[i] == pre[i + 1]; }
      }
      TrimStartOf(pre[1..], rest);
    }
  }

  lemma {:induction false} TrimEndOf(body: string, post: string)
    requires body != [] && !IsTrimmable(body[|body| - 1])
    requires AllTrimmable(post)
    ensures TrimEnd(body + post) == body
  {
    if post != [] {
      var s := body + post;
      assert s[|s| - 1] == post[|post| - 1] && IsTrimmable(s[|s| - 1]);
      assert s[..|s| - 1] == body + post[..|post| - 1];
      var init := post[..|post| - 1];
      assert AllTrimmable(init) by {
        forall i | 0 <= i < |init| ensures IsTrimmable(init[i]) { assert init[i] == post[i]; }
      }
      TrimEndOf(body, post[..|post| - 1]);
    } else {
      assert body + post == body;
    }
  }
}
