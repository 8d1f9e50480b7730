/** The page-navigation computation of the announcement board's data-access
    object (`AnnouncementDao.getPageNavi`): from the number of matching records,
    the requested page and the page size it derives the page total, the clamped
    current page and a ten-wide window of page links, and lists the links as
    `"<"`, the page numbers in decimal, and `">"`.

    The record count, which the source obtains with a `COUNT(*)` query, is a
    plain parameter here. */
module AnnouncementDao {
  import JavaLong
  import Decimal

  /** Width of the navigation window (`naviCountPerPage`). */
  const NaviCountPerPage: nat := 10

  /** One entry of the navigation bar. */
  datatype Token = Prev | Page(n: nat) | Next

  /** The string the source adds to its list for a token: a marker, or the
      decimal text of the page, which reads back as the page number. */
  function RenderToken(t: Token): (s: string)
    ensures s == "<" <==> t == Prev
    ensures s == ">" <==> t == Next
    ensures t.Page? ==> Decimal.AllDigits(s) && Decimal.ParseDecimal(s) == t.n
  {
    match t
    case Prev => "<"
    case Page(n) => Decimal.ParseNatToString(n); Decimal.NatToString(n)
    case Next => ">"
  }

  /** The list of strings the source returns for a list of tokens. */
  function Render(ts: seq<Token>): seq<string> {
    if ts == [] then [] else [RenderToken(ts[0])] + Render(ts[1..])
  }

  // ---------------------------------------------------------------------------
  // The arithmetic, step by step

  /** Number of pages needed for `recordTotalCount` records, `recordCountPerPage`
      to a page. */
  function PageTotalCount(recordTotalCount: nat, recordCountPerPage: int): (total: nat)
    requires recordCountPerPage >= 1
    ensures total == 0 <==> recordTotalCount == 0
  {
    if JavaLong.Rem(recordTotalCount, recordCountPerPage) > 0
    then JavaLong.Div(recordTotalCount, recordCountPerPage) + 1
    else JavaLong.Div(recordTotalCount, recordCountPerPage)
  }

  /** The page total is the ceiling of the quotient: the smallest number of
      pages that holds every record. */
  lemma PageTotalIsCeiling(recordTotalCount: nat, recordCountPerPage: int)
    requires recordCountPerPage >= 1
    ensures var total := PageTotalCount(recordTotalCount, recordCountPerPage);
      (total - 1) * recordCountPerPage < recordTotalCount <= total * recordCountPerPage
  {
    var q, r := recordTotalCount / recordCountPerPage, recordTotalCount % recordCountPerPage;
    JavaLong.DivRemNonNegative(recordTotalCount, recordCountPerPage);
    assert recordTotalCount == q * recordCountPerPage + r;
    if r > 0 {
      assert (q + 1) * recordCountPerPage == q * recordCountPerPage + recordCountPerPage;
    } else {
      assert (q - 1) * recordCountPerPage == q * recordCountPerPage - recordCountPerPage;
    }
  }

  function Distance(a: int, b: int): nat {
    if a <= b then b - a else a - b
  }

  /** The current page: the request moved into `1..pageTotalCount`. With no
      pages at all a request below 1 still becomes 1, because that test comes
      first. */
  function ClampPage(requested: int, pageTotalCount: nat): (page: nat)
    ensures pageTotalCount >= 1 ==> 1 <= page <= pageTotalCount
    ensures 1 <= requested <= pageTotalCount ==> page == requested
    ensures pageTotalCount >= 1 ==>
      forall k :: 1 <= k <= pageTotalCount ==> Distance(page, requested) <= Distance(k, requested)
    ensures pageTotalCount == 0 ==> page == (if requested < 1 then 1 else 0)
  {
    if requested < 1 then 1
    else if requested > pageTotalCount then pageTotalCount
    else requested
  }

  /** With no pages the clamp is not idempotent: it sends a request below 1
      to 1, and 1 (being above the page total 0) to 0, and 0 back to 1. */
  lemma ClampFlipsWithoutPages(requested: int)
    ensures ClampPage(ClampPage(requested, 0), 0) != ClampPage(requested, 0)
  {
  }

  /** Clamping a page that is already the current page changes nothing. */
  lemma ClampIdempotent(requested: int, pageTotalCount: nat)
    requires pageTotalCount >= 1
    ensures ClampPage(ClampPage(requested, pageTotalCount), pageTotalCount)
         == ClampPage(requested, pageTotalCount)
  {
  }

  /** First page of the window that holds `pageNumber`. Java's `/` truncates, so
      page 0 (no pages at all) gives 1 here, where Dafny's `/` would give -9. */
  function StartNavi(pageNumber: nat): (start: nat)
    ensures start % NaviCountPerPage == 1
    ensures pageNumber >= 1 ==> start <= pageNumber < start + NaviCountPerPage
    ensures pageNumber == 0 ==> start == 1
  {
    JavaLong.Div(pageNumber - 1, NaviCountPerPage) * NaviCountPerPage + 1
  }

  /** Last page of the window: ten pages on, but never past the last page. */
  function EndNavi(startNavi: nat, pageTotalCount: nat): (end: nat)
    ensures end <= pageTotalCount
    ensures end <= startNavi + (NaviCountPerPage - 1)
    ensures end == pageTotalCount || end == startNavi + (NaviCountPerPage - 1)
  {
    if startNavi + (NaviCountPerPage - 1) > pageTotalCount then pageTotalCount
    else startNavi + (NaviCountPerPage - 1)
  }

  /** The values `getPageNavi` has computed when it starts building its list. */
  datatype Window = Window(pageTotalCount: nat, pageNumber: nat, startNavi: nat, endNavi: nat)

  function Layout(recordTotalCount: nat, requested: int, recordCountPerPage: int): (w: Window)
    requires recordCountPerPage >= 1
    ensures w.pageTotalCount == 0 <==> recordTotalCount == 0
    ensures w.startNavi % NaviCountPerPage == 1
    ensures w.endNavi <= w.pageTotalCount
    ensures w.endNavi - w.startNavi <= NaviCountPerPage - 1
    ensures w.pageTotalCount >= 1 ==>
      1 <= w.pageNumber <= w.pageTotalCount && w.startNavi <= w.pageNumber <= w.endNavi
    ensures w.pageTotalCount == 0 ==> w.startNavi == 1 && w.endNavi == 0
  {
    var total := PageTotalCount(recordTotalCount, recordCountPerPage);
    var page := ClampPage(requested, total);
    var start := StartNavi(page);
    Window(total, page, start, EndNavi(start, total))
  }

  // ---------------------------------------------------------------------------
  // The token list

  /** The page links `lo`, `lo + 1`, ..., `hi`. */
  function PageRange(lo: nat, hi: int): (r: seq<Token>)
    ensures |r| == if hi < lo then 0 else hi - lo + 1
    ensures forall i :: 0 <= i < |r| ==> r[i] == Page(lo + i)
    decreases hi - lo
  {
    if hi < lo then [] else PageRange(lo, hi - 1) + [Page(hi)]
  }

  /** `needPrev`: the window does not start at page 1. For a window aligned
      as `StartNavi` aligns it, that means a whole window of pages lies before
      it. */
  predicate NeedPrev(w: Window)
    ensures w.startNavi % NaviCountPerPage == 1 ==>
      (NeedPrev(w) <==> w.startNavi > NaviCountPerPage)
  {
    w.startNavi != 1
  }

  /** `needNext`, with the numeric comparison the source evidently intends at
      AnnouncementDao.java line 133 (see `NeedNextAsWritten` for what the boxed
      `==` actually does). */
  predicate NeedNext(w: Window)
    ensures w.endNavi <= w.pageTotalCount ==>
      (NeedNext(w) <==> w.endNavi < w.pageTotalCount)
    ensures w.endNavi == EndNavi(w.startNavi, w.pageTotalCount) && NeedNext(w) ==>
      w.endNavi == w.startNavi + (NaviCountPerPage - 1)
  {
    w.endNavi != w.pageTotalCount
  }

  function Prefix(w: Window): seq<Token> {
    if NeedPrev(w) then [Prev] else []
  }

  function Suffix(w: Window): seq<Token> {
    if NeedNext(w) then [Next] else []
  }

  function NaviTokens(w: Window): seq<Token> {
    Prefix(w) + PageRange(w.startNavi, w.endNavi) + Suffix(w)
  }

  /** The navigation bar for a request, as tokens. */
  function PageNavi(recordTotalCount: nat, requested: int, recordCountPerPage: int): (ts: seq<Token>)
    requires recordCountPerPage >= 1
    ensures ts == [] <==> recordTotalCount == 0
    ensures |ts| <= NaviCountPerPage + 2
  {
    var w := Layout(recordTotalCount, requested, recordCountPerPage);
    assert |PageRange(w.startNavi, w.endNavi)| == w.endNavi + 1 - w.startNavi;
    NaviTokens(w)
  }

  /** Lines 104-128 of `getPageNavi`: the page total, the clamped page and the
      window, computed by reassigning locals as the source does. */
  method ComputeWindow(recordTotalCount: nat, requested: int, recordCountPerPage: int)
    returns (w: Window)
    requires recordCountPerPage >= 1
    ensures w == Layout(recordTotalCount, requested, recordCountPerPage)
  {
    var pageNumber := requested;
    var naviCountPerPage := NaviCountPerPage;

    var pageTotalCount: nat;
    if JavaLong.Rem(recordTotalCount, recordCountPerPage) > 0 {
      pageTotalCount := JavaLong.Div(recordTotalCount, recordCountPerPage) + 1;
    } else {
      pageTotalCount := JavaLong.Div(recordTotalCount, recordCountPerPage);
    }

    if pageNumber < 1 {
      pageNumber := 1;
    } else if pageNumber > pageTotalCount {
      pageNumber := pageTotalCount;
    }
    var startNavi := JavaLong.Div(pageNumber - 1, naviCountPerPage) * naviCountPerPage + 1;
    var endNavi := startNavi + (naviCountPerPage - 1);

    if endNavi > pageTotalCount {
      endNavi := pageTotalCount;
    }
    w := Window(pageTotalCount, pageNumber, startNavi, endNavi);
  }

  /** `getPageNavi`: the window, the two flags, and the list built with the
      source's loop; the result is the rendering of `PageNavi`. */
  method GetPageNavi(recordTotalCount: nat, requested: int, recordCountPerPage: int)
    returns (list: seq<string>)
    requires recordCountPerPage >= 1
    ensures list == Render(PageNavi(recordTotalCount, requested, recordCountPerPage))
  {
    var w := ComputeWindow(recordTotalCount, requested, recordCountPerPage);
    var pageTotalCount, startNavi, endNavi := w.pageTotalCount, w.startNavi, w.endNavi;

    var needPrev := true;
    var needNext := true;

    if startNavi == 1 { needPrev := false; }
    // Line 133 with the numeric comparison; `NeedNextAsWritten` is the boxed `==`.
    if endNavi == pageTotalCount { needNext := false; }

    list := [];
    if needPrev {
      list := list + ["<"];
    }
    ghost var head := list;
    list := AddPages(list, startNavi, endNavi);
    ghost var body := list;
    if needNext {
      list := list + [">"];
    }
    RenderMarkers(w);
    assert head == Render(Prefix(w));
    assert list == body + Render(Suffix(w));
    RenderNaviTokens(w);
  }

  /** The `for` loop of lines 140-142: one decimal page link for each page from
      `startNavi` to `endNavi`, appended to `list`. */
  method AddPages(list0: seq<string>, startNavi: nat, endNavi: nat) returns (list: seq<string>)
    ensures list == list0 + Render(PageRange(startNavi, endNavi))
  {
    list := list0;
    ghost var pages: seq<Token> := [];
    var i: int := startNavi;
    while i <= endNavi
      invariant startNavi <= i && (i <= endNavi + 1 || i == startNavi)
      invariant pages == PageRange(startNavi, i - 1)
      invariant list == list0 + Render(pages)
      decreases endNavi - i + 1
    {
      RenderSnoc(pages, Page(i));
      list := list + [Decimal.NatToString(i)];
      pages := pages + [Page(i)];
      i := i + 1;
    }
  }

  lemma RenderMarkers(w: Window)
    ensures Render(Prefix(w)) == if NeedPrev(w) then ["<"] else []
    ensures Render(Suffix(w)) == if NeedNext(w) then [">"] else []
  {
  }

  /** The rendering of a navigation bar, part by part. */
  lemma RenderNaviTokens(w: Window)
    ensures Render(NaviTokens(w))
         == Render(Prefix(w)) + Render(PageRange(w.startNavi, w.endNavi)) + Render(Suffix(w))
  {
    RenderAppend(Prefix(w), PageRange(w.startNavi, w.endNavi));
    RenderAppend(Prefix(w) + PageRange(w.startNavi, w.endNavi), Suffix(w));
  }

  lemma RenderSnoc(ts: seq<Token>, t: Token)
    ensures Render(ts + [t]) == Render(ts) + [RenderToken(t)]
  {
    RenderAppend(ts, [t]);
  }

  lemma {:induction false} RenderAppend(a: seq<Token>, b: seq<Token>)
    ensures Render(a + b) == Render(a) + Render(b)
  {
    if a == [] {
      assert a + b == b;
    } else {
      assert (a + b)[0] == a[0] && (a + b)[1..] == a[1..] + b;
      RenderAppend(a[1..], b);
    }
  }

  // ---------------------------------------------------------------------------
  // Properties of the navigation bar

  /** Entry `j` of a bar: the marker in front, a page of the window, or the
      marker at the end. */
  lemma NaviTokensAt(w: Window, j: nat)
    requires j < |NaviTokens(w)|
    ensures var front := |Prefix(w)|;
      var pages := |PageRange(w.startNavi, w.endNavi)|;
      NaviTokens(w)[j]
        == if j < front then Prev
           else if j < front + pages then Page(w.startNavi + (j - front))
           else Next
  {
    var range := PageRange(w.startNavi, w.endNavi);
    var ts := NaviTokens(w);
    if j < |Prefix(w)| {
      assert ts[j] == Prefix(w)[j];
    } else if j < |Prefix(w)| + |range| {
      assert ts[j] == range[j - |Prefix(w)|];
    } else {
      assert ts[j] == Suffix(w)[j - |Prefix(w)| - |range|];
    }
  }

  /** The page links are the pages `startNavi..endNavi`, ascending and without
      gaps or repeats, right after the `Prev` marker if there is one. */
  lemma PageLinksAreWindow(recordTotalCount: nat, requested: int, recordCountPerPage: int)
    requires recordCountPerPage >= 1
    ensures var w := Layout(recordTotalCount, requested, recordCountPerPage);
      var ts := PageNavi(recordTotalCount, requested, recordCountPerPage);
      var offset := if w.startNavi > 1 then 1 else 0;
      && offset + (w.endNavi + 1 - w.startNavi) <= |ts|
      && forall j :: 0 <= j < |ts| ==>
           && (ts[j].Page? <==> offset <= j < offset + (w.endNavi + 1 - w.startNavi))
           && (ts[j].Page? ==> ts[j].n == w.startNavi + (j - offset))
  {
    var w := Layout(recordTotalCount, requested, recordCountPerPage);
    var ts := NaviTokens(w);
    assert |PageRange(w.startNavi, w.endNavi)| == w.endNavi + 1 - w.startNavi;
    forall j | 0 <= j < |ts|
      ensures ts[j] == NaviTokens(w)[j]
    {
      NaviTokensAt(w, j);
    }
  }

  /** A page number is linked exactly when it lies in the window. */
  lemma LinkedPages(recordTotalCount: nat, requested: int, recordCountPerPage: int, n: nat)
    requires recordCountPerPage >= 1
    ensures var w := Layout(recordTotalCount, requested, recordCountPerPage);
      (Page(n) in PageNavi(recordTotalCount, requested, recordCountPerPage))
        <==> (w.startNavi <= n <= w.endNavi)
  {
    var w := Layout(recordTotalCount, requested, recordCountPerPage);
    var ts := PageNavi(recordTotalCount, requested, recordCountPerPage);
    PageLinksAreWindow(recordTotalCount, requested, recordCountPerPage);
    var offset := if w.startNavi > 1 then 1 else 0;
    if w.startNavi <= n <= w.endNavi {
      assert ts[offset + (n - w.startNavi)] == Page(n);
    }
  }

  /** Whenever there is at least one page, the current page has a link. */
  lemma CurrentPageLinked(recordTotalCount: nat, requested: int, recordCountPerPage: int)
    requires recordCountPerPage >= 1 && recordTotalCount >= 1
    ensures Page(Layout(recordTotalCount, requested, recordCountPerPage).pageNumber)
         in PageNavi(recordTotalCount, requested, recordCountPerPage)
  {
    LinkedPages(recordTotalCount, requested, recordCountPerPage,
                Layout(recordTotalCount, requested, recordCountPerPage).pageNumber);
  }

  /** `"<"` appears, and then only in front, exactly when the window does not
      start at page 1. */
  lemma PrevMarker(recordTotalCount: nat, requested: int, recordCountPerPage: int)
    requires recordCountPerPage >= 1
    ensures var w := Layout(recordTotalCount, requested, recordCountPerPage);
      var ts := PageNavi(recordTotalCount, requested, recordCountPerPage);
      && (Prev in ts <==> w.startNavi > 1)
      && (forall j :: 0 <= j < |ts| && ts[j] == Prev ==> j == 0)
  {
    var w := Layout(recordTotalCount, requested, recordCountPerPage);
    var ts := NaviTokens(w);
    forall j | 0 <= j < |ts|
      ensures ts[j] == Prev <==> j < |Prefix(w)|
    {
      NaviTokensAt(w, j);
    }
    if NeedPrev(w) {
      assert ts[0] == Prev;
    }
  }

  /** `">"` appears, and then only at the end, exactly when the window stops
      before the last page (under the numeric comparison). */
  lemma NextMarker(recordTotalCount: nat, requested: int, recordCountPerPage: int)
    requires recordCountPerPage >= 1
    ensures var w := Layout(recordTotalCount, requested, recordCountPerPage);
      var ts := PageNavi(recordTotalCount, requested, recordCountPerPage);
      && (Next in ts <==> w.endNavi < w.pageTotalCount)
      && (forall j :: 0 <= j < |ts| && ts[j] == Next ==> j == |ts| - 1)
  {
    var w := Layout(recordTotalCount, requested, recordCountPerPage);
    var ts := NaviTokens(w);
    var before := |Prefix(w)| + |PageRange(w.startNavi, w.endNavi)|;
    forall j | 0 <= j < |ts|
      ensures ts[j] == Next <==> j >= before
    {
      NaviTokensAt(w, j);
    }
    if NeedNext(w) {
      assert ts[|ts| - 1] == Next;
    }
  }

  /** The bar holds the window's pages plus one entry per marker. */
  lemma NaviLength(recordTotalCount: nat, requested: int, recordCountPerPage: int)
    requires recordCountPerPage >= 1
    ensures var w := Layout(recordTotalCount, requested, recordCountPerPage);
      |PageNavi(recordTotalCount, requested, recordCountPerPage)|
        == (w.endNavi + 1 - w.startNavi)
         + (if w.startNavi > 1 then 1 else 0)
         + (if w.endNavi < w.pageTotalCount then 1 else 0)
  {
    var w := Layout(recordTotalCount, requested, recordCountPerPage);
    assert |PageRange(w.startNavi, w.endNavi)| == w.endNavi + 1 - w.startNavi;
  }

  /** With no records the source's own bar is empty too, whatever page is
      asked for: the boxed comparison on line 133 still clears `needNext`,
      because line 127 made `endNavi` the very object `pageTotalCount` is.
      This rests on Java's truncating `/`: page 0 gives a window starting at 1. */
  lemma NoRecordsNoNavigation(requested: int, recordCountPerPage: int)
    requires recordCountPerPage >= 1
    ensures PageNaviAsWritten(0, requested, recordCountPerPage) == []
  {
    var w := Layout(0, requested, recordCountPerPage);
    assert PageRange(w.startNavi, w.endNavi) == [];
    assert !NeedNextAsWritten(w);
  }

  // ---------------------------------------------------------------------------
  // The rendering loses nothing

  /** A page number never renders as a marker, and distinct tokens render
      differently. */
  lemma RenderTokenInjective(s: Token, t: Token)
    requires RenderToken(s) == RenderToken(t)
    ensures s == t
  {
    if s.Page? && t.Page? {
      Decimal.NatToStringInjective(s.n, t.n);
    }
  }

  /** Different token lists render to different string lists, so every fact
      above about `PageNavi` holds of the strings `GetPageNavi` returns. */
  lemma {:induction false} RenderInjective(ts: seq<Token>, us: seq<Token>)
    requires Render(ts) == Render(us)
    ensures ts == us
    decreases |ts|
  {
    assert |Render(ts)| == |ts| && |Render(us)| == |us| by {
      RenderLength(ts);
      RenderLength(us);
    }
    if ts != [] {
      assert Render(ts)[0] == RenderToken(ts[0]) && Render(us)[0] == RenderToken(us[0]);
      assert Render(ts[1..]) == Render(ts)[1..] && Render(us[1..]) == Render(us)[1..];
      RenderTokenInjective(ts[0], us[0]);
      RenderInjective(ts[1..], us[1..]);
    }
  }

  /** Entry `j` of the returned strings is the rendering of token `j`; with
      `RenderInjective`, each fact about a position of `PageNavi` reads off the
      strings (`list[0] == "<"` exactly when `Prev` is present). */
  lemma {:induction false} RenderAt(ts: seq<Token>, j: nat)
    requires j < |ts|
    ensures |Render(ts)| == |ts| && Render(ts)[j] == RenderToken(ts[j])
    decreases j
  {
    RenderLength(ts);
    if j > 0 {
      RenderAt(ts[1..], j - 1);
    }
  }

  lemma {:induction false} RenderLength(ts: seq<Token>)
    ensures |Render(ts)| == |ts|
    decreases |ts|
  {
    if ts != [] {
      RenderLength(ts[1..]);
    }
  }

  // ---------------------------------------------------------------------------
  // Line 133 as written

  /** `endNavi == pageTotalCount` on two boxed `Long`s, as the source has it:
      the two are the same object when line 127 assigned one to the other, or
      when both came out of the small-value cache. */
  predicate NeedNextAsWritten(w: Window)
    ensures w.endNavi == EndNavi(w.startNavi, w.pageTotalCount) ==>
      (NeedNextAsWritten(w) <==>
         NeedNext(w) || (w.startNavi + (NaviCountPerPage - 1) == w.pageTotalCount
                         && w.pageTotalCount > JavaLong.CacheHigh))
  {
    var aliased := w.startNavi + (NaviCountPerPage - 1) > w.pageTotalCount
                   && w.endNavi == w.pageTotalCount;
    !JavaLong.SameBox(w.endNavi, w.pageTotalCount, aliased)
  }

  /** The navigation bar the source actually builds. */
  function PageNaviAsWritten(recordTotalCount: nat, requested: int, recordCountPerPage: int): (ts: seq<Token>)
    requires recordCountPerPage >= 1
    ensures var intended := PageNavi(recordTotalCount, requested, recordCountPerPage);
      ts == intended || (ts == intended + [Next] && Next !in intended)
  {
    var w := Layout(recordTotalCount, requested, recordCountPerPage);
    Prefix(w) + PageRange(w.startNavi, w.endNavi) + (if NeedNextAsWritten(w) then [Next] else [])
  }

  /** The source's bar differs from the intended one exactly when the window
      ends on the last page without being cut short and that page number is
      beyond the cache; then a `">"` leads nowhere. */
  lemma AsWrittenDiffers(recordTotalCount: nat, requested: int, recordCountPerPage: int)
    requires recordCountPerPage >= 1
    ensures var w := Layout(recordTotalCount, requested, recordCountPerPage);
      PageNaviAsWritten(recordTotalCount, requested, recordCountPerPage)
        != PageNavi(recordTotalCount, requested, recordCountPerPage)
      <==> w.startNavi + (NaviCountPerPage - 1) == w.pageTotalCount
           && w.pageTotalCount > JavaLong.CacheHigh
  {
    var w := Layout(recordTotalCount, requested, recordCountPerPage);
    var body := Prefix(w) + PageRange(w.startNavi, w.endNavi);
    var written := PageNaviAsWritten(recordTotalCount, requested, recordCountPerPage);
    var intended := PageNavi(recordTotalCount, requested, recordCountPerPage);
    if NeedNextAsWritten(w) == NeedNext(w) {
      assert written == intended;
    } else {
      assert |written| != |intended|;
    }
  }

  /** 2000 records, ten to a page, page 195: pages 191 to 200 are listed and 200
      is the last page, yet the source appends `">"`. */
  lemma AsWrittenCounterexample()
    ensures var w := Layout(2000, 195, 10);
      w.startNavi == 191 && w.endNavi == w.pageTotalCount == 200
    ensures var ts := PageNaviAsWritten(2000, 195, 10);
      |ts| == 12 && ts[11] == Next
    ensures Next !in PageNavi(2000, 195, 10)
  {
    var w := Layout(2000, 195, 10);
    assert PageTotalCount(2000, 10) == 200;
    assert StartNavi(195) == 191;
    NextMarker(2000, 195, 10);
  }
}
