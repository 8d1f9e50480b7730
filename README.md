# Announcement board pager, in Dafny

This project models the computational core of the announcement board's
data-access layer:

- `AnnouncementDao.getPageNavi`: builds the page-navigation bar. It takes the
  number of announcements that match a search, the requested page and the
  page size. From these it computes the page total by ceiling division,
  clamps the requested page into range, and picks a window of ten page
  links. It returns `"<"` (when the window does not start at page 1), the
  window's page numbers in decimal, and `">"` (when the window stops before
  the last page).
- `Announcement.of(HttpServletRequest)` and `validateTitle`: build an
  announcement from a submitted title and contents. The title must be 6 to
  100 characters long.

Modules, one per concern:

- `Decimal` (`decimal.dfy`): the decimal numeral that `"" + i` produces for
  a non-negative `long`, and its inverse.
- `JavaLong` (`java_long.dfy`): Java's truncating `/` and `%`, and `==` on
  boxed `Long`s, which compares references.
- `AnnouncementDao` (`announcement_dao.dfy`): the pager. `ComputeWindow`,
  `GetPageNavi` and `AddPages` are methods that reassign locals and build
  the list as the source does. `AddPages` holds the source's `for` loop, and
  `GetPageNavi` calls it between the two markers. Each method is proved
  against a specification function (`Layout`, `Render(PageRange(..))` and
  `Render(PageNavi(..))`). The lemmas state what
  the bar looks like.
- `Announcements` (`announcement.dfy`): the record and its construction
  from a form.

The record count comes from a `COUNT(*)` query in the source. Here it is a
plain `nat` parameter. The search keyword only feeds that query, so it does
not appear.

Two Java details are modelled explicitly:

- Line 123 divides `pageNumber - 1` by 10 with Java's `/`, which truncates
  toward zero. With no records, a request of 1 or more clamps to page 0.
  Java then gives `(0 - 1) / 10 == 0`, so the window starts at page 1 and
  the bar is empty (`NoRecordsNoNavigation`). Euclidean division would give
  -1, and the bar would begin with `"<"`.
- Line 133 compares two boxed `Long`s with `==`. See "## Findings".

With no pages at all, a request below 1 becomes page 1, not page 0. This is
because the `< 1` test on line 118 runs before the comparison with the page
total. The model follows the code (`ClampPage`). The bar is empty either way.
For the same reason, clamping is idempotent only when there is at least one
page. With none, clamping again flips the current page between 1 and 0
(`ClampFlipsWithoutPages`).

## Model

| member | source | states |
|---|---|---|
| `Decimal.NatToString` | src/main/java/kr/co/khacademy/semi/dao/AnnouncementDao.java:141 | The text of a page number is a non-empty string of decimal digits with no leading zero, and has one digit exactly when the number is below 10. |
| `Decimal.ParseNatToString` | src/main/java/kr/co/khacademy/semi/dao/AnnouncementDao.java:141 | Reading a page number's text back as a decimal numeral gives the number. |
| `Decimal.NatToStringInjective` | src/main/java/kr/co/khacademy/semi/dao/AnnouncementDao.java:141 | Different page numbers have different texts. |
| `JavaLong.Div` | src/main/java/kr/co/khacademy/semi/dao/AnnouncementDao.java:123 | Java's quotient is never of the opposite sign to the dividend. Its exact value, rounded toward zero (so 0 for -1 / 10), is fixed by `DivRemTruncate`. |
| `JavaLong.Rem` | src/main/java/kr/co/khacademy/semi/dao/AnnouncementDao.java:112 | Java's remainder has the sign of the dividend and is smaller than the divisor in size. For a record count it lies in 0..perPage - 1, so the test on line 112 asks whether the last page is partly filled. |
| `JavaLong.DivRemTruncate` | src/main/java/kr/co/khacademy/semi/dao/AnnouncementDao.java:112-123 | Java's `/` and `%` satisfy a == (a / b) * b + a % b. The remainder has the sign of the dividend and is smaller than the divisor in size. |
| `JavaLong.DivRemNonNegative` | src/main/java/kr/co/khacademy/semi/dao/AnnouncementDao.java:112-116 | On a non-negative record count, Java's `/` and `%` agree with Dafny's. |
| `JavaLong.SameBox` | src/main/java/kr/co/khacademy/semi/dao/AnnouncementDao.java:133 | `==` on two boxed `Long`s is true when one was assigned from the other (which requires equal values). Otherwise it is true for equal values only inside the cache range -128..127. True always implies equal values. |
| `AnnouncementDao.PageTotalCount` | src/main/java/kr/co/khacademy/semi/dao/AnnouncementDao.java:110-116 | The page total is 0 exactly when there are no records. |
| `AnnouncementDao.PageTotalIsCeiling` | src/main/java/kr/co/khacademy/semi/dao/AnnouncementDao.java:110-116 | (total - 1) * perPage < records <= total * perPage, so the page total is the ceiling of records / perPage. |
| `AnnouncementDao.ClampPage` | src/main/java/kr/co/khacademy/semi/dao/AnnouncementDao.java:118-122 | With at least one page, the current page lies in 1..pageTotal and is the page in that range nearest to the request. An in-range request is unchanged. With no pages, the result is 1 for a request below 1 and 0 otherwise. |
| `AnnouncementDao.ClampIdempotent` | src/main/java/kr/co/khacademy/semi/dao/AnnouncementDao.java:118-122 | With at least one page, clamping the current page again changes nothing. |
| `AnnouncementDao.ClampFlipsWithoutPages` | src/main/java/kr/co/khacademy/semi/dao/AnnouncementDao.java:118-122 | With no pages, clamping the result again always changes it: 1 becomes 0 and 0 becomes 1. So the clamp is idempotent only when there is at least one page. |
| `AnnouncementDao.StartNavi` | src/main/java/kr/co/khacademy/semi/dao/AnnouncementDao.java:123 | The window start is 1 more than a multiple of 10. For a page of 1 or more it is at most the page and within 10 below it. For page 0 it is 1, because Java's `/` truncates. |
| `AnnouncementDao.EndNavi` | src/main/java/kr/co/khacademy/semi/dao/AnnouncementDao.java:124-128 | The window end never passes the page total and is at most start + 9. It is one of those two values. |
| `AnnouncementDao.Layout` | src/main/java/kr/co/khacademy/semi/dao/AnnouncementDao.java:104-128 | The page total is 0 exactly when there are no records. The start is 1 more than a multiple of 10. The end is at most the page total, and the window spans at most 10 pages. With at least one page: 1 <= page <= total and start <= page <= end. With none: start 1, end 0. |
| `AnnouncementDao.ComputeWindow` | src/main/java/kr/co/khacademy/semi/dao/AnnouncementDao.java:104-128 | The method reassigns locals as the source does and returns exactly the window `Layout` specifies. |
| `AnnouncementDao.PageRange` | src/main/java/kr/co/khacademy/semi/dao/AnnouncementDao.java:140-142 | The links from lo to hi are hi - lo + 1 entries (none if hi < lo), and entry i is page lo + i. |
| `AnnouncementDao.RenderToken` | src/main/java/kr/co/khacademy/semi/dao/AnnouncementDao.java:138-144 | `"<"` is added exactly for `Prev` and `">"` exactly for `Next`. A page adds a digit string that reads back as its number. |
| `AnnouncementDao.NeedPrev` | src/main/java/kr/co/khacademy/semi/dao/AnnouncementDao.java:132 | `needPrev` is set when the window does not start at page 1. For an aligned window, that is exactly when a whole window of pages lies before it. |
| `AnnouncementDao.NeedNext` | src/main/java/kr/co/khacademy/semi/dao/AnnouncementDao.java:133 | The intended numeric test, not what line 133 computes (see `NeedNextAsWritten`). For a window that ends within the page total it is set exactly when pages remain after the window. When set on a window whose end is computed as on lines 124-128, the window is a full ten pages. |
| `AnnouncementDao.PageNavi` | src/main/java/kr/co/khacademy/semi/dao/AnnouncementDao.java:129-146 | The intended bar (numeric comparison on line 133) as tokens. It is empty exactly when there are no records, and it has at most 12 entries: 10 pages and two markers. |
| `AnnouncementDao.GetPageNavi` | src/main/java/kr/co/khacademy/semi/dao/AnnouncementDao.java:102-147 | The list the method builds with the source's flags and loop, with the numeric comparison for line 133, is `PageNavi` with each token rendered: `"<"`, the decimal text of the page, or `">"`. |
| `AnnouncementDao.AddPages` | src/main/java/kr/co/khacademy/semi/dao/AnnouncementDao.java:140-142 | The `for` loop appends exactly the rendered pages startNavi..endNavi, in order, to the list it is given, and changes nothing before them. |
| `AnnouncementDao.NaviTokensAt` | src/main/java/kr/co/khacademy/semi/dao/AnnouncementDao.java:129-146 | Entry j of the bar is the front marker, then the window's pages in order, then the end marker. |
| `AnnouncementDao.PageLinksAreWindow` | src/main/java/kr/co/khacademy/semi/dao/AnnouncementDao.java:140-142 | The page entries are exactly positions offset..offset + window size - 1. Entry j is page startNavi + (j - offset), so the pages ascend with no gaps or repeats. The offset is 1 when `"<"` is present and 0 otherwise. |
| `AnnouncementDao.LinkedPages` | src/main/java/kr/co/khacademy/semi/dao/AnnouncementDao.java:123-142 | A page number has a link exactly when startNavi <= n <= endNavi. |
| `AnnouncementDao.CurrentPageLinked` | src/main/java/kr/co/khacademy/semi/dao/AnnouncementDao.java:118-142 | When there is at least one record, the current page has a link. |
| `AnnouncementDao.PrevMarker` | src/main/java/kr/co/khacademy/semi/dao/AnnouncementDao.java:129-139 | `Prev` is present exactly when startNavi > 1 (that is, startNavi != 1), and only at position 0. |
| `AnnouncementDao.NextMarker` | src/main/java/kr/co/khacademy/semi/dao/AnnouncementDao.java:130-145 | `Next` is present exactly when endNavi < pageTotal, and only at the last position, under the intended numeric comparison. |
| `AnnouncementDao.NaviLength` | src/main/java/kr/co/khacademy/semi/dao/AnnouncementDao.java:129-146 | The bar's length is the window size plus one for each marker present. |
| `AnnouncementDao.NoRecordsNoNavigation` | src/main/java/kr/co/khacademy/semi/dao/AnnouncementDao.java:110-146 | With no records the list the source returns (boxed `==` on line 133 included) is empty, whatever page is requested. |
| `AnnouncementDao.RenderTokenInjective` | src/main/java/kr/co/khacademy/semi/dao/AnnouncementDao.java:137-145 | `"<"`, `">"` and the page texts are pairwise distinct. Two tokens with the same string are the same token. |
| `AnnouncementDao.RenderInjective` | src/main/java/kr/co/khacademy/semi/dao/AnnouncementDao.java:135-146 | Two token lists with the same rendered strings are equal, so every property of `PageNavi` carries over to the strings returned. |
| `AnnouncementDao.RenderAt` | src/main/java/kr/co/khacademy/semi/dao/AnnouncementDao.java:135-146 | The returned list has one string per token, and string j is the rendering of token j. So, for example, the first string is `"<"` exactly when `PrevMarker` puts `Prev` first. |
| `AnnouncementDao.NeedNextAsWritten` | src/main/java/kr/co/khacademy/semi/dao/AnnouncementDao.java:124-133 | The source's `needNext`, computed with reference equality. For any window whose end is computed as on lines 124-128, it is set exactly when the numeric test sets it, or when startNavi + 9 == pageTotal > 127. |
| `AnnouncementDao.PageNaviAsWritten` | src/main/java/kr/co/khacademy/semi/dao/AnnouncementDao.java:129-146 | The list the source really returns. It is either the intended bar, or the intended bar plus a trailing `Next` that the intended bar lacks. |
| `AnnouncementDao.AsWrittenDiffers` | src/main/java/kr/co/khacademy/semi/dao/AnnouncementDao.java:124-133 | The source's bar (boxed `==`) differs from the intended one exactly when startNavi + 9 == pageTotal > 127. |
| `AnnouncementDao.AsWrittenCounterexample` | src/main/java/kr/co/khacademy/semi/dao/AnnouncementDao.java:133 | For 2000 records, 10 per page and page 195, the window is 191..200 and 200 is the last page. The source's bar still ends with `Next`, but the intended bar has no `Next`. |
| `Announcements.ValidateTitle` | src/main/java/kr/co/khacademy/semi/model/Announcement.java:37-39 | A title is accepted only with 6 to 100 characters, bounds included. Titles shorter than 6 or longer than 100 are refused. |
| `Announcements.OfRequest` | src/main/java/kr/co/khacademy/semi/model/Announcement.java:23-34 | A missing title raises `NullPointerException`. A title shorter than 6 or longer than 100 raises `IllegalArgumentException`. Any other title succeeds, and the result carries exactly the given title and contents, with id, account id and date unset. |
| `Announcements.OfRequestRoundTrip` | src/main/java/kr/co/khacademy/semi/model/Announcement.java:23-39 | A built announcement's title passes validation. Building again from its title and contents gives the same announcement. |

## Findings

| source | as written | input that shows it | evidently intended | confidence | as-written member | corrected member |
|---|---|---|---|---|---|---|
| src/main/java/kr/co/khacademy/semi/dao/AnnouncementDao.java:133 | `endNavi == pageTotalCount` compares two boxed `Long` references. They are the same object only when line 127 made them so, or when the value is in the `Long.valueOf` cache (-128..127 on OpenJDK; other implementations may cache more). | 2000 records, 10 per page, page 195: the window 191..200 ends on the last page 200, yet `">"` is appended. The same happens for any page total that is a multiple of 10, at least 130, when the request falls in the last window. | Compare the numbers: no `">"` when the window reaches the last page. | not executed | `AnnouncementDao.AsWrittenCounterexample` | `AnnouncementDao.NextMarker` |

`AnnouncementDao.NeedNextAsWritten` and `AnnouncementDao.PageNaviAsWritten`
model the comparison as written. `AsWrittenDiffers` states exactly when it
departs from the numeric one, which the rest of the model (`NeedNext`,
`PageNavi`, `GetPageNavi`) uses.

## Left out

- `create`, `read()`, `read(Long)`, `read(Long, Long)`, `getRecordCount`, `update` and `delete` in AnnouncementDao.java: JDBC connection, statement and commit plumbing around SQL text. Their one rule, "zero affected rows raises `SQLException`", depends on the database.
- `Announcement.of(ResultSet)`: column-by-column mapping from a JDBC result set.
- The singleton `instance` / `getInstance` and the Lombok-generated builder and getters: no logic. The builder call is modelled as building the `Announcement` datatype directly.
- The rank range of the records to fetch for a page: no code here computes one. `read(Long, Long)` just receives its bounds.
- `Criteria` is not part of this model. Its keyword, page number and amount are plain parameters. The keyword only selects the record count, and that count is itself a parameter.
- The `SQLException` that `getPageNavi` passes on from `getRecordCount`: the count is an input here.
- AnnouncementDao.GetPageNavi: requires a page size of at least 1. A page size of 0 makes Java throw `ArithmeticException` at line 112. Negative page sizes are not modelled.
- AnnouncementDao.ComputeWindow: same page-size precondition as `GetPageNavi`, for the same reason.
- `long` overflow: every quantity is an unbounded integer. A page request cannot overflow, because lines 118-122 clamp it to at most max(1, pageTotalCount) before any arithmetic on it. Only a record count near 2^63 can. With 1 record per page, a count of at least 9223372036854775801 and a request in the last window, `startNavi` is 9223372036854775801 and `startNavi + 9` on line 124 wraps to a negative number. That is not greater than the page total, so line 127 leaves `endNavi` negative. The loop on line 140 then adds no page, both flags stay set, and the source returns `["<", ">"]` with no link to the current page. The model computes `endNavi` without wrap-around and lists the window instead. The loop itself always ends: an unwrapped `startNavi + 9` ends in the digit 0 and `Long.MAX_VALUE` ends in 7, so `endNavi` is never `Long.MAX_VALUE`.
- JavaLong.CacheHigh: 127 is OpenJDK's upper cache bound. The `Long.valueOf` documentation only promises that -128..127 is cached, so on another implementation the threshold in `NeedNextAsWritten` and `AsWrittenDiffers` may be higher. The model fixes it at 127.
- `String.length()` counts UTF-16 code units, while `|title|` counts Dafny characters. The model uses no text encoding, so the two agree only for titles without surrogate pairs.
