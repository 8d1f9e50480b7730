/** The announcement record and its construction from a submitted form
    (`Announcement.of(HttpServletRequest)` and `validateTitle`). The request is
    replaced by its two parameters; a parameter the form did not send is
    `None`, as `getParameter` then returns `null`. */
module Announcements {

  datatype Option<T> = None | Some(value: T)

  /** The row's creation time; the database assigns it. */
  datatype Timestamp = Timestamp(millis: int)

  /** `@Value` class: every field may be unset (`null`) until the builder or the
      database fills it. */
  datatype Announcement = Announcement(
    id: Option<int>,
    accountId: Option<int>,
    title: Option<string>,
    contents: Option<string>,
    date: Option<Timestamp>)

  /** The exceptions `of` can raise. */
  datatype Error = IllegalArgument | NullPointer

  datatype Result<T> = Ok(value: T) | Err(error: Error)

  const MinTitleLength: nat := 6
  const MaxTitleLength: nat := 100

  /** `validateTitle`: a title is accepted when its length lies between the two
      bounds, both included. */
  predicate ValidateTitle(title: string)
    ensures ValidateTitle(title) ==> 6 <= |title| && |title| <= 100
    ensures |title| < 6 || |title| > 100 ==> !ValidateTitle(title)
  {
    MinTitleLength <= |title| && |title| <= MaxTitleLength
  }

  /** `of(HttpServletRequest)`: check the title, then build an announcement that
      carries only the title and the contents. A missing title makes
      `title.length()` throw `NullPointerException` before any check. */
  function OfRequest(title: Option<string>, contents: Option<string>): (r: Result<Announcement>)
    ensures title.None? ==> r == Err(NullPointer)
    ensures title.Some? && (|title.value| < 6 || |title.value| > 100) ==> r == Err(IllegalArgument)
    ensures title.Some? && 6 <= |title.value| <= 100 ==> r.Ok?
    ensures r.Ok? ==> r.value.title == title && r.value.contents == contents
    ensures r.Ok? ==> r.value.id == None && r.value.accountId == None && r.value.date == None
  {
    match title
    case None => Err(NullPointer)
    case Some(t) =>
      if !ValidateTitle(t) then Err(IllegalArgument)
      else Ok(Announcement(None, None, Some(t), contents, None))
  }

  /** Submitting the title and contents of an announcement built from a form
      again yields the same announcement: building is idempotent, and every
      title it stores passes validation. */
  lemma OfRequestRoundTrip(title: Option<string>, contents: Option<string>)
    requires OfRequest(title, contents).Ok?
    ensures var a := OfRequest(title, contents).value;
      a.title.Some? && ValidateTitle(a.title.value)
      && OfRequest(a.title, a.contents) == Ok(a)
  {
  }
}
