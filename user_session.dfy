/** The per-chat session record (model/session/UserSession.java): five
    fields with their initial values. The store is the only holder of session
    objects, so a session is modelled by the value of its fields. */
module UserSessions {
  import opened JavaLang
  import opened BookStatuses
  import opened Entities

  /** The conversational mode (model/session/enums/UserState). */
  datatype UserState = NONE | WAITING_FOR_TITLE | WAITING_FOR_PAGE | WAITING_FOR_RATING

  /** The value of a session's five fields at one moment. */
  datatype Session = Session(
    state: UserState,
    searchResults: seq<Candidate>,
    currentPage: Int32,
    bookStatusFilter: Option<BookStatus>,
    bookIdForChange: Option<Long>)

  /** `new UserSession()`: state NONE, no cached results, page 0, no filter and
      no book selected for change. */
  const DefaultSession: Session := Session(NONE, [], 0, None, None)
}
