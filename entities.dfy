/** The records the dialogue logic passes around: a persisted book
    (model/entities/Book.java) and a catalog search hit (LitresBookDto). */
module Entities {
  import opened JavaLang
  import opened BookStatuses

  /** A calendar date (LocalDate) or a timestamp, as an opaque day/instant number. */
  type Instant = int

  /** The owning user row (model/entities/User.java), by its identity. */
  datatype UserRef = UserRef(key: nat)

  /** A persisted book. Title, author and status are taken to be present;
      the Java fields may be null, which this model does not represent. */
  datatype Book = Book(
    id: Long,
    title: string,
    author: string,
    status: BookStatus,
    addedDate: Option<Instant>,
    startDate: Option<Instant>,
    finishDate: Option<Instant>,
    rating: Option<Int32>,
    totalPages: Option<Int32>,
    user: Option<UserRef>,
    currentPage: Option<Int32>,
    modifiedAt: Option<Instant>)

  /** A hit returned by the catalog search (LitresBookDto). */
  datatype Candidate = Candidate(title: string, author: string)
}
