/** The book store (service/BookService.java) over the repository, which is a
    table from book id to book. Each repository call is one step on that table:
    findById looks a key up, save stores a book under its id, deleteById
    removes a key. */
module BookStore {
  import opened JavaLang
  import opened BookStatuses
  import opened Entities

  type Table = map<Long, Book>

  /** Every stored book sits under its own id. */
  ghost predicate Keyed(t: Table)
  {
    forall id :: id in t ==> t[id].id == id
  }

  /** findById: present exactly when the id is stored, and then that book. */
  function FindById(t: Table, id: Long): (r: Option<Book>)
    ensures r.Some? <==> id in t
    ensures r.Some? ==> r.value == t[id]
  {
    if id in t then Some(t[id]) else None
  }

  /** The six setters of updateBook: title, author, status, user, rating and
      current page come from `from`; id, the three dates, the page count and the
      modification stamp stay those of `existing`. */
  function CopyEditable(existing: Book, from: Book): (r: Book)
    ensures r.title == from.title && r.author == from.author && r.status == from.status
    ensures r.user == from.user && r.rating == from.rating && r.currentPage == from.currentPage
    ensures r.id == existing.id && r.addedDate == existing.addedDate
    ensures r.startDate == existing.startDate && r.finishDate == existing.finishDate
    ensures r.totalPages == existing.totalPages && r.modifiedAt == existing.modifiedAt
  {
    existing.(title := from.title, author := from.author, status := from.status,
              user := from.user, rating := from.rating, currentPage := from.currentPage)
  }

  /** Copying is idempotent, and of two successive copies only the last counts. */
  lemma CopyEditableLastWins(existing: Book, first: Book, second: Book)
    ensures CopyEditable(CopyEditable(existing, first), second) == CopyEditable(existing, second)
    ensures CopyEditable(CopyEditable(existing, first), first) == CopyEditable(existing, first)
  {
  }

  /** Copying a book's own editable fields onto it changes nothing. */
  lemma CopyEditableSelf(b: Book)
    ensures CopyEditable(b, b) == b
  {
  }

  /** The message of the exception updateBook throws for an unknown id; the id
      can be read back from its end. */
  function NotFoundMessage(id: Long): (msg: string)
    ensures |msg| > 23 && msg[..23] == "Book not found with id "
    ensures ParseLong(msg[23..]) == Ok(id)
  {
    var prefix := "Book not found with id ";
    var digits := IntToString(id);
    ParseLongOfToString(id);
    assert (prefix + digits)[23..] == digits;
    prefix + digits
  }

  class BookService {
    /** The repository's table. */
    var books: Table

    ghost predicate Valid()
      reads this
    {
      Keyed(books)
    }

    constructor (initial: Table)
      requires Keyed(initial)
      ensures Valid() && books == initial
    {
      books := initial;
    }

    /** getBookById: the Optional of findById. */
    method GetBookById(id: Long) returns (r: Option<Book>)
      ensures r == FindById(books, id)
    {
      if id in books {
        r := Some(books[id]);
      } else {
        r := None;
      }
    }

    /** addBook: save stores the book under its id and returns it. */
    method AddBook(book: Book) returns (saved: Book)
      requires Valid()
      modifies this
      ensures Valid()
      ensures saved == book && FindById(books, book.id) == Some(book)
      ensures books == old(books)[book.id := book]
    {
      books := books[book.id := book];
      saved := book;
    }

    /** updateBook: an unknown id throws "Book not found with id <id>" and
        leaves the table alone; a known one gets the six fields of `book` copied
        onto the stored book, which is saved back under the same id and
        returned. Every other entry is untouched. */
    method UpdateBook(id: Long, book: Book) returns (r: Result<Book>)
      requires Valid()
      modifies this
      ensures Valid()
      ensures id !in old(books) ==> r == Err(Runtime(NotFoundMessage(id))) && books == old(books)
      ensures id in old(books) ==>
        && r == Ok(CopyEditable(old(books)[id], book))
        && books == old(books)[id := r.value]
      ensures forall other :: other != id ==> FindById(books, other) == FindById(old(books), other)
    {
      var found := GetBookById(id);
      if found.None? {
        return Err(Runtime(NotFoundMessage(id)));
      }
      var existing := found.value;
      existing := existing.(title := book.title);
      existing := existing.(author := book.author);
      existing := existing.(status := book.status);
      existing := existing.(user := book.user);
      existing := existing.(rating := book.rating);
      existing := existing.(currentPage := book.currentPage);
      books := books[existing.id := existing];
      r := Ok(existing);
    }

    /** deleteBook: deleteById removes the id and nothing else. */
    method DeleteBook(id: Long)
      modifies this
      ensures old(Valid()) ==> Valid()
      ensures books == old(books) - {id}
      ensures FindById(books, id) == None
      ensures forall other :: other != id ==> FindById(books, other) == FindById(old(books), other)
    {
      books := books - {id};
    }
  }
}
