/**
 * The book catalogue of the library app (relationship_app): authors, books, libraries and
 * librarians, and the store the book views write to. relationship_app/models.py is not part of
 * this model; the fields are the ones the views, the form and the queries use.
 */
module Catalog {
  import opened Outcomes
  import opened Sequences

  type AuthorId = nat
  type BookId = nat
  type LibraryId = nat
  type LibrarianId = nat

  datatype Author = Author(id: AuthorId, name: string)

  datatype Book = Book(id: BookId, title: string, author: AuthorId)

  /** A library with its many-to-many `books`. */
  datatype Library = Library(id: LibraryId, name: string, books: set<BookId>)

  datatype Librarian = Librarian(id: LibrarianId, name: string, library: LibraryId)

  /** `get_object_or_404(Book, pk=pk)`: the first row with that primary key, if any. */
  function FindBook(books: seq<Book>, pk: BookId): (r: Option<Book>)
    ensures r.Some? ==> r.value in books && r.value.id == pk
    ensures r.None? <==> forall b :: b in books ==> b.id != pk
  {
    Find(books, (b: Book) => b.id == pk)
  }

  /** The foreign key `Book.author`: some stored author has the key `id`. */
  predicate HasAuthor(authors: seq<Author>, id: AuthorId) {
    exists a :: a in authors && a.id == id
  }

  /** `form.save()` on a bound instance: the row with key `pk` takes the form's title and author. */
  function UpdateBook(books: seq<Book>, pk: BookId, title: string, author: AuthorId): (r: seq<Book>)
    ensures |r| == |books|
    ensures forall i :: 0 <= i < |books| && books[i].id == pk ==> r[i] == Book(pk, title, author)
    ensures forall i :: 0 <= i < |books| && books[i].id != pk ==> r[i] == books[i]
  {
    seq(|books|, i requires 0 <= i < |books| =>
      if books[i].id == pk then Book(pk, title, author) else books[i])
  }

  /** `book.delete()`: the row goes, and so does every library's link to it. */
  function RemoveBook(books: seq<Book>, pk: BookId): (r: seq<Book>)
    ensures forall b :: b in r <==> b in books && b.id != pk
  {
    Filter(books, (b: Book) => b.id != pk)
  }

  function UnlinkBook(libraries: seq<Library>, pk: BookId): (r: seq<Library>)
    ensures |r| == |libraries|
    ensures forall i :: 0 <= i < |libraries| ==> r[i] == libraries[i].(books := libraries[i].books - {pk})
  {
    seq(|libraries|, i requires 0 <= i < |libraries| => libraries[i].(books := libraries[i].books - {pk}))
  }

  /** Two book rows under different primary keys. */
  predicate BookKeysDiffer(a: Book, b: Book) {
    a.id != b.id
  }

  /** Primary keys are unique and below the next one to be handed out. */
  ghost predicate KeysDistinct(books: seq<Book>, next: BookId) {
    && (forall i :: 0 <= i < |books| ==> books[i].id < next)
    && Pairwise(books, BookKeysDiffer)
  }

  /** Every book's author is a stored author. */
  ghost predicate AuthorsKnown(books: seq<Book>, authors: seq<Author>) {
    forall b :: b in books ==> HasAuthor(authors, b.author)
  }

  /** Updating a book keeps every primary key where it was. */
  lemma UpdateKeepsKeys(books: seq<Book>, next: BookId, pk: BookId, title: string, author: AuthorId)
    requires KeysDistinct(books, next)
    ensures KeysDistinct(UpdateBook(books, pk, title, author), next)
  {
  }

  /** After an update, the lookup by the same key finds the new values. */
  lemma UpdateThenFind(books: seq<Book>, pk: BookId, title: string, author: AuthorId)
    requires FindBook(books, pk).Some?
    ensures FindBook(UpdateBook(books, pk, title, author), pk) == Some(Book(pk, title, author))
  {
  }

  /** Removing a book leaves the others' keys distinct, and its key findable no more. */
  lemma RemoveKeepsKeys(books: seq<Book>, next: BookId, pk: BookId)
    requires KeysDistinct(books, next)
    ensures KeysDistinct(RemoveBook(books, pk), next)
    ensures FindBook(RemoveBook(books, pk), pk).None?
  {
    var keep := (b: Book) => b.id != pk;
    FilterPairwise(books, keep, BookKeysDiffer);
    var r := RemoveBook(books, pk);
    assert forall i :: 0 <= i < |r| ==> r[i] in books;
  }

  /**
   * The tables of the catalogue. The book views change `books` (and, on delete, the library
   * links); authors and librarians are read only.
   */
  class Store {
    var authors: seq<Author>
    var books: seq<Book>
    var libraries: seq<Library>
    var librarians: seq<Librarian>
    var nextBookId: BookId

    /** Primary keys are unique, and every book's author foreign key resolves. */
    ghost predicate Valid()
      reads this
    {
      KeysDistinct(books, nextBookId) && AuthorsKnown(books, authors)
    }

    constructor (authors: seq<Author>)
      ensures Valid()
      ensures this.authors == authors && books == [] && libraries == [] && librarians == []
    {
      this.authors := authors;
      books, libraries, librarians := [], [], [];
      nextBookId := 1;
    }

    /** `BookForm.save()` on a new instance. */
    method InsertBook(title: string, author: AuthorId) returns (b: Book)
      requires Valid() && HasAuthor(authors, author)
      modifies this`books, this`nextBookId
      ensures Valid()
      ensures b == Book(old(nextBookId), title, author)
      ensures FindBook(old(books), b.id).None?
      ensures books == old(books) + [b] && nextBookId == old(nextBookId) + 1
    {
      b := Book(nextBookId, title, author);
      books := books + [b];
      nextBookId := nextBookId + 1;
    }

    /** `BookForm.save()` on the instance with key `pk`. */
    method SaveBook(pk: BookId, title: string, author: AuthorId)
      requires Valid() && HasAuthor(authors, author)
      modifies this`books
      ensures Valid()
      ensures books == UpdateBook(old(books), pk, title, author)
    {
      UpdateKeepsKeys(books, nextBookId, pk, title, author);
      books := UpdateBook(books, pk, title, author);
    }

    /** `Book.delete()`: the row and its many-to-many links. */
    method DeleteBook(pk: BookId)
      requires Valid()
      modifies this`books, this`libraries
      ensures Valid()
      ensures books == RemoveBook(old(books), pk) && libraries == UnlinkBook(old(libraries), pk)
      ensures FindBook(books, pk).None?
    {
      RemoveKeepsKeys(books, nextBookId, pk);
      books := RemoveBook(books, pk);
      libraries := UnlinkBook(libraries, pk);
    }
  }
}
