/**
 * The three lookups of relationship_app/query_samples.py. Each starts with an ORM `get`,
 * which finds no row (DoesNotExist, turned into an empty result), exactly one row, or several
 * (MultipleObjectsReturned, which no handler catches, so it escapes as `Raised`).
 */
module LibraryQueries {
  import opened Outcomes
  import opened Sequences
  import opened Catalog

  /** What `Model.objects.get(...)` does with the rows that match. */
  datatype Lookup<T> = DoesNotExist | Found(value: T) | MultipleObjectsReturned

  function Get<T(!new)>(rows: seq<T>, matches: T -> bool): (r: Lookup<T>)
    ensures r.DoesNotExist? <==> forall x :: x in rows ==> !matches(x)
    ensures r.Found? ==> r.value in rows && matches(r.value) && forall x :: x in rows && matches(x) ==> x == r.value
    ensures r.MultipleObjectsReturned? ==> |Filter(rows, matches)| >= 2
  {
    var hits := Filter(rows, matches);
    if hits == [] then DoesNotExist
    else
      assert hits[0] in hits;
      if |hits| == 1 then
        assert forall x :: x in hits ==> x == hits[0];
        Found(hits[0])
      else MultipleObjectsReturned
  }

  /**
   * `query_books_by_author`: the books of the author with that name; an unknown name gives
   * the empty result.
   */
  function BooksByAuthor(authors: seq<Author>, books: seq<Book>, name: string): (r: Result<seq<Book>>)
    ensures r.Value? ==>
              forall b :: b in r.value <==> b in books && exists a :: a in authors && a.name == name && b.author == a.id
    ensures (forall a :: a in authors ==> a.name != name) ==> r == Value([])
    ensures r.Raised? <==> |Filter(authors, (a: Author) => a.name == name)| >= 2
  {
    match Get(authors, (a: Author) => a.name == name)
    case DoesNotExist => Value([])
    case Found(a) => Value(Filter(books, (b: Book) => b.author == a.id))
    case MultipleObjectsReturned => Raised("Author.MultipleObjectsReturned")
  }

  /**
   * `list_books_in_library`: the books linked to the library with that name; an unknown name
   * gives the empty result.
   */
  function BooksInLibrary(libraries: seq<Library>, books: seq<Book>, name: string): (r: Result<seq<Book>>)
    ensures r.Value? ==>
              forall b :: b in r.value <==> b in books && exists l :: l in libraries && l.name == name && b.id in l.books
    ensures (forall l :: l in libraries ==> l.name != name) ==> r == Value([])
    ensures r.Raised? <==> |Filter(libraries, (l: Library) => l.name == name)| >= 2
  {
    match Get(libraries, (l: Library) => l.name == name)
    case DoesNotExist => Value([])
    case Found(l) => Value(Filter(books, (b: Book) => b.id in l.books))
    case MultipleObjectsReturned => Raised("Library.MultipleObjectsReturned")
  }

  /**
   * `retrieve_librarian_for_library`: the librarian of the library with that name, or None
   * when there is no such library or it has no librarian.
   */
  function LibrarianFor(libraries: seq<Library>, librarians: seq<Librarian>, name: string)
    : (r: Result<Option<Librarian>>)
    ensures r.Value? && r.value.Some? ==>
              r.value.value in librarians
              && exists l :: l in libraries && l.name == name && r.value.value.library == l.id
    ensures (forall l :: l in libraries ==> l.name != name) ==> r == Value(None)
    ensures r == Value(None) ==>
              forall l, x :: l in libraries && l.name == name && x in librarians ==> x.library != l.id
    ensures |Filter(libraries, (l: Library) => l.name == name)| == 1
            && (forall l, x :: l in libraries && l.name == name && x in librarians ==> x.library != l.id)
            ==> r == Value(None)
    ensures |Filter(libraries, (l: Library) => l.name == name)| >= 2 ==> r.Raised?
  {
    match Get(libraries, (l: Library) => l.name == name)
    case DoesNotExist => Value(None)
    case MultipleObjectsReturned => Raised("Library.MultipleObjectsReturned")
    case Found(l) =>
      match Get(librarians, (x: Librarian) => x.library == l.id)
      case DoesNotExist => Value(None)
      case Found(x) => Value(Some(x))
      case MultipleObjectsReturned => Raised("Librarian.MultipleObjectsReturned")
  }

  /**
   * Once the name picks out exactly one library `l`, the outcome is decided by the librarians
   * linked to `l`: none gives None, exactly one is returned, and two or more raise.
   */
  lemma LibrarianForOneLibrary(libraries: seq<Library>, librarians: seq<Librarian>, name: string, l: Library)
    requires Filter(libraries, (k: Library) => k.name == name) == [l]
    ensures var hits := Filter(librarians, (y: Librarian) => y.library == l.id);
            && (hits == [] ==> LibrarianFor(libraries, librarians, name) == Value(None))
            && (|hits| == 1 ==> LibrarianFor(libraries, librarians, name) == Value(Some(hits[0])))
            && (|hits| >= 2 ==> LibrarianFor(libraries, librarians, name) == Raised("Librarian.MultipleObjectsReturned"))
  {
    var hits := Filter(librarians, (y: Librarian) => y.library == l.id);
    assert l in Filter(libraries, (k: Library) => k.name == name);
    if hits != [] {
      assert hits[0] in hits;
    }
  }
}
