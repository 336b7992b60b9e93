/**
 * The access-controlled views of relationship_app/views.py: the three role predicates, the
 * pages they guard, and the permission-gated book views that write to the catalogue.
 */
module LibraryViews {
  import opened Outcomes
  import opened Catalog
  import opened Text

  /** A user's `userprofile`, when one exists, with its role text. */
  datatype UserProfile = UserProfile(role: string)

  /**
   * The request's user: an anonymous visitor has no profile and no permissions.
   * `permissions` holds the "app_label.codename" strings the user has.
   */
  datatype Visitor = Visitor(profile: Option<UserProfile>, permissions: set<string>)

  /** Every method other than POST takes the same path through these views as GET. */
  datatype HttpMethod = Get | Post

  /** The response of a template view. */
  datatype Page =
    | Render(template: string)
    | Redirect(to: string)
    | PermissionDenied  // 403
    | PageNotFound      // 404

  const CanAddBook := "relationship_app.can_add_book"
  const CanChangeBook := "relationship_app.can_change_book"
  const CanDeleteBook := "relationship_app.can_delete_book"

  const BookFormTemplate := "relationship_app/book_form.html"
  const ConfirmDeleteTemplate := "relationship_app/book_confirm_delete.html"

  /** `is_admin`: false without a profile; otherwise the role must be exactly "Admin". */
  predicate IsAdmin(v: Visitor): (b: bool)
    ensures v.profile.None? ==> !b
    ensures v.profile.Some? ==> (b <==> v.profile.value.role == "Admin")
  {
    v.profile.Some? && v.profile.value.role == "Admin"
  }

  /** `is_librarian`: false without a profile; otherwise the role must be exactly "Librarian". */
  predicate IsLibrarian(v: Visitor): (b: bool)
    ensures v.profile.None? ==> !b
    ensures v.profile.Some? ==> (b <==> v.profile.value.role == "Librarian")
  {
    v.profile.Some? && v.profile.value.role == "Librarian"
  }

  /** `is_member`: false without a profile; otherwise the role must be exactly "Member". */
  predicate IsMember(v: Visitor): (b: bool)
    ensures v.profile.None? ==> !b
    ensures v.profile.Some? ==> (b <==> v.profile.value.role == "Member")
  {
    v.profile.Some? && v.profile.value.role == "Member"
  }

  /** The role a visitor's profile names, when it is one of the three known roles. */
  function RoleOf(v: Visitor): (r: Option<string>)
    ensures r == Some("Admin") <==> IsAdmin(v)
    ensures r == Some("Librarian") <==> IsLibrarian(v)
    ensures r == Some("Member") <==> IsMember(v)
    ensures r.None? <==> !IsAdmin(v) && !IsLibrarian(v) && !IsMember(v)
    ensures v.profile.None? ==> r.None?
  {
    match v.profile
    case None => None
    case Some(p) => if p.role in {"Admin", "Librarian", "Member"} then Some(p.role) else None
  }

  /** `user_passes_test(test, login_url='login')`: the page when the test passes, else the login page. */
  function Guarded(passes: bool, template: string): (p: Page)
    ensures p.Render? <==> passes
    ensures p.Render? ==> p.template == template
    ensures !passes ==> p == Redirect("login")
  {
    if passes then Render(template) else Redirect("login")
  }

  function AdminView(v: Visitor): (p: Page)
    ensures p == Render("relationship_app/admin_view.html") <==> RoleOf(v) == Some("Admin")
    ensures !IsAdmin(v) ==> p == Redirect("login")
  {
    Guarded(IsAdmin(v), "relationship_app/admin_view.html")
  }

  function LibrarianView(v: Visitor): (p: Page)
    ensures p == Render("relationship_app/librarian_view.html") <==> RoleOf(v) == Some("Librarian")
    ensures !IsLibrarian(v) ==> p == Redirect("login")
  {
    Guarded(IsLibrarian(v), "relationship_app/librarian_view.html")
  }

  function MemberView(v: Visitor): (p: Page)
    ensures p == Render("relationship_app/member_view.html") <==> RoleOf(v) == Some("Member")
    ensures !IsMember(v) ==> p == Redirect("login")
  {
    Guarded(IsMember(v), "relationship_app/member_view.html")
  }

  /** A visitor reaches at most one of the three role pages. */
  lemma AtMostOneRolePage(v: Visitor)
    ensures AdminView(v).Render? ==> LibrarianView(v) == Redirect("login") && MemberView(v) == Redirect("login")
    ensures LibrarianView(v).Render? ==> AdminView(v) == Redirect("login") && MemberView(v) == Redirect("login")
    ensures MemberView(v).Render? ==> AdminView(v) == Redirect("login") && LibrarianView(v) == Redirect("login")
  {
  }

  /** The bound `BookForm`: a title and the key of the chosen author, either possibly missing. */
  datatype BookForm = BookForm(title: string, author: Option<AuthorId>)

  /**
   * The title is required once stripped of surrounding whitespace and may hold no NUL
   * character, and the author must be one of the existing authors.
   */
  predicate FormValid(form: BookForm, authors: seq<Author>): (b: bool)
    ensures b <==>
              && !SpaceBetween(form.title, 0, |form.title|) && !HasNull(form.title)
              && form.author.Some? && HasAuthor(authors, form.author.value)
  {
    TrimKeepsNull(form.title);
    var title := Trim(form.title);
    title != "" && !HasNull(title) && form.author.Some? && HasAuthor(authors, form.author.value)
  }

  /**
   * `add_book`: denied without `can_add_book`; on a POST with a valid form a new book with the
   * stripped title is saved and the visitor sent to the list; anything else shows the form and
   * saves nothing.
   */
  method AddBook(store: Store, v: Visitor, m: HttpMethod, form: BookForm) returns (page: Page)
    requires store.Valid()
    modifies store`books, store`nextBookId
    ensures store.Valid()
    ensures CanAddBook !in v.permissions ==> page == PermissionDenied
    ensures page == Redirect("list_books") <==>
              CanAddBook in v.permissions && m == Post && FormValid(form, store.authors)
    ensures page != Redirect("list_books") ==>
              store.books == old(store.books) && store.nextBookId == old(store.nextBookId)
    ensures CanAddBook in v.permissions && page != Redirect("list_books") ==> page == Render(BookFormTemplate)
    ensures page == Redirect("list_books") ==>
              var b := Book(old(store.nextBookId), Trim(form.title), form.author.value);
              && FindBook(old(store.books), b.id).None?
              && store.books == old(store.books) + [b]
  {
    if CanAddBook !in v.permissions {
      return PermissionDenied;
    }
    if m == Post && FormValid(form, store.authors) {
      var _ := store.InsertBook(Trim(form.title), form.author.value);
      return Redirect("list_books");
    }
    return Render(BookFormTemplate);
  }

  /**
   * `edit_book`: denied without `can_change_book`, 404 for an unknown key; on a POST with a
   * valid form the book takes the new stripped title and author; anything else changes nothing.
   */
  method EditBook(store: Store, v: Visitor, m: HttpMethod, pk: BookId, form: BookForm) returns (page: Page)
    requires store.Valid()
    modifies store`books
    ensures store.Valid()
    ensures CanChangeBook !in v.permissions ==> page == PermissionDenied
    ensures CanChangeBook in v.permissions && FindBook(old(store.books), pk).None? ==> page == PageNotFound
    ensures page == Redirect("list_books") <==>
              && CanChangeBook in v.permissions && FindBook(old(store.books), pk).Some?
              && m == Post && FormValid(form, store.authors)
    ensures page != Redirect("list_books") ==> store.books == old(store.books)
    ensures CanChangeBook in v.permissions && FindBook(old(store.books), pk).Some? && page != Redirect("list_books")
            ==> page == Render(BookFormTemplate)
    ensures page == Redirect("list_books") ==>
              && store.books == UpdateBook(old(store.books), pk, Trim(form.title), form.author.value)
              && FindBook(store.books, pk) == Some(Book(pk, Trim(form.title), form.author.value))
  {
    if CanChangeBook !in v.permissions {
      return PermissionDenied;
    }
    if FindBook(store.books, pk).None? {
      return PageNotFound;
    }
    if m == Post && FormValid(form, store.authors) {
      UpdateThenFind(store.books, pk, Trim(form.title), form.author.value);
      store.SaveBook(pk, Trim(form.title), form.author.value);
      return Redirect("list_books");
    }
    return Render(BookFormTemplate);
  }

  /**
   * `delete_book`: denied without `can_delete_book`, 404 for an unknown key; the book is
   * deleted only on a POST, and any other method shows the confirmation page.
   */
  method DeleteBook(store: Store, v: Visitor, m: HttpMethod, pk: BookId) returns (page: Page)
    requires store.Valid()
    modifies store`books, store`libraries
    ensures store.Valid()
    ensures CanDeleteBook !in v.permissions ==> page == PermissionDenied
    ensures CanDeleteBook in v.permissions && FindBook(old(store.books), pk).None? ==> page == PageNotFound
    ensures page == Redirect("list_books") <==>
              CanDeleteBook in v.permissions && FindBook(old(store.books), pk).Some? && m == Post
    ensures CanDeleteBook in v.permissions && FindBook(old(store.books), pk).Some? && m == Get
            ==> page == Render(ConfirmDeleteTemplate)
    ensures page != Redirect("list_books") ==>
              store.books == old(store.books) && store.libraries == old(store.libraries)
    ensures page == Redirect("list_books") ==>
              && store.books == RemoveBook(old(store.books), pk)
              && store.libraries == UnlinkBook(old(store.libraries), pk)
              && FindBook(store.books, pk).None?
  {
    if CanDeleteBook !in v.permissions {
      return PermissionDenied;
    }
    if FindBook(store.books, pk).None? {
      return PageNotFound;
    }
    if m == Post {
      store.DeleteBook(pk);
      return Redirect("list_books");
    }
    return Render(ConfirmDeleteTemplate);
  }
}
