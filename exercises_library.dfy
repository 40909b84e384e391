/**
 * The interactive catalog: lists the titles in one printed block, adds a
 * title read from the input, and removes the first copy of a title read
 * from the input.
 */
module ExercisesLibrary {
  import opened Wrappers
  import CatalogSpec

  /** What one call of `readLine` on the reader produces. */
  datatype ReadOutcome =
    | Line(text: string)  // a line, without its terminator
    | EndOfStream         // the reader returns null
    | ReadFailure         // the reader throws an IOException

  const AddPrompt := "Enter a book to add to the collection"
  const RemovePrompt := "Enter a book to remove from the collection"

  /**
   * The private `readLine`: the text of a line read, or null when the
   * stream has ended or the read failed (the exception is swallowed).
   */
  function ReadLine(outcome: ReadOutcome): (book: Option<string>)
    ensures book.Some? <==> outcome.Line?
    ensures book.Some? ==> book.value == outcome.text
  {
    match outcome
    case Line(text) => Some(text)
    case EndOfStream => None
    case ReadFailure => None
  }

  class Library {
    /** The titles, in order; null entries are possible after a failed read. */
    var books: seq<Option<string>>
    /** The arguments of every `println` on the print stream, in call order. */
    var output: seq<string>

    constructor (books: seq<Option<string>>)
      ensures this.books == books && output == []
    {
      this.books := books;
      output := [];
    }

    /** Builds the listing and prints it with a single `println`. */
    method ListBooks()
      modifies this`output
      ensures output == old(output) + [CatalogSpec.ListingText(books)]
      ensures books == old(books)
    {
      var bookList := "";
      for i := 0 to |books|
        invariant bookList == CatalogSpec.ListingText(books[..i])
        invariant output == old(output)
      {
        CatalogSpec.ListingTextSnoc(books[..i], books[i]);
        assert books[..i + 1] == books[..i] + [books[i]];
        bookList := bookList + (CatalogSpec.Render(books[i]) + "\n");
      }
      assert books[..|books|] == books;
      output := output + [bookList];
    }

    /** Prompts, reads one line and appends it, null included. */
    method EnterBook(input: ReadOutcome)
      modifies this
      ensures output == old(output) + [AddPrompt]
      ensures books == old(books) + [ReadLine(input)]
    {
      output := output + [AddPrompt];
      var book := ReadLine(input);
      books := books + [book];
    }

    /** Prompts, reads one line and removes the first equal title, if any. */
    method RemoveBook(input: ReadOutcome)
      modifies this
      ensures output == old(output) + [RemovePrompt]
      ensures books == CatalogSpec.RemoveFirst(old(books), ReadLine(input))
      ensures ReadLine(input) !in old(books) ==> books == old(books)
    {
      output := output + [RemovePrompt];
      var book := ReadLine(input);
      if book in books {
        books := CatalogSpec.RemoveFirst(books, book);
      }
    }
  }

  /** A listing is a single printed line, and an empty catalog prints one empty line. */
  method ListOnce(books: seq<Option<string>>) returns (printed: seq<string>)
    ensures |printed| == 1
    ensures books == [] ==> printed == [""]
    ensures books == [Some("Book Title")] ==> printed == ["Book Title\n"]
  {
    var library := new Library(books);
    library.ListBooks();
    printed := library.output;
    if books == [Some("Book Title")] {
      assert books[1..] == [];
      assert CatalogSpec.ListingText(books) == "Book Title" + "\n" + "";
      assert "Book Title" + "\n" + "" == "Book Title\n";
    }
  }

  /** Entering "The Hobbit" into an empty catalog leaves exactly that title. */
  method AddBookWhenEnteredByUser(title: string) returns (books: seq<Option<string>>, printed: seq<string>)
    ensures books == [Some(title)]
    ensures printed == [AddPrompt]
  {
    var library := new Library([]);
    library.EnterBook(Line(title));
    books, printed := library.books, library.output;
  }

  /** Removing the only title, when the user types it, empties the catalog. */
  method DeleteBookWhenRemovedByUser(title: string) returns (books: seq<Option<string>>)
    ensures books == []
  {
    var library := new Library([Some(title)]);
    library.RemoveBook(Line(title));
    books := library.books;
  }

  /** A failed read still adds an entry, a null one, and removing null takes it out again. */
  method FailedReadAddsNull(books: seq<Option<string>>) returns (afterEnter: seq<Option<string>>, afterRemove: seq<Option<string>>)
    requires None !in books
    ensures afterEnter == books + [None]
    ensures afterRemove == books
  {
    var library := new Library(books);
    library.EnterBook(ReadFailure);
    afterEnter := library.books;
    library.RemoveBook(EndOfStream);
    CatalogSpec.RemoveAppended(books, None);
    afterRemove := library.books;
  }
}
