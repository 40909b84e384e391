/**
 * The catalog that prints one line per title and greets the user with the
 * current time as rendered by an injected date formatter.
 */
module WelcomeLibrary {

  /** An instant; the model only passes it to the formatter. */
  datatype DateTime = DateTime(millis: int)

  const Greeting := "Welcome to the library! The current time is "

  /** The greeting followed by the formatted time, verbatim. */
  function WelcomeLine(timeString: string): (line: string)
    ensures |line| == |Greeting| + |timeString|
    ensures line[..|Greeting|] == Greeting
    ensures line[|Greeting|..] == timeString
  {
    Greeting + timeString
  }

  class Library {
    /** The titles, in order. */
    var books: seq<string>
    /** The arguments of every `println` on the print stream, in call order. */
    var output: seq<string>
    /** The injected formatter's `print`. */
    const format: DateTime -> string

    constructor (books: seq<string>, format: DateTime -> string)
      ensures this.books == books && output == [] && this.format == format
    {
      this.books := books;
      output := [];
      this.format := format;
    }

    /** One `println` per title, in list order; nothing for an empty list. */
    method ListBooks()
      modifies this`output
      ensures output == old(output) + books
      ensures books == old(books)
    {
      for i := 0 to |books|
        invariant output == old(output) + books[..i]
      {
        assert books[..i + 1] == books[..i] + [books[i]];
        output := output + [books[i]];
      }
      assert books[..|books|] == books;
    }

    /** One `println` of the greeting and the formatted date. */
    method Welcome(date: DateTime)
      modifies this`output
      ensures output == old(output) + [WelcomeLine(format(date))]
      ensures books == old(books)
    {
      var timeString := format(date);
      output := output + [Greeting + timeString];
    }
  }

  /** Listing twice without a change in between prints the same lines twice. */
  method ListTwice(books: seq<string>, format: DateTime -> string) returns (first: seq<string>, second: seq<string>)
    ensures first == books && second == books
  {
    var library := new Library(books, format);
    library.ListBooks();
    first := library.output;
    library.ListBooks();
    second := library.output[|first|..];
  }

  /** The welcome is one line holding the formatter's output verbatim, even when empty. */
  method DisplayFormattedTime(books: seq<string>, format: DateTime -> string, date: DateTime) returns (printed: seq<string>)
    ensures |printed| == 1
    ensures |printed[0]| == |Greeting| + |format(date)|
    ensures printed[0][..|Greeting|] == Greeting
    ensures printed[0][|Greeting|..] == format(date)
    ensures format(date) == "" ==> printed == [Greeting]
  {
    var library := new Library(books, format);
    library.Welcome(date);
    printed := library.output;
    assert printed == [WelcomeLine(format(date))];
    assert Greeting + "" == Greeting;
  }
}
