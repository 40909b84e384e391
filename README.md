# TDD-intro string joiners and book catalogs, modelled in Dafny

This project models the two exercises of the TWU101 TDD-intro repository that
hold sequencing logic:

- **String joiners.** Two Java `StringJoiner` classes hold a delimiter fixed at
  construction and join a list of strings with that delimiter strictly between
  adjacent elements. One takes the head and appends `delimiter + s` for the
  rest through a private `concatenateWithDelimiter`. The other copies the
  list, removes the head from the copy and loops over what is left. Both are
  classes whose `Join` methods run the same loops as the Java code. Each is
  proved equal to one reference definition, `JoinSpec.Join`, so the two
  joiners return the same string for every list and delimiter.
- **Book catalogs.** Two `Library` classes hold an ordered list of titles and
  print to a `PrintStream`.
  - The interactive one lists all titles in one `println`, adds a title it
    reads, and removes the first copy of a title it reads.
  - The other prints one line per title, and greets the user with the time
    that an injected formatter renders.

  Each becomes a class with a `books` field and an `output` field. `output`
  records the argument of every `println`, in call order. A read from the
  `BufferedReader` becomes a `ReadOutcome` parameter: a line, the end of the
  stream (Java `null`), or an `IOException`. The formatter becomes a function
  value `DateTime -> string` given to the constructor.

Files: `wrappers.dfy` (Option, standing for a nullable reference),
`join_spec.dfy`, `tddintro_string_joiner.dfy`, `string_joiner.dfy`,
`joiners_agree.dfy`, `catalog_spec.dfy`, `exercises_library.dfy`,
`welcome_library.dfy`.

Boundary behaviour of the catalogs, as the code has it:

- After a failed or ended read, `enterBook` appends `null` to the list.
- The interactive `listBooks` prints one block: each title followed by a
  newline. An empty catalog therefore prints one empty line.
- The other catalog's `listBooks` prints nothing for an empty list.
- In the interactive listing a `null` title is listed as `null`, as Java's
  string `+` renders it.

## Model

| member | source | states |
|---|---|---|
| JoinSpec.JoinLength | src/main/java/com/thoughtworks/tddintro/string_joiner/StringJoiner.java:12-27 | an empty list joins to ""; for n ≥ 1 elements the result length is the sum of the element lengths plus (n-1)·\|delimiter\| |
| JoinSpec.DelimitedLength | src/main/java/com/thoughtworks/tddintro/string_joiner/StringJoiner.java:21-27 | "delimiter + s" for every element has the element lengths plus one delimiter per element |
| JoinSpec.Concat | src/main/java/com/thoughtworks/tddintro/string_joiner/StringJoiner.java:24 | plain concatenation, whose length is the sum of the element lengths |
| JoinSpec.DelimitedSnoc | src/main/java/com/thoughtworks/tddintro/string_joiner/StringJoiner.java:23-25 | one more loop step appends exactly one delimiter and that element at the end |
| JoinSpec.JoinIsHeadThenDelimited | src/main/java/com/thoughtworks/tddintro/string_joiner/StringJoiner.java:13-16 | a non-empty join is the first element followed by "delimiter + s" for each later s, in order |
| JoinSpec.SingletonJoin | src/main/java/com/thoughtworks/tddintro/string_joiner/StringJoiner.java:14-16 | a one-element list joins to that element unchanged |
| JoinSpec.JoinAppend | src/main/java/com/thoughtworks/string_joiner/StringJoiner.java:17-19 | joining two non-empty lists puts exactly one delimiter between their joins: no leading, trailing or doubled delimiter |
| JoinSpec.JoinSnoc | src/main/java/com/thoughtworks/string_joiner/StringJoiner.java:18 | adding an element to a non-empty list appends one delimiter and that element |
| JoinSpec.JoinEmptyDelimiter | src/main/java/com/thoughtworks/tddintro/string_joiner/StringJoiner.java:24 | with an empty delimiter the join is the plain concatenation |
| JoinSpec.JoinTestExamples | src/test/java/com/thoughtworks/tddintro/string_joiner/StringJoinerTests.java:24-49 | [] → "", ["A String"] → "A String", ["A","B"] with "," → "A,B" |
| JoinSpec.JoinEdgeExamples | src/main/java/com/thoughtworks/tddintro/string_joiner/StringJoiner.java:12-27 | the model's own edge cases, not from any test: ["A","B","C"] with "-" → "A-B-C"; empty elements still take their place, so ["",""] → "," and ["","B"] → ",B" with "," |
| TddIntroStringJoiner.StringJoiner.constructor | src/main/java/com/thoughtworks/tddintro/string_joiner/StringJoiner.java:8-10 | the delimiter is the one given, and it never changes afterwards |
| TddIntroStringJoiner.StringJoiner.Join | src/main/java/com/thoughtworks/tddintro/string_joiner/StringJoiner.java:12-19 | returns the reference join of the list with the joiner's delimiter |
| TddIntroStringJoiner.StringJoiner.ConcatenateWithDelimiter | src/main/java/com/thoughtworks/tddintro/string_joiner/StringJoiner.java:21-27 | the accumulating loop returns "delimiter + s" for every element, in order |
| ThoughtworksStringJoiner.StringJoiner.constructor | src/main/java/com/thoughtworks/string_joiner/StringJoiner.java:9-11 | the delimiter is the one given, and it never changes afterwards |
| ThoughtworksStringJoiner.StringJoiner.Join | src/main/java/com/thoughtworks/string_joiner/StringJoiner.java:12-22 | the copy-remove-head-loop returns the reference join, and a non-empty result begins with the first element |
| JoinersAgree.JoinBoth | src/main/java/com/thoughtworks/string_joiner/StringJoiner.java:12-22 | for every list and delimiter this joiner and the one at tddintro/string_joiner/StringJoiner.java:12-27 return the same string |
| CatalogSpec.ListingText | src/main/java/com/thoughtworks/tddintro/exercises/library/Library.java:20-23 | the listing is empty exactly when the list is, and otherwise ends in a newline |
| CatalogSpec.ListingTextSnoc | src/main/java/com/thoughtworks/tddintro/exercises/library/Library.java:21-23 | one more title appends that title and one newline at the end, in list order |
| CatalogSpec.ListingIsJoinedByNewline | src/main/java/com/thoughtworks/tddintro/exercises/library/Library.java:19-25 | a non-empty listing is the titles joined by newlines plus one trailing newline |
| CatalogSpec.FirstIndex | src/main/java/com/thoughtworks/tddintro/exercises/library/Library.java:46-47 | the index found holds the title, and no earlier entry equals it |
| CatalogSpec.RemoveFirst | src/main/java/com/thoughtworks/tddintro/exercises/library/Library.java:46-48 | an absent title leaves the list unchanged; a present one shortens it by exactly one, removing exactly one copy of that title (multiset difference) |
| CatalogSpec.RemoveFirstAt | src/main/java/com/thoughtworks/tddintro/exercises/library/Library.java:47 | only the first equal entry is removed, and the others keep their order |
| CatalogSpec.RemoveAppended | src/main/java/com/thoughtworks/tddintro/exercises/library/Library.java:27-48 | removing a title that was just appended and not present before restores the list |
| ExercisesLibrary.ReadLine | src/main/java/com/thoughtworks/tddintro/exercises/library/Library.java:33-41 | a line read comes back as its text; an ended stream or an IOException comes back as null, and no exception escapes |
| ExercisesLibrary.Library.constructor | src/main/java/com/thoughtworks/tddintro/exercises/library/Library.java:13-17 | the catalog starts with the given titles and nothing printed |
| ExercisesLibrary.Library.ListBooks | src/main/java/com/thoughtworks/tddintro/exercises/library/Library.java:19-25 | exactly one println, of each title followed by "\n" in list order; the titles are unchanged |
| ExercisesLibrary.Library.EnterBook | src/main/java/com/thoughtworks/tddintro/exercises/library/Library.java:27-31 | prints the add prompt, then appends the line read (null on a failed read) as the new last title |
| ExercisesLibrary.Library.RemoveBook | src/main/java/com/thoughtworks/tddintro/exercises/library/Library.java:43-49 | prints the remove prompt, then removes the first title equal to the line read; an absent title leaves the list unchanged |
| ExercisesLibrary.ListOnce | src/test/java/com/thoughtworks/tddintro/exercises/library/LibraryTest.java:34-50 | a listing is one printed line; an empty catalog prints one empty line; ["Book Title"] prints "Book Title\n" |
| ExercisesLibrary.AddBookWhenEnteredByUser | src/test/java/com/thoughtworks/tddintro/exercises/library/LibraryTest.java:58-63 | entering a title into an empty catalog leaves exactly that title, after one prompt |
| ExercisesLibrary.DeleteBookWhenRemovedByUser | src/test/java/com/thoughtworks/tddintro/exercises/library/LibraryTest.java:65-74 | removing the only title, when the user types it, empties the catalog |
| ExercisesLibrary.FailedReadAddsNull | src/main/java/com/thoughtworks/tddintro/exercises/library/Library.java:27-48 | a failed read appends null; a later read that ends the stream removes that null again |
| WelcomeLibrary.WelcomeLine | src/main/java/com/thoughtworks/tddintro/library/Library.java:28 | the line is the fixed greeting followed by the formatted time, verbatim |
| WelcomeLibrary.Library.constructor | src/main/java/com/thoughtworks/tddintro/library/Library.java:14-18 | the catalog starts with the given titles and formatter, and nothing printed |
| WelcomeLibrary.Library.ListBooks | src/main/java/com/thoughtworks/tddintro/library/Library.java:20-24 | one println per title, each the title itself, in list order (none for an empty list); the titles are unchanged |
| WelcomeLibrary.Library.Welcome | src/main/java/com/thoughtworks/tddintro/library/Library.java:26-29 | exactly one println: the greeting followed by the formatter's output for the date; the titles are unchanged |
| WelcomeLibrary.ListTwice | src/test/java/com/thoughtworks/library/LibraryTest.java:27-51 | two listings with no change between them print the same lines, one per title |
| WelcomeLibrary.DisplayFormattedTime | src/test/java/com/thoughtworks/library/LibraryTest.java:61-95 | the welcome is one line that starts with the greeting and ends with the formatted time verbatim, and is just the greeting when that time is "" |

## Left out

- Null values in the welcome catalog are not modelled. Titles are `seq<string>`, so a `null` title, which `println` prints as `null`, is not represented. The formatter is a total function, so the `NullPointerException` that `welcome` throws with a `null` formatter is not represented either.
- Null handling in the joiners: a `null` element or delimiter, which Java's `+` renders as `null`, is not modelled. Lists are `seq<string>`.
- The joiners' argument list is passed as a value. That `join` leaves the caller's list unchanged therefore holds by construction. The copy made by `new ArrayList<>(strings)` and its `remove(0)` are a local sequence and its tail.
- Sharing of the `books` list with the caller is not modelled. Each catalog holds its titles in its own field, so a caller's later changes to the same Java list are not seen.
- `PrintStream` and `println`: only the arguments of the calls are recorded, not the line separators written.
- `e.printStackTrace()` in `readLine` writes to standard error. It is not modelled.
- `BufferedReader`: only the outcome of one `readLine` call is modelled. Its buffering and the console behind it are not.
- Joda `DateTime` and `DateTimeFormatter`: an instant is an opaque value, and formatting is an arbitrary function given to the constructor.
- The other exercises (shapes, products, Demeter chain, greeting printers, factorial, book banner, `Application`, the `Main` classes) are not part of this model.
