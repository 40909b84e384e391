/**
 * The joiner that copies the list, removes the head from the copy,
 * starts from the head and appends "delimiter + s" for each element left.
 */
module ThoughtworksStringJoiner {
  import JoinSpec

  class StringJoiner {
    /** Fixed at construction and never reassigned; may be empty. */
    const delimiter: string

    constructor (delimiter: string)
      ensures this.delimiter == delimiter
    {
      this.delimiter := delimiter;
    }

    /**
     * The caller's list is a value here: the copy whose head is removed is
     * a local variable, so nothing the caller holds is changed.
     */
    method Join(strings: seq<string>) returns (result: string)
      ensures result == JoinSpec.Join(strings, delimiter)
      ensures |strings| > 0 ==> result[..|strings[0]|] == strings[0]
    {
      result := "";
      if |strings| > 0 {
        var allExceptFirstString := strings;
        result := result + allExceptFirstString[0];
        allExceptFirstString := allExceptFirstString[1..];
        for i := 0 to |allExceptFirstString|
          invariant result == strings[0] + JoinSpec.Delimited(allExceptFirstString[..i], delimiter)
        {
          var s := allExceptFirstString[i];
          JoinSpec.DelimitedSnoc(allExceptFirstString[..i], s, delimiter);
          assert allExceptFirstString[..i + 1] == allExceptFirstString[..i] + [s];
          result := result + (delimiter + s);
        }
        assert allExceptFirstString[..|allExceptFirstString|] == strings[1..];
        JoinSpec.JoinIsHeadThenDelimited(strings, delimiter);
      }
    }
  }
}
