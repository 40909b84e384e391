/**
 * The joiner that takes the first element and then appends
 * "delimiter + s" for each remaining element s.
 */
module TddIntroStringJoiner {
  import JoinSpec

  class StringJoiner {
    /** Fixed at construction and never reassigned; may be empty. */
    const delimiter: string

    constructor (delimiter: string)
      ensures this.delimiter == delimiter
    {
      this.delimiter := delimiter;
    }

    /** Empty list: "". Otherwise the head followed by the delimited tail. */
    method Join(strings: seq<string>) returns (r: string)
      ensures r == JoinSpec.Join(strings, delimiter)
    {
      if |strings| != 0 {
        var firstString := strings[0];
        var remainingStrings := strings[1..];
        var tail := ConcatenateWithDelimiter(remainingStrings);
        JoinSpec.JoinIsHeadThenDelimited(strings, delimiter);
        return firstString + tail;
      }
      return "";
    }

    /** Accumulates "delimiter + s" for every element s, in list order. */
    method ConcatenateWithDelimiter(strings: seq<string>) returns (result: string)
      ensures result == JoinSpec.Delimited(strings, delimiter)
    {
      result := "";
      for i := 0 to |strings|
        invariant result == JoinSpec.Delimited(strings[..i], delimiter)
      {
        JoinSpec.DelimitedSnoc(strings[..i], strings[i], delimiter);
        assert strings[..i + 1] == strings[..i] + [strings[i]];
        result := result + (delimiter + strings[i]);
      }
      assert strings[..|strings|] == strings;
    }
  }
}
