/**
 * The contract both string joiners implement: the elements of a list, in
 * order, with one copy of the delimiter strictly between each adjacent pair
 * and none before the first or after the last.
 */
module JoinSpec {

  /** Reference definition of joining, one case per list shape. */
  function Join(strings: seq<string>, delimiter: string): (r: string)
  {
    if |strings| == 0 then ""
    else if |strings| == 1 then strings[0]
    else strings[0] + delimiter + Join(strings[1..], delimiter)
  }

  /** Every element, each preceded by one copy of the delimiter. */
  function Delimited(strings: seq<string>, delimiter: string): (r: string)
  {
    if strings == [] then ""
    else delimiter + strings[0] + Delimited(strings[1..], delimiter)
  }

  /** Plain concatenation of the elements, with nothing between them. */
  function Concat(strings: seq<string>): (r: string)
    ensures |r| == TotalLength(strings)
  {
    if strings == [] then "" else strings[0] + Concat(strings[1..])
  }

  /** Sum of the lengths of the elements. */
  function TotalLength(strings: seq<string>): (r: nat)
  {
    if strings == [] then 0 else |strings[0]| + TotalLength(strings[1..])
  }

  /**
   * For n >= 1 elements, the join is as long as the elements together plus
   * n - 1 delimiters; the empty list joins to "".
   */
  lemma {:induction false} JoinLength(strings: seq<string>, delimiter: string)
    ensures |strings| == 0 ==> Join(strings, delimiter) == ""
    ensures |strings| > 0 ==>
      |Join(strings, delimiter)| == TotalLength(strings) + (|strings| - 1) * |delimiter|
  {
    if |strings| > 1 {
      JoinLength(strings[1..], delimiter);
      calc {
        |Join(strings, delimiter)|;
        |strings[0]| + |delimiter| + TotalLength(strings[1..]) + (|strings| - 2) * |delimiter|;
        { assert (|strings| - 2) * |delimiter| + |delimiter| == (|strings| - 1) * |delimiter|; }
        TotalLength(strings) + (|strings| - 1) * |delimiter|;
      }
    } else if |strings| == 1 {
      assert strings[1..] == [];
    }
  }

  /** The delimited form holds the elements plus one delimiter per element. */
  lemma {:induction false} DelimitedLength(strings: seq<string>, delimiter: string)
    ensures |Delimited(strings, delimiter)| == TotalLength(strings) + |strings| * |delimiter|
  {
    if strings != [] {
      DelimitedLength(strings[1..], delimiter);
      assert (|strings| - 1) * |delimiter| + |delimiter| == |strings| * |delimiter|;
    }
  }

  /** Appending an element adds one delimiter and that element at the end. */
  lemma {:induction false} DelimitedSnoc(strings: seq<string>, s: string, delimiter: string)
    ensures Delimited(strings + [s], delimiter) == Delimited(strings, delimiter) + delimiter + s
  {
    if strings == [] {
      assert [] + [s] == [s];
    } else {
      assert (strings + [s])[1..] == strings[1..] + [s];
      DelimitedSnoc(strings[1..], s, delimiter);
    }
  }

  /** A non-empty join is the first element followed by the delimited rest. */
  lemma {:induction false} JoinIsHeadThenDelimited(strings: seq<string>, delimiter: string)
    requires |strings| > 0
    ensures Join(strings, delimiter) == strings[0] + Delimited(strings[1..], delimiter)
  {
    if |strings| > 1 {
      JoinIsHeadThenDelimited(strings[1..], delimiter);
      assert strings[1..][1..] == strings[2..];
    }
  }

  /** Joining a one-element list returns that element, with no delimiter added. */
  lemma SingletonJoin(s: string, delimiter: string)
    ensures Join([s], delimiter) == s
  {
  }

  /** Joining two lists puts exactly one delimiter between their joins. */
  lemma {:induction false} JoinAppend(a: seq<string>, b: seq<string>, delimiter: string)
    requires |a| > 0 && |b| > 0
    ensures Join(a + b, delimiter) == Join(a, delimiter) + delimiter + Join(b, delimiter)
  {
    if |a| > 1 {
      assert (a + b)[1..] == a[1..] + b;
      JoinAppend(a[1..], b, delimiter);
    } else {
      assert (a + b)[1..] == b;
    }
  }

  /** With an empty delimiter, joining is plain concatenation. */
  lemma {:induction false} JoinEmptyDelimiter(strings: seq<string>)
    ensures Join(strings, "") == Concat(strings)
  {
    if |strings| > 1 {
      JoinEmptyDelimiter(strings[1..]);
    } else if |strings| == 1 {
      assert strings[1..] == [];
    }
  }

  /** Adding an element to a non-empty list adds one delimiter and that element. */
  lemma JoinSnoc(strings: seq<string>, s: string, delimiter: string)
    requires |strings| > 0
    ensures Join(strings + [s], delimiter) == Join(strings, delimiter) + delimiter + s
  {
    JoinAppend(strings, [s], delimiter);
  }

  /** The tests' examples. */
  lemma JoinTestExamples()
    ensures Join([], "SomeDelimiter") == ""
    ensures Join(["A String"], "SomeDelimiter") == "A String"
    ensures Join(["A", "B"], ",") == "A,B"
  {
    assert ["A", "B"][1..] == ["B"];
  }

  /** A three-element list, and lists with empty elements. */
  lemma JoinEdgeExamples()
    ensures Join(["A", "B", "C"], "-") == "A-B-C"
    ensures Join(["", ""], ",") == ","
    ensures Join(["", "B"], ",") == ",B"
  {
    assert ["A", "B", "C"][1..] == ["B", "C"];
    assert ["B", "C"][1..] == ["C"];
    assert ["", ""][1..] == [""];
    assert ["", "B"][1..] == ["B"];
  }
}
