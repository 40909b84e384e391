/** A client of both joiners: for every list and delimiter they return the same string. */
module JoinersAgree {
  import JoinSpec
  import TddIntroStringJoiner
  import ThoughtworksStringJoiner

  method JoinBoth(strings: seq<string>, delimiter: string) returns (first: string, second: string)
    ensures first == second
    ensures first == JoinSpec.Join(strings, delimiter)
  {
    var tddIntro := new TddIntroStringJoiner.StringJoiner(delimiter);
    var thoughtworks := new ThoughtworksStringJoiner.StringJoiner(delimiter);
    first := tddIntro.Join(strings);
    second := thoughtworks.Join(strings);
  }
}
