/**
 * The site header: the search box, which sends the browser to the search
 * page, and the navigation links, of which the current page's is active.
 */
module Header {
  import opened Wrappers
  import Text

  const SearchPrefix := "/search?query="

  /**
   * `searchMovie`: the path the router is sent to, if any. The input is
   * absent when the field is not mounted. A blank input sends nowhere;
   * otherwise the path is the search prefix followed by the input with every
   * space turned into a hyphen.
   */
  function SearchTarget(input: Option<string>): (r: Option<string>)
    ensures r.None? <==> input.None? || Text.AllWhitespace(input.value)
    ensures r.Some? ==> r.value == SearchPrefix + Text.ReplaceChar(input.value, ' ', '-')
  {
    if input.None? then None
    else
      Text.TrimEmptyIffAllWhitespace(input.value);
      if Text.Trim(input.value) == [] then None
      else
        Text.SplitJoinReplaces(input.value, ' ', '-');
        Some(SearchPrefix + Text.Join(Text.Split(input.value, ' '), '-'))
  }

  /**
   * The query part keeps the input's length and every character other than
   * a space where it was; spaces, leading and trailing ones included, become
   * hyphens; tabs and other white space pass through unchanged.
   */
  lemma SearchQueryShape(input: string)
    requires !Text.AllWhitespace(input)
    ensures var path := SearchTarget(Some(input)).value;
      && |path| == |SearchPrefix| + |input|
      && path[..|SearchPrefix|] == SearchPrefix
      && ' ' !in path[|SearchPrefix|..]
      && forall i :: 0 <= i < |input| ==>
           path[|SearchPrefix| + i] == if input[i] == ' ' then '-' else input[i]
  {
    var path := SearchTarget(Some(input)).value;
    var query := Text.ReplaceChar(input, ' ', '-');
    assert path[|SearchPrefix|..] == query;
    forall i | 0 <= i < |input|
      ensures path[|SearchPrefix| + i] == if input[i] == ' ' then '-' else input[i]
    {
      assert path[|SearchPrefix| + i] == query[i];
    }
  }

  /** A space-free query can be read back: splitting it on hyphens and joining with spaces gives the input when the input had no hyphen. */
  lemma SearchQueryInvertible(input: string)
    requires !Text.AllWhitespace(input) && '-' !in input
    ensures Text.Join(Text.Split(SearchTarget(Some(input)).value[|SearchPrefix|..], '-'), ' ') == input
  {
    var parts := Text.Split(input, ' ');
    var query := Text.Join(parts, '-');
    Text.SplitJoinReplaces(input, ' ', '-');
    assert SearchTarget(Some(input)).value[|SearchPrefix|..] == query;
    forall i | 0 <= i < |parts| ensures '-' !in parts[i] {
      NoHyphenInSegments(input, i);
    }
    Text.SplitJoin(parts, '-');
    Text.JoinSplit(input, ' ');
  }

  /** Splitting a hyphen-free string yields hyphen-free segments. */
  lemma {:induction false} NoHyphenInSegments(s: string, i: nat)
    requires '-' !in s && i < |Text.Split(s, ' ')|
    ensures '-' !in Text.Split(s, ' ')[i]
  {
    Text.JoinSplit(s, ' ');
    SegmentInJoin(Text.Split(s, ' '), ' ', i);
  }

  /** Every character of a part occurs in the joined string. */
  lemma {:induction false} SegmentInJoin(parts: seq<string>, sep: char, i: nat)
    requires i < |parts|
    ensures forall c :: c in parts[i] ==> c in Text.Join(parts, sep)
  {
    if |parts| > 1 {
      if i > 0 {
        SegmentInJoin(parts[1..], sep, i - 1);
      }
      assert Text.Join(parts, sep) == parts[0] + [sep] + Text.Join(parts[1..], sep);
    }
  }

  datatype NavLink = NavLink(path: string, description: string)

  const NavLinks := [
    NavLink("/", "Home"),
    NavLink("/movie/get-recommendation", "Get Recommendation"),
    NavLink("/movie/upcoming", "Upcoming"),
    NavLink("/movie/top-rated", "Top Rated")
  ]

  /** The `active` flag of each navigation link for the router's current path. */
  function ActiveFlags(pathname: string): (r: seq<bool>)
    ensures |r| == |NavLinks|
    ensures forall i :: 0 <= i < |NavLinks| ==> (r[i] <==> NavLinks[i].path == pathname)
  {
    seq(|NavLinks|, i requires 0 <= i < |NavLinks| => NavLinks[i].path == pathname)
  }

  /** The links have distinct paths, so at most one is active, and exactly one on a page the menu names. */
  lemma AtMostOneActive(pathname: string)
    ensures forall i, j :: 0 <= i < j < |NavLinks| ==> !(ActiveFlags(pathname)[i] && ActiveFlags(pathname)[j])
    ensures (exists i :: 0 <= i < |NavLinks| && ActiveFlags(pathname)[i]) <==>
            pathname in {"/", "/movie/get-recommendation", "/movie/upcoming", "/movie/top-rated"}
  {
    var flags := ActiveFlags(pathname);
    if pathname in {"/", "/movie/get-recommendation", "/movie/upcoming", "/movie/top-rated"} {
      var k := if pathname == "/" then 0
               else if pathname == "/movie/get-recommendation" then 1
               else if pathname == "/movie/upcoming" then 2 else 3;
      assert flags[k];
    }
  }
}
