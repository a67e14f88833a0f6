/**
 * The upcoming-movies page: the genre filter applied to each fetched page,
 * the rule that picks the next page to fetch, and the genre selector that
 * turns the chosen option's value into a genre.
 */
module UpcomingPage {
  import opened Wrappers

  /** One movie of a result page. */
  datatype Listing = Listing(id: int, title: string, posterPath: string, genreIds: seq<nat>)

  /** One page of TMDB's upcoming-movies answer. */
  datatype ResultPage = ResultPage(page: int, totalPages: int, totalResults: int, results: seq<Listing>)

  /** `selectedGenre` is truthy: a genre is selected and it is not 0. */
  predicate GenreSelected(selected: Option<nat>)
  {
    selected.Some? && selected.value != 0
  }

  /** `results.filter(movie => movie.genre_ids.includes(genre))`. */
  function FilterGenre(results: seq<Listing>, genre: nat): (r: seq<Listing>)
    ensures |r| <= |results|
    ensures forall i :: 0 <= i < |r| ==> genre in r[i].genreIds
  {
    if results == [] then []
    else
      var rest := FilterGenre(results[1..], genre);
      if genre in results[0].genreIds then [results[0]] + rest else rest
  }

  /** `r` is `s` with some entries left out, the rest in their original order. */
  predicate IsSubsequence(r: seq<Listing>, s: seq<Listing>)
    decreases |s|
  {
    if r == [] then true
    else if s == [] then false
    else (r[0] == s[0] && IsSubsequence(r[1..], s[1..])) || IsSubsequence(r, s[1..])
  }

  /** The filter keeps the results it keeps in their original order. */
  lemma {:induction false} FilterIsSubsequence(results: seq<Listing>, genre: nat)
    ensures IsSubsequence(FilterGenre(results, genre), results)
  {
    if results != [] {
      FilterIsSubsequence(results[1..], genre);
      var rest := FilterGenre(results[1..], genre);
      if genre in results[0].genreIds {
        assert ([results[0]] + rest)[1..] == rest;
      }
    }
  }

  /**
   * The filter drops exactly the results without the genre: each listing
   * with the genre is kept as often as it occurs, each one without it never.
   */
  lemma {:induction false} FilterKeepsExactlyMatching(results: seq<Listing>, genre: nat, m: Listing)
    ensures multiset(FilterGenre(results, genre))[m] == if genre in m.genreIds then multiset(results)[m] else 0
  {
    if results != [] {
      FilterKeepsExactlyMatching(results[1..], genre, m);
      assert results == [results[0]] + results[1..];
    }
  }

  /**
   * The `queryFn` result for a fetched page: with a genre selected, only the
   * results are filtered and every other field is copied; without one the
   * page is returned as fetched.
   */
  function ApplyGenreFilter(fetched: ResultPage, selected: Option<nat>): (r: ResultPage)
    ensures r.page == fetched.page && r.totalPages == fetched.totalPages && r.totalResults == fetched.totalResults
    ensures !GenreSelected(selected) ==> r == fetched
    ensures GenreSelected(selected) ==> forall i :: 0 <= i < |r.results| ==> selected.value in r.results[i].genreIds
    ensures |r.results| <= |fetched.results|
    ensures GenreSelected(selected) ==> r.results == FilterGenre(fetched.results, selected.value)
  {
    if GenreSelected(selected) then
      fetched.(results := FilterGenre(fetched.results, selected.value))
    else
      fetched
  }

  /**
   * `getNextPageParam`: the page after the last one fetched while that one
   * is before the last page, and none (no more pages) otherwise.
   */
  function NextPageParam(page: int, totalPages: int): (r: Option<int>)
    ensures r.Some? <==> page < totalPages
    ensures r.Some? ==> page < r.value <= totalPages
    ensures r.Some? ==> r.value == page + 1
  {
    if page < totalPages then Some(page + 1) else None
  }

  /** Filtering never changes which page is fetched next. */
  lemma FilterKeepsNextPage(fetched: ResultPage, selected: Option<nat>)
    ensures NextPageParam(ApplyGenreFilter(fetched, selected).page, ApplyGenreFilter(fetched, selected).totalPages)
            == NextPageParam(fetched.page, fetched.totalPages)
  {
  }

  /**
   * The pages fetched starting at `page` by loading more until no next page
   * is returned, assuming each answer reports the page that was asked for.
   */
  function PageChain(page: int, totalPages: int): seq<int>
    decreases totalPages - page
  {
    match NextPageParam(page, totalPages)
    case None => [page]
    case Some(next) => [page] + PageChain(next, totalPages)
  }

  /** Loading more from `page` fetches every page up to the last one, once each and in order. */
  lemma {:induction false} PageChainVisitsEachPage(page: int, totalPages: int)
    ensures |PageChain(page, totalPages)| == if page < totalPages then totalPages - page + 1 else 1
    ensures forall i :: 0 <= i < |PageChain(page, totalPages)| ==> PageChain(page, totalPages)[i] == page + i
    decreases totalPages - page
  {
    if page < totalPages {
      PageChainVisitsEachPage(page + 1, totalPages);
    }
  }

  predicate IsDigit(c: char)
  {
    '0' <= c <= '9'
  }

  predicate AllDigits(s: string)
  {
    forall i :: 0 <= i < |s| ==> IsDigit(s[i])
  }

  /** The value of a string of decimal digits. */
  function DigitsValue(s: string): nat
    requires AllDigits(s)
  {
    if s == [] then 0 else DigitsValue(s[..|s| - 1]) * 10 + (s[|s| - 1] as int - '0' as int)
  }

  /** `String(n)` for a genre id: its decimal digits, without leading zeros. */
  function Decimal(n: nat): (r: string)
    ensures r != [] && AllDigits(r) && DigitsValue(r) == n
    ensures |r| > 1 ==> r[0] != '0'
  {
    var last := [('0' as int + n % 10) as char];
    if n < 10 then last
    else
      var front := Decimal(n / 10);
      var r := front + last;
      assert r[..|r| - 1] == front;
      r
  }

  /**
   * `Number(value)` for the values an option can carry: 0 for the empty
   * string, the value of a string of decimal digits, and NaN (`None`) for
   * anything else.
   */
  function NumberValue(value: string): (r: Option<nat>)
    ensures value == "" ==> r == Some(0)
    ensures r.None? <==> !AllDigits(value)
    ensures AllDigits(value) ==> r == Some(DigitsValue(value))
  {
    if AllDigits(value) then Some(DigitsValue(value)) else None
  }

  /**
   * The selector's `onChange`: `Number(value) || null`. The empty value of
   * "All Genres", a value that is not a number and the value `0` all select
   * no genre; a selected genre is never 0.
   */
  function SelectGenre(value: string): (r: Option<nat>)
    ensures value == "" ==> r == None
    ensures !AllDigits(value) ==> r == None
    ensures r.Some? ==> r.value != 0 && AllDigits(value) && DigitsValue(value) == r.value
    ensures AllDigits(value) && DigitsValue(value) != 0 ==> r == Some(DigitsValue(value))
  {
    match NumberValue(value)
    case Some(n) => if n != 0 then Some(n) else None
    case None => None
  }

  /** The selector's shown value, `selectedGenre || ''`. */
  function SelectValue(selected: Option<nat>): (r: string)
    ensures r == "" <==> !GenreSelected(selected)
    ensures GenreSelected(selected) ==> AllDigits(r) && DigitsValue(r) == selected.value
  {
    if GenreSelected(selected) then Decimal(selected.value) else ""
  }

  /** Choosing the option of genre `id` selects exactly that genre. */
  lemma ChoosingGenreSelectsIt(id: nat)
    requires id != 0
    ensures SelectGenre(Decimal(id)) == Some(id)
  {
  }

  /** The selector shows the selected genre: reading its value back gives the same selection. */
  lemma SelectRoundTrip(selected: Option<nat>)
    requires selected.None? || selected.value != 0
    ensures SelectGenre(SelectValue(selected)) == selected
  {
  }
}
