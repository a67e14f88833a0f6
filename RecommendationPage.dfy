/**
 * The recommendation page's client state: the prompt, the movies shown, one
 * expanded flag per movie card, the loading flag, the error message and the
 * "no movies found" flag, and the rules for showing a card's overview.
 */
module RecommendationPage {
  import opened Wrappers

  /** A movie card as the page types it. */
  datatype Movie = Movie(
    moviesName: Option<string>,
    title: string,
    overview: string,
    posterPath: Option<string>,
    rating: real,
    release: string,
    youtubeLink: Option<string>)

  /** The single entry shown with the "no movies found" message. */
  const Placeholder := Movie(Some("Fallback Recommendation"), "", "", None, 0.0, "", None)
  const ApiErrorDefault := "An error occurred with the API request"
  const UnexpectedError := "An unexpected error occurred"
  const OverviewLimit := 250

  /**
   * How the POST to the recommendation endpoint ended: with the response data,
   * with an HTTP-client error (carrying the body's `error` field, if any), or
   * with any other exception.
   */
  datatype PostOutcome = Received(data: seq<Movie>) | ClientError(serverError: Option<string>) | OtherFailure

  /**
   * The error message a submission leaves: none on success; the server's
   * `error` string when the HTTP client failed and it is non-empty; a fixed
   * message otherwise. A message that is set is never empty, so it is always shown.
   */
  function ErrorMessage(outcome: PostOutcome): (r: Option<string>)
    ensures r.None? <==> outcome.Received?
    ensures r.Some? ==> r.value != ""
    ensures outcome.ClientError? && outcome.serverError.Some? && outcome.serverError.value != "" ==>
      r == outcome.serverError
    ensures outcome.ClientError? && (outcome.serverError.None? || outcome.serverError.value == "") ==>
      r == Some(ApiErrorDefault)
    ensures outcome.OtherFailure? ==> r == Some(UnexpectedError)
  {
    match outcome
    case Received(_) => None
    case ClientError(e) => if e.Some? && e.value != "" then e else Some(ApiErrorDefault)
    case OtherFailure => Some(UnexpectedError)
  }

  /** `prev.map((state, i) => i === index ? !state : state)`. */
  function Toggle(states: seq<bool>, index: int): (r: seq<bool>)
    ensures |r| == |states|
    ensures forall i :: 0 <= i < |states| && i != index ==> r[i] == states[i]
    ensures 0 <= index < |states| ==> r[index] == !states[index]
  {
    seq(|states|, i requires 0 <= i < |states| => if i == index then !states[i] else states[i])
  }

  /** An index outside the list matches no entry: nothing changes. */
  lemma ToggleOutOfRange(states: seq<bool>, index: int)
    requires index < 0 || index >= |states|
    ensures Toggle(states, index) == states
  {
  }

  /** Toggling the same card twice restores every flag. */
  lemma ToggleTwice(states: seq<bool>, index: int)
    ensures Toggle(Toggle(states, index), index) == states
  {
  }

  /** Toggling two different cards commutes. */
  lemma ToggleCommutes(states: seq<bool>, i: int, j: int)
    ensures Toggle(Toggle(states, i), j) == Toggle(Toggle(states, j), i)
  {
  }

  /** `expandedStates[index]`: a missing entry reads as `undefined`, which is falsy. */
  predicate IsExpanded(states: seq<bool>, index: int)
  {
    0 <= index < |states| && states[index]
  }

  /**
   * The overview text of a card. It is shown whole when the card is expanded
   * or is at most 250 characters long; otherwise it is its first 250
   * characters followed by `...`.
   */
  function OverviewShown(overview: string, expanded: bool): (r: string)
    ensures expanded || |overview| <= OverviewLimit ==> r == overview
    ensures !expanded && |overview| > OverviewLimit ==>
      |r| == OverviewLimit + 3 && r[..OverviewLimit] == overview[..OverviewLimit] && r[OverviewLimit..] == "..."
  {
    if expanded then overview
    else overview[..if |overview| < OverviewLimit then |overview| else OverviewLimit]
         + (if |overview| > OverviewLimit then "..." else "")
  }

  /** The Read More / Show Less button is shown exactly for overviews longer than 250 characters. */
  function HasToggleButton(overview: string): (r: bool)
    ensures r <==> |OverviewShown(overview, false)| > OverviewLimit
    ensures !r ==> OverviewShown(overview, false) == overview
  {
    |overview| > OverviewLimit
  }

  /** The button's label: Show Less on an expanded card, Read More on a collapsed one. */
  function ToggleLabel(expanded: bool): (r: string)
    ensures r == "Show Less" <==> expanded
    ensures r == "Read More" <==> !expanded
  {
    if expanded then "Show Less" else "Read More"
  }

  /** Pressing a card's button changes that card's label. */
  lemma ToggleFlipsLabel(states: seq<bool>, index: int)
    requires 0 <= index < |states|
    ensures ToggleLabel(IsExpanded(Toggle(states, index), index)) != ToggleLabel(IsExpanded(states, index))
  {
  }

  /** A card without the button always shows its whole overview, expanded or not. */
  lemma NoButtonShowsWhole(overview: string, expanded: bool)
    requires !HasToggleButton(overview)
    ensures OverviewShown(overview, expanded) == overview
  {
  }

  /**
   * A card with the button shows different text collapsed and expanded, so
   * pressing it changes what is shown, unless the overview is exactly 250
   * characters followed by `...`.
   */
  lemma ButtonChangesText(overview: string)
    requires HasToggleButton(overview)
    ensures OverviewShown(overview, false) == OverviewShown(overview, true)
            <==> overview == overview[..OverviewLimit] + "..."
  {
    if overview == overview[..OverviewLimit] + "..." {
      assert OverviewShown(overview, false) == overview[..OverviewLimit] + "...";
    }
  }

  /** The page component's state cells. */
  class Page {
    var prompt: string
    var movies: seq<Movie>
    var expandedStates: seq<bool>
    var loading: bool
    var error: Option<string>
    var showFallbackMessage: bool

    /**
     * The fallback entry comes alone and without flags; otherwise every card
     * has its expanded flag. While loading nothing is shown; a set error is
     * non-empty and comes without movies.
     */
    ghost predicate Valid()
      reads this
    {
      && (showFallbackMessage ==> movies == [Placeholder] && expandedStates == [])
      && (!showFallbackMessage ==> |expandedStates| == |movies|)
      && (loading ==> movies == [] && error == None && !showFallbackMessage)
      && (error.Some? ==> error.value != "" && movies == [] && !showFallbackMessage)
    }

    constructor ()
      ensures Valid()
      ensures prompt == "" && movies == [] && expandedStates == []
      ensures !loading && error == None && !showFallbackMessage
    {
      prompt := "";
      movies := [];
      expandedStates := [];
      loading := false;
      error := None;
      showFallbackMessage := false;
    }

    /** The input's `onChange`. */
    method SetPrompt(text: string)
      requires Valid()
      modifies this`prompt
      ensures Valid() && prompt == text
    {
      prompt := text;
    }

    /** The synchronous start of `handleSubmit`, before the request is awaited. */
    method BeginSubmit()
      requires Valid()
      modifies this
      ensures Valid()
      ensures loading && error == None && movies == [] && expandedStates == [] && !showFallbackMessage
      ensures prompt == old(prompt)
    {
      loading := true;
      error := None;
      movies := [];
      expandedStates := [];
      showFallbackMessage := false;
    }

    /**
     * The rest of `handleSubmit`, once the request has settled. An empty
     * answer shows the fallback entry with no flags; a non-empty one shows
     * the movies, all collapsed; a failure leaves no movies and sets the error.
     * Loading always ends.
     */
    method CompleteSubmit(outcome: PostOutcome)
      requires Valid() && loading
      modifies this
      ensures Valid()
      ensures !loading && error == ErrorMessage(outcome) && prompt == old(prompt)
      ensures outcome == Received([]) ==> showFallbackMessage && movies == [Placeholder] && expandedStates == []
      ensures outcome.Received? && outcome.data != [] ==>
        !showFallbackMessage && movies == outcome.data
        && |expandedStates| == |movies| && forall i :: 0 <= i < |expandedStates| ==> !expandedStates[i]
      ensures !outcome.Received? ==> !showFallbackMessage && movies == [] && expandedStates == []
    {
      match outcome {
        case Received(data) =>
          if |data| == 0 {
            showFallbackMessage := true;
            movies := [Placeholder];
          } else {
            movies := data;
            expandedStates := seq(|data|, _ => false);
          }
        case ClientError(e) =>
          error := ErrorMessage(outcome);
        case OtherFailure =>
          error := ErrorMessage(outcome);
      }
      loading := false;
    }

    /** `handleSubmit` as a whole: the resulting state depends only on how the request ended. */
    method HandleSubmit(outcome: PostOutcome)
      requires Valid()
      modifies this
      ensures Valid()
      ensures !loading && error == ErrorMessage(outcome) && prompt == old(prompt)
      ensures outcome == Received([]) ==> showFallbackMessage && movies == [Placeholder] && expandedStates == []
      ensures outcome.Received? && outcome.data != [] ==>
        !showFallbackMessage && movies == outcome.data
        && |expandedStates| == |movies| && forall i :: 0 <= i < |expandedStates| ==> !expandedStates[i]
      ensures !outcome.Received? ==> !showFallbackMessage && movies == [] && expandedStates == []
      ensures outcome.Received? && outcome.data != [] ==>
        forall i :: 0 <= i < |movies| ==> CardOverview(i) == OverviewShown(outcome.data[i].overview, false)
    {
      BeginSubmit();
      CompleteSubmit(outcome);
    }

    /** `toggleExpanded(index)`: flips the flag of one card and nothing else. */
    method ToggleExpanded(index: int)
      requires Valid()
      modifies this`expandedStates
      ensures Valid()
      ensures expandedStates == Toggle(old(expandedStates), index)
    {
      expandedStates := Toggle(expandedStates, index);
    }

    /**
     * The overview text card `index` shows. A card without a flag (past the
     * end of the flags) reads as collapsed.
     */
    function CardOverview(index: nat): (r: string)
      reads this
      requires index < |movies|
      ensures IsExpanded(expandedStates, index) ==> r == movies[index].overview
      ensures !IsExpanded(expandedStates, index) ==> r == OverviewShown(movies[index].overview, false)
    {
      OverviewShown(movies[index].overview, IsExpanded(expandedStates, index))
    }
  }
}
