/**
 * The list page: it loads every event once, shows those that match the
 * search box and the category selector, and creates new events from a
 * draft held in a modal form.
 */
module EventsPage {
  import opened Text
  import opened EventModel

  /** The create form's draft; its categories are the selector's text. */
  datatype Draft = Draft(
    title: string,
    description: string,
    image: string,
    startTime: string,
    endTime: string,
    categories: string,
    creator: string)

  /** The body of the list response: an array of records, or anything else. */
  datatype ListBody = EventArray(items: seq<Event>) | NotAnArray

  /** The draft the page starts with: every field blank. */
  const BlankDraft := Draft("", "", "", "", "", "", "")

  /**
   * The fields a draft has: the create form names no input `imageCreator`.
   * It has no `creator` input either, so on the page the draft's creator
   * stays blank; `Creator` is kept here because the draft and the posted
   * body carry it.
   */
  predicate InDraft(f: Field) {
    f != ImageCreator
  }

  /** The text of field `f` of draft `d`. */
  function DraftGet(d: Draft, f: Field): string
    requires InDraft(f)
  {
    match f
    case Title => d.title
    case Description => d.description
    case Image => d.image
    case Creator => d.creator
    case StartTime => d.startTime
    case EndTime => d.endTime
    case Categories => d.categories
  }

  /** `{ ...prevState, [f]: text }` on the draft: field `f` holds `text`, the others are kept. */
  function WithDraftField(d: Draft, f: Field, text: string): (r: Draft)
    requires InDraft(f)
    ensures DraftGet(r, f) == text
    ensures forall g :: InDraft(g) && g != f ==> DraftGet(r, g) == DraftGet(d, g)
  {
    match f
    case Title => d.(title := text)
    case Description => d.(description := text)
    case Image => d.(image := text)
    case Creator => d.(creator := text)
    case StartTime => d.(startTime := text)
    case EndTime => d.(endTime := text)
    case Categories => d.(categories := text)
  }

  /**
   * The body `handleSubmit` posts: the draft with its categories text split
   * on commas and trimmed, one piece more than there are commas.
   */
  function CreateBody(d: Draft): (r: PostBody)
    ensures r.title == d.title && r.description == d.description && r.image == d.image
    ensures r.startTime == d.startTime && r.endTime == d.endTime && r.creator == d.creator
    ensures |r.categories| == CommaCount(d.categories) + 1
    ensures forall k :: 0 <= k < |r.categories| ==> !Padded(r.categories[k]) && ',' !in r.categories[k]
    ensures forall k :: 0 <= k < |r.categories| ==> r.categories[k] == Trim(Split(d.categories)[k])
  {
    SplitTrimPieces(d.categories);
    PostBody(d.title, d.description, d.image, d.startTime, d.endTime, SplitTrim(d.categories), d.creator)
  }

  /** Trimming a space followed by an unpadded text gives that text. */
  lemma TrimAfterSpace(t: string)
    requires !Padded(t)
    ensures Trim(" " + t) == t
  {
    assert (" " + t)[1..] == t;
    assert TrimStart(" " + t) == TrimStart(t);
    TrimUnpadded(t);
  }

  /** "a, b" splits into "a" and " b". */
  lemma SplitTwoCategories(s: string, a: string, b: string)
    requires s == a + ", " + b
    requires ',' !in a && ',' !in b
    ensures Split(s) == [a, " " + b]
  {
    assert Join([a, " " + b]) == a + "," + (" " + b) == s;
    SplitJoin([a, " " + b]);
  }

  /** The pieces "a" and " b" trim to "a" and "b". */
  lemma TrimTwoCategories(s: string, a: string, b: string)
    requires Split(s) == [a, " " + b]
    requires !Padded(a) && !Padded(b)
    ensures |SplitTrim(s)| == 2 && SplitTrim(s)[0] == a && SplitTrim(s)[1] == b
  {
    SplitTrimPieces(s);
    TrimUnpadded(a);
    TrimAfterSpace(b);
  }

  /**
   * Two categories typed as "a, b" (say "Sport, Culture") are posted as the
   * array [a, b].
   */
  lemma CreateBodyTwoCategories(d: Draft, a: string, b: string)
    requires d.categories == a + ", " + b
    requires ',' !in a && ',' !in b && !Padded(a) && !Padded(b)
    ensures CreateBody(d).categories == [a, b]
  {
    SplitTwoCategories(d.categories, a, b);
    TrimTwoCategories(d.categories, a, b);
    PairOf(CreateBody(d).categories, a, b);
  }

  /**
   * A two-element sequence is the display of its elements; proved apart so
   * that the trimming facts above are not in its context.
   */
  lemma PairOf(r: seq<string>, a: string, b: string)
    requires |r| == 2 && r[0] == a && r[1] == b
    ensures r == [a, b]
  {
  }

  /**
   * The filter predicate: the lower-cased title contains the lower-cased
   * search term, and, when a category is selected (a non-empty string),
   * the categories are an array holding exactly that category.
   */
  predicate Matches(e: Event, term: string, category: string)
    ensures term == "" && category == "" ==> Matches(e, term, category)
    ensures Matches(e, term, category) ==> |term| <= |e.title|
    ensures e.categories.Str? && category != "" ==> !Matches(e, term, category)
  {
    IncludesEmpty(Lower(e.title));
    Includes(Lower(e.title), Lower(term))
    && (category != "" ==> e.categories.Arr? && category in e.categories.items)
  }

  /** `filteredEvents`: the events that match, in their original order. */
  function Filter(events: seq<Event>, term: string, category: string): (r: seq<Event>)
    ensures |r| <= |events|
    ensures forall k :: 0 <= k < |r| ==> Matches(r[k], term, category)
  {
    if events == [] then []
    else
      (if Matches(events[0], term, category) then [events[0]] else [])
      + Filter(events[1..], term, category)
  }

  /** Filtering a concatenation filters each part and keeps the parts in order. */
  lemma {:induction false} FilterAppend(a: seq<Event>, b: seq<Event>, term: string, category: string)
    ensures Filter(a + b, term, category) == Filter(a, term, category) + Filter(b, term, category)
    decreases |a|
  {
    if a != [] {
      assert (a + b)[0] == a[0];
      assert (a + b)[1..] == a[1..] + b;
      FilterAppend(a[1..], b, term, category);
    } else {
      assert a + b == b;
    }
  }

  /**
   * The filter neither drops, duplicates nor invents: each event occurs in
   * the result as often as in the input when it matches, and never otherwise.
   */
  lemma {:induction false} FilterCount(events: seq<Event>, term: string, category: string, e: Event)
    ensures multiset(Filter(events, term, category))[e]
      == if Matches(e, term, category) then multiset(events)[e] else 0
    decreases |events|
  {
    if events != [] {
      FilterCount(events[1..], term, category, e);
      assert events == [events[0]] + events[1..];
    }
  }

  /** An event is shown exactly when it is loaded and matches. */
  lemma FilterMembership(events: seq<Event>, term: string, category: string, e: Event)
    ensures e in Filter(events, term, category) <==> e in events && Matches(e, term, category)
  {
    FilterCount(events, term, category, e);
  }

  /** `shown` is the events of `events` at the positions `idx`, in that order. */
  predicate PicksAt(events: seq<Event>, shown: seq<Event>, idx: seq<nat>) {
    |idx| == |shown| && forall k :: 0 <= k < |idx| ==> idx[k] < |events| && shown[k] == events[idx[k]]
  }

  predicate Increasing(idx: seq<nat>) {
    forall k, l :: 0 <= k < l < |idx| ==> idx[k] < idx[l]
  }

  /** `idx` holds exactly the positions of the events that match. */
  predicate MatchingPositions(events: seq<Event>, idx: seq<nat>, term: string, category: string) {
    forall i :: 0 <= i < |events| ==> (i in idx <==> Matches(events[i], term, category))
  }

  /** `FilterMembership` for every event at once. */
  lemma FilterMembershipAll(events: seq<Event>, term: string, category: string)
    ensures forall e :: e in Filter(events, term, category) <==> e in events && Matches(e, term, category)
  {
    forall e ensures e in Filter(events, term, category) <==> e in events && Matches(e, term, category) {
      FilterMembership(events, term, category, e);
    }
  }

  /**
   * The result is a subsequence in the original order: `idx` lists, in
   * increasing order, the positions of the matching events, and the result
   * is the events at those positions.
   */
  lemma {:induction false} FilterPositions(events: seq<Event>, term: string, category: string)
    returns (idx: seq<nat>)
    ensures |idx| == |Filter(events, term, category)|
    ensures forall k :: 0 <= k < |idx| ==> idx[k] < |events| && Filter(events, term, category)[k] == events[idx[k]]
    ensures forall k, l :: 0 <= k < l < |idx| ==> idx[k] < idx[l]
    ensures forall i :: 0 <= i < |events| ==> (i in idx <==> Matches(events[i], term, category))
    decreases |events|
  {
    if events == [] {
      idx := [];
    } else {
      var rest := FilterPositions(events[1..], term, category);
      var head := Matches(events[0], term, category);
      idx := (if head then [0] else []) + Shifted(rest);
      ConsPicks(events, Filter(events[1..], term, category), rest, head);
      ConsIncreasing(rest, head);
      ConsMatching(events, rest, term, category);
    }
  }

  /** Positions for the tail, shifted, with 0 in front when the head is kept, pick the kept events. */
  lemma ConsPicks(events: seq<Event>, shownTail: seq<Event>, rest: seq<nat>, head: bool)
    requires events != [] && PicksAt(events[1..], shownTail, rest)
    ensures PicksAt(events, (if head then [events[0]] else []) + shownTail, (if head then [0] else []) + Shifted(rest))
  {
    var shifted := Shifted(rest);
    var idx := (if head then [0] else []) + shifted;
    var shown := (if head then [events[0]] else []) + shownTail;
    var d := if head then 1 else 0;
    forall k | 0 <= k < |idx| ensures idx[k] < |events| && shown[k] == events[idx[k]] {
      if k >= d {
        assert idx[k] == shifted[k - d] && shown[k] == shownTail[k - d];
        assert shownTail[k - d] == events[1..][rest[k - d]];
      }
    }
  }

  /** Shifting increasing positions and putting 0 in front keeps them increasing. */
  lemma ConsIncreasing(rest: seq<nat>, head: bool)
    requires Increasing(rest)
    ensures Increasing((if head then [0] else []) + Shifted(rest))
  {
    var shifted := Shifted(rest);
    var idx := (if head then [0] else []) + shifted;
    var d := if head then 1 else 0;
    forall k, l | 0 <= k < l < |idx| ensures idx[k] < idx[l] {
      assert idx[l] == shifted[l - d];
      if k >= d {
        assert idx[k] == shifted[k - d];
      }
    }
  }

  /** The shifted tail positions, with 0 when the head matches, are exactly the matching positions. */
  lemma ConsMatching(events: seq<Event>, rest: seq<nat>, term: string, category: string)
    requires events != [] && MatchingPositions(events[1..], rest, term, category)
    ensures MatchingPositions(events, (if Matches(events[0], term, category) then [0] else []) + Shifted(rest), term, category)
  {
    var shifted := Shifted(rest);
    var idx := (if Matches(events[0], term, category) then [0] else []) + shifted;
    forall i | 1 <= i < |events| ensures i in idx <==> Matches(events[i], term, category) {
      assert events[i] == events[1..][i - 1];
      assert i in idx <==> i in shifted;
    }
  }

  /** Every position of `positions` moved one place to the right. */
  function Shifted(positions: seq<nat>): (r: seq<nat>)
    ensures |r| == |positions|
    ensures forall k :: 0 <= k < |r| ==> r[k] == positions[k] + 1
    ensures forall i: nat :: i in r <==> i > 0 && i - 1 in positions
  {
    var r := seq(|positions|, k requires 0 <= k < |positions| => positions[k] + 1);
    assert forall k :: 0 <= k < |r| ==> r[k] == positions[k] + 1;
    forall i: nat ensures i in r <==> i > 0 && i - 1 in positions {
      if i > 0 && i - 1 in positions {
        var k :| 0 <= k < |positions| && positions[k] == i - 1;
        assert r[k] == i;
      }
    }
    r
  }

  /** When every event matches, the filter returns the events unchanged. */
  lemma {:induction false} FilterAllMatch(events: seq<Event>, term: string, category: string)
    requires forall k :: 0 <= k < |events| ==> Matches(events[k], term, category)
    ensures Filter(events, term, category) == events
    decreases |events|
  {
    if events != [] {
      FilterAllMatch(events[1..], term, category);
      assert events == [events[0]] + events[1..];
    }
  }

  /** An empty search term and no selected category show every loaded event. */
  lemma NoFilterShowsAll(events: seq<Event>)
    ensures Filter(events, "", "") == events
  {
    forall k | 0 <= k < |events| ensures Matches(events[k], "", "") {
      IncludesEmpty(Lower(events[k].title));
    }
    FilterAllMatch(events, "", "");
  }

  /**
   * Appending a created record to the loaded events appends it to the
   * visible list exactly when it matches the current search and category.
   */
  lemma AppendedRecordVisibility(events: seq<Event>, record: Event, term: string, category: string)
    ensures Filter(events + [record], term, category)
      == Filter(events, term, category) + (if Matches(record, term, category) then [record] else [])
  {
    FilterAppend(events, [record], term, category);
    assert [record][1..] == [];
  }

  /** A record whose categories are a string is hidden whenever a category is selected. */
  lemma StringCategoriesHiddenBySelection(events: seq<Event>, e: Event, term: string, category: string)
    requires e.categories.Str? && category != ""
    ensures e !in Filter(events, term, category)
  {
    FilterMembership(events, term, category, e);
  }

  /** Searching "ch" among "Chess Night" and "Yoga" shows only "Chess Night". */
  lemma SearchChessNight(chess: Event, yoga: Event)
    requires chess.title == "Chess Night" && chess.categories == Arr(["Games"])
    requires yoga.title == "Yoga" && yoga.categories == Arr(["Relaxation"])
    ensures Filter([chess, yoga], "ch", "") == [chess]
  {
    assert Lower("ch") == "ch";
    assert Lower("Chess Night")[0..2] == "ch";
    assert OccursAt(Lower("Chess Night"), "ch", 0);
    assert Lower("Yoga") == "yoga";
    NotIncludes("yoga", "ch");
    assert [chess, yoga][1..] == [yoga];
    assert [yoga][1..] == [];
  }

  /** The list page's state: the `useState` cells of `EventsPage` and the requests sent so far. */
  class ListPage {
    var events: seq<Event>
    var showModal: bool
    var newEvent: Draft
    var searchTerm: string
    var selectedCategory: string
    var requests: seq<Request>

    /** A freshly mounted page: nothing loaded, modal closed, blank draft and filters. */
    constructor ()
      ensures events == [] && !showModal && newEvent == BlankDraft
      ensures searchTerm == "" && selectedCategory == "" && requests == []
    {
      events := [];
      showModal := false;
      newEvent := BlankDraft;
      searchTerm := "";
      selectedCategory := "";
      requests := [];
    }

    /** The events on screen (`filteredEvents`). */
    function Visible(): (r: seq<Event>)
      reads this
      ensures forall e :: e in r <==> e in events && Matches(e, searchTerm, selectedCategory)
      ensures searchTerm == "" && selectedCategory == "" ==> r == events
    {
      FilterMembershipAll(events, searchTerm, selectedCategory);
      NoFilterShowsAll(events);
      Filter(events, searchTerm, selectedCategory)
    }

    /**
     * The mount effect: list the events; an array body replaces `events`,
     * anything else (a non-array body, a failed request) leaves them as they are.
     */
    method Load(response: Outcome<ListBody>)
      modifies this`events, this`requests
      ensures requests == old(requests) + [ListEvents]
      ensures response.Success? && response.value.EventArray? ==> events == response.value.items
      ensures response.Failure? || response.value.NotAnArray? ==> events == old(events)
    {
      requests := requests + [ListEvents];
      if response.Success? && response.value.EventArray? {
        events := response.value.items;
      }
    }

    /** `handleAddEvent`: open the create modal. */
    method HandleAddEvent()
      modifies this`showModal
      ensures showModal
    {
      showModal := true;
    }

    /** `handleCloseModal`: close the create modal; the draft is kept. */
    method HandleCloseModal()
      modifies this`showModal
      ensures !showModal
    {
      showModal := false;
    }

    /** `handleChange`: the draft's field `f` becomes `text`, every other field is kept. */
    method HandleChange(f: Field, text: string)
      requires InDraft(f)
      modifies this`newEvent
      ensures newEvent == WithDraftField(old(newEvent), f, text)
      ensures DraftGet(newEvent, f) == text
      ensures forall g :: InDraft(g) && g != f ==> DraftGet(newEvent, g) == DraftGet(old(newEvent), g)
    {
      newEvent := WithDraftField(newEvent, f, text);
    }

    /** The search box's change handler. */
    method Search(term: string)
      modifies this`searchTerm
      ensures searchTerm == term
      ensures Visible() == Filter(events, term, selectedCategory)
    {
      searchTerm := term;
    }

    /** The category selector's change handler; the empty string selects no category. */
    method SelectCategory(category: string)
      modifies this`selectedCategory
      ensures selectedCategory == category
      ensures Visible() == Filter(events, searchTerm, category)
    {
      selectedCategory := category;
    }

    /**
     * `handleSubmit`: post the draft with normalised categories; on a
     * response append the returned record and close the modal; on a failure
     * change nothing. The draft is kept either way.
     */
    method HandleSubmit(response: Outcome<Event>)
      modifies this`events, this`showModal, this`requests
      ensures requests == old(requests) + [CreateEvent(CreateBody(newEvent))]
      ensures response.Success? ==> events == old(events) + [response.value] && !showModal
      ensures response.Failure? ==> events == old(events) && showModal == old(showModal)
      ensures response.Success? ==>
        Visible() == old(Visible())
          + (if Matches(response.value, searchTerm, selectedCategory) then [response.value] else [])
    {
      requests := requests + [CreateEvent(CreateBody(newEvent))];
      if response.Success? {
        AppendedRecordVisibility(events, response.value, searchTerm, selectedCategory);
        events := events + [response.value];
        showModal := false;
      }
    }
  }
}
