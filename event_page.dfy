/**
 * The detail page: it loads one event, keeps the loaded record beside the
 * record being edited so that an edit can be abandoned, saves edits with a
 * full-record update and deletes the event after a confirmation.
 */
module EventPage {
  import opened Text
  import opened EventModel

  /** The page's state: the record shown and edited, the last loaded or saved record, and the edit flag. */
  datatype View = View(event: Option<Event>, original: Option<Event>, editing: bool)

  /** The page as mounted: nothing loaded yet, so it shows the loading text. */
  const Loading := View(None, None, false)

  /** What can happen on the page; network actions carry what their request delivered. */
  datatype Action =
    | Fetched(fetched: Outcome<Event>)     // the mount effect's GET resolves
    | Edit                                 // the edit button
    | Change(field: Field, text: string)   // an input of the edit form
    | Clear                                // the clear button
    | Cancel                               // the cancel button, or closing the modal
    | Save(saved: Outcome<Event>)          // the save button, with what the PUT delivered
    | Delete(confirmed: bool)              // the delete button, with the confirmation answer

  /**
   * The actions the rendered page offers in state `v`: nothing but the
   * loading text until a record is loaded, the edit and delete buttons once
   * it is, and the edit form's inputs and buttons only while editing.
   */
  predicate Enabled(v: View, a: Action)
    ensures Enabled(v, a) && !a.Fetched? ==> v.event.Some?
    ensures a.Fetched? ==> Enabled(v, a)
  {
    match a
    case Fetched(_) => true
    case Edit => v.event.Some?
    case Delete(_) => v.event.Some?
    case Cancel => v.editing && v.event.Some?
    case Change(_, _) => v.editing && v.event.Some?
    case Clear => v.editing && v.event.Some?
    case Save(_) => v.editing && v.event.Some?
  }

  /** The record `handleSave` sends: the edited record with its categories normalised. */
  function SaveBody(e: Event): (r: Event)
    ensures r.id == e.id
    ensures forall f :: f != Categories ==> Get(r, f) == Get(e, f)
    ensures r.categories.Arr?
    ensures e.categories.Arr? ==> r == e
    ensures e.categories.Str? ==> r.categories.items == SplitTrim(e.categories.text)
  {
    e.(categories := NormalizeCategories(e.categories))
  }

  /** Clearing the form and then saving sends one empty category, not an empty array. */
  lemma ClearThenSaveSendsEmptyCategory(e: Event)
    ensures SaveBody(Cleared(e)).categories == Arr([""])
  {
    assert Split("") == [""];
    SplitTrimPieces("");
    assert TrimEnd(TrimStart("")) == "";
  }

  /** The state after `a`, in a state that offers it. */
  function Step(v: View, a: Action): (r: View)
    requires Enabled(v, a)
    ensures !a.Fetched? && !a.Save? ==> r.original == v.original
    ensures r.editing != v.editing ==> a.Edit? || a.Cancel? || a.Save?
    ensures a.Delete? ==> r == v
  {
    match a
    case Fetched(Success(e)) => View(Some(e), Some(e), v.editing)
    case Fetched(Failure) => v
    case Edit => v.(editing := true)
    case Change(f, text) => v.(event := Some(WithField(v.event.value, f, text)))
    case Clear => v.(event := Some(Cleared(v.event.value)))
    case Cancel => v.(event := v.original, editing := false)
    case Save(Success(e)) => View(Some(e), Some(e), false)
    case Save(Failure) => v
    case Delete(_) => v
  }

  /** The state after a sequence of user and network actions; an action the page does not offer does nothing. */
  function Run(v: View, actions: seq<Action>): (r: View)
    ensures (forall k :: 0 <= k < |actions| ==> !actions[k].Fetched? && !actions[k].Save?) ==> r.original == v.original
    decreases |actions|
  {
    if actions == [] then v
    else
      var a := actions[0];
      assert forall k :: 0 <= k < |actions| - 1 ==> actions[1..][k] == actions[k + 1];
      Run(if Enabled(v, a) then Step(v, a) else v, actions[1..])
  }

  /**
   * The page's invariant: a record is shown exactly when one has been
   * loaded, and outside the edit form the shown record is the loaded one.
   */
  ghost predicate Consistent(v: View) {
    (v.event.Some? <==> v.original.Some?) && (!v.editing ==> v.event == v.original)
  }

  /** Every action the page offers keeps the invariant. */
  lemma StepConsistent(v: View, a: Action)
    requires Consistent(v) && Enabled(v, a)
    ensures Consistent(Step(v, a))
  {
  }

  /** The invariant holds all along any run from the mounted page. */
  lemma {:induction false} RunConsistent(v: View, actions: seq<Action>)
    requires Consistent(v)
    ensures Consistent(Run(v, actions))
    decreases |actions|
  {
    if actions != [] {
      var a := actions[0];
      if Enabled(v, a) {
        StepConsistent(v, a);
      }
      RunConsistent(if Enabled(v, a) then Step(v, a) else v, actions[1..]);
    }
  }

  /** No action but a successful fetch loads a record: the page keeps showing the loading text. */
  lemma {:induction false} LoadingUntilFetched(actions: seq<Action>)
    requires forall k :: 0 <= k < |actions| ==> !(actions[k].Fetched? && actions[k].fetched.Success?)
    ensures Run(Loading, actions) == Loading
    decreases |actions|
  {
    if actions != [] {
      assert !Enabled(Loading, actions[0]) || Step(Loading, actions[0]) == Loading;
      LoadingUntilFetched(actions[1..]);
    }
  }

  /** Form inputs and the clear button. */
  predicate IsFormEdit(a: Action) {
    a.Change? || a.Clear?
  }

  /** Form edits keep the loaded record and the edit form open, and leave a record shown. */
  lemma {:induction false} FormEditsKeepOriginal(v: View, edits: seq<Action>)
    requires v.editing && v.event.Some?
    requires forall k :: 0 <= k < |edits| ==> IsFormEdit(edits[k])
    ensures Run(v, edits).original == v.original
    ensures Run(v, edits).editing && Run(v, edits).event.Some?
    decreases |edits|
  {
    if edits != [] {
      FormEditsKeepOriginal(Step(v, edits[0]), edits[1..]);
    }
  }

  /**
   * Edit, any number of input changes and clears, then cancel: the page is
   * back where it was, the record shown being the one loaded before the edit.
   */
  lemma CancelRestoresPreEdit(v: View, edits: seq<Action>)
    requires Consistent(v) && v.event.Some? && !v.editing
    requires forall k :: 0 <= k < |edits| ==> IsFormEdit(edits[k])
    ensures Run(v, [Edit] + edits + [Cancel]) == v
  {
    var w := Step(v, Edit);
    FormEditsKeepOriginal(w, edits);
    RunAppend(w, edits, [Cancel]);
    assert ([Edit] + edits + [Cancel])[1..] == edits + [Cancel];
  }

  /** Running two sequences one after the other is running their concatenation. */
  lemma {:induction false} RunAppend(v: View, first: seq<Action>, second: seq<Action>)
    ensures Run(v, first + second) == Run(Run(v, first), second)
    decreases |first|
  {
    if first != [] {
      var a := first[0];
      assert (first + second)[0] == a;
      assert (first + second)[1..] == first[1..] + second;
      RunAppend(if Enabled(v, a) then Step(v, a) else v, first[1..], second);
    } else {
      assert first + second == second;
    }
  }

  /** The detail page's state: the `useState` cells of `EventPage` and the requests sent so far. */
  class DetailPage {
    /** The route parameter naming the event. */
    const eventId: string
    var event: Option<Event>
    var originalEvent: Option<Event>
    var isEditing: bool
    var requests: seq<Request>

    function State(): View
      reads this
    {
      View(event, originalEvent, isEditing)
    }

    ghost predicate Valid()
      reads this
    {
      Consistent(State())
    }

    /** The page mounted for event `eventId`: loading, no request resolved. */
    constructor (eventId: string)
      ensures this.eventId == eventId && State() == Loading && requests == []
      ensures Valid()
    {
      this.eventId := eventId;
      event := None;
      originalEvent := None;
      isEditing := false;
      requests := [];
    }

    /**
     * The mount effect: fetch the event; a record sets both the shown and
     * the loaded record, a failure leaves the page as it was.
     */
    method Load(response: Outcome<Event>)
      requires Valid()
      modifies this
      ensures Valid()
      ensures State() == Step(old(State()), Fetched(response))
      ensures requests == old(requests) + [GetEvent(eventId)]
      ensures response.Success? ==> event == originalEvent == Some(response.value)
      ensures response.Failure? ==> event == old(event) && originalEvent == old(originalEvent)
      ensures isEditing == old(isEditing)
    {
      requests := requests + [GetEvent(eventId)];
      if response.Success? {
        event := Some(response.value);
        originalEvent := Some(response.value);
      }
    }

    /** `handleEdit`: open the edit form; neither record changes. */
    method HandleEdit()
      requires Valid() && event.Some?
      modifies this
      ensures Valid()
      ensures State() == Step(old(State()), Edit)
      ensures isEditing && event == old(event) && originalEvent == old(originalEvent)
      ensures requests == old(requests)
    {
      isEditing := true;
    }

    /** `handleChange`: only field `f` of the shown record changes. */
    method HandleChange(f: Field, text: string)
      requires Valid() && isEditing && event.Some?
      modifies this
      ensures Valid()
      ensures State() == Step(old(State()), Change(f, text))
      ensures event.Some? && event.value.id == old(event).value.id
      ensures Get(event.value, f) == Str(text)
      ensures forall g :: g != f ==> Get(event.value, g) == Get(old(event).value, g)
      ensures originalEvent == old(originalEvent) && isEditing == old(isEditing)
      ensures requests == old(requests)
    {
      event := Some(WithField(event.value, f, text));
    }

    /** `handleClear`: blank every form field of the shown record; its id and the loaded record are kept. */
    method HandleClear()
      requires Valid() && isEditing && event.Some?
      modifies this
      ensures Valid()
      ensures State() == Step(old(State()), Clear)
      ensures event.Some? && event.value.id == old(event).value.id
      ensures forall f :: Get(event.value, f) == Str("")
      ensures originalEvent == old(originalEvent) && isEditing == old(isEditing)
      ensures requests == old(requests)
    {
      event := Some(Cleared(event.value));
    }

    /** `handleCancel`: drop the edits, showing the loaded record again, and close the form. */
    method HandleCancel()
      requires Valid() && isEditing && event.Some?
      modifies this
      ensures Valid()
      ensures State() == Step(old(State()), Cancel)
      ensures event == originalEvent == old(originalEvent) && !isEditing
      ensures requests == old(requests)
    {
      event := originalEvent;
      isEditing := false;
    }

    /**
     * `handleSave`: send the shown record with normalised categories; the
     * returned record becomes both the shown and the loaded record and the
     * form closes; a failure changes nothing.
     */
    method HandleSave(response: Outcome<Event>)
      requires Valid() && isEditing && event.Some?
      modifies this
      ensures Valid()
      ensures State() == Step(old(State()), Save(response))
      ensures requests == old(requests) + [UpdateEvent(eventId, SaveBody(old(event).value))]
      ensures response.Success? ==> event == originalEvent == Some(response.value) && !isEditing
      ensures response.Failure? ==> State() == old(State())
    {
      requests := requests + [UpdateEvent(eventId, SaveBody(event.value))];
      if response.Success? {
        event := Some(response.value);
        originalEvent := Some(response.value);
        isEditing := false;
      }
    }

    /**
     * `handleDelete`: a confirmed delete sends exactly one DELETE for the
     * event; a declined one sends nothing. Neither changes the page's state.
     */
    method HandleDelete(confirmed: bool)
      requires Valid() && event.Some?
      modifies this
      ensures Valid()
      ensures State() == old(State())
      ensures confirmed ==> requests == old(requests) + [DeleteEvent(eventId)]
      ensures !confirmed ==> requests == old(requests)
    {
      if confirmed {
        requests := requests + [DeleteEvent(eventId)];
      }
    }
  }
}
