# Deus evenementen: the events pages

This project models the two pages of the Deus evenementen single-page app
that hold its behaviour:

- **The list page** (`EventsPage`). It loads every event once. It shows the
  events whose title contains the search term, ignoring case, and, when a
  category is selected, whose categories array holds that category. It
  creates new events from a draft kept in a modal form. The draft's
  categories text is split on commas and trimmed before it is posted.
- **The detail page** (`EventPage`). It loads one event and keeps the loaded
  record beside the record being edited, so that cancelling an edit restores
  it. It can blank the form's fields. It saves with a full-record update,
  normalising the categories, and deletes after a confirmation.

Both pages colour an event's tag by its first category.

The model has four modules:

- `Text`: the string operations the pages use. These are ASCII lower-casing,
  `includes`, `trim` over the ECMAScript white-space characters, splitting on
  `,` and joining with `,`.
- `EventModel`: the event record and the field names the forms edit. It also
  holds the category colour table, the normalisation of categories and the
  requests sent to the `/events` resource.
- `EventsPage`: the filter and the create body as functions with their
  lemmas. The page's state cells are a class, `ListPage`, whose methods are
  the page's handlers.
- `EventPage`: the detail page as a pure transition system (`Step` and `Run`
  over user and network actions) with its invariant. The page's state cells
  are a class, `DetailPage`, whose handlers are proved to follow `Step`.

Each network request is an input to the handler that sends it. The input is
an `Outcome`: either the parsed body, or `Failure` for a request that was
rejected or whose body did not parse. Every page class records the requests
it sends in a `requests` field.

Where the code and its design description disagree, the model follows the
code:

- The create draft is not reset after a submit or after closing the modal.
  The handlers never call `setNewEvent` outside `handleChange`.
- Clearing the edit form and saving sends the categories `[""]`, not an empty
  array. `"".split(",")` is `[""]`.
- On a page with string categories, the detail page's tag is always gray.
  `categories[0]` of a string is its first character, and no known category
  is one character long.

## Model

| member | source | states |
|---|---|---|
| Text.Lower | src/pages/EventsPage.jsx:108 | lower-casing keeps the length, leaves no ASCII capital, keeps every other character and maps each capital to its small letter |
| Text.LowerIdempotent | src/pages/EventsPage.jsx:108 | lower-casing a lower-cased text changes nothing |
| Text.Includes | src/pages/EventsPage.jsx:108 | `includes` holds exactly when some position of the text starts a copy of the needle |
| Text.IncludesEmpty | src/pages/EventsPage.jsx:108 | an empty search term is contained in every title |
| Text.NotIncludes | src/pages/EventsPage.jsx:108 | a needle whose first character does not occur in the text is not included |
| Text.IsSpace | src/pages/EventsPage.jsx:78 | the characters `trim` removes include the space and exclude every visible ASCII character |
| Text.TrimStart | src/pages/EventsPage.jsx:78 | the result is a suffix of the input that does not start with white space |
| Text.TrimStartDropsSpace | src/pages/EventsPage.jsx:78 | the part the leading trim drops is all white space |
| Text.TrimEnd | src/pages/EventsPage.jsx:78 | the result is a prefix of the input that does not end with white space |
| Text.TrimEndDropsSpace | src/pages/EventsPage.jsx:78 | the part the trailing trim drops is all white space |
| Text.Trim | src/pages/EventsPage.jsx:78 | a trimmed category neither starts nor ends with white space |
| Text.TrimSlice | src/pages/EventsPage.jsx:78 | what `trim` keeps is a contiguous slice of the input with only white space before and after it |
| Text.TrimUnpadded | src/pages/EventsPage.jsx:78 | trimming a text without leading or trailing white space leaves it unchanged |
| Text.TrimKeepsOut | src/pages/EventsPage.jsx:78 | trimming never introduces a character absent from its input, a comma in particular |
| Text.Split | src/pages/EventsPage.jsx:78 | `split(",")` yields one piece more than there are commas, and no piece holds a comma |
| Text.JoinSplit | src/pages/EventsPage.jsx:78 | joining the pieces of a split with commas gives back the text |
| Text.SplitJoin | src/pages/EventsPage.jsx:78 | splitting the comma-join of one or more comma-free pieces gives back the pieces |
| Text.SplitTrim | src/pages/EventsPage.jsx:78 | the normalised categories number one more than the commas, and each is trimmed and comma-free |
| Text.SplitTrimPieces | src/pages/EventPage.jsx:53 | each normalised category is the trimmed piece of the split at the same position |
| Text.SplitTrimIdempotent | src/pages/EventPage.jsx:51-53 | normalising the comma-join of normalised categories gives the same categories |
| EventModel.FieldsDetermineEvent | src/pages/EventPage.jsx:89-109 | two records with the same id and the same value in every form field are the same record |
| EventModel.WithField | src/pages/EventPage.jsx:89-95 | a form change sets the named field to the input's text and keeps the id and every other field |
| EventModel.Cleared | src/pages/EventPage.jsx:97-109 | the clear button blanks all eight form fields, categories included, and keeps the id |
| EventModel.NormalizeCategories | src/pages/EventPage.jsx:51-53 | an array is kept as it is; a string becomes one trimmed, comma-free category per comma-separated piece |
| EventModel.NormalizeCategoriesIdempotent | src/pages/EventPage.jsx:51-53 | normalising already normalised categories changes nothing |
| EventModel.NormalizeStringCategories | src/pages/EventPage.jsx:53 | string categories normalise to the split-and-trimmed pieces of the text |
| EventModel.CategoryColor | src/pages/EventsPage.jsx:89-104 | each of the five known categories gets its colour token, and any other or missing category gets `gray.200` |
| EventModel.GrayExactlyForUnknown | src/pages/EventPage.jsx:116-131 | the colour is `gray.200` if and only if the category is missing or unknown |
| EventModel.FirstCategory | src/pages/EventPage.jsx:150 | `categories[0]` is the first element of an array or the first character of a string, and missing when they are empty |
| EventModel.TagColor | src/pages/EventPage.jsx:150 | a tag is gray or a colour of the table, and it is coloured only when the categories are an array whose first element is a known category, whose colour it gets |
| EventModel.StringCategoriesShowGray | src/pages/EventPage.jsx:150 | a record whose categories are a string always gets the gray tag |
| EventModel.ArrayCategoriesShowFirst | src/pages/EventsPage.jsx:224 | a record with array categories gets the colour of its first category |
| EventsPage.WithDraftField | src/pages/EventsPage.jsx:62-68 | a form change sets the named draft field to the input's text and keeps the others |
| EventsPage.CreateBody | src/pages/EventsPage.jsx:76-79 | the posted body copies the draft's fields; its category k is the k-th comma-separated piece of the draft's text, trimmed, and there is one per piece |
| EventsPage.CreateBodyTwoCategories | src/pages/EventsPage.jsx:78 | categories typed as `a, b` are posted as the array `[a, b]` |
| EventsPage.TrimAfterSpace | src/pages/EventsPage.jsx:78 | trimming a space followed by an unpadded text gives that text |
| EventsPage.SplitTwoCategories | src/pages/EventsPage.jsx:78 | `a, b` splits into `a` and ` b` |
| EventsPage.TrimTwoCategories | src/pages/EventsPage.jsx:78 | the pieces `a` and ` b` normalise to `a` and `b` |
| EventsPage.Matches | src/pages/EventsPage.jsx:107-112 | with an empty term and no category every event matches; a match needs a title at least as long as the term; string categories never match a selected category |
| EventsPage.Filter | src/pages/EventsPage.jsx:106-113 | every shown event matches the search term and the selected category, and no more events are shown than are loaded |
| EventsPage.FilterAppend | src/pages/EventsPage.jsx:106-113 | filtering a concatenation concatenates the filtered parts |
| EventsPage.FilterCount | src/pages/EventsPage.jsx:106-113 | a matching event is shown as often as it is loaded, and a non-matching one never |
| EventsPage.FilterMembership | src/pages/EventsPage.jsx:106-113 | an event is shown if and only if it is loaded and matches |
| EventsPage.FilterMembershipAll | src/pages/EventsPage.jsx:106-113 | for every event at once, it is shown if and only if it is loaded and matches |
| EventsPage.FilterPositions | src/pages/EventsPage.jsx:106-113 | the shown events are the loaded events at the matching positions, in increasing order |
| EventsPage.ConsPicks | src/pages/EventsPage.jsx:106-113 | the kept head followed by the kept tail events are the events at position 0 and the tail's positions moved right |
| EventsPage.ConsIncreasing | src/pages/EventsPage.jsx:106-113 | moving increasing positions one place right, with 0 in front, keeps them increasing |
| EventsPage.ConsMatching | src/pages/EventsPage.jsx:106-113 | the tail's matching positions moved right, with 0 when the head matches, are exactly the matching positions |
| EventsPage.Shifted | src/pages/EventsPage.jsx:106-113 | moving positions one place right keeps their order and membership |
| EventsPage.FilterAllMatch | src/pages/EventsPage.jsx:106-113 | when every loaded event matches, all of them are shown in order |
| EventsPage.NoFilterShowsAll | src/pages/EventsPage.jsx:106-113 | an empty search term and no selected category show every loaded event |
| EventsPage.AppendedRecordVisibility | src/pages/EventsPage.jsx:83 | a created record is appended to the shown list exactly when it matches the current filters |
| EventsPage.StringCategoriesHiddenBySelection | src/pages/EventsPage.jsx:109-112 | a record whose categories are a string is hidden whenever a category is selected |
| EventsPage.SearchChessNight | src/pages/EventsPage.jsx:108 | searching `ch` among "Chess Night" and "Yoga" shows only "Chess Night" |
| EventsPage.ListPage.constructor | src/pages/EventsPage.jsx:27-39 | the mounted page has no events, a closed modal, a blank draft and empty filters |
| EventsPage.ListPage.Visible | src/pages/EventsPage.jsx:106-113 | an event is on screen if and only if it is loaded and matches the current term and category, and with both empty every loaded event is on screen |
| EventsPage.ListPage.Load | src/pages/EventsPage.jsx:41-52 | one list request; an array body replaces the events, and a non-array body or a failure leaves them as they are |
| EventsPage.ListPage.HandleAddEvent | src/pages/EventsPage.jsx:54-56 | the create modal is open |
| EventsPage.ListPage.HandleCloseModal | src/pages/EventsPage.jsx:58-60 | the create modal is closed and the draft is kept |
| EventsPage.ListPage.HandleChange | src/pages/EventsPage.jsx:62-68 | only the named draft field changes |
| EventsPage.ListPage.Search | src/pages/EventsPage.jsx:118-123 | the search term is the input's text, and the shown events are the loaded ones filtered by it |
| EventsPage.ListPage.SelectCategory | src/pages/EventsPage.jsx:124-129 | the selected category is the selector's value, and the shown events are filtered by it |
| EventsPage.ListPage.HandleSubmit | src/pages/EventsPage.jsx:70-87 | one create request with the normalised draft; a response is appended, closes the modal and appears among the shown events exactly when it matches; a failure changes nothing |
| EventPage.Enabled | src/pages/EventPage.jsx:133-181 | while no record is loaded the page offers nothing but the fetch's resolution, which it always accepts |
| EventPage.Step | src/pages/EventPage.jsx:34-114 | only a fetch or a save response changes the loaded record; only edit, cancel and save open or close the form; a delete changes no state |
| EventPage.Run | src/pages/EventPage.jsx:34-114 | a run without fetch or save responses keeps the loaded record |
| EventPage.SaveBody | src/pages/EventPage.jsx:48-54 | the update keeps the id and every field but categories; array categories are sent as they are, string categories split and trimmed |
| EventPage.ClearThenSaveSendsEmptyCategory | src/pages/EventPage.jsx:97-109 | saving a cleared record sends the categories `[""]` |
| EventPage.StepConsistent | src/pages/EventPage.jsx:34-114 | every action the page offers keeps the invariant: a record is shown exactly when one is loaded, and outside editing it is the loaded one |
| EventPage.RunConsistent | src/pages/EventPage.jsx:34-114 | the invariant holds after any sequence of actions |
| EventPage.LoadingUntilFetched | src/pages/EventPage.jsx:133-135 | until a fetch succeeds, no action takes the page out of its loading state |
| EventPage.FormEditsKeepOriginal | src/pages/EventPage.jsx:89-109 | form changes and clears keep the loaded record and the edit form open |
| EventPage.CancelRestoresPreEdit | src/pages/EventPage.jsx:111-114 | edit, any form changes and clears, then cancel, returns the page to the state before the edit |
| EventPage.RunAppend | src/pages/EventPage.jsx:34-114 | running two action sequences in turn is running their concatenation |
| EventPage.DetailPage.constructor | src/pages/EventPage.jsx:28-32 | the mounted page is loading, for the route's event id, with no request sent |
| EventPage.DetailPage.Load | src/pages/EventPage.jsx:34-42 | one GET for the event; a record becomes both the shown and the loaded record, and a failure changes nothing |
| EventPage.DetailPage.HandleEdit | src/pages/EventPage.jsx:44-46 | the edit form opens and neither record changes |
| EventPage.DetailPage.HandleChange | src/pages/EventPage.jsx:89-95 | only the named field of the shown record changes, and the loaded record is kept |
| EventPage.DetailPage.HandleClear | src/pages/EventPage.jsx:97-109 | every form field of the shown record is blank, and its id and the loaded record are kept |
| EventPage.DetailPage.HandleCancel | src/pages/EventPage.jsx:111-114 | the shown record is the loaded one again and the form closes |
| EventPage.DetailPage.HandleSave | src/pages/EventPage.jsx:48-72 | one PUT of the normalised record; a response becomes the shown and loaded record and closes the form; a failure changes nothing |
| EventPage.DetailPage.HandleDelete | src/pages/EventPage.jsx:74-87 | a confirmed delete sends exactly one DELETE for the event, a declined one sends nothing, and the page state is unchanged |

## Left out

- The network, JSON encoding and the backend's address are left out. Each
  request's result is an `Outcome` input to the handler that sends it. A body
  that parses counts as a success whatever the HTTP status, as in the code.
- The order in which asynchronous responses arrive is not modelled. Each
  handler sends its request and takes its response in one step.
- `alert`, `console.error` and the navigation to `/` after a save or a
  delete are left out. They are side effects outside the page's state.
- `window.confirm` is left out; its answer is the `confirmed` input of the
  delete handler.
- Rendering is not modelled. This covers the JSX, Chakra UI, the tag text
  `join(", ")` and the locale formatting of dates. The only parts kept are
  which controls are offered (`EventPage.Enabled`) and the tag colour.
- A list record whose categories are a string would make the list page's
  `join` throw while rendering. This is not modelled, because rendering is
  left out.
- Text.Lower: lowers only the ASCII letters A to Z. It does not follow the
  full Unicode case mapping of `toLowerCase`.
- Record fields are strings, and `categories` is a string or an array of
  strings. Missing fields, other JSON types and extra fields the backend may
  return are not modelled.
- A response that parses but is not an event record, such as an error
  object, cannot be expressed by the `Outcome<Event>` input. The detail page
  would store it as the event (`EventPage.DetailPage.Load`,
  `EventPage.DetailPage.HandleSave`), and the list page would append it and
  close the modal (`EventsPage.ListPage.HandleSubmit`).
- `src/App.jsx` and `src/components/Root.jsx` (routing and layout) are not
  part of this model.
