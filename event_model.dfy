/**
 * The event record both pages work on, the field names their forms edit,
 * the category colour table and the requests they send to the backend.
 */
module EventModel {
  import opened Text

  datatype Option<+T> = None | Some(value: T)

  /** What an asynchronous request delivered: a parsed body, or a caught error. */
  datatype Outcome<+T> = Success(value: T) | Failure

  /**
   * A field value as the pages see it: a string, or an array of strings.
   * `categories` arrives in either shape; every other field is a string.
   */
  datatype Value = Str(text: string) | Arr(items: seq<string>)

  /** An event record as the backend stores it. */
  datatype Event = Event(
    id: string,
    title: string,
    description: string,
    image: string,
    imageCreator: string,
    creator: string,
    startTime: string,
    endTime: string,
    categories: Value)

  /** The names the edit forms give their inputs (`e.target.name`). */
  datatype Field =
    | Title | Description | Image | ImageCreator | Creator | StartTime | EndTime | Categories

  /** The value of field `f` of `e`. */
  function Get(e: Event, f: Field): Value {
    match f
    case Title => Str(e.title)
    case Description => Str(e.description)
    case Image => Str(e.image)
    case ImageCreator => Str(e.imageCreator)
    case Creator => Str(e.creator)
    case StartTime => Str(e.startTime)
    case EndTime => Str(e.endTime)
    case Categories => e.categories
  }

  /** Two records with the same id and the same value in every field are the same record. */
  lemma FieldsDetermineEvent(a: Event, b: Event)
    requires a.id == b.id
    requires forall f :: Get(a, f) == Get(b, f)
    ensures a == b
  {
    assert Get(a, Title) == Get(b, Title) && Get(a, Description) == Get(b, Description);
    assert Get(a, Image) == Get(b, Image) && Get(a, ImageCreator) == Get(b, ImageCreator);
    assert Get(a, Creator) == Get(b, Creator) && Get(a, StartTime) == Get(b, StartTime);
    assert Get(a, EndTime) == Get(b, EndTime) && Get(a, Categories) == Get(b, Categories);
  }

  /** `{ ...e, [f]: text }`: the input named `f` now holds `text`; the id and every other field are kept. */
  function WithField(e: Event, f: Field, text: string): (r: Event)
    ensures Get(r, f) == Str(text)
    ensures forall g :: g != f ==> Get(r, g) == Get(e, g)
    ensures r.id == e.id
  {
    match f
    case Title => e.(title := text)
    case Description => e.(description := text)
    case Image => e.(image := text)
    case ImageCreator => e.(imageCreator := text)
    case Creator => e.(creator := text)
    case StartTime => e.(startTime := text)
    case EndTime => e.(endTime := text)
    case Categories => e.(categories := Str(text))
  }

  /** The record the "clear" button produces: every form field blank, the id kept. */
  function Cleared(e: Event): (r: Event)
    ensures forall f :: Get(r, f) == Str("")
    ensures r.id == e.id
  {
    e.(creator := "", imageCreator := "", title := "", description := "", image := "",
       startTime := "", endTime := "", categories := Str(""))
  }

  /** The categories the backend is sent: an array as it is, a string split on commas and trimmed. */
  function NormalizeCategories(c: Value): (r: Value)
    ensures r.Arr?
    ensures c.Arr? ==> r == c
    ensures c.Str? ==> |r.items| == CommaCount(c.text) + 1
    ensures c.Str? ==> forall k :: 0 <= k < |r.items| ==> !Padded(r.items[k]) && ',' !in r.items[k]
  {
    match c
    case Arr(_) => c
    case Str(s) => Arr(SplitTrim(s))
  }

  /** Normalising categories twice is the same as normalising them once. */
  lemma NormalizeCategoriesIdempotent(c: Value)
    ensures NormalizeCategories(NormalizeCategories(c)) == NormalizeCategories(c)
  {
  }

  /** A string-shaped categories value normalises to the text's split-and-trimmed pieces. */
  lemma NormalizeStringCategories(s: string)
    ensures NormalizeCategories(Str(s)) == Arr(SplitTrim(s))
  {
  }

  // The colour tokens of the category tags.
  const Green := "green.200"
  const Yellow := "yellow.200"
  const Blue := "blue.200"
  const Pink := "pink.200"
  const Purple := "purple.200"
  const Gray := "gray.200"

  /** The colour table as data: the five known categories and their tag colours. */
  const Palette: map<string, string> :=
    map["Sport" := Green, "Relaxation" := Yellow, "Games" := Blue,
        "Entertainment" := Pink, "Culture" := Purple]

  /** `getCategoryColor`: total over every input, the missing (`undefined`) one included. */
  function CategoryColor(category: Option<string>): (r: string)
    ensures category.Some? && category.value in Palette ==> r == Palette[category.value]
    ensures category.None? || category.value !in Palette ==> r == Gray
  {
    match category
    case Some("Sport") => Green
    case Some("Relaxation") => Yellow
    case Some("Games") => Blue
    case Some("Entertainment") => Pink
    case Some("Culture") => Purple
    case _ => Gray
  }

  /** Gray is the colour of exactly the unknown and missing categories. */
  lemma GrayExactlyForUnknown(category: Option<string>)
    ensures CategoryColor(category) == Gray <==> category.None? || category.value !in Palette
  {
    if category.Some? && category.value in Palette {
      assert Palette[category.value] != Gray;
    }
  }

  /**
   * `categories[0]`: the first element of an array, the first character
   * (as a one-character string) of a string, `undefined` when empty.
   */
  function FirstCategory(c: Value): (r: Option<string>)
    ensures c.Arr? ==> (r.Some? <==> |c.items| > 0) && (r.Some? ==> r.value == c.items[0])
    ensures c.Str? ==> (r.Some? <==> |c.text| > 0) && (r.Some? ==> r.value == c.text[..1])
  {
    match c
    case Arr(items) => if |items| > 0 then Some(items[0]) else None
    case Str(text) => if |text| > 0 then Some([text[0]]) else None
  }

  /** The colour of an event's tag: the colour of its first category. */
  function TagColor(e: Event): (r: string)
    ensures r == Gray || r in Palette.Values
    ensures r != Gray ==>
      e.categories.Arr? && |e.categories.items| > 0
      && e.categories.items[0] in Palette && r == Palette[e.categories.items[0]]
  {
    CategoryColor(FirstCategory(e.categories))
  }

  /**
   * A record whose categories are a string always gets the fallback colour:
   * indexing a string yields one character, and no known category is one
   * character long.
   */
  lemma StringCategoriesShowGray(e: Event)
    requires e.categories.Str?
    ensures TagColor(e) == Gray
  {
    var first := FirstCategory(e.categories);
    if first.Some? {
      assert |first.value| == 1;
      assert first.value !in Palette;
    }
  }

  /** An event with array categories is coloured by its first category. */
  lemma ArrayCategoriesShowFirst(e: Event, c: string, rest: seq<string>)
    requires e.categories == Arr([c] + rest)
    ensures TagColor(e) == if c in Palette then Palette[c] else Gray
  {
  }

  /** The body of a create request: the draft's fields, categories as an array. */
  datatype PostBody = PostBody(
    title: string,
    description: string,
    image: string,
    startTime: string,
    endTime: string,
    categories: seq<string>,
    creator: string)

  /** The requests the pages send to the events resource. */
  datatype Request =
    | ListEvents                              // GET /events
    | CreateEvent(body: PostBody)             // POST /events
    | GetEvent(id: string)                    // GET /events/{id}
    | UpdateEvent(id: string, record: Event)  // PUT /events/{id}
    | DeleteEvent(id: string)                 // DELETE /events/{id}
}
