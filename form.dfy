/**
 * The form rules shared by the create and edit pages (src/pages/Create.tsx,
 * src/pages/Edit.tsx): the empty initial form, single-field updates, and the
 * required-field check that guards a submit.
 */
module Form {
  import opened Types

  /** The text inputs of the form, by their `name` attribute. */
  datatype TextField = Title | Link | Summary | CoverImage | Speaker

  /** The value of one text input. */
  function Get(d: CollectionFormData, f: TextField): string {
    match f
    case Title => d.title
    case Link => d.link
    case Summary => d.summary
    case CoverImage => d.coverImage
    case Speaker => d.speaker
  }

  /** `handleChange`: `{...prev, [name]: value}` changes the named field and nothing else. */
  function SetField(d: CollectionFormData, f: TextField, value: string): (r: CollectionFormData)
    ensures Get(r, f) == value
    ensures forall g :: g != f ==> Get(r, g) == Get(d, g)
    ensures r.category == d.category
  {
    match f
    case Title => d.(title := value)
    case Link => d.(link := value)
    case Summary => d.(summary := value)
    case CoverImage => d.(coverImage := value)
    case Speaker => d.(speaker := value)
  }

  /** `handleCategoryChange`: changes the category and no text field. */
  function SetCategory(d: CollectionFormData, k: Category): (r: CollectionFormData)
    ensures r.category == k
    ensures forall g :: Get(r, g) == Get(d, g)
  {
    d.(category := k)
  }

  /** `initialFormData`: category video and every text field empty. */
  function InitialFormData(): (d: CollectionFormData)
    ensures d.category == Video
    ensures forall f :: Get(d, f) == ""
  {
    CollectionFormData("", Video, "", "", "", "")
  }

  /** The text fields a submit requires to be non-empty; the summary is not among them. */
  function RequiredFields(): set<TextField> {
    {Title, Link, CoverImage, Speaker}
  }

  /**
   * The submit check: a form passes iff every required field (title, link, cover
   * image, speaker) is a non-empty string; the summary and the category play no part.
   */
  function IsComplete(d: CollectionFormData): (r: bool)
    ensures r <==> forall f :: f in RequiredFields() ==> Get(d, f) != ""
  {
    assert Title in RequiredFields() && Link in RequiredFields();
    assert CoverImage in RequiredFields() && Speaker in RequiredFields();
    d.title != "" && d.link != "" && d.coverImage != "" && d.speaker != ""
  }

  /** Editing the summary or the category never changes whether a form passes the check. */
  lemma SummaryAndCategoryNotChecked(d: CollectionFormData, value: string, k: Category)
    ensures IsComplete(SetField(d, Summary, value)) == IsComplete(d)
    ensures IsComplete(SetCategory(d, k)) == IsComplete(d)
  {
  }

  /** The initial form is rejected: submitting it unchanged never reaches the store. */
  lemma InitialFormRejected()
    ensures !IsComplete(InitialFormData())
  {
  }

  /** Filling the four required fields of any form with non-empty text makes it pass. */
  lemma FillingRequiredFieldsPasses(d: CollectionFormData, title: string, link: string, cover: string, speaker: string)
    requires title != "" && link != "" && cover != "" && speaker != ""
    ensures IsComplete(SetField(SetField(SetField(SetField(d, Title, title), Link, link), CoverImage, cover), Speaker, speaker))
  {
  }

  /** Where a page sends the browser after an action. */
  datatype Navigation = Stay | NavigateTo(path: string)

  /** The list page that create, edit and a failed lookup go to. */
  const CollectionsPath: string := "/collections"
}
