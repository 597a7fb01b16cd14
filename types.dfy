/**
 * The catalog's record types (src/lib/types.ts): the three-valued category,
 * a catalog entry and the form data that the create and edit pages collect.
 */
module Types {

  /** The conventional Some/None datatype, for JavaScript's `T | undefined`. */
  datatype Option<+T> = None | Some(value: T)

  /** JavaScript truthiness of an optional string: present and not the empty string. */
  predicate Truthy(o: Option<string>) {
    o.Some? && o.value != ""
  }

  /** Milliseconds since the epoch, as `Date.getTime()` reports them. */
  type Time = nat

  /** A category is one of exactly three values; no other value is representable. */
  datatype Category = Video | Audio | Hadist

  /** The string literal that stands for a category in the source. */
  function CategoryName(k: Category): (s: string)
    ensures s in {"video", "audio", "hadist"}
  {
    match k
    case Video => "video"
    case Audio => "audio"
    case Hadist => "hadist"
  }

  /** Reads a category back from its string literal; any other string is not a category. */
  function ParseCategory(s: string): (r: Option<Category>)
    ensures r.Some? ==> CategoryName(r.value) == s
    ensures r.None? ==> s !in {"video", "audio", "hadist"}
  {
    if s == "video" then Some(Video)
    else if s == "audio" then Some(Audio)
    else if s == "hadist" then Some(Hadist)
    else None
  }

  /** Every category survives the trip to its string literal and back. */
  lemma CategoryRoundTrip(k: Category)
    ensures ParseCategory(CategoryName(k)) == Some(k)
  {
  }

  /** One catalog entry. Every entry carries its link and both timestamps. */
  datatype Collection = Collection(
    id: string,
    title: string,
    category: Category,
    link: string,
    summary: string,
    coverImage: string,
    speaker: string,
    createdAt: Time,
    updatedAt: Time)

  /** A `Collection` without `id`, `createdAt` and `updatedAt`. */
  datatype CollectionFormData = CollectionFormData(
    title: string,
    category: Category,
    link: string,
    summary: string,
    coverImage: string,
    speaker: string)

  /** The form fields of an entry; with the three omitted fields it gives the entry back. */
  function FormOf(c: Collection): (d: CollectionFormData)
    ensures Collection(c.id, d.title, d.category, d.link, d.summary, d.coverImage, d.speaker,
                       c.createdAt, c.updatedAt) == c
  {
    CollectionFormData(c.title, c.category, c.link, c.summary, c.coverImage, c.speaker)
  }

  /** `{...data, id, createdAt: now, updatedAt: now}`: a new entry built from form data. */
  function NewCollection(data: CollectionFormData, id: string, now: Time): (c: Collection)
    ensures FormOf(c) == data
    ensures c.id == id && c.createdAt == now && c.updatedAt == now
  {
    Collection(id, data.title, data.category, data.link, data.summary, data.coverImage, data.speaker,
               now, now)
  }

  /** `{...c, ...data, updatedAt: now}`: all form fields replaced, id and createdAt kept. */
  function Apply(c: Collection, data: CollectionFormData, now: Time): (r: Collection)
    ensures FormOf(r) == data
    ensures r.id == c.id && r.createdAt == c.createdAt && r.updatedAt == now
  {
    c.(title := data.title, category := data.category, link := data.link, summary := data.summary,
       coverImage := data.coverImage, speaker := data.speaker, updatedAt := now)
  }

  /** Applying an entry's own form data changes nothing but its update time. */
  lemma ApplyOwnForm(c: Collection, now: Time)
    ensures Apply(c, FormOf(c), now) == c.(updatedAt := now)
  {
  }
}
