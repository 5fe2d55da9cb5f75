/** `localStorage` as the managers use it: four keys, each read and written
    whole. JSON encoding is not modelled: a collection written by the
    managers is kept as the value it encodes. */
module Persistence {
  import opened Wrappers
  import opened Records

  /** What a collection key holds: nothing (`getItem` gives `null`), the
      JSON text of a collection (as `saveLinks`/`saveBlogPosts` write it, or
      any other text that parses to one, kept as the collection it encodes),
      or text that is not the JSON of a collection: the empty string, text
      `JSON.parse` rejects, or JSON of something other than a list. */
  datatype Slot<T> = Unset | Encoded(value: T) | Foreign(text: string)

  /** The keys `serviceLinks`, `blogPosts`, `githubToken` and `gistId`. The
      last two hold plain strings, `None` when the key is absent. */
  datatype Storage = Storage(serviceLinks: Slot<seq<Link>>, blogPosts: Slot<seq<Memo>>,
                             githubToken: Option<string>, gistId: Option<string>)

  /** `JSON.parse` threw (or produced something that is not a collection) on
      the text stored under `key`; the source lets this escape uncaught. */
  datatype LoadError = Unreadable(key: string)

  const EmptyStorage := Storage(Unset, Unset, None, None)

  /** `savedLinks ? JSON.parse(savedLinks) : getDefaultLinks()`: an absent
      key or the (falsy) empty string gives the seed links, saved links read
      back as themselves, and text that is not the JSON of a collection
      fails to load. */
  function LoadLinks(st: Storage): (r: Result<seq<Link>, LoadError>)
    ensures st.serviceLinks == Unset || st.serviceLinks == Foreign("") ==> r == Ok(DefaultLinks())
    ensures st.serviceLinks.Encoded? ==> r == Ok(st.serviceLinks.value)
    ensures r.Failure? <==> st.serviceLinks.Foreign? && st.serviceLinks.text != ""
    ensures r.Failure? ==> r.error == Unreadable("serviceLinks")
  {
    match st.serviceLinks
    case Unset => Ok(DefaultLinks())
    case Encoded(links) => Ok(links)
    case Foreign(text) => if text == "" then Ok(DefaultLinks()) else Failure(Unreadable("serviceLinks"))
  }

  /** `savedPosts ? JSON.parse(savedPosts) : []`: an absent key or the empty
      string gives no memos, saved memos read back as themselves, and text
      that is not the JSON of a collection fails to load. */
  function LoadBlogPosts(st: Storage): (r: Result<seq<Memo>, LoadError>)
    ensures st.blogPosts == Unset || st.blogPosts == Foreign("") ==> r == Ok([])
    ensures st.blogPosts.Encoded? ==> r == Ok(st.blogPosts.value)
    ensures r.Failure? <==> st.blogPosts.Foreign? && st.blogPosts.text != ""
    ensures r.Failure? ==> r.error == Unreadable("blogPosts")
  {
    match st.blogPosts
    case Unset => Ok([])
    case Encoded(posts) => Ok(posts)
    case Foreign(text) => if text == "" then Ok([]) else Failure(Unreadable("blogPosts"))
  }

  /** `localStorage.getItem(key) || null`, with `""` standing for `null`:
      every use of the value is a truthiness test, under which the two are
      the same. */
  function LoadString(entry: Option<string>): string {
    match entry
    case None => ""
    case Some(s) => s
  }

  /** `saveLinks()`: overwrites the `serviceLinks` key and no other. */
  function SaveLinks(st: Storage, links: seq<Link>): (r: Storage)
    ensures LoadLinks(r) == Ok(links)
    ensures LoadBlogPosts(r) == LoadBlogPosts(st)
    ensures r.(serviceLinks := st.serviceLinks) == st
  {
    st.(serviceLinks := Encoded(links))
  }

  /** `saveBlogPosts()`: overwrites the `blogPosts` key and no other. */
  function SaveBlogPosts(st: Storage, posts: seq<Memo>): (r: Storage)
    ensures LoadBlogPosts(r) == Ok(posts)
    ensures LoadLinks(r) == LoadLinks(st)
    ensures r.(blogPosts := st.blogPosts) == st
  {
    st.(blogPosts := Encoded(posts))
  }

  /** `setItem('githubToken', t)` for `Some(t)`, `removeItem('githubToken')`
      for `None`: the collections read back as before. */
  function WriteToken(st: Storage, token: Option<string>): (r: Storage)
    ensures r.githubToken == token
    ensures LoadLinks(r) == LoadLinks(st) && LoadBlogPosts(r) == LoadBlogPosts(st)
    ensures r.(githubToken := st.githubToken) == st
  {
    st.(githubToken := token)
  }

  /** `setItem('gistId', id)`: the collections read back as before. */
  function WriteGistId(st: Storage, id: string): (r: Storage)
    ensures r.gistId == Some(id)
    ensures LoadLinks(r) == LoadLinks(st) && LoadBlogPosts(r) == LoadBlogPosts(st)
    ensures r.(gistId := st.gistId) == st
  {
    st.(gistId := Some(id))
  }

  /** With nothing stored, loading yields the nine seed links, whose ids are
      1 to 9, and no memos. */
  lemma LoadFromEmptyStorage()
    ensures LoadLinks(EmptyStorage).Ok? && |LoadLinks(EmptyStorage).value| == 9
    ensures forall i :: 0 <= i < 9 ==> LoadLinks(EmptyStorage).value[i].id == i + 1
    ensures LoadBlogPosts(EmptyStorage) == Ok([])
  {
  }
}
