/** The manager object shared by the three pages, reduced to its data: the
    two collections and the storage behind them. Each operation does what
    the page's method does, including the `saveLinks()`/`saveBlogPosts()`
    call that follows every accepted change; rendering is left out. */
module Facade {
  import opened Wrappers
  import opened Records
  import opened Persistence
  import Links
  import Memos
  import Store

  datatype App = App(links: seq<Link>, posts: seq<Memo>, storage: Storage)

  /** Reloading the page would give back exactly the collections in memory. */
  predicate Consistent(app: App) {
    LoadLinks(app.storage) == Ok(app.links) && LoadBlogPosts(app.storage) == Ok(app.posts)
  }

  /** The constructor: load the links, then the memos. It fails exactly when
      one of the stored collections cannot be read back, and otherwise starts
      in a state that a reload reproduces, without writing anything. */
  function Open(st: Storage): (r: Result<App, LoadError>)
    ensures r.Failure? <==> LoadLinks(st).Failure? || LoadBlogPosts(st).Failure?
    ensures r.Ok? ==> Consistent(r.value) && r.value.storage == st
    ensures r.Ok? && (st.serviceLinks == Unset || st.serviceLinks == Foreign("")) ==>
              r.value.links == DefaultLinks()
    ensures r.Ok? && (st.blogPosts == Unset || st.blogPosts == Foreign("")) ==> r.value.posts == []
  {
    match LoadLinks(st)
    case Failure(e) => Failure(e)
    case Ok(links) =>
      match LoadBlogPosts(st)
      case Failure(e) => Failure(e)
      case Ok(posts) => Ok(App(links, posts, st))
  }

  /** What a reload of a consistent state's storage gives: that same state. */
  lemma Reopen(app: App)
    requires Consistent(app)
    ensures Open(app.storage) == Ok(app)
  {
  }

  /** `addLink()`: the link list becomes `Links.AddLink` of it and is saved;
      a rejected form changes nothing at all. Memos and every other key are
      untouched, and a reload still reproduces the state. */
  function AddLink(app: App, id: int, name: string, url: string, remark: string,
                   validUrl: string -> bool): (r: App)
    ensures r.links == Links.AddLink(app.links, id, name, url, remark, validUrl)
    ensures r.posts == app.posts
    ensures r.storage.(serviceLinks := app.storage.serviceLinks) == app.storage
    ensures Links.CheckLink(name, url, validUrl) != Accepted ==> r == app
    ensures Links.CheckLink(name, url, validUrl) == Accepted ==> r.storage.serviceLinks == Encoded(r.links)
    ensures Consistent(app) ==> Consistent(r)
  {
    if Links.CheckLink(name, url, validUrl) != Accepted then app
    else
      var links := Links.AddLink(app.links, id, name, url, remark, validUrl);
      app.(links := links, storage := SaveLinks(app.storage, links))
  }

  /** `deleteLink(id)`: unconfirmed, nothing happens; confirmed, the links
      with that id are removed and the list is saved, even when none had it. */
  function DeleteLink(app: App, id: int, confirmed: bool): (r: App)
    ensures r.links == Links.DeleteLink(app.links, id, confirmed)
    ensures r.posts == app.posts
    ensures r.storage.(serviceLinks := app.storage.serviceLinks) == app.storage
    ensures !confirmed ==> r == app
    ensures confirmed ==> r.storage.serviceLinks == Encoded(r.links)
    ensures Consistent(app) ==> Consistent(r)
  {
    if !confirmed then app
    else
      var links := Links.DeleteLink(app.links, id, true);
      app.(links := links, storage := SaveLinks(app.storage, links))
  }

  /** `saveEdit(id)`: the first link with the id is edited and the list saved;
      a rejected form or an absent id changes nothing, storage included. */
  function SaveEdit(app: App, id: int, name: string, url: string, remark: string,
                    validUrl: string -> bool): (r: App)
    ensures r.links == Links.SaveEdit(app.links, id, name, url, remark, validUrl)
    ensures r.posts == app.posts
    ensures r.storage.(serviceLinks := app.storage.serviceLinks) == app.storage
    ensures Links.CheckLink(name, url, validUrl) != Accepted ==> r == app
    ensures (forall j :: 0 <= j < |app.links| ==> app.links[j].id != id) ==> r == app
    ensures Links.CheckLink(name, url, validUrl) == Accepted
            && (exists j :: 0 <= j < |app.links| && app.links[j].id == id) ==>
              r.storage.serviceLinks == Encoded(r.links)
    ensures Consistent(app) ==> Consistent(r)
  {
    if Links.CheckLink(name, url, validUrl) != Accepted then app
    else match Store.FindIndex(app.links, LinkId, id)
      case None =>
        assert Links.SaveEdit(app.links, id, name, url, remark, validUrl) == app.links;
        app
      case Some(k) =>
        assert app.links[k].id == id;
        var links := Links.SaveEdit(app.links, id, name, url, remark, validUrl);
        app.(links := links, storage := SaveLinks(app.storage, links))
  }

  /** `addBlogPost()`: the memo list becomes `Memos.AddBlogPost` of it and is
      saved; a rejected form changes nothing at all. */
  function AddBlogPost(app: App, idClock: int, stampClock: int,
                       title: string, content: string, category: string): (r: App)
    ensures r.posts == Memos.AddBlogPost(app.posts, idClock, stampClock, title, content, category)
    ensures r.links == app.links
    ensures r.storage.(blogPosts := app.storage.blogPosts) == app.storage
    ensures Memos.CheckMemo(title, content) != Accepted ==> r == app
    ensures Memos.CheckMemo(title, content) == Accepted ==> r.storage.blogPosts == Encoded(r.posts)
    ensures Consistent(app) ==> Consistent(r)
  {
    if Memos.CheckMemo(title, content) != Accepted then app
    else
      var posts := Memos.AddBlogPost(app.posts, idClock, stampClock, title, content, category);
      app.(posts := posts, storage := SaveBlogPosts(app.storage, posts))
  }

  /** `deleteBlogPost(id)`: unconfirmed, nothing happens; confirmed, the
      memos with that id are removed and the list is saved. */
  function DeleteBlogPost(app: App, id: int, confirmed: bool): (r: App)
    ensures r.posts == Memos.DeleteBlogPost(app.posts, id, confirmed)
    ensures r.links == app.links
    ensures r.storage.(blogPosts := app.storage.blogPosts) == app.storage
    ensures !confirmed ==> r == app
    ensures confirmed ==> r.storage.blogPosts == Encoded(r.posts)
    ensures Consistent(app) ==> Consistent(r)
  {
    if !confirmed then app
    else
      var posts := Memos.DeleteBlogPost(app.posts, id, true);
      app.(posts := posts, storage := SaveBlogPosts(app.storage, posts))
  }

  /** `saveEditBlogPost(id)`: the first memo with the id is edited and the
      list saved; a rejected form or an absent id changes nothing. */
  function SaveEditBlogPost(app: App, id: int, title: string, content: string,
                            category: string): (r: App)
    ensures r.posts == Memos.SaveEditBlogPost(app.posts, id, title, content, category)
    ensures r.links == app.links
    ensures r.storage.(blogPosts := app.storage.blogPosts) == app.storage
    ensures Memos.CheckMemo(title, content) != Accepted ==> r == app
    ensures (forall j :: 0 <= j < |app.posts| ==> app.posts[j].id != id) ==> r == app
    ensures Memos.CheckMemo(title, content) == Accepted
            && (exists j :: 0 <= j < |app.posts| && app.posts[j].id == id) ==>
              r.storage.blogPosts == Encoded(r.posts)
    ensures Consistent(app) ==> Consistent(r)
  {
    if Memos.CheckMemo(title, content) != Accepted then app
    else match Store.FindIndex(app.posts, MemoId, id)
      case None =>
        assert Memos.SaveEditBlogPost(app.posts, id, title, content, category) == app.posts;
        app
      case Some(k) =>
        assert app.posts[k].id == id;
        var posts := Memos.SaveEditBlogPost(app.posts, id, title, content, category);
        app.(posts := posts, storage := SaveBlogPosts(app.storage, posts))
  }
}
