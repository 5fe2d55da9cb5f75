/** The memo operations of `addBlogPost`, `deleteBlogPost`,
    `saveEditBlogPost` and the newest-first ordering `renderBlogPosts`
    displays, on the sequence of memos alone. */
module Memos {
  import opened Records
  import opened Strings
  import Store

  /** The one check `addBlogPost` and `saveEditBlogPost` run: neither title
      nor content may be blank. The category is not checked. */
  function CheckMemo(title: string, content: string): (v: Verdict)
    ensures v != InvalidUrl
    ensures v == Accepted <==> !IsBlank(title) && !IsBlank(content)
  {
    if Trim(title) == [] || Trim(content) == [] then MissingField else Accepted
  }

  /** `addBlogPost`: a rejected form leaves the memos as they are; an accepted
      one appends exactly one memo after all the others, with the trimmed
      title and content, the category as given, and the two clock readings
      (`Date.now()` is called once for the id and once for the timestamp). */
  function AddBlogPost(posts: seq<Memo>, idClock: int, stampClock: int,
                       title: string, content: string, category: string): (r: seq<Memo>)
    ensures |r| == |posts| + (if CheckMemo(title, content) == Accepted then 1 else 0)
    ensures r[..|posts|] == posts
    ensures CheckMemo(title, content) == Accepted ==>
              r[|posts|] == Memo(idClock, Trim(title), Trim(content), category, stampClock)
  {
    if CheckMemo(title, content) != Accepted then posts
    else posts + [Memo(idClock, Trim(title), Trim(content), category, stampClock)]
  }

  /** `deleteBlogPost`: unconfirmed, nothing changes; confirmed, every memo
      with the id is removed and the others keep their order. */
  function DeleteBlogPost(posts: seq<Memo>, id: int, confirmed: bool): (r: seq<Memo>)
    ensures !confirmed ==> r == posts
    ensures confirmed ==> r == Store.RemoveId(posts, MemoId, id)
    ensures forall i :: 0 <= i < |posts| && posts[i].id != id ==> posts[i] in r
    ensures confirmed ==> forall i :: 0 <= i < |r| ==> r[i].id != id
  {
    if confirmed then
      Store.RemoveIdKeeps(posts, MemoId, id);
      Store.RemoveId(posts, MemoId, id)
    else posts
  }

  /** `saveEditBlogPost`: on an accepted form only the first memo with the id
      gets the trimmed title and content and the given category. Ids and
      timestamps of all memos stay, every other memo and the length stay,
      and a rejected form or an absent id changes nothing. */
  function SaveEditBlogPost(posts: seq<Memo>, id: int, title: string, content: string,
                            category: string): (r: seq<Memo>)
    ensures |r| == |posts|
    ensures forall j :: 0 <= j < |r| ==> r[j].id == posts[j].id && r[j].timestamp == posts[j].timestamp
    ensures CheckMemo(title, content) != Accepted ==> r == posts
    ensures (forall j :: 0 <= j < |posts| ==> posts[j].id != id) ==> r == posts
    ensures forall j :: 0 <= j < |posts| && !Store.IsFirstMatch(posts, MemoId, id, j) ==> r[j] == posts[j]
    ensures forall j :: 0 <= j < |posts| && Store.IsFirstMatch(posts, MemoId, id, j)
                        && CheckMemo(title, content) == Accepted ==>
              r[j].title == Trim(title) && r[j].content == Trim(content) && r[j].category == category
  {
    if CheckMemo(title, content) != Accepted then posts
    else
      Store.UpdateFirst(posts, MemoId, id,
                        (m: Memo) => m.(title := Trim(title), content := Trim(content), category := category))
  }

  /** Timestamps never increase from front to back. */
  predicate NewestFirst(s: seq<Memo>) {
    forall i, j :: 0 <= i < j < |s| ==> s[i].timestamp >= s[j].timestamp
  }

  /** Places `m` into the newest-first sequence `s`, in front of every memo
      whose timestamp is not larger than its own. */
  function Insert(m: Memo, s: seq<Memo>): (r: seq<Memo>)
    ensures multiset(r) == multiset(s) + multiset{m}
    ensures |r| > 0 && (r[0] == m || (s != [] && r[0] == s[0]))
    ensures NewestFirst(s) ==> NewestFirst(r)
  {
    if s == [] then [m]
    else if m.timestamp >= s[0].timestamp then
      PrependNewest(m, s);
      [m] + s
    else
      var t := Insert(m, s[1..]);
      assert s == [s[0]] + s[1..];
      NewestFirstTail(s);
      PrependNewest(s[0], t);
      [s[0]] + t
  }

  /** Dropping the front of a newest-first sequence keeps it newest-first,
      and the front is at least as new as what follows it. */
  lemma NewestFirstTail(s: seq<Memo>)
    requires s != []
    ensures NewestFirst(s) ==> NewestFirst(s[1..]) && (|s| > 1 ==> s[0].timestamp >= s[1].timestamp)
  {
  }

  /** A memo at least as new as the front of a newest-first sequence can go
      in front of it. */
  lemma PrependNewest(m: Memo, s: seq<Memo>)
    ensures NewestFirst(s) && (s != [] ==> m.timestamp >= s[0].timestamp) ==> NewestFirst([m] + s)
  {
  }

  /** `[...posts].sort((a, b) => b.timestamp - a.timestamp)`: a newest-first
      permutation of the memos, built without touching `posts` itself.
      JavaScript's sort is stable; `SortIsStable` shows this one is too. */
  function SortNewestFirst(posts: seq<Memo>): (r: seq<Memo>)
    ensures multiset(r) == multiset(posts)
    ensures NewestFirst(r)
  {
    if posts == [] then []
    else
      assert posts == [posts[0]] + posts[1..];
      Insert(posts[0], SortNewestFirst(posts[1..]))
  }

  /** The memos of `s` stamped `k`, in their order in `s`. */
  function WithTimestamp(s: seq<Memo>, k: int): seq<Memo> {
    if s == [] then []
    else (if s[0].timestamp == k then [s[0]] else []) + WithTimestamp(s[1..], k)
  }

  /** Selecting one timestamp distributes over concatenation. */
  lemma {:induction false} WithTimestampConcat(a: seq<Memo>, b: seq<Memo>, k: int)
    ensures WithTimestamp(a + b, k) == WithTimestamp(a, k) + WithTimestamp(b, k)
  {
    if a == [] {
      assert a + b == b;
    } else {
      var ab := a + b;
      assert ab[0] == a[0] && ab[1..] == a[1..] + b;
      WithTimestampConcat(a[1..], b, k);
      var front := if a[0].timestamp == k then [a[0]] else [];
      assert WithTimestamp(ab, k) == front + WithTimestamp(a[1..] + b, k);
      assert WithTimestamp(a, k) == front + WithTimestamp(a[1..], k);
    }
  }

  /** Inserting into a newest-first sequence puts `m` in front of the memos
      that share its timestamp. */
  lemma {:induction false} InsertStable(m: Memo, s: seq<Memo>, k: int)
    requires NewestFirst(s)
    ensures WithTimestamp(Insert(m, s), k) == WithTimestamp([m], k) + WithTimestamp(s, k)
  {
    if s == [] {
    } else if m.timestamp >= s[0].timestamp {
      assert Insert(m, s) == [m] + s;
      WithTimestampConcat([m], s, k);
    } else {
      var t := s[1..];
      NewestFirstTail(s);
      var u := Insert(m, t);
      assert Insert(m, s) == [s[0]] + u;
      InsertStable(m, t, k);
      WithTimestampConcat([s[0]], u, k);
      WithTimestampConcat([s[0]], t, k);
      assert s == [s[0]] + t;
    }
  }

  /** The sort is stable: for every timestamp, the memos carrying it appear
      in the sorted sequence in the same order as in `posts`. */
  lemma {:induction false} SortIsStable(posts: seq<Memo>, k: int)
    ensures WithTimestamp(SortNewestFirst(posts), k) == WithTimestamp(posts, k)
  {
    if posts != [] {
      SortIsStable(posts[1..], k);
      InsertStable(posts[0], SortNewestFirst(posts[1..]), k);
      WithTimestampConcat([posts[0]], posts[1..], k);
      assert posts == [posts[0]] + posts[1..];
    }
  }

  /** The id and timestamp of each memo, in order: what the display order
      is made of. */
  function IdStamps(s: seq<Memo>): seq<(int, int)> {
    if s == [] then [] else [(s[0].id, s[0].timestamp)] + IdStamps(s[1..])
  }

  /** Inserting memos with the same id and timestamp into sequences with the
      same ids and timestamps gives sequences with the same ids and timestamps. */
  lemma {:induction false} InsertSameStamps(m: Memo, n: Memo, s: seq<Memo>, t: seq<Memo>)
    requires m.id == n.id && m.timestamp == n.timestamp
    requires IdStamps(s) == IdStamps(t)
    ensures IdStamps(Insert(m, s)) == IdStamps(Insert(n, t))
  {
    if s != [] {
      assert t != [];
      assert IdStamps(s)[0] == IdStamps(t)[0];
      assert IdStamps(s[1..]) == IdStamps(s)[1..];
      assert IdStamps(t[1..]) == IdStamps(t)[1..];
      if m.timestamp < s[0].timestamp {
        InsertSameStamps(m, n, s[1..], t[1..]);
      }
    } else {
      assert |IdStamps(t)| == 0;
    }
  }

  /** Sorting sees nothing but ids and timestamps: sequences that agree on
      them position by position are displayed in the same id order. */
  lemma {:induction false} SortSameStamps(s: seq<Memo>, t: seq<Memo>)
    requires IdStamps(s) == IdStamps(t)
    ensures IdStamps(SortNewestFirst(s)) == IdStamps(SortNewestFirst(t))
  {
    if s == [] {
      assert |IdStamps(t)| == 0;
    } else {
      assert t != [];
      assert IdStamps(s[1..]) == IdStamps(s)[1..];
      assert IdStamps(t[1..]) == IdStamps(t)[1..];
      SortSameStamps(s[1..], t[1..]);
      InsertSameStamps(s[0], t[0], SortNewestFirst(s[1..]), SortNewestFirst(t[1..]));
    }
  }

  /** Editing a memo never moves it or any other memo in the display: the
      ids appear in the same order before and after the edit. */
  lemma EditKeepsDisplayOrder(posts: seq<Memo>, id: int, title: string, content: string, category: string)
    ensures IdStamps(SortNewestFirst(SaveEditBlogPost(posts, id, title, content, category)))
         == IdStamps(SortNewestFirst(posts))
  {
    var edited := SaveEditBlogPost(posts, id, title, content, category);
    SameIdStamps(edited, posts);
    SortSameStamps(edited, posts);
  }

  /** Sequences that agree on every id and timestamp agree on `IdStamps`. */
  lemma {:induction false} SameIdStamps(s: seq<Memo>, t: seq<Memo>)
    requires |s| == |t|
    requires forall j :: 0 <= j < |s| ==> s[j].id == t[j].id && s[j].timestamp == t[j].timestamp
    ensures IdStamps(s) == IdStamps(t)
  {
    if s != [] {
      SameIdStamps(s[1..], t[1..]);
    }
  }
}
