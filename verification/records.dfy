/** The two record kinds the managers keep, and the seed list of links. */
module Records {

  /** A service link. `id` is the creation time in milliseconds, or 1..9 for
      the seed entries. */
  datatype Link = Link(id: int, name: string, url: string, remark: string)

  /** A memo ("blog post"). `category` is the selected option's text, stored
      as given; `timestamp` is the creation time and is never edited. */
  datatype Memo = Memo(id: int, title: string, content: string, category: string, timestamp: int)

  /** The outcome of the form checks that run before a record is added or
      edited; each rejection is an `alert` in the source. */
  datatype Verdict = Accepted | MissingField | InvalidUrl

  function LinkId(l: Link): int { l.id }

  function MemoId(m: Memo): int { m.id }

  /** `getDefaultLinks()`: the nine seed links used when nothing is stored.
      Their ids are 1 to 9 in order, hence distinct, and every one has a
      non-empty name and url. */
  function DefaultLinks(): (r: seq<Link>)
    ensures |r| == 9
    ensures forall i :: 0 <= i < |r| ==> r[i].id == i + 1
    ensures forall i, j :: 0 <= i < j < |r| ==> r[i].id != r[j].id
    ensures forall i :: 0 <= i < |r| ==> r[i].name != [] && r[i].url != []
  {
    [ Link(1, "xui 节点", "https://152.69.231.38:54322/09f/xui/", "xui节点地址1"),
      Link(2, "xui 节点", "https://lihaoalong.top:54322/09f/xui/", "xui节点地址2"),
      Link(3, "xui 节点", "https://158.180.82.83:54322/09f/xui/", "xui节点地址3"),
      Link(4, "1panel面板", "http://158.180.82.83:24882/alonglihao", "1panel面板地址1"),
      Link(5, "1panel面板", "http://152.69.231.38:28560/alonglihao", "1panel面板地址2"),
      Link(6, "Cloudflare", "https://dash.cloudflare.com/0d4e7ec8269b1df4288f7e6430e534d3/lihaoalong.asia", "Cloudflare管理面板"),
      Link(7, "优选IP", "https://lihaoalong.dpdns.org/ADMIN", "优选IP管理"),
      Link(8, "饭太硬TV", "http://www.饭太硬.com/tv", "饭太硬TV源"),
      Link(9, "OK影视", "http://ok321.top/tv", "OK影视TV源") ]
  }
}
