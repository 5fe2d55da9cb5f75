/** The link operations of `addLink`, `deleteLink` and `saveEdit`, on the
    sequence of links alone. `validUrl` stands for "`new URL(u)` does not
    throw", which this model does not interpret. */
module Links {
  import opened Records
  import opened Strings
  import Store

  /** The two checks `addLink` and `saveEdit` run on the form, in order:
      name and url must not be blank, then the trimmed url must parse. */
  function CheckLink(name: string, url: string, validUrl: string -> bool): (v: Verdict)
    ensures v == MissingField <==> IsBlank(name) || IsBlank(url)
    ensures v == Accepted <==> !IsBlank(name) && !IsBlank(url) && validUrl(Trim(url))
  {
    var n := Trim(name);
    var u := Trim(url);
    if n == [] || u == [] then MissingField
    else if !validUrl(u) then InvalidUrl
    else Accepted
  }

  /** `addLink`: a rejected form leaves the links as they are; an accepted one
      appends exactly one link, carrying the trimmed fields and the given id,
      after all the links already there. */
  function AddLink(links: seq<Link>, id: int, name: string, url: string, remark: string,
                   validUrl: string -> bool): (r: seq<Link>)
    ensures |r| == |links| + (if CheckLink(name, url, validUrl) == Accepted then 1 else 0)
    ensures r[..|links|] == links
    ensures CheckLink(name, url, validUrl) == Accepted ==>
              r[|links|] == Link(id, Trim(name), Trim(url), Trim(remark))
  {
    if CheckLink(name, url, validUrl) != Accepted then links
    else links + [Link(id, Trim(name), Trim(url), Trim(remark))]
  }

  /** `deleteLink`: unconfirmed, nothing changes; confirmed, every link with
      the id is removed and the others keep their order. */
  function DeleteLink(links: seq<Link>, id: int, confirmed: bool): (r: seq<Link>)
    ensures !confirmed ==> r == links
    ensures confirmed ==> r == Store.RemoveId(links, LinkId, id)
    ensures forall i :: 0 <= i < |links| && links[i].id != id ==> links[i] in r
    ensures confirmed ==> forall i :: 0 <= i < |r| ==> r[i].id != id
  {
    if confirmed then
      Store.RemoveIdKeeps(links, LinkId, id);
      Store.RemoveId(links, LinkId, id)
    else links
  }

  /** Deleting the same link twice is deleting it once. */
  lemma DeleteLinkIdempotent(links: seq<Link>, id: int, confirmed: bool)
    ensures DeleteLink(DeleteLink(links, id, confirmed), id, confirmed) == DeleteLink(links, id, confirmed)
  {
    Store.RemoveIdIdempotent(links, LinkId, id);
  }

  /** `saveEdit`: on an accepted form only the first link with the id gets
      the trimmed name, url and remark; its id stays, every other link and
      the length stay, and a rejected form or an absent id changes
      nothing. */
  function SaveEdit(links: seq<Link>, id: int, name: string, url: string, remark: string,
                    validUrl: string -> bool): (r: seq<Link>)
    ensures |r| == |links|
    ensures forall j :: 0 <= j < |r| ==> r[j].id == links[j].id
    ensures CheckLink(name, url, validUrl) != Accepted ==> r == links
    ensures (forall j :: 0 <= j < |links| ==> links[j].id != id) ==> r == links
    ensures forall j :: 0 <= j < |links| && !Store.IsFirstMatch(links, LinkId, id, j) ==> r[j] == links[j]
    ensures forall j :: 0 <= j < |links| && Store.IsFirstMatch(links, LinkId, id, j)
                        && CheckLink(name, url, validUrl) == Accepted ==>
              r[j].name == Trim(name) && r[j].url == Trim(url) && r[j].remark == Trim(remark)
  {
    if CheckLink(name, url, validUrl) != Accepted then links
    else
      Store.UpdateFirst(links, LinkId, id,
                        (l: Link) => l.(name := Trim(name), url := Trim(url), remark := Trim(remark)))
  }
}
