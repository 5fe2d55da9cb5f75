# Service-link and memo manager — a Dafny model

The repository is a browser page, in three variants, that keeps two flat
collections in `localStorage`: service links (`script.js` keeps only these),
memos or "blog posts" (`blog_script.js` adds these) and, in
`fully_auto_sync_script.js`, a manual push/pull of both collections to a
private GitHub Gist. The three files share every modelled method line for line
(they differ elsewhere, for instance in which edit forms `editLink` hides
and in the global names of the `onclick` templates), so this model has one
core and cites whichever file's copy a member is compared with.

The model is functional: records are datatypes, the collections are
sequences, every page method becomes a pure function from the old state to
the new one, and the DOM, `alert`/`confirm`, `Date.now()`, `new URL(...)`,
`fetch` and `localStorage` become parameters and results.

| file | module | what it holds |
|---|---|---|
| `wrappers.dfy` | `Wrappers` | `Option`, `Result` |
| `strings.dfy` | `Strings` | `String.prototype.trim` over ECMAScript's fixed white-space set |
| `html.dfy` | `Html` | `escapeHtml`, its inverse and its properties |
| `records.dfy` | `Records` | `Link`, `Memo`, the form verdicts, the nine seed links |
| `store.dfy` | `Store` | delete-by-id (`filter`) and edit-first-by-id (`findIndex`), generic in the record type |
| `links.dfy` | `Links` | `addLink`, `deleteLink`, `saveEdit` on the link sequence |
| `memos.dfy` | `Memos` | `addBlogPost`, `deleteBlogPost`, `saveEditBlogPost`, the newest-first display order |
| `persistence.dfy` | `Persistence` | the four storage keys, load with defaults, save |
| `facade.dfy` | `Facade` | the manager object: each page method with its save, and the reload invariant |
| `sync.dfy` | `Sync` | token, Gist id, `setToken`, `saveRemoteData`, `loadRemoteData` |

Modelling choices:

- JavaScript's `null` and `""` are both falsy, and the source only ever tests
  the token and the Gist id for truthiness, so both are strings here with
  `""` for "absent".
- `new URL(u)` succeeding is the parameter `validUrl(u)`, applied to the
  trimmed url as in the source.
- `addBlogPost` calls `Date.now()` twice, once for the id and once for the
  timestamp; the model takes two clock readings, which may differ.
- The invariant `Facade.Consistent` / `Sync.Consistent` says that reloading
  the page from storage reproduces the state in memory. Every operation is
  proved to keep it, and `Facade.Reopen` shows reload gives the state back.

Behaviours that a reader might expect otherwise, where the model follows
the code:

- An edit of an absent id is a silent no-op, not a "not found" error.
- The memo category is stored as the selected text, unchecked, not an
  enumeration with a default.
- `setToken` trims its input and ignores the masked placeholder; it does
  not store the raw input.
- A pull is rejected unless *both* collections are present in the remote
  document.
- Unreadable local data is not handled by the source (the constructor
  throws); the model returns `Failure(Unreadable(key))`.

## Model

| member | source | states |
|---|---|---|
| Strings.Trim | fully_auto_sync_script.js:381-383 | trimmed text is empty exactly when the input is all white space, and otherwise neither starts nor ends with white space |
| Strings.TrimIsInfix | blog_script.js:203-205 | trimmed text is the infix of the input between a blank prefix and a blank suffix |
| Strings.TrimIdempotent | blog_script.js:170-171 | trimming an already trimmed value changes nothing |
| Html.EscapeChar | fully_auto_sync_script.js:332-338 | every character other than `& < > " '` maps to itself; each of those five maps to an entity starting with `&`, which an HTML reader reads back as exactly that character |
| Html.Escape | fully_auto_sync_script.js:339 | escaped text contains none of `< > " '`, every `&` in it opens one of the five entities, and it equals the input exactly when the input has no special character |
| Html.EscapeHtml | fully_auto_sync_script.js:328-340 | non-strings are returned unchanged; a string comes back as its full escape, markup-free, with no bare `&`, and unescapes to the original |
| Html.EscapeConcat | blog_script.js:144 | escaping distributes over concatenation: one replacement per character, replacements never rescanned |
| Html.UnescapeEscape | blog_script.js:133-145 | unescaping the five entities recovers the input |
| Html.EscapeUnescape | fully_auto_sync_script.js:332-339 | escaping the read-back of any markup-free text without bare `&` gives that text back, so the escape is the only such encoding of its input |
| Html.EscapeInjective | script.js:85-97 | two different texts never escape to the same markup |
| Records.DefaultLinks | fully_auto_sync_script.js:33-45 | the seed list has nine links with ids 1 to 9 in order, hence distinct, with non-empty names and urls |
| Store.RemoveId | fully_auto_sync_script.js:427 | filter by id removes every record with the id, shrinks by the number of matches, and is the identity exactly when nothing matches |
| Store.RemoveIdKeeps | fully_auto_sync_script.js:427 | the filter keeps only records of the input and keeps every record whose id differs |
| Store.RemoveAbsent | fully_auto_sync_script.js:427 | filtering out an id no record has leaves the sequence unchanged |
| Store.RemoveIdConcat | blog_script.js:249 | the filter distributes over concatenation, so survivors keep their order |
| Store.RemoveIdIdempotent | script.js:151 | filtering out the same id twice equals filtering once |
| Store.FindIndex | fully_auto_sync_script.js:559-560 | the index found is the first with the id, and none is found exactly when no record has the id |
| Store.UpdateFirst | fully_auto_sync_script.js:559-563 | only the position of the first match is changed; length and all other positions are kept, and without a match nothing changes |
| Links.CheckLink | fully_auto_sync_script.js:385-396 | a blank name or url is rejected first; otherwise the form is accepted exactly when the trimmed url parses |
| Links.AddLink | script.js:114-138 | a rejected form leaves the links unchanged; an accepted one appends exactly one link with the trimmed fields after the untouched existing ones |
| Links.DeleteLink | script.js:149-155 | unconfirmed it changes nothing; confirmed it is the order-preserving filter, leaving no link with that id and keeping all others |
| Links.DeleteLinkIdempotent | blog_script.js:247-253 | deleting the same link twice equals deleting it once |
| Links.SaveEdit | script.js:187-212 | only the first link with the id gets the trimmed name/url/remark; ids, length and all other links are kept; a rejected form or an absent id changes nothing |
| Memos.CheckMemo | fully_auto_sync_script.js:348-355 | a memo is accepted exactly when neither trimmed title nor trimmed content is empty |
| Memos.AddBlogPost | blog_script.js:170-187 | a rejected form leaves the memos unchanged; an accepted one appends one memo with the trimmed title/content, the category verbatim and the two clock readings as id and timestamp |
| Memos.DeleteBlogPost | fully_auto_sync_script.js:416-422 | unconfirmed it changes nothing; confirmed it removes every memo with the id and keeps all others in order |
| Memos.SaveEditBlogPost | fully_auto_sync_script.js:490-507 | only the first memo with the id gets the new title/content/category; every id and timestamp is kept, other memos and the length are kept, and a rejected form or absent id changes nothing |
| Memos.SortNewestFirst | fully_auto_sync_script.js:307 | the display order is a permutation of the stored memos with non-increasing timestamps |
| Memos.SortIsStable | blog_script.js:112 | memos with equal timestamps are displayed in their stored order |
| Memos.EditKeepsDisplayOrder | blog_script.js:321-325 | editing a memo never changes the order in which ids are displayed |
| Persistence.LoadLinks | fully_auto_sync_script.js:21-24 | an absent key or the empty string gives the nine seed links, saved links (any JSON text of a link list) read back as themselves, and text that is not the JSON of a collection fails to load |
| Persistence.LoadBlogPosts | fully_auto_sync_script.js:27-30 | an absent key or the empty string gives no memos, saved memos (any JSON text of a memo list) read back as themselves, and text that is not the JSON of a collection fails to load |
| Persistence.SaveLinks | fully_auto_sync_script.js:48-50 | saving the links overwrites only their key, which then reads back as exactly those links |
| Persistence.SaveBlogPosts | fully_auto_sync_script.js:53-55 | saving the memos overwrites only their key, which then reads back as exactly those memos |
| Persistence.WriteToken | fully_auto_sync_script.js:103-107 | storing or removing the token changes only its key |
| Persistence.WriteGistId | fully_auto_sync_script.js:179 | storing the Gist id changes only its key |
| Persistence.LoadFromEmptyStorage | script.js:14-32 | with nothing stored the links are the nine seed links with ids 1 to 9 and the memos are empty |
| Facade.Open | blog_script.js:16-25 | loading fails exactly when a stored collection is unreadable; otherwise a missing or empty key gives the seed links or no memos and the state is reload-consistent |
| Facade.Reopen | blog_script.js:43-50 | reloading the storage of a consistent state gives back that state |
| Facade.AddLink | fully_auto_sync_script.js:376-413 | an accepted link is added and the list written to its key; memos and other keys are left alone, reload consistency is kept, and a rejected form changes nothing |
| Facade.DeleteLink | fully_auto_sync_script.js:425-431 | unconfirmed nothing changes; confirmed the filtered links are saved even if none matched, memos untouched |
| Facade.SaveEdit | fully_auto_sync_script.js:534-568 | an accepted edit of a present id is saved; a rejected form or an absent id changes nothing, storage included |
| Facade.AddBlogPost | blog_script.js:165-195 | an accepted memo is added and the list written to its key; links and other keys are left alone, reload consistency is kept, and a rejected form changes nothing |
| Facade.DeleteBlogPost | blog_script.js:238-244 | unconfirmed nothing changes; confirmed the filtered memos are saved, links untouched |
| Facade.SaveEditBlogPost | blog_script.js:304-330 | an accepted edit of a present id is saved; a rejected form or an absent id changes nothing |
| Sync.Open | fully_auto_sync_script.js:3-7 | the sync manager starts reload-consistent, with token and Gist id read from their keys |
| Sync.SetToken | fully_auto_sync_script.js:97-112 | a blank input clears and removes the token, the masked placeholder changes nothing, anything else is stored trimmed; collections, Gist id and every key but `githubToken` never change |
| Sync.PushRequest | fully_auto_sync_script.js:137-174 | the push is a PATCH of `gists/<id>` exactly when a Gist id is set, else a POST of `gists`; the body is private and carries the current collections in the one data file |
| Sync.SaveRemoteData | fully_auto_sync_script.js:129-191 | without a token nothing is sent or changed; collections, token and every key but `gistId` never change; only an ok reply adopts and stores the returned Gist id; errors leave the state as it was |
| Sync.PullRequest | fully_auto_sync_script.js:208-212 | the pull is a bodiless GET of `gists/<id>` with the token, the same url and credentials a push with that Gist id uses |
| Sync.LoadRemoteData | fully_auto_sync_script.js:194-245 | token checked first, then Gist id, nothing sent without them; collections are replaced and saved exactly when the reply has the data file with both collections; no key but the two collection keys is written; otherwise the state is unchanged |
| Sync.PushThenPull | fully_auto_sync_script.js:216-223 | pulling the Gist a successful push wrote restores exactly the pushed collections |

## Left out

- Rendering (`renderLinks`, `renderBlogPosts` apart from their sort, the `innerHTML` templates, the `<br>` substitution), `editLink`, `cancelEdit`, `editBlogPost`, `cancelEditBlogPost`, `updateTokenDisplay`, `showMessage` and event binding: user interface only. `confirm` is the boolean `confirmed`; each `alert` is a `Verdict` or a `Notice`.
- The DOM lookups `saveEdit`/`saveEditBlogPost` start with: the edited values are parameters, read from the form of the record with that id.
- `fetch`, headers other than `Authorization`, and the Gist API: a request is reported as a `Request` value and the reply is the input `Reply`. A reply whose `.json()` fails is not modelled.
- `JSON.stringify`/`JSON.parse`: a stored or pushed collection is kept as the value it encodes, whatever its spacing (a hand-written `"[ ]"` is `Encoded([])`); a stored text is `Foreign` when it is empty or not the JSON of a list. Stored JSON of something other than a list (say `"42"`) is reported as unreadable, where the source would carry on with a non-list value; remote content is `Blank`, `Malformed` or `Parsed` with each collection present or missing. A parsed `links`/`blogPosts` that is truthy but not a list is not modelled.
- `new URL(...)` (WHATWG URL parsing): the parameter `validUrl`.
- `Date.now()` and `toISOString()`: parameters. Ids are therefore not claimed unique; when two records share an id, delete removes both while edit changes only the first.
- Strings.Trim: white space is the fixed ECMAScript set; JavaScript strings are UTF-16 code units while Dafny's are Unicode scalar values, which makes no difference to trimming or escaping since every character involved is in the Basic Multilingual Plane.
- The links-only page (`script.js`) never reads or writes the memo key; its constructor is the links half of `Facade.Open`.
- Concurrency of pushes and pulls: the remote holds whichever write lands last; there is no versioning to model.
