# Biostar remote post loader and view rules, in Dafny

This project models two parts of biostar-central.

The first part is the remote post synchroniser in
`biostar/forum/management/commands/load.py`:
- `Bunch` and `bunch_data` normalise a remote JSON record, with defaults for missing fields.
- `make_post` fetches a post and makes a missing author, then returns.
  - Otherwise it recursively synchronises the root and then the parent, when either is missing locally and is not the post itself.
  - Then it updates the stored post, creates it, or falls back to `create_parent`.
- `create_parent` creates a stub parent without recursing.
- `posts_from_api` walks the post ids downward and pauses before every multiple of 50.

The second part is the small decision rules of `main/server/views.py`:
- the placeholder check of `QuestionForm.clean`;
- `detect_duplicates`;
- the page fallback of `get_page`;
- the change annotation and reversal in `revision_list`;
- the vote toggle of `vote`.

Layout:
- `records.dfy` (`Records`): remote values, `Bunch`, `bunch_data`.
- `sync.dfy` (`PostSync`): the local store and the synchroniser as functions.
  - `Sync` is `make_post`. `Ancestors` and `Descend` are its two recursive calls.
  - `Save` is its final write. `CreateParentSpec` is `create_parent`.
- `sync_props.dfy` (`SyncProperties`): what each branch of `make_post` and `create_parent` does to the store.
- `sync_scenarios.dfy` (`SyncScenarios`): a question and an answer synchronised step by step.
- `batch.dfy` (`Batch`): the id walk of `posts_from_api`, its pauses, and the store left by a run.
- `loader.dfy` (`Loading`): the class `Loader`, which holds the posts, users and request log.
  - Its methods `MakePost`, `CreateParent` and `PostsFromApi` update that state step by step.
  - Each is proved to leave exactly the state the functions above describe.
- `question_form.dfy`, `duplicates.dfy`, `paging.dfy`, `revisions.dfy`, `voting.dfy`: the view rules.
  - `revisions.dfy` annotates an array in place.
  - `voting.dfy` has a class `VoteBook` whose vote set the view changes.

How the model stands in for the system:
- **Local store.** The ORM is a map from uid to post plus a set of known author ids.
  - `make_user` adds the author id to that set.
- **Request log.** The store also keeps the log of remote requests, in order.
  - This makes the recursion order and the number of fetches observable.
- **Remote site.** It is a map from id to record.
  - A missing entry or an empty record means "no data or 404".
- **Record values.** They are `Null`, integers or strings, compared as they are.
- **Unseen collaborators.** `util.strip_tags` and the `Post.ANSWER`/`Post.COMMENT` type codes are parameters (`Env`).
- **Recursion limit.** `make_post` recurses with no measure of its own.
  - The model counts the further nested calls Python's recursion limit still allows (`depth`).
  - When the limit is reached the outcome is `Exhausted`.
  - `Exhausted` unwinds every caller and ends `posts_from_api`, as a `RecursionError` that escapes `make_post` would.
  - A `RecursionError` raised inside `get_data`'s `try` block is caught there instead; see "## Left out".

Behaviour of `load.py` that its comments do not lead one to expect, each
proved as a lemma. Where it concerns the parent and root links of a created
post, it holds as far as `load.py`'s own `Post.objects.create` call goes:
`Post.save` hooks, left out, may set those links too.
- **Answer whose question is not stored** (`SyncScenarios.AnswerFirstPassStoresOnlyQuestion`).
  - The comments at load.py:186 and load.py:192 say the root and then the parent are created "before proceeding to current post".
  - The root and the parent are looked up before the recursion, and those lookups are not repeated. After the recursions the code still sees both as absent, so it takes the `create_parent` branch (load.py:208, "Ensure the parent is created").
  - `create_parent` finds the question and writes nothing. The answer is not stored.
  - A second run creates the answer with the question as parent. The create call (load.py:212-214) passes no root (`SyncScenarios.AnswerSecondPassCreatesIt`).
  - A third run adds the root (`SyncScenarios.AnswerThirdPassAddsRoot`).
- **Re-synchronising is not idempotent, as far as load.py's writes go** (`SyncScenarios.QuestionSyncedTwice`).
  - A first call creates a question that is its own root. The create call passes no root, and the parent lookup finds nothing.
  - A second call on the unchanged remote record links it to itself, so the stored row changes.
- **Self-rooted answer or comment.** A post that is its own root and parent makes no recursive call.
  - If such an answer or comment is not stored yet, it is fetched twice. `create_parent` fetches it again and creates it with no parent.
  - If it is already stored, it is updated after one request.
  - `SyncProperties.SyncSelfRootedDoesNotRecurse` states the request log for every case.
- **Where the pauses fall.** The comment at load.py:227 speaks of a delay "every 50 posts".
  - The code pauses before every id that is a multiple of 50 (`Batch.PausesAreMultiplesOf50`). The first pause comes after 14 ids of the hard-coded run (`Loading.FirstPauseAfter14`).
- **Order of the two recursions.** When both are needed, the parent's request comes right after every request of the root's recursion (`SyncProperties.SyncFetchesParentAfterRoot`).

## Model

| member | source | states |
|---|---|---|
| Records.Get | biostar/forum/management/commands/load.py:119-124 | dict.get gives the stored value when the key is present and the default otherwise |
| Records.NewBunch | biostar/forum/management/commands/load.py:23-31 | each of the fourteen attributes is the keyword argument of its name when given, and "" otherwise |
| Records.BunchData | biostar/forum/management/commands/load.py:117-126 | the template attribute keeps its "" default and text is strip_tags of the html attribute |
| Records.BunchDataFields | biostar/forum/management/commands/load.py:119-124 | every other attribute is its remote field when the record has it, and that field's dict.get default (status/type/dates/ids None, view_count 0, tag_val/xhtml/title/author_id "") when it does not |
| Records.BunchDataFromKeywords | biostar/forum/management/commands/load.py:117-126 | bunch_data is Bunch(**data) over the dictionary of renamed remote fields, each with its dict.get default (status/type None, view_count 0, tag_val/html/title/author_id "", dates/ids None), and text is strip_tags of the html |
| Records.EmptyRecordDefaults | biostar/forum/management/commands/load.py:117-126 | a record with no fields at all normalises, to the defaults |
| Records.TextFollowsHtml | biostar/forum/management/commands/load.py:120 | two records with the same xhtml get the same text |
| PostSync.Fetch | biostar/forum/management/commands/load.py:166-171 | a record is returned exactly when the remote site holds a non-empty one for the id |
| PostSync.Lookup | biostar/forum/management/commands/load.py:174-176 | filter(uid=...).first() finds a post exactly when one is stored under the key, and returns that post |
| PostSync.LookupsOf | biostar/forum/management/commands/load.py:174-176 | the post's own lookup succeeds exactly when its uid is stored |
| PostSync.NewPost | biostar/forum/management/commands/load.py:212-214 | the created row carries the record's uid, author and text, and the given parent and root |
| PostSync.Overwrite | biostar/forum/management/commands/load.py:201-204 | the updated row equals a freshly built one except that it keeps its uid |
| PostSync.CreateParentSpec | biostar/forum/management/commands/load.py:129-156 | one request for parent_id; nothing deleted; every post stays under its own uid; a missing record writes nothing and returns None |
| PostSync.NeedsRoot | biostar/forum/management/commands/load.py:186-187 | make_post recurses into the root only when the root lookup found nothing, and never into the post itself |
| PostSync.NeedsParent | biostar/forum/management/commands/load.py:192-193 | make_post recurses into the parent only when the parent lookup found nothing, and never into the post itself |
| PostSync.WantsParent | biostar/forum/management/commands/load.py:209 | create_parent is taken only for an answer or a comment with neither parent nor root found |
| PostSync.Save | biostar/forum/management/commands/load.py:198-214 | the final write deletes nothing, logged requests stay, and every post stays under its own uid |
| PostSync.Descend | biostar/forum/management/commands/load.py:186-196 | no call when not needed; a needed call within the limit makes the target the next request; nothing deleted, posts stay keyed |
| PostSync.Ancestors | biostar/forum/management/commands/load.py:186-196 | the two recursions delete nothing and keep every post under its own uid |
| PostSync.Sync | biostar/forum/management/commands/load.py:159-216 | make_post's first request is for the post itself; it deletes nothing, drops no logged request, and keeps every post under its own uid |
| SyncProperties.GuardsOverStore | biostar/forum/management/commands/load.py:186-209 | over the store: the root and the parent are fetched exactly when they are missing and are not the post itself; create_parent is taken exactly for an answer or comment whose parent and root are both missing |
| SyncProperties.CreateParentNotFound | biostar/forum/management/commands/load.py:134-139 | a parent missing remotely costs one request and writes nothing |
| SyncProperties.CreateParentDefersUnknownAuthor | biostar/forum/management/commands/load.py:144-150 | an unknown author is added to the users and no post is written or returned |
| SyncProperties.CreateParentReturnsExisting | biostar/forum/management/commands/load.py:143-156 | a post already stored under the fetched uid is returned and nothing is written |
| SyncProperties.CreateParentAddsStub | biostar/forum/management/commands/load.py:151-156 | otherwise exactly one post is added, under the fetched uid, linked to the post stored under parent_id and with no root |
| SyncProperties.SyncNotFound | biostar/forum/management/commands/load.py:166-171 | a post missing remotely costs one request, writes nothing and recurses nowhere |
| SyncProperties.SyncDefersUnknownAuthor | biostar/forum/management/commands/load.py:178-184 | an unknown author is added and the call ends: one request, no post written, no recursion |
| SyncProperties.AncestorsThenWrite | biostar/forum/management/commands/load.py:186-214 | the requests made by the recursions stay at the head of the final request log |
| SyncProperties.SyncFetchesRootFirst | biostar/forum/management/commands/load.py:186-190 | when the root is missing locally and is not the post, the second request is for the root |
| SyncProperties.SyncFetchesParentNext | biostar/forum/management/commands/load.py:192-196 | with no root recursion, the second request is for the parent when it is missing locally and is not the post |
| SyncProperties.SyncFetchesParentAfterRoot | biostar/forum/management/commands/load.py:186-196 | when both recursions are needed and the root one is not cut off, the parent's request comes right after every request the root recursion made |
| SyncProperties.SyncSelfRootedDoesNotRecurse | biostar/forum/management/commands/load.py:186-214 | a post that is its own root and parent makes no recursive call; the only further request is create_parent's |
| SyncProperties.SyncExhaustedWritesNothing | biostar/forum/management/commands/load.py:186-196 | a recursion cut off by the limit ends the call without writing the post |
| SyncProperties.SyncUpdatesExisting | biostar/forum/management/commands/load.py:199-204 | a stored post is overwritten under its uid with the parent and root looked up before the recursion; no other entry changes and nothing is added |
| SyncProperties.SyncCreatesNew | biostar/forum/management/commands/load.py:211-214 | a new post not on the create_parent branch is added as exactly one entry under its uid, with the pre-recursion parent and no root |
| SyncProperties.SyncRequestsParent | biostar/forum/management/commands/load.py:208-210 | a new answer or comment with neither parent nor root stored beforehand leads to create_parent(parent_id); the post itself is not added, unless the record create_parent fetches carries the post's own uid |
| SyncScenarios.QuestionSync | biostar/forum/management/commands/load.py:159-216 | a self-rooted question is created with no links when absent, or else updated to link to itself, with one request |
| SyncScenarios.QuestionCreatedAlone | biostar/forum/management/commands/load.py:211-214 | from an empty store the question is created alone, with no parent and no root |
| SyncScenarios.QuestionSyncedTwice | biostar/forum/management/commands/load.py:199-214 | a second call on the unchanged question changes the stored row: Created then Updated, with parent and root now set |
| SyncScenarios.QuestionCreatedByRecursion | biostar/forum/management/commands/load.py:186-190 | the root recursion of an answer creates the missing question |
| SyncScenarios.QuestionLinkedByRecursion | biostar/forum/management/commands/load.py:192-196 | the parent recursion, on its stale lookup, fetches and updates the question again |
| SyncScenarios.AnswerFirstPassAncestors | biostar/forum/management/commands/load.py:186-196 | both recursions run for the answer: the question is created and then linked, after three requests |
| SyncScenarios.AnswerFirstPassStoresOnlyQuestion | biostar/forum/management/commands/load.py:159-216 | the first run on the answer ends on the create_parent branch and stores only the question |
| SyncScenarios.AnswerSecondPassCreatesIt | biostar/forum/management/commands/load.py:205-214 | a second run creates the answer with the question as parent and no root, in one request |
| SyncScenarios.AnswerThirdPassAddsRoot | biostar/forum/management/commands/load.py:199-204 | a third run overwrites the answer and sets its root, so the stored row changes again |
| Batch.Descending | biostar/forum/management/commands/load.py:225 | the walk holds n ids, the i-th being n - i |
| Batch.Pauses | biostar/forum/management/commands/load.py:228-230 | the pauses recorded are at most one per id, each before a multiple of 50 |
| Batch.Ids | biostar/forum/management/commands/load.py:232 | each id is passed to make_post as an integer value |
| Batch.SyncAll | biostar/forum/management/commands/load.py:225-232 | a run deletes nothing, drops no logged request and keeps every post under its own uid |
| Batch.SyncAllSnoc | biostar/forum/management/commands/load.py:225-232 | after a run that was not cut off, one more id continues from the store it left |
| Batch.DescendingVisitsEach | biostar/forum/management/commands/load.py:225 | every id from n down to 1 is visited exactly once, in strictly descending order |
| Batch.PausesAreMultiplesOf50 | biostar/forum/management/commands/load.py:228-230 | the loop pauses exactly before the visited ids that are multiples of 50 |
| Batch.PauseCount | biostar/forum/management/commands/load.py:225-230 | a full walk down from n pauses n / 50 times |
| Batch.PausesSnoc | biostar/forum/management/commands/load.py:228-230 | visiting one more id adds a pause exactly when it is a multiple of 50 |
| Batch.PausesNone | biostar/forum/management/commands/load.py:228-230 | ids none of which is a multiple of 50 cause no pause |
| Batch.WalkStep | biostar/forum/management/commands/load.py:225-232 | one loop step: the next id below joins the visited prefix, its pause is recorded when it is a multiple of 50, and the run continues from the store the earlier ids left |
| Loading.Loader.Request | biostar/forum/management/commands/load.py:166-171 | logs the request and returns the remote record exactly when the post exists remotely |
| Loading.Loader.CreateParent | biostar/forum/management/commands/load.py:129-156 | leaves the store and returns the post exactly as CreateParentSpec describes |
| Loading.Loader.MakePost | biostar/forum/management/commands/load.py:159-216 | leaves the store and returns the outcome exactly as Sync describes |
| Loading.Loader.Recurse | biostar/forum/management/commands/load.py:186-196 | one recursive call, exactly as Descend describes |
| Loading.Loader.Write | biostar/forum/management/commands/load.py:198-214 | the final write, exactly as Save describes |
| Loading.Loader.Visit | biostar/forum/management/commands/load.py:225-232 | one iteration of the walk: after make_post on the next id, the store is the one SyncAll gives for the walk one id longer, which is still a prefix of the descending walk, and the pauses grow by that id exactly when it is a multiple of 50 |
| Loading.Loader.PostsFromApi | biostar/forum/management/commands/load.py:219-234 | the ids visited are the descending walk, all of it unless cut off; the pauses fall on the multiples of 50; the store is the one SyncAll gives; a run cut off ends at the id whose make_post hit the limit, every earlier id having completed |
| Loading.ApiRunPauses | biostar/forum/management/commands/load.py:223-230 | the hard-coded run from 306064 pauses 6121 times |
| Loading.FirstPauseAfter14 | biostar/forum/management/commands/load.py:223-230 | the hard-coded run makes no pause in its first 14 ids and pauses before the 15th, id 306050 |
| QuestionForm.CleanFields | main/server/views.py:173-175 | a field reaches the cleaned data exactly when it is present, non-empty and within its max_length, with its submitted value |
| QuestionForm.Clean | main/server/views.py:170-188 | the data is returned unchanged exactly when all three fields are present and none equals its placeholder; the tag message exactly when the tags are the placeholder; a field missing from the cleaned data fails (the KeyError) exactly when every check before it passed, and names that field |
| QuestionForm.CleanChecksInOrder | main/server/views.py:179-186 | the content message comes exactly when the tags are present and changed and the content is the placeholder; the title message exactly when tags and content are present and changed and the title is the placeholder |
| QuestionForm.UnchangedFormRejected | main/server/views.py:170-188 | the initial form submitted unchanged is rejected for its tag |
| QuestionForm.ValidFieldsReachVerdict | main/server/views.py:173-188 | a submission whose fields are valid is accepted or rejected, never missing a field |
| Duplicates.SameEmail | main/server/views.py:67-68 | the filter keeps exactly the accounts with the address, each at most as often as it occurs |
| Duplicates.DetectDuplicates | main/server/views.py:65-72 | a pair exactly when two accounts share the address; the pair is those two, the earlier joined first |
| Duplicates.SameEmailCounts | main/server/views.py:67-68 | the filter keeps every account with the address as often as it occurs |
| Duplicates.PairIffTwo | main/server/views.py:65-72 | a pair is returned exactly when the table holds two accounts with the address, and it is made of them |
| Paging.StartIsProduct | main/server/views.py:113 | page n starts at item (n - 1) * per_page |
| Paging.StartGrows | main/server/views.py:113 | each later page starts at least a full page further on |
| Paging.NumPages | main/server/views.py:106 | the page count is at least 1, and its last page starts before the last hit (max(1, count)) and reaches it |
| Paging.Requested | main/server/views.py:107-110 | the page number is the parameter, or 1 when it is absent or not an integer |
| Paging.PageAt | main/server/views.py:113 | page n holds the items from its start on, in order, at most per_page of them, full unless it is the last, and the last one runs to the end of the items |
| Paging.StartsInRange | main/server/views.py:113 | a page that exists starts within the items, and every page before the last ends within them |
| Paging.GetPage | main/server/views.py:103-117 | the requested page when it exists, otherwise the last page; always a page that exists |
| Paging.ItemOnItsPage | main/server/views.py:103-117 | item i is on page i / per_page + 1 at position i % per_page |
| Paging.ItemOnOnePage | main/server/views.py:103-117 | no other page holds item i |
| Paging.LastPageNonEmpty | main/server/views.py:114-115 | the fallback page is not empty when there are items |
| Paging.Fallbacks | main/server/views.py:107-115 | a number out of range gives the last page; a parameter that is not a number gives page 1, as an absent one does |
| Revisions.Word | main/server/views.py:306-312 | the word stored is "created", "performed" or "edited" |
| Revisions.WordsDistinct | main/server/views.py:306-312 | the three words tell the verbs apart: equal words mean the same verb |
| Revisions.Data | main/server/views.py:303-304 | revision_data gives the title, the content and the tag string, in that order |
| Revisions.AnnotateAt | main/server/views.py:305-315 | an annotated revision keeps its title, content, tags and action flag; it is "created" exactly when first, "performed" exactly when a later action (keeping its modified value), and "edited" otherwise, with three change marks whenever it is not a later action |
| Revisions.Annotated | main/server/views.py:305-315 | the annotated list has one annotated revision per revision, in the same order |
| Revisions.Diff | main/server/views.py:314 | modified[k] holds exactly when field k differs from the baseline |
| Revisions.Baseline | main/server/views.py:305-315 | the baseline of revision i is the latest earlier revision that is the first one or an edit, with only actions after it |
| Revisions.Reversed | main/server/views.py:316 | the reversed list has the same length, and element i is element n - 1 - i of the original |
| Revisions.AnnotateRevisions | main/server/views.py:296-316 | an empty list fails and is left alone; otherwise the array ends as the annotated list reversed |
| Revisions.AnnotateOldestFirst | main/server/views.py:305-315 | the loop leaves every revision annotated as AnnotateAt describes |
| Revisions.AnnotateFirst | main/server/views.py:305-307 | the first revision is marked "created" with every field modified, the rest are untouched, and its data is the first baseline |
| Revisions.AnnotateStep | main/server/views.py:308-315 | one pass of the loop moves the list one revision further along the annotation and returns the baseline for the next revision |
| Revisions.AnnotatedUpTo | main/server/views.py:305-315 | the list while the loop runs: the first n revisions annotated as AnnotateAt describes, the rest as they were |
| Revisions.AnnotateNext | main/server/views.py:309-315 | one loop step: an action is "performed"; an edit is "edited", is compared with the current baseline, and becomes the next baseline |
| Revisions.BaselineStep | main/server/views.py:309-315 | the baseline moves to revision i exactly when it is an edit |
| Revisions.Reverse | main/server/views.py:316 | the array ends reversed |
| Revisions.OldestIsCreated | main/server/views.py:305-307 | the oldest revision is "created" with all three fields marked, and is shown last |
| Revisions.ActionIsPerformed | main/server/views.py:309-310 | a later action is "performed", keeps its modified value, and does not move the baseline |
| Revisions.EditMarksChangedFields | main/server/views.py:311-315 | a later edit is "edited", marks exactly the fields that differ from the last edit (or the first revision), and becomes the next baseline |
| Revisions.BaselineUnique | main/server/views.py:305-315 | any earlier first-or-edit revision followed only by actions is the baseline |
| Revisions.AnnotationKeepsRevisions | main/server/views.py:303-316 | annotation changes only verb and modified, and the list is shown newest first |
| Voting.Decide | main/server/views.py:336-368 | errors leave the votes alone and happen exactly for non-POST, anonymous, missing-post and own-post requests, each checked in that order with its own reply; a success reply carries the request's vote type; an existing vote is removed and nothing else changes; otherwise the vote is added, the opposing vote withdrawn, and every other vote stays as it was |
| Voting.VoteBook.HandleVote | main/server/views.py:336-368 | the reply and the new vote set are exactly those Decide gives |
| Voting.OthersUntouched | main/server/views.py:352-365 | only the voter's votes on that post can change |
| Voting.DecideKeepsNoConflict | main/server/views.py:359-362 | with a symmetric opposing table, no voter ever holds a vote and its opposite on one post |
| Voting.VoteTwiceRestores | main/server/views.py:352-365 | the same vote cast twice, with no opposing vote in the way, restores the votes |

## Left out

- `get_data`'s retry loop, the HTTP request, hjson decoding and the 404 status are one lookup in the remote map. A failing remote cannot be expressed.
- Logging and every `time.sleep` are left out. `posts_from_api` reports where it would pause rather than sleeping.
- `util.strip_tags` and the `Post.ANSWER`/`Post.COMMENT` codes are parameters. Their code is not part of this model.
- `make_user` is "add the author id to the users". The User and Profile rows it creates are not modelled.
- Ids are compared as they are. Django casting ints to strings in lookups (so `5` matches a stored `"5"`) is not modelled. Neither is the request URL built from the id's text (load.py:133 and 165), under which `Int(5)` and `Str("5")` fetch the same resource: the remote map may give them different records, and every lemma holds for every remote map.
- The database's unique and not-null constraints on `uid` are not modelled.
- `Post.save` hooks and defaults that the Post model may add are not modelled. That code is not part of this model. They may set the parent or root of a created post, so what the model says about those links holds for `load.py`'s own create and update calls only.
- `PostSync.Sync`: `Exhausted` stands for both ways the code can meet the recursion limit, and the model takes the abort for both. A `RecursionError` escaping `make_post` ends the run. One raised inside `requests.get` or `hjson.loads` is caught by `get_data`'s `except Exception` (load.py:104-112), which logs it and retries every 5 seconds forever. That endless retry is not modelled.
- `PostSync.Sync`: the recursion is bounded by `depth`, which stands for the interpreter's recursion limit. Genuine remote cycles therefore end in `Exhausted` rather than running forever.
- `Loading.Loader.PostsFromApi` takes its starting id as a parameter. The source's constant 306064 is `Loading.NPOSTS`.
- `load_votes`, `load_posts`, `load_users`, `vote_loader` and `Command.handle` are left out: they do file I/O and call code that is not part of this model.
- The view functions are modelled as their decisions only. Templates, redirects, JSON bodies, authentication, OpenID and transactions are left out.
- `index`, `user_profile`, the list views, `question_show`, the edit views, `comment_add`, `moderate` and `preview` are left out: they are ORM queries, markup and model methods that are not part of this model.
- Duplicates.DetectDuplicates: the order of two accounts that joined at the same moment is left unstated, as the database leaves it.
- Paging.GetPage: `int()` parsing of the page parameter is abstracted into `Absent`, `Numeral(n)` and `NotANumber`. The page size must be positive, as every caller's is.
- Voting.Decide: `int()` parsing of the post id and vote type is left out. `get_vote`, `add_vote` and `remove_vote` are taken to be set membership, insertion and removal of one row per voter, post and type, because `models.py` is not part of this model. A post that does not exist is the `NoSuchPost` reply, where the view raises an error.
- Voting.Decide: the added vote is promised to remain only when a type's opposite is a different type. When a type opposes itself, the source removes the vote it has just added.
- Revisions.AnnotateAt: the verb is the enumeration `Verb` rather than a string. `Revisions.Word` gives the string the view stores for each.
- Revisions.AnnotateRevisions: the ORM ordering by date is taken as given. The revisions are values in an array, and setting an attribute replaces the element.
- `biostar/recipes/static/recipes.js` is browser code and is left out.
