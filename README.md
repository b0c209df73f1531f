# MarriageBot relationship store and information commands, in Dafny

This project models two pieces of MarriageBot, a Discord bot that records
marriages and parent/child links between users and draws family trees.

- **The relationship store** (`database.dfy`, module `Database`). It models the
  `marriages` table, with rows `(marriage_id, user_id, partner_id, valid, guild_id)`,
  and the `parents` table, with rows `(parent_id, child_id)`. Both are `seq` fields
  of the class `DatabaseConnection`, and its methods update them in place:
  - `Destroy` soft-deletes every marriage of a user and hard-deletes every parent link of that user.
  - `Marry` inserts the two mirrored rows of a marriage under one shared id.

  The module also models how a query's result is normalised into a list or
  `None` (`Normalise`). `MakeId` is the retry loop that draws 11-character ids
  until one is free; its random source is a supplied stream of picks.
- **The information commands** (`information.dfy`, module `Information`):
  - the depth normalisation of `tree`/`globaltree`, and the tree-builder call it leads to;
  - the "no family" decisions;
  - the sanitised root label and the artifact paths of the render;
  - the `partner`, `parent` and `children` replies;
  - the `treefile` file name.

  The family lookup, the tree builder and display names come from code that is
  not part of this model. They enter as values and as function parameters.

`text.dfy` (module `Text`) holds the shared string helpers:
- decimal rendering of ids, proved injective;
- `str.join`;
- substring search;
- ASCII case folding.

`wrappers.dfy` holds `Option`.

Properties proved about the model:
- After `Destroy(u)`, no marriage row that mentions `u` is valid. Every other row is untouched.
- After `Destroy(u)`, no parent row mentions `u`. The remaining rows keep their order.
- "Mirrored" means every valid marriage row has its swapped twin. In a mirrored table, partnership is symmetric.
- When commands do not interleave, `Destroy` preserves the mirrored property, and so does `Marry` without an explicit id.
- The state between `marry`'s two inserts, on any table and with a fresh id, is one-sided. A `destroy` of the first user run in that window leaves the second row valid and unmirrored.
- A generated id is 11 characters of the 64-character alphabet, and it is not in the column it was checked against.
- The forward depth passed to the tree builder is always twice the backward depth. For the unbounded sentinel `-1`, the forward depth is `-2`.
- Artifact paths with the same extension coincide exactly when the root ids do, and so do genealogy file names.
- For a non-empty list of names without backticks, the children list can be read back into the stored names, in order.

## Model

| member | source | states |
|---|---|---|
| `Database.Normalise` | cogs/utils/database.py:42-56 | Non-empty fetched rows come back unchanged. An empty fetch becomes `[]` when the case-folded SQL mentions `select` or `returning`, and `None` otherwise. The result is truthy exactly when rows were fetched. |
| `Database.SelectInAnyCaseGivesList` | cogs/utils/database.py:54-55 | An empty fetch for SQL containing `select` in any letter case comes back as the empty list, never `None`. |
| `Text.ContainsFolded` | cogs/utils/database.py:54 | If a word occurs in the SQL text, its case-folded form occurs in the case-folded text. |
| `Database.Choices` | cogs/utils/database.py:74 | `choices(alphabet, k=11)` driven by a stream of picks yields exactly `k` characters, each taken from the alphabet. |
| `Database.Matching` | cogs/utils/database.py:75 | The id lookup returns no rows exactly when the token is not in the column. |
| `Database.FirstFreshIsFreshToken` | cogs/utils/database.py:73-78 | Any token the draw loop settles on has 11 characters, all from `RANDOM_CHARACTERS`. It is absent from the column. |
| `Database.MakeId` | cogs/utils/database.py:68-78 | The loop returns the first drawn token whose lookup is empty. That token is well formed and fresh. It returns `None` only if the finite stream runs out. |
| `Database.Invalidate` | cogs/utils/database.py:64 | The `UPDATE` keeps the row count. Afterwards no row mentioning the user is valid. Rows not mentioning the user are unchanged. Mentioning rows change only in `valid`. |
| `Database.InvalidateKeepsMirrored` | cogs/utils/database.py:64 | Soft-deleting a user's marriages keeps every remaining valid row paired with its mirror. |
| `Database.InvalidateLeavesNoPartner` | cogs/utils/database.py:64 | After the update, the user has no valid partner and is nobody's valid partner. |
| `Database.Unlink` | cogs/utils/database.py:65 | The `DELETE` keeps exactly the parent rows that link neither as parent nor as child to the user. |
| `Database.UnlinkDistributes` | cogs/utils/database.py:65 | Deletion is row by row: deleting from a concatenation gives the concatenation of the two deletions, so order is kept. |
| `Database.UnlinkKeepsUnrelated` | cogs/utils/database.py:65 | A table with no row linked to the user is left exactly as it was. |
| `Database.DatabaseConnection.constructor` | cogs/utils/database.py:21-22 | A connection starts over the given tables. |
| `Database.DatabaseConnection.Destroy` | cogs/utils/database.py:59-65 | `marriages` becomes the soft-deleted table and `parents` the hard-deleted one. A mirrored table stays mirrored. |
| `Database.PartnerSymmetry` | cogs/utils/database.py:87-100 | In a mirrored table, `b` is a valid partner of `a` exactly when `a` is a valid partner of `b`. |
| `Database.PairKeepsMirrored` | cogs/utils/database.py:92-100 | Appending the two rows of a marriage keeps the table mirrored and makes the two users each other's valid partners. |
| `Database.FreshIdNamesOnlyNewPair` | cogs/utils/database.py:87-100 | After a marriage without an explicit id, the new id names exactly the two new rows. No older row carries it. |
| `Database.HalfMarriageIsOneSided` | cogs/utils/database.py:92-100 | For any table, once the first insert of a marriage under an id not yet in the table is appended, the table is not mirrored. |
| `Database.DestroyBetweenInsertsBreaksMirror` | cogs/utils/database.py:64-100 | For any table and a fresh id, `destroy(a)` run between the two inserts of `marry(a, b)` leaves the table not mirrored. |
| `Database.DatabaseConnection.Marry` | cogs/utils/database.py:81-100 | With an explicit id, one row is appended. Without one, the two mirrored rows under the first fresh id are appended (none if the stream runs out). Existing rows and `parents` are untouched, and without an explicit id a mirrored table stays mirrored. The method recurses at most once. |
| `Text.NatToStringInjective` | cogs/information.py:144 | Different ids render as different decimal strings. |
| `Information.NormaliseDepth` | cogs/information.py:125-126 | A depth of zero or less becomes `-1`. A positive depth is kept. The result is `-1` or positive. |
| `Information.Treemaker` | cogs/information.py:121-141 | A user with no children, partner or parent gets the "no family" reply, and the tree builder is not called. Otherwise the builder gets the normalised depth backwards and twice it forwards. The reply is an image exactly when the built text is non-empty, and "no family" for the built root otherwise. |
| `Information.ArtifactPathKeyedById` | cogs/information.py:143-167 | Two `./trees/<id><ext>` paths coincide exactly when the ids and the extensions do. |
| `Information.Replace` | cogs/information.py:155 | `str.replace` of one character: same length, each occurrence replaced, every other character kept. |
| `Information.SanitiseLabel` | cogs/information.py:155 | The label has the same length and contains no parenthesis. It differs from the name only where a parenthesis became `_`. |
| `Information.SanitiseKeepsCleanLabel` | cogs/information.py:155 | A name without parentheses is passed unchanged. |
| `Information.RenderPlanFor` | cogs/information.py:143-173 | The three artifact paths are keyed by the root id and pairwise distinct. The converter gets the sanitised label and the `.txt` path, with its output going to the `.dot` path. `dot` reads the `.dot` path and writes the `.png` path. |
| `Information.GedcomFileNameKeyedById` | cogs/information.py:90 | Two `Tree of <id>.ged` names coincide exactly when the ids do. |
| `Information.PartnerReply` | cogs/information.py:34-39 | Without a partner the reply is "not currently married". With one, it names the partner. |
| `Information.PartnerReplyDecides` | cogs/information.py:34-39 | The reply is the "not currently married" text exactly when there is no partner. |
| `Information.ParentReply` | cogs/information.py:72-75 | Without a parent the reply is "has no parent". With one, it names the parent. |
| `Information.ParentReplyDecides` | cogs/information.py:72-75 | The reply is the "has no parent" text exactly when there is no parent. |
| `Information.ChildWord` | cogs/information.py:57-58 | The noun is "child" for exactly one child and "children" otherwise. |
| `Information.ChildrenReply` | cogs/information.py:53-60 | With no children the reply is "has no children right now". Otherwise it gives the count, the agreeing noun and the quoted names joined by ", ". |
| `Information.ChildrenReplyDecides` | cogs/information.py:53-60 | The reply is the "no children" text exactly when the list of children is empty. |
| `Information.ChildListRoundTrip` | cogs/information.py:59 | For names without backticks, reading the list back yields every child's name in stored order. |

## Left out

- Connection pooling (`create_pool`, `__aenter__`, `__aexit__`) and the backend's execution of arbitrary SQL are not modelled. Only the statements that `destroy`, `marry` and `make_id` issue are given a meaning, as functions on the two tables.
- Logging is not modelled.
- Database.MakeId: the random source is a finite stream of picks, each below 64 (what `floor(random() * 64)` yields). When the stream runs out, the model returns `None`. The code keeps drawing for ever. No retry cap is modelled, because the code has none.
- Database.MakeId: the queried table and column are given as the list of values in that column. A `SELECT *` row is represented by its id value.
- Database.DatabaseConnection.Destroy and Database.DatabaseConnection.Marry: each command is modelled as running without interleaving, but the code awaits between its statements (cogs/utils/database.py:64-65, 75, 88, 92, 100). Two consequences are not captured by the methods' contracts. First, a `destroy` run between `marry`'s two inserts leaves a valid row without its mirror (`Database.DestroyBetweenInsertsBreaksMirror`). Second, two concurrent `make_id` calls can return the same id, because freshness holds only at the time of the lookup.
- Database.DatabaseConnection.Marry: if the random stream runs out, nothing is inserted, where the code would never return. The two inserts run inside one method call, so the crash window between them is not modelled. `Database.HalfMarriageIsOneSided` shows the one-sided state that the window would expose.
- Text.CaseFold: only ASCII `A`-`Z` are folded. Unicode case folding (for example U+017F folding to `s`) is not modelled.
- Member objects are represented by their ids. Display names (`str(user)`, `get_name`, `bot.get_user`) are opaque strings or a `nameOf` function parameter.
- Ids in `Information` are natural numbers, because Discord ids are non-negative.
- `FamilyTreeMember` (`get`, `to_tree_string`, `generate_gedcom_file`) lives in cogs/utils/family_tree/family_tree_member.py, which is not part of this model. Tree expansion, tree text and GEDCOM content are therefore inputs.
- The external processes (`familytreemaker.py` and `dot`), the file writes and the image upload are not modelled; `RenderPlan` records what they are given. The code waits for each process and never checks its exit status. So the model has no failure path for a stage.
- Discord dispatch, `ctx.send`, `trigger_typing`, the `can_send_files` checks and the exception handler of `tree`/`globaltree` (reply, then re-raise) are platform I/O and are not modelled.
- The Unicode-range substitution regex is not modelled: the lines that used it are commented out.
- Artifact cleanup is not modelled: that code is commented out.
- The code soft-deletes marriages (`valid = FALSE`) and hard-deletes parent links, and the model follows the code.
