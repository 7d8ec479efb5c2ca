# Loader-backed resolvers of the dataloader examples, in Dafny

The repository is a set of tutorial GraphQL servers that resolve related records
(one-to-one, one-to-many, many-to-many) through per-request batching loaders. The loader
itself comes from the external `dataloader` package and is not part of this model. What
the examples contain, and what is modelled here, is the data logic around it:

- **Mock fetches** over hard-coded tables (`dbMock.*.getByIds`, `getByPostIds`,
  `getByUserIds`), which filter a table by a list of ids.
- **Join-table batch functions** of the many-to-many server (`userPostsByPost`,
  `userPostsByUser`), which fetch the join rows once and return one group per requested
  key, and the two-hop resolvers `Post.authors` / `User.posts`.
- **Conditional field loading** (`isFieldRequested` and `Query.posts` of
  dataloader-on-db.ts): only the selected `author` / `editor` fields are loaded.
- **Foreign-key directive dispatch** (field-resolver.ts): `applyFkDirective` copies the
  argument of `@fk(field: ...)` into the field's `extensions.fkField`, and the
  server-wide field resolver chooses between a loader call and a property read.

A loader is represented by what its caller sees: a key-to-value function `load`, plus
the keys the resolver hands to it. The batch-consistency lemmas show which batch functions
give the same value for a key however the loader groups keys into batches. That property
is what makes the key-to-value view sound.

Files: `values.dfy` (Option, an Outcome that may be a thrown TypeError, JavaScript values
and truthiness), `js_array.dfy` (the semantics of `Array.prototype.filter`), `users.dfy`
(the users table and `users.getByIds`, which all three servers declare identically),
`many_to_many.dfy`, `dataloader_on_db.dfy`, `field_resolver.dfy`.

## Model

| member | source | states |
|---|---|---|
| `Users.GetByIds` | dataloaders/many-to-many.ts:26-29 | every returned user is a table row with a requested id; every such row is returned; never more rows than the table |
| `Users.GetByIdsInTableOrder` | dataloaders/field-resolver.ts:20 | the result follows the table's order (filtering distributes over splitting the table), and each matching row appears as often as in the table |
| `Users.GetByIdsNotAligned` | dataloaders/dataloader-on-db.ts:20-23 | as written, keys "2","1" get back Alice first (so not at key "2"), and keys "1","3" get a one-element result |
| `Users.LoadBatch` | dataloaders/dataloader-on-db.ts:47-49 | corrected batch function: one entry per key, at its position; a present entry is a table user with that id; an absent entry means no user has that id |
| `Users.LoadBatchConsistent` | dataloaders/dataloader-on-db.ts:48 | a key's entry is the same in every batch that contains it, and equals the single-key batch; a user it finds is one the as-written fetch returns |
| `Users.LoadBatchSeed` | dataloaders/dataloader-on-db.ts:7-10 | on the seed users, keys "2","1" give Bob then Alice, and keys "1","3" give Alice then none |
| `ManyToMany.PostsGetByIds` | dataloaders/many-to-many.ts:32-35 | every returned post is a table row with a requested id, and every such row is returned |
| `ManyToMany.PostsGetByIdsInTableOrder` | dataloaders/many-to-many.ts:34 | posts come back in table order, each as often as in the table |
| `ManyToMany.GetByPostIds` | dataloaders/many-to-many.ts:38-41 | exactly the join rows whose postId is requested |
| `ManyToMany.GetByUserIds` | dataloaders/many-to-many.ts:42-45 | exactly the join rows whose userId is requested |
| `ManyToMany.GetLinksInTableOrder` | dataloaders/many-to-many.ts:37-46 | both join-row fetches keep join-table order, and keep each matching row as often as the table has it |
| `ManyToMany.FetchedGroupsArePostLinks` | dataloaders/many-to-many.ts:73-74 | grouping the prefetched rows by a requested post id gives that post's rows from the whole join table |
| `ManyToMany.FetchedGroupsAreUserLinks` | dataloaders/many-to-many.ts:77-78 | the same for a requested user id |
| `ManyToMany.UserPostsByPost` | dataloaders/many-to-many.ts:72-75 | one group per requested post id, so the length equals the key count; group i is the join rows of postIds[i] in join-table order |
| `ManyToMany.UserPostsByUser` | dataloaders/many-to-many.ts:76-79 | one group per requested user id; group i is the join rows of userIds[i] in join-table order |
| `ManyToMany.LinksOfPostSpec` | dataloaders/many-to-many.ts:74 | a post's group holds only rows of that post, each row as often as the table has it; it is empty exactly when the post has no link |
| `ManyToMany.LinksOfUserSpec` | dataloaders/many-to-many.ts:78 | the same for a user's group |
| `ManyToMany.UserPostsByPostConsistent` | dataloaders/many-to-many.ts:74 | equal keys get equal groups, at two positions of one batch or in two different batches |
| `ManyToMany.UserPostsByUserConsistent` | dataloaders/many-to-many.ts:78 | the same for the user-keyed batch function |
| `ManyToMany.UserIdsCount` | dataloaders/many-to-many.ts:91 | mapping a post's group to user ids gives user u as often as the join row (u, post) occurs |
| `ManyToMany.PostIdsCount` | dataloaders/many-to-many.ts:98 | mapping a user's group to post ids gives post p as often as the join row (user, p) occurs |
| `ManyToMany.PostAuthorIds` | dataloaders/many-to-many.ts:89-93 | the ids passed on by `Post.authors`: one per row of the post's loaded group, in the group's order, each the row's userId |
| `ManyToMany.PostAuthors` | dataloaders/many-to-many.ts:89-93 | `Post.authors` resolves to one user per row of the post's loaded group, in order: the load of that row's userId |
| `ManyToMany.UserPostIds` | dataloaders/many-to-many.ts:96-100 | the ids passed on by `User.posts`: one per row of the user's loaded group, in order, each the row's postId |
| `ManyToMany.UserPostsOf` | dataloaders/many-to-many.ts:96-100 | `User.posts` resolves to one post per row of the user's loaded group, in order: the load of that row's postId |
| `ManyToMany.PostAuthorsFromJoinTable` | dataloaders/many-to-many.ts:89-93 | `Post.authors` passes the userId of each of the post's join rows to `loadMany`, one per link, in join-table order; it resolves to the loaded users in that order |
| `ManyToMany.UserPostsFromJoinTable` | dataloaders/many-to-many.ts:96-100 | `User.posts` passes the postId of each of the user's join rows to `loadMany`, one per link, in join-table order; it resolves to the loaded posts in that order |
| `ManyToMany.SeedLinksOfPost2` | dataloaders/many-to-many.ts:17-22 | in the seed join table post "2" is linked to users "1" and "2" |
| `ManyToMany.SeedLinksOfPost3` | dataloaders/many-to-many.ts:21 | post "3" is linked to user "2" only |
| `ManyToMany.SeedLinksOfUser1` | dataloaders/many-to-many.ts:18-19 | user "1" is linked to posts "1" and "2" |
| `ManyToMany.SeedLinksOfUser2` | dataloaders/many-to-many.ts:20-21 | user "2" is linked to posts "2" and "3" |
| `ManyToMany.SeedAuthorsOfPost2` | dataloaders/many-to-many.ts:89-92 | on the seed data, `Post.authors` of post "2" loads users "1","2" |
| `ManyToMany.SeedAuthorsOfPost3` | dataloaders/many-to-many.ts:90-91 | `Post.authors` of post "3" loads user "2" |
| `ManyToMany.SeedUserPostIds` | dataloaders/many-to-many.ts:96-99 | `User.posts` of user "1" loads posts "1","2", and of user "2" loads posts "2","3" |
| `DataloaderOnDb.SomeNamed` | dataloaders/dataloader-on-db.ts:55 | the scan answers true iff a named selection matches before any inline fragment; false iff no selection matches and none is an inline fragment; otherwise it throws |
| `DataloaderOnDb.IsFieldRequested` | dataloaders/dataloader-on-db.ts:52-56 | throws when there is no first field node or it has no selection set. Otherwise it is the scan of the first node's direct selections (true, false or throws, as for `SomeNamed`). With no inline fragment there, it is true iff a direct selection has the name |
| `DataloaderOnDb.SecondFieldNodeIgnored` | dataloaders/dataloader-on-db.ts:53 | when `posts` is named twice in a query, an `editor` selected only in the second field node is not seen |
| `DataloaderOnDb.OnlyTopSelectionsMatter` | dataloaders/dataloader-on-db.ts:53-55 | only the first field node's direct selections matter: names deeper in the tree and other field nodes do not change the answer |
| `DataloaderOnDb.SameShapeSameAnswer` | dataloaders/dataloader-on-db.ts:55 | two selection lists that agree on kind and name at every position give the same scan result |
| `DataloaderOnDb.ResolvePosts` | dataloaders/dataloader-on-db.ts:61-78 | one record per post, in table order, each carrying the post unchanged; `author` / `editor` is present iff selected and then holds the load of authorId / editorId; the keys loaded are `LoadKeys`; if a selection check throws, nothing is loaded |
| `DataloaderOnDb.LoadKeysLayout` | dataloaders/dataloader-on-db.ts:68-76 | with w = number of selected fields, w keys per post (none at all when neither field is selected); post i's block is its authorId (if selected) and then its editorId (if selected) |
| `DataloaderOnDb.LoadKeys` | dataloaders/dataloader-on-db.ts:68-76 | the keys the resolver hands to `load`: w per post, where w is the number of selected fields among `author` and `editor` |
| `DataloaderOnDb.RecordOf` | dataloaders/dataloader-on-db.ts:68-76 | a post's record keeps the post unchanged; `author` is present iff selected and is then the load of authorId; `editor` is present iff selected and is then the load of editorId |
| `DataloaderOnDb.LoadKeysMembership` | dataloaders/dataloader-on-db.ts:70-75 | a key is loaded iff some post has it as authorId with `author` selected, or as editorId with `editor` selected |
| `DataloaderOnDb.SeedEditorOnlyKeys` | dataloaders/dataloader-on-db.ts:12-16 | on the seed posts, an editor-only query loads "2","1","1" |
| `DataloaderOnDb.SeedEditorsWithCorrectedBatch` | dataloaders/dataloader-on-db.ts:73-75 | with the corrected batch function, post "1" gets editor Bob and posts "2","3" get Alice |
| `FieldResolver.FirstFk` | dataloaders/field-resolver.ts:60 | none iff the field has no `@fk`; otherwise the argument of the first `@fk` occurrence |
| `FieldResolver.ApplyFk` | dataloaders/field-resolver.ts:59-68 | a field with `@fk` gets `fkField` set to its first `@fk` argument; other extension entries and the directives are kept; a field without `@fk` is returned unchanged |
| `FieldResolver.ApplyFkDirective` | dataloaders/field-resolver.ts:57-70 | the schema transformation keeps every type and every field; each field becomes `ApplyFk` of itself, so a field without `@fk` is unchanged |
| `FieldResolver.RelationName` | dataloaders/field-resolver.ts:81 | reading `ofType` of a bare named type throws; for a non-null or list type the relation name is the wrapped type's name when that is a named type, and absent otherwise |
| `FieldResolver.LoaderKey` | dataloaders/field-resolver.ts:82 | the loader is looked up under the relation name, or under the string "undefined" when there is none |
| `FieldResolver.FkFieldOf` | dataloaders/field-resolver.ts:83 | throws exactly when the parent type has no definition for the field; otherwise it is the field's `fkField` extension, present iff that extension is set |
| `FieldResolver.ApplyFkIdempotent` | dataloaders/field-resolver.ts:61-66 | applying the mapper twice gives the same result as applying it once |
| `FieldResolver.ResolveField` | dataloaders/field-resolver.ts:80-85 | returns a load of source[fkField] on the loader named after the wrapped type exactly when that loader exists, the field has a non-empty `fkField`, and source[fkField] is truthy; otherwise reads source[fieldName]. It throws when the return type wraps nothing, and when the parent type has no definition for the field |
| `FieldResolver.FkFieldResolvesThroughLoader` | dataloaders/field-resolver.ts:57-85 | after the transformation, take a `T! @fk(field: x)` field with a non-empty x and a `T` loader. It loads source[x] when source[x] is truthy, and otherwise reads the field's own property |
| `FieldResolver.PlainFieldReadsProperty` | dataloaders/field-resolver.ts:84 | after the transformation, a field without `@fk` and without an `fkField` extension of its own reads its own property, whether or not a loader exists for its type. This holds when the return type is non-null or a list |
| `FieldResolver.SeedPostAuthor` | dataloaders/field-resolver.ts:35 | for the first seed post, `author` loads user "1" |
| `FieldResolver.SeedPostEditor` | dataloaders/field-resolver.ts:36 | for the first seed post, `editor` loads user "2" |
| `FieldResolver.SeedPostTitle` | dataloaders/field-resolver.ts:34 | for the first seed post, `title` is read from the post |

## Left out

- The `DataLoader` class: batching, dedup, scheduling, caching, `loadMany` and error propagation. It is an external package and not part of this model. A loader appears only as a key-to-value function and as the list of keys given to it.
- Async and Promise mechanics of the mock fetches and resolvers, and their `console.log` tracing: fetches are pure functions, and a loaded value stands for the promise of it.
- Apollo server construction, `startStandaloneServer`, and the per-request context that creates fresh loaders (I/O and bootstrap).
- `makeExecutableSchema`, `mapSchema` and `getDirective` are not modelled as library code. A schema is a map from object type to field to a field config (directives, string-valued extensions), and directive lookup returns the `@fk` occurrences in order.
- The trivial `Query.posts` / `Query.users` resolvers that return the whole tables, dataloaders/basic.ts, and the schema-generation/type-graphql files: they only wire resolvers to `load`, and their only computation is the id filter modelled by `Users.GetByIds`.
- `FieldResolver.ResolveField`: extension values are strings and numbers are integers (no NaN or fractions in truthiness), and the loader lookup does not model inherited object properties such as `toString`. Likewise the property reads `source[fkField]` and `source[info.fieldName]` (field-resolver.ts:84) ignore inherited properties such as `constructor`: a key the source object does not own reads as undefined.
- `DataloaderOnDb.IsFieldRequested`: field aliases, directives such as `@include`, and fragment definitions are not modelled. A fragment spread whose own name equals the field name counts as a match, as in the source; fields selected inside fragments, or in a second field node for the same response key, do not. The source does not promise more here, so these cases are not recorded as findings.
- `DataloaderOnDb.ResolvePosts`: a loaded value is `load(key)` for an abstract `load`. The model does not say which batch the loader puts the key in.

## Findings

| source | as written | input that shows it | evidently intended | confidence | as-written member | corrected member |
|---|---|---|---|---|---|---|
| dataloaders/dataloader-on-db.ts:20-23 | the user loader's batch function (line 48) is `users.getByIds`. It returns the matching users in table order, only for ids that exist, so the result is neither aligned with nor as long as the key list. The same function is used in many-to-many.ts:70 and field-resolver.ts:53 | the seed data with a query selecting only `editor`: the resolver loads "2","1","1" (`SeedEditorOnlyKeys`). A loader that dedupes in first-seen order sends the batch "2","1" and gets [Alice, Bob] back. Matching by position, post 1's editor (id "2") becomes Alice. A batch with an unknown id gets back fewer entries than its keys | one entry per key, at the key's position, for the user with that id (the loader's batch-function contract) | high for the misaligned result; the loader's positional matching is that package's documented contract; not executed | `Users.GetByIdsNotAligned` | `Users.LoadBatch` |
