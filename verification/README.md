# Product catalog service — a Dafny model

This project models the products service of a small product-catalog backend
(`src/products/products.service.ts`): the lookup of a product by a term that is
either its id or its title/slug, the "plain" projection that reduces a product's
image objects to their URLs, and the mutations `create`, `update`, `remove` and
`removeAllProducts`, with the translation of store errors into the service's
exceptions.

The store (PostgreSQL behind TypeORM) is modelled as a `Database` object holding
the products table as a sequence of rows in the store's own order; each row
carries its product columns, its ordered image URLs and its owner. The store's
queries and writes are pure functions over those rows (`Store` module).
`update` goes through a `QueryRunner` (`Transactions` module): starting the
transaction takes a snapshot of the rows, rolling back restores it, and each
release is counted. Every mutation of `ProductsService` is proved equal to an
`...Outcome` function that gives, in one step, the result, the rows afterwards
and what was logged; the lemmas state the properties of those outcomes.

Things the model makes explicit:

- A UUID-shaped term is looked up by id only; there is no fallback to title or
  slug (`FindOne`). Other terms match on `UPPER(title) = UPPER(term)` or
  `slug = LOWER(term)`, and the first matching row in store order is returned.
  The lookup by id loads the product's owner along with its images; the
  title/slug query joins the images only, so a product found that way (and what
  `findOnePlain` and `remove` return for it) has no owner.
- A limit or offset of 0 is ignored by the mapper, so `limit = 0` returns every
  row after the offset; the defaults 10 and 0 apply only when a field is absent.
- `update` calls `connect` and `startTransaction` before its `try`: a failure
  there reaches the caller untranslated, and the runner is then never released
  (`releases == 0`). Once the transaction has started it is released exactly once.
- `update` resolves the id with `findOne`, but `preload` then compares it with the
  uuid id column: a term that resolved by title or slug and that PostgreSQL
  cannot read as a uuid is refused there with SQLSTATE 22P02, untranslated,
  before any runner exists (the model applies this to every term that is not
  UUID-shaped; see "Left out").
- The read after the commit (`return this.findOnePlain(id)` without `await`)
  settles after `release()`, outside the rollback: its failure reaches the caller
  untranslated and the committed change stays.
- Unique titles and slugs are enforced by the store only (SQLSTATE 23505 with
  PostgreSQL's detail `Key (column)=(value) already exists.`); the service never
  checks them itself.

Failures of the store's writes, of the transaction steps and of the read that
follows an update's commit (a lost connection, a failing commit) are parameters
of the operations: an `Option<DbError>` for each write of `create`, `remove` and
`removeAllProducts`, and for `update` a `Fault` naming the failing step. The
lookups themselves (`find`, the `findOne` queries, `preload`) never fail. The id the store
generates on insert is a parameter too (a UUID not yet in the table).

## Model

| member | source | states |
|---|---|---|
| `Text.Upper` | src/products/products.service.ts:149-151 | upper-casing keeps the length and upper-cases every character |
| `Text.Lower` | src/products/products.service.ts:148 | lower-casing keeps the length and lower-cases every character |
| `Text.UpperOfLower` | src/products/products.service.ts:148-151 | two terms equal up to case have the same upper-cased form |
| `Text.SameUpperSameLower` | src/products/products.service.ts:148-151 | comparing upper-cased forms, as the title query does, agrees with comparing lower-cased forms |
| `Uuid.IsUuid` | src/products/products.service.ts:144 | a UUID-shaped term is 36 characters, hyphens at 8, 13, 18 and 23, hexadecimal digits elsewhere; the nil UUID is UUID-shaped |
| `Uuid.IsUuidIgnoresCase` | src/products/products.service.ts:144 | the UUID-shape check gives the same answer for a term and its lower-cased form |
| `Entities.ImagesFrom` | src/products/products.service.ts:43-45 | one image per URL, same length, same order |
| `Entities.Urls` | src/products/products.service.ts:70 | the URLs of the images, same length, same order |
| `Entities.UrlsOfImagesFrom` | src/products/products.service.ts:43-45 | making images from URLs and reading the URLs back gives the input list |
| `Entities.ToPlain` | src/products/products.service.ts:74-80 | every field but images kept; images become their URLs in order; missing images become [] |
| `Entities.Build` | src/products/products.service.ts:39-47 | the created product has the given columns, the caller as owner, and exactly the input URLs as images (none when omitted) |
| `Entities.MergeDetails` | src/products/products.service.ts:90-94 | each field the update supplies takes the supplied value; every other field keeps the stored one |
| `Entities.NotFoundMessage` | src/products/products.service.ts:162 | the message is "Product with term ", the term, then " not found" |
| `Entities.MergeNothing` | src/products/products.service.ts:90-94 | an update supplying no field leaves the stored columns unchanged |
| `Entities.Translate` | src/products/products.service.ts:167-175 | SQLSTATE 23505 becomes BadRequest with the store's detail, and only it; anything else becomes InternalServerError with the fixed message |
| `Entities.Logged` | src/products/products.service.ts:170 | every error except a unique violation is logged, a unique violation is not |
| `Store.IndexOfId` | src/products/products.service.ts:145 | the id lookup returns the first row with that id, or none when no row has it |
| `Store.IndexOfIdUnique` | src/products/products.service.ts:145 | with unique ids, the lookup of a row's id returns that row |
| `Store.FirstMatch` | src/products/products.service.ts:151-158 | the title/slug query returns the first matching row in store order, or none when no row matches |
| `Store.Matches` | src/products/products.service.ts:147-151 | a row matches a term exactly when the term equals its title up to case or the lower-cased term equals its slug |
| `Store.MatchesIgnoresCase` | src/products/products.service.ts:147-151 | the title/slug match depends on the term only up to case |
| `Store.Violation` | src/products/products.service.ts:49 | a write is refused exactly when another product has the same title or slug, with SQLSTATE 23505 |
| `Store.Saved` | src/products/products.service.ts:111 | a save fails exactly on a unique violation, with SQLSTATE 23505; a successful save of a stored id rewrites only that row (its columns, its images when assigned, its owner when assigned), and of a new id appends the row and keeps every other |
| `Store.SavedKeepsValid` | src/products/products.service.ts:111 | a successful save keeps ids, titles and slugs unique and the saved product findable by id |
| `Store.DeleteImagesOf` | src/products/products.service.ts:102 | the product's images are removed; ids, columns, owners and other products' images are kept |
| `Store.Without` | src/products/products.service.ts:128 | removal keeps exactly the rows with a different id, and leaves the rows unchanged when no row has that id |
| `Store.WithoutOnly` | src/products/products.service.ts:128 | removing an id only one position carries leaves the rows before and after it in their order |
| `Store.WithoutAt` | src/products/products.service.ts:128 | with unique ids, removing a stored product leaves every other row in its store order |
| `Store.WithoutKeepsValid` | src/products/products.service.ts:128 | removing a product keeps the keys unique |
| `Store.Page` | src/products/products.service.ts:60-62 | at most `limit` rows (all for 0), the rows from `offset` on, in store order |
| `Store.Database.Save` | src/products/products.service.ts:49 | writes the product and its images as one unit, or fails and writes nothing |
| `Store.Database.DeleteImages` | src/products/products.service.ts:102 | deletes the product's image rows, or fails and changes nothing |
| `Store.Database.Remove` | src/products/products.service.ts:128 | deletes the product, or fails and changes nothing |
| `Store.Database.DeleteAll` | src/products/products.service.ts:135 | deletes every product and returns the count, or fails and changes nothing |
| `Transactions.QueryRunner.constructor` | src/products/products.service.ts:95 | a new runner is unconnected, idle and not yet released |
| `Transactions.QueryRunner.Connect` | src/products/products.service.ts:97 | connects unless the store fails |
| `Transactions.QueryRunner.StartTransaction` | src/products/products.service.ts:98 | starts the transaction and snapshots the rows, unless the store fails |
| `Transactions.QueryRunner.DeleteImages` | src/products/products.service.ts:102 | deletes the product's images inside the transaction |
| `Transactions.QueryRunner.Save` | src/products/products.service.ts:111 | saves the product inside the transaction |
| `Transactions.QueryRunner.CommitTransaction` | src/products/products.service.ts:112 | commits, or fails leaving the transaction open |
| `Transactions.QueryRunner.RollbackTransaction` | src/products/products.service.ts:117 | restores the rows as they were at the start of the transaction |
| `Transactions.QueryRunner.Release` | src/products/products.service.ts:121 | counts one release and disconnects |
| `Products.FindOne` | src/products/products.service.ts:141-165 | a UUID-shaped term resolves by id only, NotFound when no row has that id; any other term resolves exactly when some title equals it ignoring case or some slug equals it lower-cased; the result is a stored product, loaded with its owner by id and without it by title or slug |
| `Products.FindOnePlain` | src/products/products.service.ts:74-81 | succeeds exactly when the lookup does; the result is the plain projection of the found product: its fields and URLs in order, and its owner only when the term is UUID-shaped; NotFound otherwise |
| `Products.FindAll` | src/products/products.service.ts:57-72 | at most `limit` (default 10) products from `offset` (default 0) in store order, each projected |
| `Products.FindOneById` | src/products/products.service.ts:144-145 | looking up a stored product's id returns that product |
| `Products.FindOneByTitleOrSlug` | src/products/products.service.ts:146-158 | a title in any case or a slug resolves to that product or an earlier one the term also matches, and to that product when none earlier matches |
| `Products.FindOneIgnoresCase` | src/products/products.service.ts:147-151 | non-UUID terms equal up to case resolve to the same product |
| `Products.FirstMatchSame` | src/products/products.service.ts:155-158 | terms that match the same rows find the same first row |
| `Products.CreateOutcome` | src/products/products.service.ts:34-55 | a store fault gives the translated error, logged unless it is a unique violation, and writes nothing; with no fault the create succeeds exactly when no other product has its title or slug; success returns the product with the generated id, keeps every stored product and appends exactly one row with the input columns, URLs and the caller as owner |
| `Products.CreateThenFind` | src/products/products.service.ts:39-51 | the created product has exactly the input URLs in order and the caller as owner, and reading it back by id gives it and its URLs |
| `Products.CreateDuplicate` | src/products/products.service.ts:49-53 | a taken slug or title gives BadRequest with the store's detail and leaves the stored products unchanged |
| `Products.Merged` | src/products/products.service.ts:90-109 | merged columns, images replaced by the supplied URLs in order or kept when none are supplied, the caller as owner, same id |
| `Products.TxError` | src/products/products.service.ts:100-112 | the try block fails exactly when an executed step fails (the image delete only when images are supplied, the save, the commit) or the save breaks a unique constraint; the error is that step's own error, or the violation, in the order delete, save, violation, commit |
| `Products.UpdateOutcome` | src/products/products.service.ts:83-123 | NotFound changes nothing; a failure that changes the rows can only be the read after the commit, and it reaches the caller untranslated; success requires the runner to be opened and no executed step to fail |
| `Products.UpdateCommitted` | src/products/products.service.ts:100-115 | a committed update changes only that product: merged fields, images replaced (kept when not supplied, none for []), owner set to the caller, keys valid, result its fresh projection |
| `Products.UpdateRolledBack` | src/products/products.service.ts:116-119 | an error inside the transaction restores the rows and is translated and logged by the error handler |
| `Products.UpdateReadFails` | src/products/products.service.ts:111-122 | a failing read after the commit reaches the caller untranslated, logs nothing and keeps the committed row |
| `Products.UpdateSucceeds` | src/products/products.service.ts:97-115 | an update of a stored product that no step fails and that breaks no unique constraint is committed |
| `Products.UpdateFailsBeforeTry` | src/products/products.service.ts:95-98 | a failing connect or startTransaction reaches the caller untranslated, logs nothing and changes nothing |
| `Products.UpdateByNonUuidTerm` | src/products/products.service.ts:88-94 | a resolving term that is not UUID-shaped is refused by preload, untranslated, and nothing changes; this matches the source for the terms PostgreSQL cannot read as a uuid |
| `Products.UpdateNothingReassignsOwner` | src/products/products.service.ts:101-109 | an update with no fields and no images only changes the owner |
| `Products.UpdateKeepsValid` | src/products/products.service.ts:83-123 | whatever happens, ids, titles and slugs stay unique |
| `Products.RemoveOutcome` | src/products/products.service.ts:125-129 | NotFound for an unresolved term and nothing changes; a resolved term with no fault is removed and returned; a store fault reaches the caller untranslated and changes nothing |
| `Products.RemoveTakesOutOne` | src/products/products.service.ts:125-129 | the returned product is a stored one, exactly it is removed and every other kept in store order, and removing its id again is NotFound |
| `Products.RemoveAllOutcome` | src/products/products.service.ts:131-139 | with no fault every product is deleted and their count returned; a fault gives the translated error, logged unless it is a unique violation, and changes nothing |
| `Products.RemoveAllThenFindAll` | src/products/products.service.ts:131-135 | after removing all products every page is empty |
| `Products.SameKeysSameAnswers` | src/products/products.service.ts:102 | deleting images changes neither the id lookup nor the unique-constraint check |
| `Products.SaveAfterDelete` | src/products/products.service.ts:102-111 | saving after the image delete writes exactly the merged row or fails with the same violation |
| `Products.ProductsService.HandlerDbExceptions` | src/products/products.service.ts:167-175 | returns the translated exception and logs every error except a unique violation |
| `Products.ProductsService.Create` | src/products/products.service.ts:34-55 | result, rows and log are those of `CreateOutcome` |
| `Products.ProductsService.Update` | src/products/products.service.ts:83-123 | result, rows and log are those of `UpdateOutcome`; no runner when the id does not resolve; once the transaction starts the snapshot is the pre-call rows, the runner is released exactly once and ends rolled back exactly when a translated error is returned, committed otherwise |
| `Products.ProductsService.Transact` | src/products/products.service.ts:100-112 | the try block either commits exactly the merged row or stops at the first error with the transaction open |
| `Products.ProductsService.Remove` | src/products/products.service.ts:125-129 | result and rows are those of `RemoveOutcome` |
| `Products.ProductsService.RemoveAllProducts` | src/products/products.service.ts:131-139 | result, rows and log are those of `RemoveAllOutcome` |

## Left out

- The HTTP layer, DTO validation, authentication and the seed loader are not part of this model; the owner is an opaque `User` reference, and a row's owner may be absent, as a many-to-one relation allows.
- Concurrency and transaction isolation: the operations run one at a time.
- The logger's output format: the model records which errors are logged, not how.
- Prices are integers here; the source stores a floating-point number.
- Case mapping covers the ASCII letters only; `toUpperCase`, `toLowerCase` and SQL `UPPER` map all of Unicode.
- The entity file is not part of this model: the derivation of a slug from the title and any other entity hooks are not modelled, a slug is stored as given, and the images and owner relations are assumed eager, so `find` and `findOneBy` load both while a query builder loads only what it joins.
- Unique titles are compared exactly, as a unique column does; a case-insensitive title constraint would need an index the entity file would have to declare.
- `Store.IndexOfId`: compares ids exactly. The id column is taken to have PostgreSQL's uuid type throughout (which is why `preload` refuses a non-UUID term), and that type would also match an upper-case spelling of a stored lower-case id; the model reports such a term as NotFound.
- The uuid package's check is modelled as its version-1-to-5 form; later versions of the package also accept versions 6 to 8 and the max UUID.
- Image rows have no ids of their own; they are kept in order inside their product.
- Where a title match and a slug match are different products, the first in store order is returned; the store's actual order is not modelled beyond being a fixed sequence.
- `Products.ProductsService.Remove`: returns the product as found; the mapper clearing the id of the returned object is not modelled.
- A failing `rollbackTransaction` or `release` is not modelled: both always succeed.
- The lookups never fail: `find` in `findAll`, the `findOne` queries reached from `findOnePlain`, `update` and `remove`, and `preload` have no failure parameter.
- `Products.RemoveAllOutcome`: returns the affected count only, not the whole `DeleteResult` (raw driver result and count) that the query builder gives.
- `Products.UpdateByNonUuidTerm`: the refusal by `preload` assumes the id column has PostgreSQL's uuid type; the entity file that would declare it is not part of this model.
- `Products.UpdateByNonUuidTerm`: the model refuses every resolving term the uuid package rejects, but PostgreSQL also reads some of those as uuids: hyphen-less ids, ids in braces, and ids with any version or variant digit. For such a term the source gets past `preload`. If no product has that id, `preload` returns nothing, and assigning the owner then throws inside the `try`: the transaction is rolled back, the error is logged and becomes InternalServerError, and the runner is released once. If another product has that id, that other product is updated. Neither path is modelled.
