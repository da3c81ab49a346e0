# Dairycart verification project

A Dafny model of the parts of Dairycart that carry algorithmic or whole-run content, with proofs about them:

- **Variants** (`Variants.dfy`, `MixedRadix.dfy`): the in-place odometer that turns product options into products. It is shown to count in mixed radix, so it emits every choice of one value per option exactly once and in lexicographic order; the inputs on which the Go code indexes out of range are characterised exactly. The generated SKUs are pairwise distinct exactly when each option's lower-cased values are (for values without underscores).
- **Login throttle** (`Throttle.dfy`): check, verify and record as separate steps of overlapping handlers. With at most k handlers of a user in flight no fifteen-minute window holds more than 9 + k recorded failures, that bound is reached for every k, and the lockout ends exactly on time.
- **Catalogue** (`Catalogue.dfy`, `ProductImages.dfy`, `Creation.dfy`, `Lifecycle.dfy`, `Constraints.dfy`, `Permanence.dfy`, `Handlers.dfy`): the tables with soft deletion and UNIQUE constraints, and the handlers as step sequences on a `Database` object that refuses what the constraints forbid and of which every call may fail. A failing commit, or a failing write outside a transaction, may or may not have taken effect. Creation is all-or-nothing, counted exactly and bridged correctly; deletions cascade exactly; every sequential run keeps live rows attached to live rows, SKU prefixes of live roots distinct and the constraints met, and brings no archived row back; the status of every handler is predicted from the tables it starts in.
- **Lists** (`Pagination.dfy`): parsing of page and limit including float64 rounding, the query built from a filter, and what the pages of a list add up to.
- **Texts** (`BridgeQuery.dfy`, `Dairytimes.dfy`, `Text.dfy`): the bulk insert of variant bridges is read back by an independent reader, and so is the timestamp text, whose order agrees with time order.
- **Admin rights** (`Sessions.dfy`): every admin user and every admin flag in a session goes back to an initial one, and an issued flag lasts.

`dafny verify dfyconfig.toml` checks the whole project.

## What the proofs found

- An option list whose first option has values and a later one has none makes the generator index out of range, as does an empty option list (`Variants.BuildProductsFromOptions`). In the creation handler that leaves the transaction open and the committed tables unchanged (`Handlers.Database.CreateProduct`); the options x: [a] and y: [] are such a request (`Handlers.EmptySecondOptionCrashes`).
- The option deletion handler rolls back nothing on its error paths. An option without any value row stays live, whatever else is requested, until a value is created for it or its root is deleted; each deletion of it before that answers 500 and leaves one transaction open (`Handlers.Database.DeleteOption`, `Permanence.EmptyOptionStays`, `Permanence.ValueEndsEmptyOption`). The option x: [] is one (`Permanence.EmptyOptionCreated`).
- A product or option update whose body names an archived root leaves a live row under it; it is the only way an update breaks the tables (`Lifecycle.ProductPatchKeepsIff`, `Lifecycle.OptionPatchKeepsIff`).
- Root deletion stamps all rows with one NOW(), so by the UNIQUE constraints it is refused, with 500, exactly when two values under the root, archived ones included, read the same or two of its products share a SKU (`Constraints.RootDeletionUniqueIff`, `Handlers.Database.DeleteRoot`). A product with the option front: [red] that is given the option back: [red] is such a root (`Permanence.SharedTextBlocksDeletion`).
- While one of two such values is live, renaming it can free the root (`Permanence.RenamingFreesRoot`). Once both are archived under archived options the root is never deleted, in any later state (`Permanence.LockedRootStays`); deleting the two options, one after the other, gets there (`Permanence.DeletingBothLocks`, `Permanence.LockedRun`).
- A deleted option keeps its name and a deleted value its text: the existence checks look at live rows only and let a new one of that name or text through, and the constraint then refuses it with 500 (`Constraints.DeletedNameStaysUsed`, `Constraints.DeletedTextStaysUsed`). That is so in every later state, since archived options and values never change these (`Permanence.NameStaysUsed`, `Permanence.TextStaysUsed`).
- Every variant gets the UPC of the request and UPCs are unique, so a request with a UPC and options that make more than one product is always refused (`Constraints.AfterCreationUniqueIff`, `Constraints.UpcBlocksVariants`).
- For a product with two or more options the bulk insert of bridges encloses its parenthesised groups in one more pair of parentheses. If the store reads that as one row of records, as PostgreSQL does, a creation with two or more options answers 500 whenever it makes a product (`Handlers.Database.CreateProduct` with `readsGroups` false).
- The parsed page can decrease when the requested page grows, if the conversion of a float64 of 2^64 to uint64, which the Go specification leaves open, yields a small number (`Pagination.PageMonotoneIff`).
- With limit 0 every page is the first 25 rows (`Pagination.LimitZeroRepeatsFirstPage`).
- Not every page after the last one is empty: the offset is computed modulo 2^64, and page 576460752303423616 at limit 32 shows the rows from number 4064 on (`Pagination.FarPageReturnsRows`). Pages whose true offset is below 2^64 are empty (`Pagination.PagesTile`).
- User creation and deletion look only at the admin flag of the cookie, which neither logging out nor archiving its user takes back (`Sessions.AdminFlagOutlivesItsUser`).
- Two live users can come to share a username, and exactly through an update, which does not check for one (`Sessions.StepKeepsUsernamesIff`).
- Marshalling the zero time gives no text, so unmarshalling it leaves the receiver as it was (`Dairytimes.Transfer`).

## Assumptions

- Row ids are positions in their table, and catalogue handlers run one after the other; only logins overlap.
- The login clock rises strictly from one table access to the next. The exhaustion query compares `created_on < NOW()` strictly, so attempts recorded at the very instant of a check would not be counted.
- List queries have no ORDER BY; one fixed row order across requests is assumed.
- `Healthy()` means that no store call fails for a reason of its own. What then still makes a statement fail is modelled: the UNIQUE constraints for every statement, the foreign keys of the two update statements, and the parentheses of the bulk insert of bridges.
- Whether the store reads the nested groups of that bulk insert as rows is a parameter, `readsGroups`; the statuses are predicted for both answers.
- The statuses predicted for the deletions assume a NOW() that no row is stamped with yet (`FreshStamp`), and those for creations that foreign keys point at rows (`References`). Both hold in every run on a rising clock (`Lifecycle.RunsKeepSchema`).
- Lower-casing, image decoding and storage, float parsing, and the two implementation-specific float conversions are parameters.

## Model

| member | source | states |
|---|---|---|
| `MixedRadix.Digits` | api/v1/product_options.go:33-45 | index vector number i is in range and has mixed-radix value i |
| `MixedRadix.CountingEnumerates` | api/v1/product_options.go:33-45 | counting meets every in-range index vector exactly once, in lexicographic order |
| `MixedRadix.LexIsValueOrder` | api/v1/product_options.go:35-36 | lexicographic order of index vectors is the order of their values |
| `MixedRadix.LexLessIff` | api/v1/product_options.go:35-36 | that order is decided by the first digit in which the vectors differ |
| `Variants.Next` | api/v1/product_options.go:37-45 | one turn raises the mixed-radix value by exactly one and keeps all digits after the first in range |
| `Variants.PlaceholdersFor` | api/v1/product_options.go:48-62 | one placeholder per option value, labelled with its option's name |
| `Variants.ReadOdometer` | api/v1/product_options.go:65-76 | reads the product of an index vector, and fails exactly when a digit is out of range |
| `Variants.BuildProductsFromOptions` | api/v1/product_options.go:32-81 | panics exactly on an empty option list or an empty later option; otherwise builds one product per index vector in counting order |
| `Variants.BuiltProductReads` | api/v1/product_options.go:64-79 | product number i keeps the template and the values that index vector i picks; its SKU begins with the template's and an underscore, and the rest, split at underscores, gives the lower-cased values in order when none has an underscore; its summary, split at ", ", gives "name: value" per option when none has a comma |
| `Variants.SkuReads` | api/v1/product_options.go:67-75 | the same of the SKU printed for any index vector in range |
| `Variants.SummaryReads` | api/v1/product_options.go:66-74 | the same of its option summary |
| `Variants.GeneratorEnumeratesChoices` | api/v1/product_options.go:64-79 | as many products as the product of the sizes; every choice of one value per option at its own place, in lexicographic order |
| `Variants.SkuCollision` | api/v1/product_options.go:67-75 | without underscores two SKUs collide exactly when the choices agree after lower-casing |
| `Variants.SkusDistinctIff` | api/v1/product_options.go:65-77 | without underscores the SKUs are pairwise distinct exactly when each option's lower-cased values are |
| `Variants.UnderscoreCollision` | api/v1/product_options.go:75 | two options with distinct values, one containing an underscore, that print one SKU twice |
| `Text.JoinInjective` | api/v1/product_options.go:75 | joining equally long lists with a character that occurs in no part is injective |
| `Text.SplitJoined` | api/v1/product_options.go:74-75 | splitting what was joined gives the parts back, when the first character of the separator occurs in none of them |
| `BridgeQuery.BuildMultiBridgeValues` | storage/v1/database/postgres/product_variant_bridge.go:133-153 | the loop prints the groups in order and lists the product id and all value ids as arguments |
| `BridgeQuery.PrintedTexts` | storage/v1/database/postgres/product_variant_bridge.go:133-153 | the whole text for one value and for two |
| `BridgeQuery.BridgeTextRoundTrip` | storage/v1/database/postgres/product_variant_bridge.go:133-169 | the printed text reads back as exactly the rows (product, id) in order; every placeholder bound, every argument used |
| `Dairytimes.ParseOfFormat` | models/v1/helper_types.go:43-61 | parsing the formatted time gives the time cut to microseconds |
| `Dairytimes.FormatShows` | models/v1/helper_types.go:19 | the text has 27 characters, '-' at 4 and 7, 'T' at 10, ':' at 13 and 16, '.' at 19 and 'Z' at 26, and between them the digits of year, month, day, hour, minute, second and microsecond |
| `Text.FirstDigitWeighsMost` | models/v1/helper_types.go:19 | the number read from digits is the first one times its power of ten plus the number of the rest |
| `Dairytimes.ShownParses` | models/v1/helper_types.go:51-61 | every such text of a valid time in whole microseconds parses as exactly that time |
| `Dairytimes.CalendarExamples` | models/v1/helper_types.go:51-61 | the valid times: February in leap and common years, 30 and 31 day months, and every time of day from 00:00 to the last nanosecond |
| `Dairytimes.TextOrderIsTimeOrder` | models/v1/helper_types.go:19-47 | texts compare as the times cut to microseconds do |
| `Dairytimes.TextLessIff` | models/v1/helper_types.go:19 | texts compare by the first character in which they differ |
| `Dairytimes.EarlierIff` | models/v1/helper_types.go:22-24 | times compare by year, month, day, hour, minute, second and nanosecond in turn |
| `Dairytimes.Dairytime.MarshalText` | models/v1/helper_types.go:43-48 | no text for 1 January of year 1, midnight, and for no other time; any other text has the 27 characters of the layout, separators and digits at their places, and parses back to the time cut to microseconds |
| `Dairytimes.Dairytime.UnmarshalText` | models/v1/helper_types.go:51-61 | no text leaves the receiver alone; a text with the separators and digits of a valid time sets exactly that time; text that does not parse makes it the zero time without an error |
| `Dairytimes.Transfer` | models/v1/helper_types.go:43-61 | marshal then unmarshal carries the time over exactly unless it is zero and the receiver is not |
| `Throttle.ConcurrentThrottleBound` | api/v1/users.go:245-272 | with at most k handlers of a user in flight no interval of 900 seconds contains more than 9 + k recorded failures of that user |
| `Throttle.StepKeepsBudget` | api/v1/users.go:245-272 | every step keeps: failures in the current window plus handlers in flight stay within 9 + k |
| `Throttle.BoundIsAttained` | api/v1/users.go:245-272 | for every k a run with at most k handlers in flight reaches 9 + k failures in one window |
| `Throttle.LockoutIsExact` | storage/v1/database/postgres/login_attempts.go:13-28 | a check at time c is refused exactly when there are ten failures and c is before the tenth most recent one plus 900 seconds; that is, when at least ten lie strictly between c minus 900 seconds and c |
| `Throttle.FailureTimesExact` | storage/v1/database/postgres/login_attempts.go:13-19 | the list that the lockout is read off holds the time of every failed attempt of the user, and of no other row, in rising order |
| `Throttle.FailuresCountRows` | storage/v1/database/postgres/login_attempts.go:13-19 | the count of the query is the number of such rows strictly inside its interval |
| `Throttle.RetriesCannotExtendLockout` | api/v1/users.go:245-249 | refused logins leave no trace, and nothing short of a recorded failure moves the end of a lockout |
| `Throttle.LoginServer.CheckAttempts` | storage/v1/database/postgres/login_attempts.go:13-28 | refuses exactly when at least ten failed attempts of the user lie strictly inside the last 900 seconds |
| `Throttle.LoginServer.CreateLoginAttempt` | storage/v1/database/postgres/login_attempts.go:128-144 | appends the attempt with its time and ends the handler's flight |
| `Throttle.LoginServer.Login` | api/v1/users.go:235-317 | a login served alone: its status, the row it writes, that a session takes a recorded attempt and fewer than ten failures in 900 seconds, and that the window bound of ten is kept |
| `Pagination.PageArithmetic` | api/v1/helpers.go:50-58 | below 2^64 - 1024 the page is at least 1, grows with the request, and is exact up to 2^53 |
| `Pagination.PageInRange` | api/v1/helpers.go:50-58 | a decimal page parameter from 1 to 2^53 is taken as it is |
| `Pagination.PageMonotoneIff` | api/v1/helpers.go:56 | over all of uint64 the page never decreases exactly when the out-of-range conversion yields at least 2^64 - 2048 |
| `Pagination.PageCanDecrease` | api/v1/helpers.go:56 | two requests for which a conversion to 2^63 makes the later page smaller |
| `Pagination.RoundMonotone` | api/v1/helpers.go:56 | rounding to float64 is monotone |
| `Pagination.RoundTies` | api/v1/helpers.go:56 | above 2^53 ties go to the even multiple |
| `Pagination.LimitOf` | api/v1/helpers.go:60-68 | the integer part of the request inside 0 to 50, 50 above and 0 below |
| `Pagination.ParseRawFilterParams` | api/v1/helpers.go:44-111 | each field comes from its own first parameter, and from its default when that is absent or malformed |
| `Pagination.TimeInSeconds` | api/v1/helpers.go:70-108 | a decimal time bound counts seconds since 1970, from 2^63 on wrapped around to before it; any other, or one from 2^64 on, leaves the bound unset |
| `Pagination.ApplyQueryFilter` | storage/v1/database/postgres/main.go:22-59 | the query selects exactly the rows the filter describes, NULL in updated_on never matching a bound, with the limit and the offset modulo 2^64 |
| `Pagination.FilteredExactly` | storage/v1/database/postgres/main.go:38-58 | the filter keeps each row as often as it occurs if it is inside every bound that is set and not archived, unless archived rows are asked for, and drops every other row |
| `Pagination.FilteredInOrder` | storage/v1/database/postgres/main.go:38-58 | and keeps the order of the rows |
| `Pagination.List` | storage/v1/database/postgres/products.go:273-343 | a list request returns its page, and the count of the whole filtered list on every page |
| `Pagination.OffsetExactIff` | storage/v1/database/postgres/main.go:33-36 | the offset is (page - 1) * limit exactly when that fits in 64 bits |
| `Pagination.OffsetFits` | storage/v1/database/postgres/main.go:33-36 | up to page 2^53 and limit 50 it fits |
| `Pagination.PagesArePrefix` | storage/v1/database/postgres/main.go:27-36 | the first m pages are the first m * limit rows |
| `Pagination.PageEmptyIff` | storage/v1/database/postgres/main.go:27-36 | a page is empty exactly when its offset modulo 2^64 reaches the size of the filtered list |
| `Pagination.PagesTile` | storage/v1/database/postgres/main.go:22-36 | pages 1 to ceil(n / limit) concatenate to the filtered list, their lengths sum to the reported count, and a later page is empty when (page - 1) * limit is below 2^64 |
| `Pagination.FarPageReturnsRows` | storage/v1/database/postgres/main.go:33-36 | page 576460752303423616 survives parsing, and at limit 32 it is empty only for lists of at most 4064 rows |
| `Pagination.LimitZeroRepeatsFirstPage` | storage/v1/database/postgres/main.go:27-36 | with limit 0 every page is the first 25 rows |
| `ProductImages.Dedupe` | api/v1/product_images.go:40-47 | keeps the first occurrence of each data string, in request order |
| `ProductImages.KeptOncePerData` | api/v1/product_images.go:40-47 | every data string of the request is kept exactly once |
| `ProductImages.FirstPrimary` | api/v1/product_images.go:104-106 | the first image marked primary, if there is one |
| `Creation.CreationCounts` | api/v1/products.go:289-346 | a creation with n options adds one root, n options, the sum of the sizes in values, their product in products and n times that in bridges, and keeps every old row; without options, one root and one product |
| `Creation.SkuIsValidIff` | api/v1/helpers.go:113-120 | the valid SKUs are the texts of 1 to 50 letters, hyphens and underscores |
| `Creation.RootColumns` | api/v1/products.go:271-290 | the new root carries the requested name, the requested SKU as prefix and a quantity of at least 1, and is live |
| `Creation.PlainColumns` | api/v1/products.go:304-310 | without options the new product row has the request's name, SKU and UPC in these columns, the new root, no option summary and a quantity of at least 1 |
| `Creation.ImageColumns` | api/v1/product_images.go:83-99 | image i is stored under the new root with the location the storer gave it, and with its address if it came from one |
| `Creation.OptionColumns` | api/v1/product_options.go:164-172 | the new options carry the requested names in order, under the new root |
| `Creation.VariantColumns` | api/v1/products.go:232-251 | row k of the new products has the request's name and UPC, the new root, the SKU prefix, and a SKU and summary that read back as the values picked by index vector k |
| `Creation.CreatedValuesStored` | api/v1/product_options.go:164-185 | each created value sits in the table under its id and belongs to its option |
| `Creation.NewProductBridges` | api/v1/products.go:232-255 | the k-th new product is bridged to exactly the values its index vector picks |
| `Creation.BridgedText` | api/v1/products.go:232-255 | the value of option j that new product k is bridged to is the live row with the requested text |
| `Creation.OneBridgePerOption` | api/v1/products.go:232-255 | each new product is bridged to exactly one value of each new option |
| `Creation.BridgedSetsDiffer` | api/v1/products.go:232-255 | no two new products share the same set of bridged values |
| `Creation.SkusStored` | api/v1/products.go:235-251 | the new product rows carry the root and what the generator printed, in its order |
| `Creation.StoredSkusDistinctIff` | api/v1/product_options.go:65-77 | the SKUs a creation stores are pairwise distinct exactly when, within each requested option, the lower-cased values are |
| `Creation.CreationImages` | api/v1/product_images.go:49-110 | the new image rows are the kept images in order under indices 0 to m, all of the new root |
| `Creation.PlainCreationPrimary` | api/v1/products.go:311-328 | the product's image is the first kept one marked primary, else the first kept one, belongs to its own root, and exists exactly when images were given and all stored |
| `Lifecycle.ArchiveOrderIrrelevant` | api/v1/product_roots.go:132-171 | the five archive updates give the same tables in every order, with any repetition |
| `Lifecycle.CascadeIsExact` | api/v1/product_roots.go:132-171 | root deletion ends the life of exactly the root, its products, options, their values and the bridges of its products |
| `Lifecycle.CascadeStampsExact` | api/v1/product_roots.go:132-171 | it stamps the root, its products, values and bridges, archived ones again, and of its options the live ones, and no other row |
| `Lifecycle.RootDeletionKeeps` | api/v1/product_roots.go:132-171 | root deletion keeps the tables consistent |
| `Lifecycle.SmallDeletionsAreExact` | api/v1/products.go:148-162 | product deletion ends exactly the product and its bridges, option deletion exactly the option and its values |
| `Lifecycle.SmallDeletionStampsExact` | api/v1/product_options.go:268-285 | the stamps they write: option deletion restamps archived values, product deletion leaves archived bridges alone |
| `Lifecycle.ProductDeletionKeeps` | api/v1/products.go:148-162 | product deletion keeps the tables consistent |
| `Lifecycle.OptionDeletionKeeps` | api/v1/product_options.go:268-285 | option deletion keeps the tables consistent |
| `Lifecycle.ProductPatchKeepsIff` | api/v1/products.go:183-216 | a product update keeps consistency exactly when its body names no root or a live one, or addresses an archived row |
| `Lifecycle.OptionPatchKeepsIff` | api/v1/product_options.go:121-151 | an option update keeps consistency exactly when its body names no root or a live one |
| `Lifecycle.PatchCanOrphanProduct` | api/v1/products.go:204-211 | consistent tables and an update body that leaves a live product under an archived root |
| `Lifecycle.PlainCreationKeeps` | api/v1/products.go:289-328 | a creation without options keeps the foreign keys, and with a free prefix keeps the tables consistent |
| `Lifecycle.OptionsCreationKeeps` | api/v1/products.go:329-346 | a creation with options keeps the foreign keys, and with a free prefix keeps the tables consistent |
| `Lifecycle.AddOptionKeeps` | api/v1/product_options.go:164-185 | a new option with its values keeps the foreign keys, and under a live root keeps the tables consistent |
| `Lifecycle.StepKeepsConsistent` | api/v1/products.go:257-367 | every handler effect keeps the tables consistent, if an update names no archived root |
| `Lifecycle.RunsStayConsistent` | api/v1/product_roots.go:109-181 | in every sequential run whose updates name live roots only, live rows hang off live rows, live roots have distinct SKU prefixes and the UNIQUE constraints hold |
| `Lifecycle.RunsKeepSchema` | storage/v1/database/postgres/migrations/1495495688_products.up.sql:1-132 | in every sequential run on a rising clock, whatever the updates name, the foreign keys and UNIQUE constraints hold and the next request's stamp is new |
| `Constraints.TwoRowsRefusedIff` | storage/v1/database/postgres/migrations/1495495688_products.up.sql:25-121 | column by column, when two rows of a table may not stand together |
| `Constraints.AddOptionUniqueIff` | storage/v1/database/postgres/migrations/1495495688_products.up.sql:100-124 | an option with its values can be inserted exactly when no option row of the root, live or archived, has its name and its values are pairwise distinct |
| `Constraints.InsertValueUniqueIff` | storage/v1/database/postgres/migrations/1495495688_products.up.sql:113-124 | a value can be inserted exactly when no value row of the option, live or archived, has its text |
| `Constraints.CreationOptionsUniqueIff` | storage/v1/database/postgres/migrations/1495495688_products.up.sql:100-124 | the options of a creation can be inserted exactly when their names, and the values of each, are pairwise distinct |
| `Constraints.AfterCreationUniqueIff` | storage/v1/database/postgres/migrations/1495495688_products.up.sql:64-124 | a whole creation can be stored exactly when its options can and the UPC is empty, or goes to no product, or to a single one and no product row has it |
| `Constraints.OptionPatchedUniqueIff` | storage/v1/database/postgres/migrations/1495495688_products.up.sql:107-108 | an option update is allowed exactly when no other option row of the resulting root has the resulting name |
| `Constraints.ValuePatchedUniqueIff` | storage/v1/database/postgres/migrations/1495495688_products.up.sql:120-121 | a value update is allowed exactly when no other value row of the option has the text |
| `Constraints.ProductPatchedUniqueIff` | storage/v1/database/postgres/migrations/1495495688_products.up.sql:64-68 | a product update is allowed exactly when no other row clashes with the row it writes |
| `Constraints.MaskedUniqueIff` | storage/v1/database/postgres/migrations/1495495688_products.up.sql:107-121 | of the archive statements of a root deletion only those of values and products can be refused, exactly for shared value texts and shared SKUs |
| `Constraints.RootDeletionUniqueIff` | storage/v1/database/postgres/migrations/1495495688_products.up.sql:113-124 | root deletion satisfies the UNIQUE constraints exactly when no two values under the root read the same and no two of its products share a SKU |
| `Constraints.SmallDeletionsKeepUnique` | storage/v1/database/postgres/migrations/1495495688_products.up.sql:100-124 | deleting one product, option or value never violates them |
| `Constraints.DeletedNameStaysUsed` | storage/v1/database/postgres/product_options.go:12-26 | the name of a deleted option passes the existence check and still violates the constraint |
| `Constraints.DeletedTextStaysUsed` | storage/v1/database/postgres/product_option_values.go:12-26 | so does the text of a deleted value |
| `Constraints.DeletedPrefixIsFree` | storage/v1/database/postgres/product_roots.go:12-24 | deleting a root frees its SKU prefix |
| `Constraints.CreatedSharedText` | storage/v1/database/postgres/migrations/1495495688_products.up.sql:120-121 | after a creation in which two options share a value text two values under the root read the same |
| `Constraints.CreatedRootRefused` | storage/v1/database/postgres/migrations/1495495688_products.up.sql:120-121 | in the state right after it the deletion of the root is refused |
| `Constraints.UpcBlocksVariants` | storage/v1/database/postgres/migrations/1495495688_products.up.sql:68 | a request with a UPC and two values of one option, refused on empty tables |
| `Permanence.StepSettles` | api/v1/product_roots.go:132-171 | no effect removes a row or brings an archived one back, or changes an archived option, the text of an archived value, the prefix of a root, the option of a value or the ends of a bridge |
| `Permanence.RunSettles` | api/v1/product_roots.go:132-171 | so it is between any two states of a run |
| `Permanence.NameStaysUsed` | storage/v1/database/postgres/migrations/1495495688_products.up.sql:107 | once an option is deleted no later request creates one of its name under its root |
| `Permanence.TextStaysUsed` | storage/v1/database/postgres/migrations/1495495688_products.up.sql:120 | once a value is deleted no later request creates one of its text for its option |
| `Permanence.RootEndsByDeletion` | api/v1/product_roots.go:109-181 | only a root deletion that the constraints allow ends the life of a root |
| `Permanence.LockedRootStays` | storage/v1/database/postgres/migrations/1495495688_products.up.sql:121 | a live root with two archived values of one text under archived options is live in every later state |
| `Permanence.DeletingBothLocks` | api/v1/product_options.go:245-289 | deleting two options of a root with values of one text, one after the other, goes through and leaves such a root |
| `Permanence.SharedTextBlocksDeletion` | storage/v1/database/postgres/migrations/1495495688_products.up.sql:121 | two requests from empty tables, front: [red] and then back: [red], after which no deletion of the live root takes effect |
| `Permanence.LockedRun` | storage/v1/database/postgres/migrations/1495495688_products.up.sql:121 | two option deletions more, after which the live root is locked for good |
| `Permanence.RenamingFreesRoot` | api/v1/product_option_values.go:16-50 | if only two values of a root read the same, one of them live, and no two of its products share a SKU, an update of its text to a new one goes through, and then so does the root deletion |
| `Permanence.EmptyOptionStep` | api/v1/product_options.go:268-276 | an effect ends the life of an option without values exactly if it deletes its root, and gives it a value exactly if it creates one for it |
| `Permanence.EmptyOptionStays` | api/v1/product_options.go:268-276 | until such a request the option stays live and without values through every run, whatever deletions of it are asked for |
| `Permanence.EmptyOptionCreated` | api/v1/product_options.go:164-185 | the option x: [] is one when it is created |
| `Permanence.ValueEndsEmptyOption` | api/v1/product_options.go:268-285 | with a value of its own the option can be deleted |
| `Handlers.Database.HandleProductCreationImages` | api/v1/product_images.go:33-111 | writes the kept images until one is not stored, and returns their ids and the marked one |
| `Handlers.Database.CreateImages` | api/v1/product_images.go:49-110 | the loop over the kept images: their rows in order until one is not stored |
| `Handlers.Database.CreateProductOptionAndValues` | api/v1/product_options.go:164-185 | inserts the option and its values and returns them with their ids, exactly when the constraints allow all of them |
| `Handlers.Database.CreateBridges` | storage/v1/database/postgres/product_variant_bridge.go:171-175 | running the printed bulk insert adds exactly the bridges of the product, and goes through exactly for one value or a store that reads the groups as rows |
| `Handlers.Database.CreateProductsFromOptions` | api/v1/products.go:232-255 | inserts every variant with its bridges, exactly when the constraints allow them and the store takes the bridges, and panics exactly when the generator does |
| `Handlers.Database.CreateOptionsAndProducts` | api/v1/products.go:329-346 | the branch with options: refused options come first, then the panic, then refused products or bridges |
| `Handlers.EmptySecondOptionCrashes` | api/v1/product_options.go:64-70 | the options x: [a] and y: [] crash the creation handler |
| `Handlers.FirstUnstoredImageDecides` | api/v1/product_images.go:50-86 | the first kept image that is not stored decides: 500 for a rejected one, a crash for a panic, and a creation without primary image for one without a location |
| `Handlers.Database.CreatePlainProduct` | api/v1/products.go:304-328 | inserts the product and sets its primary image when there are images |
| `Handlers.Database.FillCreation` | api/v1/products.go:289-346 | the transaction's work is the whole creation when it succeeds; with no failing call its outcome is the one read off the request and the tables, UNIQUE constraints included |
| `Handlers.Database.StoreCreation` | api/v1/products.go:283-353 | the handler from Begin to Commit: all or nothing, and only a crash leaves the transaction open |
| `Handlers.Database.CreateDecoded` | api/v1/products.go:266-367 | the handler for a body that decodes: 400 exactly for an invalid SKU or a taken prefix, else as the creation ends |
| `Handlers.CreatedColumns` | api/v1/products.go:271-310 | a creation without options followed by a lookup finds a live row under the requested SKU, with the requested columns |
| `Handlers.Database.CreateProduct` | api/v1/products.go:257-367 | for every placement of failing calls the committed tables are the old ones or those of the complete creation; 201 implies the latter and a live row under the requested SKU, column by column; 400, exactly for an undecodable body, an invalid SKU or a taken prefix, and a crash imply the former; with no failing call the status is the one read off the request and the tables |
| `Handlers.Database.ArchiveAll` | api/v1/product_roots.go:132-171 | the archive statements of a root deletion; with no failing call they go through unless value texts or SKUs under the root are shared |
| `Handlers.Database.DeleteRoot` | api/v1/product_roots.go:109-181 | all or nothing; 200 implies the full cascade; no transaction is left open; with no failing call 500 exactly for a live root with shared value texts or SKUs |
| `Handlers.Database.ArchiveProductAndBridges` | api/v1/products.go:148-162 | the archive statements of a product deletion; with no failing call they go through |
| `Handlers.Database.DeleteProduct` | api/v1/products.go:127-181 | all or nothing; 404 exactly for a SKU no live product has |
| `Handlers.Database.ArchiveOptionAndValues` | api/v1/product_options.go:268-279 | the archive statements of an option deletion; with no failing call they go through exactly for an option that ever had a value |
| `Handlers.Database.DeleteOption` | api/v1/product_options.go:245-289 | all or nothing; 200 exactly for a live option that ever had a value, and otherwise refuses and leaves its transaction open |
| `Handlers.Database.DeleteValue` | api/v1/product_option_values.go:111-137 | stamps the live value and no other row, or changes nothing |
| `Handlers.Database.StoreOption` | api/v1/product_options.go:221-239 | the option creation from Begin to Commit: all or nothing |
| `Handlers.Database.CreateOption` | api/v1/product_options.go:187-243 | adds the option with all its values, column by column, under a live root, or changes nothing; 400 for a live option of that name, 500 for an archived one or repeated values |
| `Handlers.Database.CreateValue` | api/v1/product_option_values.go:52-109 | adds the value, column by column, to a live option, or changes nothing; 400 for a live value of that text, 500 for an archived one |
| `Handlers.Database.StoreUpdate` | api/v1/products.go:204-228 | the product update from the merged product on: the status, and the merged row or no change |
| `Handlers.PatchedColumns` | api/v1/products.go:204-211 | column by column, what the body gives and else what the existing product has; every other row stays |
| `Handlers.Database.UpdateProduct` | api/v1/products.go:183-230 | after 200 each column of the addressed row is what the body gives, or else what the existing product has; its archive stamp and every other row stay; 500 for a missing row or reference or a clash with another row |
| `Handlers.Database.UpdateOption` | api/v1/product_options.go:121-162 | after 200 name and root of the live option are what the body gives, or else what they were; every other row stays; 500 for a missing root or a name that another option row of it has |
| `Handlers.Database.UpdateValue` | api/v1/product_option_values.go:16-50 | overwrites the text of a live value and nothing else; 500 for a text that another value row of the option has |
| `Sessions.AdminProvenance` | api/v1/users.go:163-318 | after any run every admin user and every admin flag has a chain of creators, logins and logouts back to an initial one |
| `Sessions.NoAdminFromNothing` | api/v1/users.go:184-195 | without an initial admin user or flagged session there never is one |
| `Sessions.AdminFlagIsPermanent` | api/v1/users.go:493-502 | no request changes the admin flag of an existing user |
| `Sessions.CookiesPersist` | api/v1/users.go:320-331 | no request takes back or changes an issued cookie |
| `Sessions.AdminFlagOutlivesItsUser` | api/v1/users.go:184-195 | in every later state a flagged cookie admits creating admin users and deleting users, whatever happened to its own user |
| `Sessions.ArchivedAdminCreatesAdmin` | api/v1/users.go:184-195 | a run in which an admin user logs out and archives itself, and its first cookie creates another one |
| `Sessions.StepKeepsUsernamesIff` | api/v1/users.go:436-511 | live usernames stay distinct through every request but an update to a username that another live user has |
| `Sessions.Accounts.CreateUser` | api/v1/users.go:163-233 | creates the user and its session; 403 exactly for an admin user asked for by a decodable cookie without the flag, 400 for the body, the cookie or the username; a write that fails late adds the user without a session |
| `Sessions.Accounts.FinishLogin` | api/v1/users.go:257-317 | issues an authorized cookie of the user with its own admin flag exactly when the user is live, the password matches, nothing fails and the cookie decodes |
| `Sessions.Accounts.LogoutUser` | api/v1/users.go:320-331 | issues a cookie that is not authorized and keeps the user and the admin flag of the presented one; 400 for a cookie that does not decode |
| `Sessions.Accounts.DeleteUser` | api/v1/users.go:333-378 | archives a live user exactly when the session carries the flag; 404 for the user before 400 for the cookie before 403 |
| `Sessions.Accounts.UpdateUser` | api/v1/users.go:436-511 | 400 for the body before 404 for the user before 401 for the password; changes the username when given, and keeps the stored admin flag whatever the body says |

## Left out

- Gaps in ids: a rolled-back insert's id is reused by the next insert instead of skipped.
- Interleaving of catalogue handlers, whose existence checks run outside the transaction.
- Columns copied without logic (prices, sizes, weights, availability, created_on, updated_on in the catalogue); `name` stands for them. The CHECK on sale_price and the NOT NULL columns are among the reasons for which a call may fail.
- `Pagination.PagesTile`: requires fewer than 2^64 - 100 rows, more than a bigserial table can hold.
- `Throttle.BoundIsAttained`: requires that the run fits the window's microseconds, since the clock rises with every step.
- `Dairytimes.ParseOfFormat`: covers the years 0 to 9999, the ones the four-digit year of the layout can hold; a comma before the fraction, which Go's parser accepts from Go 1.17 on, is not modelled.
- `BridgeQuery.BridgeTextRoundTrip`: reads the groups as rows; whether the store does, inside one more pair of parentheses, is the parameter `readsGroups` of the handlers.
- Offsets above 2^63 - 1, which PostgreSQL refuses, and timestamps beyond the range of PostgreSQL.
- UNIQUE (username, archived_on) of users: it speaks about two users archived at one instant.
- Undecodable bodies of catalogue requests, except in product creation: they are answered 400 before any store call.
- Image files on disk, which a rollback does not remove.
- Password hashing, the rehash of weak hashes during login, and password reset tokens.
- Discounts, webhooks and their delivery, the Go client, the admin site, routing, configuration, mocks and generated code.
