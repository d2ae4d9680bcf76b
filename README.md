# Wishlist app: request protection rules and the product store

The project models two parts of a wishlist web application.

**The rule library (`arcjet`)** protects the application's server. Rule constructors check their options and build rules:

- `tokenBucket`, `fixedWindow` and `slidingWindow` (rate limits);
- `sensitiveInfo`, `validateEmail`, `detectBot`, `shield` and `filter`;
- `protectSignup`, which bundles three of them.

The `arcjet()` client sorts its rules by priority. `withRule` adds rules to a copy of a rule list. `protect` decides on a request by running the rules locally in priority order and stopping at the first denial that is not a dry run. Where no rule stops it, it asks the remote decision service. Local denials with a positive time to live are cached, and so are the DENY results of a remote denial. The option validators build their error messages with the library's small helpers (`errorMessage`, `toString`, `extraProps`).

**The product store (`useProductStore`)** is the front end's state. It holds:

- the wishlist it has loaded and its share URL;
- the list of items;
- the item being edited, and the edit form.

The store's actions read and write two database tables, `wishlists` and `wishlist_items`. `ensureWishlist` finds the user's wishlist, or creates one with a fresh share slug. Every other action runs `ensureWishlist` first.

The Dafny modules are:

- `JsValue` (`js_value.dfy`): JavaScript values, `typeof`, truthiness, `??`, `||`, property lookup, and the library's helpers `errorMessage`, `toString` and `extraProps`.
- `Validators` (`arcjet_validators.dfy`):
  - the validator factories (`createTypeValidator`, `createValueValidator`, `createArrayValidator`, `createValidator`);
  - the validation tables of every rule.
- `Rules` (`arcjet_rules.dfy`):
  - the rule constructors and their priorities;
  - sorting by priority, stable as JavaScript's `Array.prototype.sort` is;
  - `rules.flat(1)` and `withRule`;
  - the local `protect` of each built-in rule, with the hashing, the cache lookup and the analysis as inputs.
- `Protect` (`arcjet_protect.dfy`):
  - the `arcjet()` client as a class that holds its sorted root rules, its cache writes and its reports;
  - `protect` as a specification function plus methods over arrays that follow its loops.
- `ProductTables` (`product_tables.dfy`):
  - the two tables and their invariant: unique identifiers and slugs, and items stored in creation order;
  - every query the store issues, as a function and as a method of a `Database` class that fails when it is unreachable.
- `WishlistStore` (`product_store.dfy`):
  - the store's state, and each action as a step function from state and tables to the new state and tables;
  - a `ProductStore` class whose methods update its fields in place and are proved to follow those step functions;
  - the invariant `Consistent`, which every action keeps: the tables are valid, the share URL names the wishlist's slug, and the wishlist has its row.

Effects outside the program are inputs:

- the outcome of each rule's `protect` call, the fingerprint and the remote decision;
- the signed-in user, the browser's origin and the generated share slugs.

## Model

| member | source | states |
|---|---|---|
| JsValue.Get | node_modules/arcjet/index.js:159-163 | reading a property that is not in the record gives `undefined` |
| JsValue.ErrorMessage | node_modules/arcjet/index.js:16-28 | models `errorMessage`; its cases are stated by ErrorMessageCases and ErrorMessageOfError |
| JsValue.ToString | node_modules/arcjet/index.js:66-78 | models `toString`: strings as they are, integers in full decimal digits (see NatToStringRoundTrip; exponent form is left out), booleans as "true"/"false", anything else "<unsupported value>" |
| JsValue.ErrorMessageCases | node_modules/arcjet/index.js:16-28 | a non-empty string is its own message; an object with a string `message` gives that message; a falsy value, or anything else that is not a string or object, gives "Unknown problem" |
| JsValue.ErrorMessageOfError | node_modules/arcjet/index.js:16-28 | the message of `new Error(m)` is `m` |
| JsValue.NatToStringRoundTrip | node_modules/arcjet/index.js:66-78 | the decimal form of a number has only digits, and reading it back gives the number |
| JsValue.ExtraProps | node_modules/arcjet/index.js:109-117 | the result holds exactly the request's properties that are not known fields, each one rendered by `toString` |
| Validators.CheckType | node_modules/arcjet/index.js:118-133 | models the validator made by `createTypeValidator`; stated by TypeValidatorMeaning |
| Validators.CheckValue | node_modules/arcjet/index.js:134-144 | models the validator made by `createValueValidator`; stated by ValueValidatorMeaning |
| Validators.Validate | node_modules/arcjet/index.js:118-156 | runs any validator, arrays element by element; stated by ArrayValidatorMeaning |
| Validators.ValidateOptions | node_modules/arcjet/index.js:157-176 | models the options validator made by `createValidator`; stated by EntryMeaning, OptionsFirstFailure and AcceptedOptions |
| Validators.TypeValidatorMeaning | node_modules/arcjet/index.js:118-133 | throws exactly when the value's `typeof` is not among the types; the message names the one type, or "one of" the listed types |
| Validators.ValueValidatorMeaning | node_modules/arcjet/index.js:134-144 | throws exactly when the value is not one of the allowed strings; the message lists them quoted |
| Validators.FirstThrowMeaning | node_modules/arcjet/index.js:145-156 | a walk over checks stops at the first one that throws and passes when none does |
| Validators.ArrayValidatorMeaning | node_modules/arcjet/index.js:145-156 | a non-array throws "expected an array"; an array passes exactly when every element passes under the key `key[i]`; otherwise the first failing element's error is thrown |
| Validators.RunValidator | node_modules/arcjet/index.js:118-156 | running a validator with loops gives the same completion as its specification |
| Validators.EntryMeaning | node_modules/arcjet/index.js:157-176 | a required key missing from the options throws "is required"; an undefined value is not validated; a validator's error is rethrown with the rule name before it |
| Validators.OptionsFirstFailure | node_modules/arcjet/index.js:157-176 | the options validator throws exactly the first failing entry's error, and passes when no entry fails |
| Validators.AcceptedOptions | node_modules/arcjet/index.js:157-176 | in an accepted options record, a given entry's required key is present and its defined value passes the entry's validator |
| Validators.OptionsAcceptedExactly | node_modules/arcjet/index.js:157-176 | options are accepted exactly when every required key is present and every defined value passes its validator (both directions) |
| Validators.UndefinedNeverValidated | node_modules/arcjet/index.js:163-167 | an entry whose value is undefined and that is not required never fails |
| Validators.RunOptionsValidator | node_modules/arcjet/index.js:157-176 | the loop over the validation table returns the same completion as its specification |
| Validators.AcceptedMode | node_modules/arcjet/index.js:183 | in an accepted options record, `mode` is undefined, "LIVE" or "DRY_RUN" |
| Validators.ModeEntryExactly | node_modules/arcjet/index.js:159-183 | the `mode` entry passes exactly when the mode is absent, "LIVE" or "DRY_RUN" (both directions) |
| Validators.AcceptedArray | node_modules/arcjet/index.js:182 | an accepted options record holds, under an array-validated key, nothing or an array, and under a string-array key only strings |
| Validators.StringArrayEntryExactly | node_modules/arcjet/index.js:159-183 | a string-array entry passes exactly when it is present or not required, and undefined or an array of strings (both directions) |
| Validators.AcceptedBoolean | node_modules/arcjet/index.js:179 | an accepted options record holds, under a boolean-validated key, nothing or a boolean |
| Validators.BooleanEntryExactly | node_modules/arcjet/index.js:159-183 | a boolean entry passes exactly when it is present or not required, and undefined or a boolean (both directions) |
| Rules.TokenBucket | node_modules/arcjet/index.js:336-404 | models `tokenBucket`; stated by ConstructionMeaning and PlainConstructors |
| Rules.FixedWindow | node_modules/arcjet/index.js:453-518 | models `fixedWindow`; stated by ConstructionMeaning and PlainConstructors |
| Rules.SlidingWindow | node_modules/arcjet/index.js:560-625 | models `slidingWindow`; stated by ConstructionMeaning and PlainConstructors |
| Rules.SensitiveInfo | node_modules/arcjet/index.js:736-832 | models `sensitiveInfo`; stated by ConstructionMeaning and AllowDenyExclusive |
| Rules.ValidateEmail | node_modules/arcjet/index.js:870-980 | models `validateEmail`; stated by ConstructionMeaning, EmailListsExclusive and EmailDefaults |
| Rules.DetectBot | node_modules/arcjet/index.js:1046-1157 | models `detectBot`; stated by ConstructionMeaning, AllowDenyExclusive and BotConfigTag |
| Rules.Shield | node_modules/arcjet/index.js:1189-1233 | models `shield`; stated by ConstructionMeaning and PlainConstructors |
| Rules.Filter | node_modules/arcjet/index.js:1332-1399 | models `filter`; stated by ConstructionMeaning and FilterExclusive |
| Rules.ProtectSignup | node_modules/arcjet/index.js:1293-1299 | models `protectSignup`; stated by ProtectSignupOrder |
| Rules.SortByPriority | node_modules/arcjet/index.js:1433-1435 | models `sort((a, b) => a.priority - b.priority)`; stated by SortByPriorityMeaning |
| Rules.Flatten | node_modules/arcjet/index.js:1433-1434 | models `flat(1)`; stated by FlattenMeaning |
| Rules.RootRules | node_modules/arcjet/index.js:1432-1435 | the client's root rules, flattened then sorted; stated by FlattenMeaning, SortByPriorityMeaning and SignupRootRules |
| Rules.WithRule | node_modules/arcjet/index.js:1663-1673 | models the rule list of `withRule`; stated by WithRuleMeaning |
| Rules.LocalProtect | node_modules/arcjet/index.js:358-1398 | models the local `protect` step of every built-in rule; stated by LocalProtectMeaning and EmailDenialReasons |
| Rules.RateLimitProtect | node_modules/arcjet/index.js:358-403 | models the local `protect` step shared by the three rate limits; stated by LocalProtectMeaning |
| Rules.StateOf | node_modules/arcjet/index.js:340 | a rule's state is RUN exactly in LIVE mode, and DRY_RUN otherwise |
| Rules.ConstructionMeaning | node_modules/arcjet/index.js:336-1411 | a constructor fails with its options validator's error when that throws; a built rule is a single rule with the constructor's priority, and is live exactly when the mode option is "LIVE" |
| Rules.PlainConstructors | node_modules/arcjet/index.js:336-625 | the rate limits and shield build a rule exactly when their options are accepted; rate limits keep their own characteristics only when those are an array |
| Rules.AllowDenyExclusive | node_modules/arcjet/index.js:736-758 | sensitiveInfo and detectBot build a rule exactly when the options are accepted and precisely one of `allow` and `deny` is given; a missing list is empty |
| Rules.BotConfigTag | node_modules/arcjet/index.js:1046-1090 | detectBot configures the analysis with the list that was given |
| Rules.EmailListsExclusive | node_modules/arcjet/index.js:870-890 | validateEmail builds a rule exactly when the options are accepted and precisely one of `allow`, `deny` and `block` is given |
| Rules.EmailDefaults | node_modules/arcjet/index.js:891-945 | the deny list is `deny`, or else the deprecated `block`; a top-level domain is required and domain literals are refused unless the options say otherwise |
| Rules.FilterExclusive | node_modules/arcjet/index.js:1332-1355 | filter builds a rule exactly when the options are accepted and one and only one of the expression lists is non-empty |
| Rules.ProtectSignupOrder | node_modules/arcjet/index.js:1293-1299 | protectSignup builds sliding window, bot detection and email validation in that order, and those three are already sorted by priority; otherwise the first constructor's error is returned |
| Rules.SortIsSorted | node_modules/arcjet/index.js:1433-1435 | sorting by priority gives a list ordered by priority |
| Rules.SortIsPermutation | node_modules/arcjet/index.js:1433-1435 | sorting keeps the multiset of rules |
| Rules.SortIsStable | node_modules/arcjet/index.js:1433-1435 | rules of equal priority keep their relative order |
| Rules.SortByPriorityMeaning | node_modules/arcjet/index.js:1433-1435 | the sorted list is ordered, a permutation, and stable |
| Rules.SortSortedIsIdentity | node_modules/arcjet/index.js:1433-1435 | sorting a list that is already ordered changes nothing |
| Rules.FlattenMeaning | node_modules/arcjet/index.js:1433-1434 | `flat(1)` has as many rules as all the lists together, and holds exactly their rules |
| Rules.SignupRootRules | node_modules/arcjet/index.js:1293-1299 | a client configured with protectSignup runs its three rules in the order built |
| Rules.WithRuleMeaning | node_modules/arcjet/index.js:1663-1673 | `withRule` gives a sorted list with the rules of both lists; within one priority the base rules come first, in their order |
| Rules.EmailTypesMeaning | node_modules/arcjet/index.js:965 | filtering the blocked reasons with `isEmailType` keeps exactly the reasons that are email types, and never adds any |
| Rules.LocalProtectMeaning | node_modules/arcjet/index.js:358-1398 | each rule's local result carries its rule id; a result is CACHED only on a cache hit, and only for rules other than sensitive-information and email; when not cached it is a DENY exactly when the analysis denies (sensitive information found, an invalid email, a denied bot, or no filter allowing), with state RUN in LIVE mode and DRY_RUN otherwise; it stops the walk exactly when it is a DENY of a live rule; only bot and filter denials carry a TTL of 60 |
| Rules.EmailDenialReasons | node_modules/arcjet/index.js:946-979 | an email denial lists the email types that matched the deny list |
| Protect.Configure | node_modules/arcjet/index.js:1412-1428 | `arcjet()` throws "Log is required" without a logger and "Client is required" without a client |
| Protect.Seeded | node_modules/arcjet/index.js:1509-1530 | the rules after the client's characteristics are handed to rate limits; stated by SeededMeaning |
| Protect.Outcome | node_modules/arcjet/index.js:1538-1584 | the result a rule leaves in its slot, an ERROR result when it throws or returns nothing; stated by ErrorOutcomes |
| Protect.ProtectSpec | node_modules/arcjet/index.js:1436-1661 | models `protect`; stated by FingerprintFailure, TooManyRules, FirstDenyWins, NoStopGoesRemote and LocalCacheWrites |
| Protect.FirstStopMeaning | node_modules/arcjet/index.js:1533-1617 | the rule walk stops at the first result that is a DENY and not a dry run, and only there |
| Protect.DenyWritesMeaning | node_modules/arcjet/index.js:1634-1645 | caching a remote decision writes one entry for each DENY result and nothing else |
| Protect.FingerprintFailure | node_modules/arcjet/index.js:1465-1484 | without a fingerprint, the decision is an error with "Failed to build fingerprint - " plus the message, and has no results; nothing is reported, cached or changed |
| Protect.TooManyRules | node_modules/arcjet/index.js:1494-1508 | more than ten rules give an error decision with no results, reported once with no rules |
| Protect.FirstDenyWins | node_modules/arcjet/index.js:1588-1614 | the first non-dry-run DENY decides with its TTL and reason; results up to it are the rules' own and NOT_RUN/ALLOW after it; it is reported once and cached exactly when its TTL is positive |
| Protect.NoStopGoesRemote | node_modules/arcjet/index.js:1622-1657 | when no result stops the walk, the remote decision is returned with its DENY results cached when it denies with a positive TTL; a failed remote call gives a reported error decision holding every result |
| Protect.ErrorOutcomes | node_modules/arcjet/index.js:1539-1584 | a rule that throws or returns nothing gets a RUN/ERROR result with TTL 0, and that result never stops the walk |
| Protect.LocalCacheWrites | node_modules/arcjet/index.js:1588-1614 | a local cache write is always a DENY with a positive TTL; nothing is written without a fingerprint or with too many rules |
| Protect.SeededMeaning | node_modules/arcjet/index.js:1509-1530 | rate-limit rules without characteristics of their own take the client's; every other rule is unchanged |
| Protect.DryRunRulesReachRemote | node_modules/arcjet/index.js:1588-1628 | when every rule is a built-in in DRY_RUN mode and none of their results is cached, the remote decision is returned |
| Protect.Arcjet.constructor | node_modules/arcjet/index.js:1412-1435 | the client's root rules are the rules flattened and sorted by priority, and its cache and reports start empty |
| Protect.Arcjet.WithRule | node_modules/arcjet/index.js:1663-1673 | returns a new array holding `withRule` of the base rules and the added ones |
| Protect.Arcjet.Protect | node_modules/arcjet/index.js:1436-1661 | the decision, the changes to the rules, the cache writes and the reports are those of the specification of `protect` |
| Protect.Arcjet.CacheDenials | node_modules/arcjet/index.js:1634-1645 | appends one cache write for each DENY result, and reports nothing |
| Protect.SeedRules | node_modules/arcjet/index.js:1509-1530 | a NOT_RUN/ALLOW result for every rule, and the rate-limit rules given the client's characteristics |
| Protect.RunRules | node_modules/arcjet/index.js:1531-1621 | the walk stops at the first stopping result; results after it stay NOT_RUN/ALLOW; without a stop every rule's result is recorded |
| ProductTables.OwnedBy | frontend/src/store/useProductStore.js:122-125 | the owner query; stated by OwnedByMeaning |
| ProductTables.InsertWishlist | frontend/src/store/useProductStore.js:147-151 | the wishlist insert; stated by InsertWishlistMeaning |
| ProductTables.UpdateSlug | frontend/src/store/useProductStore.js:360-365 | the slug update; stated by UpdateSlugMeaning |
| ProductTables.Newest | frontend/src/store/useProductStore.js:173-177 | the item listing; stated by NewestMeaning |
| ProductTables.SelectItem | frontend/src/store/useProductStore.js:229-234 | the single-item query; stated by SelectItemMeaning |
| ProductTables.InsertItem | frontend/src/store/useProductStore.js:198-204 | the item insert; stated by InsertItemMeaning |
| ProductTables.UpdateItem | frontend/src/store/useProductStore.js:265-276 | the item update; stated by UpdateItemMeaning |
| ProductTables.DeleteItems | frontend/src/store/useProductStore.js:308-312 | the item delete; stated by DeleteItemsMeaning |
| ProductTables.OwnedByMeaning | frontend/src/store/useProductStore.js:122-136 | the owner query returns exactly the owner's rows, and its first row is the first owned row in table order |
| ProductTables.InsertWishlistMeaning | frontend/src/store/useProductStore.js:147-157 | creating a wishlist fails with a duplicate slug exactly when the slug is taken; otherwise it appends an owned row and keeps the tables valid |
| ProductTables.UpdateSlugMeaning | frontend/src/store/useProductStore.js:360-371 | changing a slug changes only that row's slug and removes the old slug; it fails when no row has the id, and with a duplicate slug exactly when another row has the slug |
| ProductTables.NewestMeaning | frontend/src/store/useProductStore.js:173-178 | the listing holds exactly the wishlist's items, newest first |
| ProductTables.MatchingMeaning | frontend/src/store/useProductStore.js:229-234 | the matching rows are exactly the wishlist's rows with that id |
| ProductTables.SelectItemMeaning | frontend/src/store/useProductStore.js:229-239 | asking for one item succeeds exactly when the wishlist holds an item with that id, and returns its fields |
| ProductTables.InsertItemMeaning | frontend/src/store/useProductStore.js:198-209 | inserting an item keeps the tables valid, leaves every other wishlist's items as they were, and puts the new item first in its wishlist's listing |
| ProductTables.UpdateItemMeaning | frontend/src/store/useProductStore.js:265-281 | updating an item changes only the matching row's fields, keeps the tables valid, and fails unless exactly one row matches |
| ProductTables.AtMostOneMatch | frontend/src/store/useProductStore.js:229-234 | in valid tables at most one row matches a wishlist id and an item id |
| ProductTables.DeleteItemsMeaning | frontend/src/store/useProductStore.js:308-317 | deleting keeps the tables valid and removes exactly the matching rows, leaving the others in order |
| ProductTables.Database.SelectOwned | frontend/src/store/useProductStore.js:122-130 | the owner query, or an unreachable-database error |
| ProductTables.Database.InsertWishlistRow | frontend/src/store/useProductStore.js:147-156 | the wishlist insert, or an unreachable-database error with the tables unchanged |
| ProductTables.Database.UpdateShareSlug | frontend/src/store/useProductStore.js:360-366 | the slug update, or an unreachable-database error with the tables unchanged |
| ProductTables.Database.SelectItems | frontend/src/store/useProductStore.js:173-182 | the listing, newest first, or an unreachable-database error |
| ProductTables.Database.SelectOneItem | frontend/src/store/useProductStore.js:229-239 | the single-item query, or an unreachable-database error |
| ProductTables.Database.InsertItemRow | frontend/src/store/useProductStore.js:198-209 | the item insert, or an unreachable-database error with the tables unchanged |
| ProductTables.Database.UpdateItemRow | frontend/src/store/useProductStore.js:265-281 | the item update, or an unreachable-database error with the tables unchanged |
| ProductTables.Database.DeleteItemRows | frontend/src/store/useProductStore.js:308-317 | the item delete, or an unreachable-database error with the tables unchanged |
| WishlistStore.BuildShareUrl | frontend/src/store/useProductStore.js:34-37 | models `buildShareUrl`; stated by ShareUrlNamesSlug |
| WishlistStore.EnsureWishlistStep | frontend/src/store/useProductStore.js:109-162 | models `ensureWishlist`; stated by EnsureWithoutUser, EnsureCached, EnsureLookup, EnsureKeepsConsistent and EnsureTwice |
| WishlistStore.FetchProductsStep | frontend/src/store/useProductStore.js:164-188 | models `fetchProducts`; stated by FetchProductsMeaning |
| WishlistStore.AddProductStep | frontend/src/store/useProductStore.js:190-221 | models `addProduct`; stated by AddProductKeepsConsistent and AddProductMeaning |
| WishlistStore.FetchProductStep | frontend/src/store/useProductStore.js:223-256 | models `fetchProduct`; stated by FetchProductMeaning |
| WishlistStore.UpdateProductStep | frontend/src/store/useProductStore.js:258-300 | models `updateProduct`; stated by UpdateProductKeepsConsistent and UpdateProductMeaning |
| WishlistStore.DeleteProductStep | frontend/src/store/useProductStore.js:302-329 | models `deleteProduct`; stated by DeleteProductKeepsConsistent and DeleteProductMeaning |
| WishlistStore.ReplaceSlugStep | frontend/src/store/useProductStore.js:358-376 | the slug replacement inside `regenerateShareLink`; stated by ReplaceSlugKeepsConsistent and ReplaceSlugMeaning |
| WishlistStore.RegenerateShareLinkStep | frontend/src/store/useProductStore.js:344-377 | models `regenerateShareLink`, creating the wishlist first when the store has none; stated by RegenerateWithoutUser, RegenerateKeepsConsistent and RegenerateReplacesSlug |
| WishlistStore.ShareUrlNamesSlug | frontend/src/store/useProductStore.js:34-37 | without a window the share URL is empty; otherwise it is the origin's share path followed by the slug, so different slugs give different URLs |
| WishlistStore.FormRoundTrip | frontend/src/store/useProductStore.js:196-206 | with columns held as text, saving a form and loading it back gives the same form; an empty link is saved as null |
| WishlistStore.RemoveIdMeaning | frontend/src/store/useProductStore.js:319-322 | the item list after a delete holds exactly the items with other ids, and is unchanged when no item has the id |
| WishlistStore.RemoveIdAppend | frontend/src/store/useProductStore.js:319-322 | removing an id from two joined lists removes it from each |
| WishlistStore.EnsureWithoutUser | frontend/src/store/useProductStore.js:109-115 | without a user the wishlist, share URL, items and current item are cleared and the tables are untouched |
| WishlistStore.EnsureCached | frontend/src/store/useProductStore.js:117-119 | a wishlist already in the store is returned without a query |
| WishlistStore.EnsureLookup | frontend/src/store/useProductStore.js:120-162 | the lookup throws exactly when the database is unreachable, or when no wishlist is owned and the new slug is taken; then nothing changes; otherwise the first owned wishlist is adopted with the tables unchanged, or a new row is appended and adopted |
| WishlistStore.EnsureKeepsConsistent | frontend/src/store/useProductStore.js:109-162 | `ensureWishlist` keeps the store consistent with the tables, finds nothing exactly when there is no user, and returns a wishlist the store already holds |
| WishlistStore.EnsureTwice | frontend/src/store/useProductStore.js:109-162 | after one successful `ensureWishlist`, a second one, with any new slug, changes nothing and finds the same wishlist |
| WishlistStore.ListAfterMeaning | frontend/src/store/useProductStore.js:164-188 | after the wishlist is settled, the listing is empty without a wishlist, shows the load error when the query fails, and otherwise is the wishlist's items newest first |
| WishlistStore.FetchProductsMeaning | frontend/src/store/useProductStore.js:164-188 | `fetchProducts` leaves the items table alone and ends not loading; without a user the list is empty; on failure the error is "Failed to load wishlist" and the old list stays; on success the list is exactly the wishlist's items, newest first; with a cached wishlist and a reachable database it succeeds |
| WishlistStore.AddAfterKeepsConsistent | frontend/src/store/useProductStore.js:190-221 | adding after the wishlist is settled keeps the store consistent |
| WishlistStore.AddProductKeepsConsistent | frontend/src/store/useProductStore.js:190-221 | `addProduct` keeps the store consistent with the tables |
| WishlistStore.AddProductMeaning | frontend/src/store/useProductStore.js:190-221 | with a wishlist and a reachable database, the items table gains exactly the new row, the listing starts with the new item holding the form's fields, and the form is reset |
| WishlistStore.FetchProductMeaning | frontend/src/store/useProductStore.js:223-256 | whatever happens, the store stays consistent, the items are untouched and an error comes with no current item; with a user, a wishlist in the store and a reachable database, `fetchProduct` succeeds exactly when the item is in the store's wishlist; on success it sets the current item and fills the form from it; on failure the error is "Unable to load item details" and there is no current item |
| WishlistStore.SaveAfterKeepsConsistent | frontend/src/store/useProductStore.js:258-300 | saving after the wishlist is settled keeps the store consistent |
| WishlistStore.UpdateProductKeepsConsistent | frontend/src/store/useProductStore.js:258-300 | `updateProduct` keeps the store consistent with the tables |
| WishlistStore.UpdateProductMeaning | frontend/src/store/useProductStore.js:258-300 | with a user, a wishlist in the store and a reachable database: when the item exists in the store's wishlist, only its row takes the form's fields, it becomes the current item, the form is kept and the list is reloaded; otherwise only `loading` changes |
| WishlistStore.DeleteProductKeepsConsistent | frontend/src/store/useProductStore.js:302-329 | `deleteProduct` keeps the store consistent with the tables |
| WishlistStore.DeleteProductMeaning | frontend/src/store/useProductStore.js:302-329 | with a wishlist and a reachable database, the matching rows are deleted and the list keeps exactly the items with other ids |
| WishlistStore.RegenerateWithoutUser | frontend/src/store/useProductStore.js:344-349 | without a user nothing changes and nothing is rejected |
| WishlistStore.ReplaceSlugKeepsConsistent | frontend/src/store/useProductStore.js:360-376 | replacing the slug keeps the store consistent with the tables; when the database is unreachable or another wishlist has the new slug, the wishlist and share URL stay as they were |
| WishlistStore.ReplaceSlugMeaning | frontend/src/store/useProductStore.js:360-376 | a free new slug is stored in the wishlist's row only, the old slug is gone, and the store's wishlist and share URL name the new slug |
| WishlistStore.RegenerateKeepsConsistent | frontend/src/store/useProductStore.js:344-377 | `regenerateShareLink` keeps the store consistent with the tables and the items untouched; it is rejected exactly when the store has no wishlist and `ensureWishlist` fails, and then nothing changes |
| WishlistStore.RegenerateReplacesSlug | frontend/src/store/useProductStore.js:344-377 | with a user and a reachable database, once `ensureWishlist` has found or created the wishlist (at once when the store holds one), a new slug no wishlist has becomes the wishlist's slug and its share link, and the call is not rejected |
| WishlistStore.ProductStore.constructor | frontend/src/store/useProductStore.js:57-70 | the store starts in its initial state |
| WishlistStore.ProductStore.SetFormData | frontend/src/store/useProductStore.js:72 | replaces the form and nothing else |
| WishlistStore.ProductStore.ResetForm | frontend/src/store/useProductStore.js:73-81 | clears the form and nothing else |
| WishlistStore.ProductStore.EnsureWishlist | frontend/src/store/useProductStore.js:109-162 | the new state and tables are those of the `ensureWishlist` step, and the store stays consistent |
| WishlistStore.ProductStore.FetchProducts | frontend/src/store/useProductStore.js:164-188 | the new state and tables are those of the `fetchProducts` step |
| WishlistStore.ProductStore.AddProduct | frontend/src/store/useProductStore.js:190-221 | the new state and tables are those of the `addProduct` step |
| WishlistStore.ProductStore.FetchProduct | frontend/src/store/useProductStore.js:223-256 | the new state and tables are those of the `fetchProduct` step |
| WishlistStore.ProductStore.UpdateProduct | frontend/src/store/useProductStore.js:258-300 | the new state and tables are those of the `updateProduct` step |
| WishlistStore.ProductStore.DeleteProduct | frontend/src/store/useProductStore.js:302-329 | the new state and tables are those of the `deleteProduct` step |
| WishlistStore.ProductStore.RegenerateShareLink | frontend/src/store/useProductStore.js:344-377 | the new state, the tables and whether the change was rejected are those of the `regenerateShareLink` step |

## Left out

- Rules.PlainConstructors: `duration.parse` (index.js:345, 462, 569) is left out, so an `interval` or `window` string that the parser would refuse still builds a rule in this model; the constructors' iff holds for this abstraction only, not for the program. Strings are never converted to seconds, and numbers are integers.
- Fractional numbers, and the formatting of non-integer numbers by `toString`, are left out.
- JsValue.ToString: numbers are unbounded integers, not doubles. Integers above 2^53 are exact here but not in JavaScript. Magnitudes of 10^21 and more are written in full, where the template string uses exponent form (`1e+21`).
- The request details are only modelled through `extraProps`:
  - the rest of the frozen `details` record is not built;
  - the `ctx` spread into the context is not modelled;
  - header parsing is not modelled.
- Rule-id hashing, WASM analysis (fingerprint, bot, email, sensitive-information, filter and shield analyses) and the protocol client are external calls. They are inputs:
  - each rule's `protect` outcome;
  - the fingerprint;
  - the remote decision.
- Custom rules: only the built-in rules' local `protect` is modelled. Beyond that, `protect` sees a rule only through the outcome of its calls, so a rule without `validate` or `protect` functions shows up as a thrown outcome.
- Protect.Arcjet.Protect: rules are values in an array, so two entries that are the same JavaScript object are not aliased. The in-place characteristics update shows up as a change of the array.
- Options that are not objects, and `Object.hasOwn` on inherited properties, are left out. Options are a map of own properties.
- Logging, performance measurement and the `waitUntil` lookup are left out.
- The deprecation warning for an empty rule list is left out.
- `MemoryCache` is a list of `cache.set` calls. Expiry and later lookups are not modelled.
- Asynchrony: every `await` is taken to complete before the next step. Interleaved actions of the store are not modelled.
- Toasts, DOM events, the modal and `copyShareLink`, which writes to the clipboard, are left out.
- `generateShareSlug` uses randomness, so the slug it makes is an input to the store's actions.
- The auth store is not modelled: the signed-in user is an input.
- The database is one of two kinds:
  - reachable, where every query succeeds or fails as the tables dictate;
  - unreachable, where every query fails.
  Partial failures and row-level security policies are not modelled.
- Table identifiers are natural numbers from one counter shared by both tables. The JavaScript comparison `item.id !== id` assumes the ids have one type, and is modelled as the comparison of numbers.
- "The first wishlist" is the first row in table order. The query gives no order, although the store calls it the most recent.
- `created_at` is a clock that advances with every insert.
- WishlistStore.FormRoundTrip, WishlistStore.AddProductMeaning and WishlistStore.UpdateProductMeaning: columns are uninterpreted text. The `price` column's type conversion is not modelled, nor its normalisation (a decimal price reads back as the database formats it), nor the rejection of a price that is not a number. So these members state read-backs, and successful writes, that the real column type can change or refuse.
- WishlistStore.Consistent: it ties the store's wishlist to its table row, not to the signed-in user. Like the source, `ensureWishlist` returns the cached wishlist whatever user is signed in (WishlistStore.EnsureCached). Signing out does not reset the store. So the actions' properties speak of the store's wishlist, which after a change of user may not be the new user's.
