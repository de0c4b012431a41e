# Marketplace cart and checkout, modelled in Dafny

This project models the cart → checkout core of a multi-seller marketplace that runs on Next.js
and Prisma. The parts modelled are:

- the durable cart: loading a user's priced cart lines (`getUserCart`) and get-or-create of the
  cart (`ensureCart`);
- the single-line add route (`POST /api/cart/items`) and the login merge (`POST /api/cart/sync`);
- checkout (`POST /api/orders`): the guards, the stock pre-check, the totals, the frozen order
  lines with their commission, the stock decrements and the cart clear;
- the amount of the payment intent (`POST /api/create-payment-intent`);
- the client-side cart store (`useCartStore`);
- the validation schemas for orders, products and accounts;
- the text helpers: `makeSlug`, the product and store slugs, `truncate`,
  `calculateDiscountPercentage` and the cents conversions;
- the small record-store flows: product create/update/archive with seller authorisation, seller
  registration, user registration, and the password-reset token lifecycle.

The database is one class, `Db.Database`, with one field per table: products and variants as
maps from id to row, every other table as a sequence of rows in table order. `Database.Valid()`
holds the store's constraints: unique carts per user, unique line ids, the
`(cartId, productId, variantId)` key, foreign keys from lines to products and carts, unique user
ids and e-mails, unique seller ids, slugs and owners, and every id shorter than the id counter.
Every route and action is a method on that class's fields. It is proved to keep `Valid()` and to
leave the store exactly as its contract says. A thrown error or a rolled-back transaction leaves
every table unchanged. A Prisma call inside a route becomes a function on the table it touches
(`Db.FindLine`, `Db.SetQuantity`, `Db.InsertLine`, `Db.ClearLines`, …).

Modules, one per file:

- `Wrappers`: `Option`.
- `Schema`: the rows.
- `Text`: ASCII lower-casing, `trim`, number-to-decimal and string order.
- `Formatters`: `truncate`, the discount percentage and the cents conversions.
- `Slugs`: `makeSlug`, `Slugify` and `ProductSlug`.
- `OrderValidation`, `ProductValidation` and `AuthValidation`: the schemas.
- `Db`: the store and its table operations.
- `CartService`: `getUserCart` and `ensureCart`.
- `CartItemsRoute`, `CartSyncRoute`, `OrdersRoute` and `PaymentIntentRoute`: the cart and checkout routes.
- `OrderMath`: totals, order lines and stock decrements.
- `CartStore`: the client store.
- `ProductActions` and `SellerActions`: the seller's product actions and store registration.
- `RegisterRoute`, `ForgotPasswordRoute` and `ResetPasswordRoute`: the account routes.

Money is a Dafny `real`, which is exact. `Math.round(x)` is `⌊x + 0.5⌋`. Generated ids (cuid in
the application) come from a counter in the store that always exceeds the length of every stored
id. This gives what the proofs need of a cuid: it is fresh and differs from every stored id.

String lengths are what JavaScript's `.length` counts: UTF-16 code units (`Text.Utf16Len`). A
character outside the Basic Multilingual Plane counts two. So do zod's `.min(n)` and `.max(n)` and
the end index of `slice`. A `.min(1)` is non-emptiness, which is the same in characters and in code
units.

Three behaviours of the code are kept as written, though a reader might expect otherwise:

- **Merge snapshot.** The sync route matches every incoming line against the snapshot it reads
  once before its loop. So two incoming lines of one identity do not add up: the second write
  wins (`CartSyncRoute.MergeDuplicateIncomingLastWins`).
- **Inactive products.** `getUserCart` keeps lines of products that are no longer active
  (`CartService.GetUserCartKeepsEveryLine`).
- **No order number.** Checkout stores no order number; `orderNumber` in its response is not
  modelled.

## Model

| member | source | states |
|---|---|---|
| Text.LowerChar | prisma/seed.ts:9 | one character lower-cased: never an ASCII capital, whitespace and word characters stay what they were, and a character that is not a capital is kept |
| Text.Lower | src/app/api/auth/register/route.ts:27 | `toLowerCase()` keeps the length and lowers every character at its position |
| Text.LowerAppend | prisma/seed.ts:9 | lower-casing distributes over concatenation |
| Text.LowerNoUpper | prisma/seed.ts:9 | a string without ASCII capitals is its own lower case |
| Text.LowerIdempotent | src/app/api/auth/register/route.ts:27 | lower-casing twice equals lower-casing once |
| Text.TrimStart | prisma/seed.ts:10 | the suffix left after removing leading whitespace, which starts with a non-space or is empty |
| Text.TrimEnd | prisma/seed.ts:10 | the prefix left after removing trailing whitespace, which ends with a non-space or is empty |
| Text.Trim | prisma/seed.ts:10 | `trim()` yields the slice of the input between its leading and its trailing whitespace: it neither starts nor ends with whitespace, only whitespace lies before and after it, and it is empty exactly when the input is all whitespace |
| Text.TrimStartSkipsSpace | prisma/seed.ts:10 | whitespace in front does not change the left trim |
| Text.TrimEndSkipsSpace | prisma/seed.ts:10 | whitespace behind does not change the right trim |
| Text.TrimStartKeepsTail | prisma/seed.ts:10 | trailing whitespace passes through the left trim unless everything is whitespace |
| Text.TrimIgnoresSurroundingSpace | prisma/seed.ts:10 | surrounding whitespace does not change `trim` |
| Text.TrimNoSpace | prisma/seed.ts:10 | `trim` leaves a string without whitespace alone |
| Text.SliceBetween | prisma/seed.ts:10 | a part of the input preceded and followed only by whitespace is such a slice, empty exactly when the input is all whitespace |
| Text.TrimOfUnique | prisma/seed.ts:10 | only one string is such a slice with no whitespace at its ends, so that description fixes `trim`'s result |
| Text.DigitChar | src/lib/actions/product.ts:33 | the character of a decimal digit is a digit |
| Text.Digits | src/lib/actions/product.ts:33 | `n.toString()` for a non-negative integer: a non-empty string of digits whose decimal value is `n`, starting with 0 only for 0 |
| Text.DigitsLength | src/lib/actions/product.ts:33 | the decimal string has at least four digits exactly from 1000 on |
| Text.DigitsSuffixValue | src/lib/actions/product.ts:33 | the last k digits of `n.toString()` have the value n mod 10^k |
| Text.StrLeTotal | src/lib/services/cart.ts:52 | the order standing in for `localeCompare` compares every two strings |
| Text.StrLeTransitive | src/lib/services/cart.ts:52 | the order is transitive |
| Text.StrLeAntisymmetric | src/lib/services/cart.ts:52 | the order is antisymmetric |
| Text.Utf16Len | src/lib/utils/formatters.ts:96 | `.length` counts UTF-16 code units: between the number of characters and twice it, and equal to it when every character is in the Basic Multilingual Plane |
| Text.Utf16LenAppend | src/lib/utils/formatters.ts:96 | code-unit lengths add up over concatenation |
| Text.Utf16Prefix | src/lib/utils/formatters.ts:97 | the longest prefix within a code-unit bound: the whole string exactly when it fits, and one more character would exceed the bound |
| Formatters.Round | src/lib/utils/formatters.ts:117 | `Math.round` is the integer within half a unit, a half going up |
| Formatters.RoundIntegral | src/app/api/create-payment-intent/route.ts:26 | rounding an integral value gives it back |
| Formatters.SliceEnd | src/lib/utils/formatters.ts:97 | the end index `slice(0, end)` uses: an in-range end as is, a negative one counted from the back and clamped at 0 |
| Formatters.Utf16Slice | src/lib/utils/formatters.ts:97 | `slice(0, end)` counts code units: a prefix of the text within the slice end, to which one more character would not fit |
| Formatters.Truncate | src/lib/utils/formatters.ts:95-98 | text of at most `length` code units is returned unchanged; longer text is the `trim` of its `slice(0, length)` followed by "...", so at most `length` + 3 code units |
| Formatters.TruncateCountsCodeUnits | src/lib/utils/formatters.ts:95-98 | any two characters outside the Basic Multilingual Plane (two emoji, say) are four code units: truncating them at 4 keeps both, at 2 keeps one and adds "..." |
| Formatters.TrimUnits | src/lib/utils/formatters.ts:97 | trimming never adds code units |
| Formatters.DiscountPercentage | src/lib/utils/formatters.ts:112-118 | 0 when the original price is not positive, otherwise the rounded percentage reduction |
| Formatters.DiscountEdges | src/lib/utils/formatters.ts:117 | an equal sale price gives 0 %, a sale price of 0 gives 100 % |
| Formatters.DiscountBounded | src/lib/utils/formatters.ts:117 | a sale price between 0 and the original gives a percentage between 0 and 100 |
| Formatters.CentsToAmount | src/lib/utils/formatters.ts:123-125 | the amount is the cents divided by 100 |
| Formatters.AmountToCents | src/lib/utils/formatters.ts:130-132 | the cents are the amount times 100, rounded |
| Formatters.CentsRoundTrip | src/lib/utils/formatters.ts:123-132 | whole cents to an amount and back gives the same cents |
| Slugs.SkipRun | prisma/seed.ts:11-13 | the rest after a leading run: a suffix whose skipped characters all match, which starts with a non-matching character, and which is shorter when the string starts with a match |
| Slugs.ReplaceRuns | prisma/seed.ts:11-13 | `replace(/P+/g, rep)`: every character of the result is a non-matching character of the input or a character of `rep` |
| Slugs.ReplaceByDashNoDoubleDash | prisma/seed.ts:13 | replacing dash runs by one dash leaves no "--" |
| Slugs.ReplaceRunsAbsent | prisma/seed.ts:12 | replacing runs that never occur changes nothing |
| Slugs.ReplaceSingleDashes | prisma/seed.ts:13 | on a string whose only matches are isolated dashes, replacing runs by "-" changes nothing |
| Slugs.TailFacts | prisma/seed.ts:13 | the tail of a string keeps its characters and its lack of "--" |
| Slugs.ReplaceRunsSingleStep | prisma/seed.ts:13 | a run of length one is replaced on its own, then the rest |
| Slugs.SlugCharOfLowerWord | prisma/seed.ts:12 | a lower-case word character or a dash is a slug character and not whitespace |
| Slugs.MakeSlug | prisma/seed.ts:6-14 | the slug has only `[a-z0-9_-]` characters, no whitespace and no "--" |
| Slugs.MakeSlugFixes | prisma/seed.ts:6-14 | a string of slug characters without "--" is its own slug |
| Slugs.MakeSlugIdempotent | prisma/seed.ts:6-14 | `makeSlug(makeSlug(x)) == makeSlug(x)` |
| Slugs.MakeSlugIgnoresSurroundingSpace | prisma/seed.ts:10 | leading and trailing whitespace of the input does not change the slug |
| Slugs.SpaceLowered | prisma/seed.ts:9-10 | lower-casing leaves whitespace as it is |
| Slugs.StripEdgeDashes | src/lib/actions/seller.ts:31 | removing one leading and one trailing dash keeps the characters and leaves no edge dash when there was no "--" |
| Slugs.Slugify | src/lib/actions/seller.ts:31 | the store-name slug has only `[a-z0-9-]`, no "--" and no dash at either end |
| Slugs.SlugifyFixes | src/lib/actions/product.ts:30-32 | a string of that form is its own slug |
| Slugs.SlugifyIdempotent | src/lib/actions/product.ts:30-32 | slugifying a slug changes nothing |
| Slugs.LastFour | src/lib/actions/product.ts:33 | `slice(-4)` is the last `min(4, length)` characters |
| Slugs.ProductSlug | src/lib/actions/product.ts:30-33 | the product slug is the name's slug, a dash, and the last four digits of the timestamp: the suffix's value is the timestamp mod 10000, it has four digits from 1000 on and is the whole timestamp below |
| Slugs.TimestampSuffix | src/lib/actions/product.ts:33 | `Date.now().toString().slice(-4)` has the value of the timestamp mod 10000, four digits from 1000 on and all the digits below |
| Slugs.DashSuffix | src/lib/actions/product.ts:33 | joining a base and the tail of a digit string with a dash gives the base, the dash, and exactly that tail of digits |
| OrderValidation.MatchesPhone | src/lib/validations/order.ts:46-50 | the phone pattern holds exactly for a non-empty string of digits, whitespace, `+`, `(`, `)` and `-` |
| OrderValidation.LengthBetween | src/lib/validations/order.ts:7-45 | `.min(lo).max(hi)` on a string, counted in UTF-16 code units; `LengthBounds` states what it means for the characters |
| OrderValidation.OptionalAtMost | src/lib/validations/order.ts:15-19 | `.max(hi).optional().nullable()`: absent, null, or at most `hi` code units; `LengthBounds` states it |
| OrderValidation.LengthBounds | src/lib/validations/order.ts:7-45 | a code-unit bound allows at most `hi` characters and at least half of `lo`; for text inside the Basic Multilingual Plane it is the character bound; an absent optional field always passes, a present one has at most `hi` characters |
| OrderValidation.ValidAddress | src/lib/validations/order.ts:6-50 | the address schema: the length bounds of every field in code units and the phone pattern; `ParseCheckout` uses it for both addresses |
| OrderValidation.ValidCartItem | src/lib/validations/order.ts:58-65 | a non-empty product id and a whole positive quantity; `CartItemQuantity` and `ZeroOnlyForUpdates` state its consequences |
| OrderValidation.CartItemQuantity | src/lib/validations/order.ts:58-65 | a valid cart line carries a whole quantity of at least 1 |
| OrderValidation.ZeroOnlyForUpdates | src/lib/validations/order.ts:58-84 | a quantity of 0 is a valid update but no valid cart line; 0.5 is neither |
| OrderValidation.ValidQuantityUpdate | src/lib/validations/order.ts:79-84 | a whole number of at least 0; `QuantityUpdateIsLineOrZero` states it |
| OrderValidation.QuantityUpdateIsLineOrZero | src/lib/validations/order.ts:58-84 | for a line with a product id, an update accepts a quantity exactly when the cart-line schema does or the quantity is zero |
| OrderValidation.ParseCheckout | src/lib/validations/order.ts:91-101 | checkout input parses exactly when the addresses, the shipping method and the notes are valid; `useSameAddress` defaults to true and the addresses and notes pass through |
| OrderValidation.ValidCount | src/lib/validations/order.ts:147-148 | an absent count passes; a supplied one must be a positive whole number, at most the maximum when there is one; `ValidCountIsWhole` states it |
| OrderValidation.ValidCountIsWhole | src/lib/validations/order.ts:147-148 | a supplied count passes exactly when it is a whole number from 1 up to the maximum, and an absent one always passes |
| OrderValidation.ParseOrderFilter | src/lib/validations/order.ts:127-149 | a filter parses exactly when its statuses are from their enumerations, its dates pass the date-time check, the page is absent or a whole number ≥ 1 and the limit absent or a whole number in 1..100; statuses, dates and search pass through, page defaults to 1 and limit to 20, a supplied page or limit is kept; page 0 and limit 101 are refused |
| ProductValidation.ParseStatus | src/lib/validations/product.ts:9 | the status parses exactly for ACTIVE, DRAFT and ARCHIVED |
| ProductValidation.ValidVariant | src/lib/validations/product.ts:18-22 | a variant with a whole stock of at least 0 and a price that is absent or at least 0.01; its name is not checked; `ValidVariantFacts` states it |
| ProductValidation.ValidVariantFacts | src/lib/validations/product.ts:18-22 | a valid variant stores a whole non-negative stock and a positive price if any; renaming it never changes validity; a half stock or a zero price is refused |
| ProductValidation.ValidProduct | src/lib/validations/product.ts:3-23 | the product schema; `ValidProductFacts` states what it guarantees |
| ProductValidation.ValidProductFacts | src/lib/validations/product.ts:3-23 | a valid product has a positive price, a whole non-negative stock, at least one image, and variants with whole non-negative stock whose price is absent or positive |
| AuthValidation.FirstLine | src/lib/validations/auth.ts:36 | the prefix before the first line terminator, which is what `.*` in the lookahead covers |
| AuthValidation.LookaheadFinds | src/lib/validations/auth.ts:36 | `^(?=.*[cls])` holds exactly when a class character occurs before the first line break |
| AuthValidation.PasswordRules | src/lib/validations/auth.ts:32-38 | at least 8 code units and the three lookaheads of the pattern; `PasswordRulesSingleLine` and `LookaheadFinds` state what it accepts |
| AuthValidation.PasswordRulesSingleLine | src/lib/validations/auth.ts:32-38 | a single-line password passes exactly when it has at least 8 code units and a lower-case letter, an upper-case letter and a digit |
| AuthValidation.FirstLineStopsAt | src/lib/validations/auth.ts:36 | the first line ends at the first line terminator |
| AuthValidation.DigitAfterLineBreakRejected | src/lib/validations/auth.ts:36 | a password whose first line has no digit fails the rule whatever follows the line break ("Abcdefgh\n1", say) |
| AuthValidation.ExamplePassword | src/lib/validations/auth.ts:32-38 | "Passw0rd" is accepted |
| AuthValidation.ExampleAstralPassword | src/lib/validations/auth.ts:34 | "Aa1" and three emoji is six characters but nine code units, so it meets the minimum length of 8 |
| AuthValidation.ValidName | src/lib/validations/auth.ts:24-27 | a name of 2 to 100 code units; `RegisterIssues` reports its failure |
| AuthValidation.RegisterIssues | src/lib/validations/auth.ts:22-44 | registration reports the name, e-mail, password and confirmation issues exactly when the name is outside 2..100 code units, the e-mail is empty or fails the e-mail check, the password fails its rule, or the confirmation is empty or differs; the refinement runs even when the field checks fail |
| AuthValidation.RegisterMismatch | src/lib/validations/auth.ts:41-44 | a differing confirmation is refused, with the issue on `confirmPassword` |
| AuthValidation.RegisterForcedConfirmation | src/app/api/auth/register/route.ts:11-14 | with the confirmation forced to the password, only the name, e-mail and password rules decide |
| AuthValidation.ResetIssues | src/lib/validations/auth.ts:63-78 | the reset issues are exactly an empty token, a password failing its rule, and an empty or differing confirmation |
| AuthValidation.ResetAccepts | src/lib/validations/auth.ts:63-78 | a reset is valid exactly for a non-empty token and a well-formed, confirmed password |
| AuthValidation.ChangePasswordIssues | src/lib/validations/auth.ts:101-116 | the issues are exactly an empty current password, a new password failing its rule, and an empty or differing confirmation |
| AuthValidation.ChangePasswordAccepts | src/lib/validations/auth.ts:101-116 | a change is valid exactly when the current password is present and the new one is well formed and confirmed |
| AuthValidation.ValidEmail | src/lib/validations/auth.ts:8-11 | a non-empty e-mail in e-mail format, shared by the login, register, forgot-password and profile schemas |
| AuthValidation.ValidLogin | src/lib/validations/auth.ts:7-15 | a valid e-mail and any non-empty password; `LoginSkipsPasswordRules` and `RegisteredCredentialsPass` state what it accepts |
| AuthValidation.LoginSkipsPasswordRules | src/lib/validations/auth.ts:7-15 | login accepts a one-character password that the password rule refuses, and refuses an empty one |
| AuthValidation.ValidProfile | src/lib/validations/auth.ts:85-94 | a name of 2 to 100 code units and a valid e-mail; `ProfileMatchesRegister` states it |
| AuthValidation.ProfileMatchesRegister | src/lib/validations/auth.ts:22-31 | the profile schema accepts a name and e-mail exactly when registration reports no issue on either |
| AuthValidation.ValidForgotPassword | src/lib/validations/auth.ts:51-56 | a valid e-mail; `ForgotPasswordRoute.ForgotPassword` answers "invalid" exactly when it fails |
| AuthValidation.ValidRegister | src/lib/validations/auth.ts:22-44 | registration is accepted exactly when `RegisterIssues` is empty |
| AuthValidation.RegisteredCredentialsPass | src/lib/validations/auth.ts:7-56 | credentials that registration accepts also pass the login, profile and forgot-password schemas |
| AuthValidation.ValidReset | src/lib/validations/auth.ts:63-78 | a reset is accepted exactly when `ResetIssues` is empty; `ResetAccepts` gives the accepted bodies |
| Db.FreshId | src/lib/services/cart.ts:61-63 | a generated id has the length of the counter, so it is longer than every stored id |
| Db.CartIdInjective | src/lib/services/cart.ts:55-67 | different users get different cart ids |
| Db.FindCart | src/lib/services/cart.ts:56-58 | the cart found belongs to the user; none is found exactly when the user has none |
| Db.CartLines | src/app/api/cart/sync/route.ts:23-25 | the lines of one cart are exactly the table's lines with that cart id |
| Db.FindLine | src/app/api/cart/sync/route.ts:29-31 | the line found is in the list and has the identity; none is found exactly when no line has it |
| Db.KeyClash | src/app/api/cart/items/route.ts:29-39 | two lines of one cart with one product and the same non-null variant, which the `(cartId, productId, variantId)` unique key forbids; `KeyClashFacts` states it |
| Db.KeyClashFacts | src/app/api/cart/items/route.ts:29-39 | the key is symmetric; a line with a null variant clashes with no line, because the unique index counts nulls as distinct; a line with a variant clashes with every line of its cart with the same product and variant |
| Db.SetQuantity | src/app/api/cart/items/route.ts:54-57 | the update rewrites the quantity of the lines with the id and leaves every other line as it was |
| Db.InsertLine | src/app/api/cart/items/route.ts:59-66 | the insert succeeds exactly when the product and the variant exist and the key is free, and then appends the line |
| Db.FindUserByEmail | src/app/api/auth/register/route.ts:26-28 | the user found has exactly that e-mail; none is found exactly when no user has it |
| Db.ClearLines | src/app/api/orders/route.ts:107-110 | the deletion keeps exactly the lines of other carts |
| Db.Consistent | src/lib/services/cart.ts:55-67 | the store's constraints: ids below the counter, one cart per user, unique line ids, the line key, links from lines to carts and products, unique users and sellers; every route keeps it |
| Db.ConsistentSerialBump | src/app/api/orders/route.ts:54-113 | advancing the id counter keeps the store's constraints |
| Db.NoCartLines | src/app/api/orders/route.ts:107-110 | a table without lines of the cart gives the cart no lines |
| Db.ClearLinesEmptiesCart | src/app/api/orders/route.ts:107-110 | after the deletion the cart has no lines |
| Db.ClearLinesPairwise | src/app/api/orders/route.ts:107-110 | the deletion keeps line ids distinct and the line key respected |
| Db.ClearLinesKeepsConsistent | src/app/api/orders/route.ts:107-110 | the deletion keeps every constraint of the store |
| Db.Database.constructor | src/lib/services/cart.ts:55-67 | the empty store is valid |
| Db.Database.NewId | src/lib/services/cart.ts:61-63 | a generated id is non-empty, fresh, and advances the counter by one |
| CartService.OrNull | src/lib/services/cart.ts:45 | `x \|\| null`: absent exactly when missing or empty, otherwise the value |
| CartService.LoadVariant | src/lib/services/cart.ts:36 | the variant of a line is loaded exactly when the line names a stored variant |
| CartService.FirstImage | src/lib/services/cart.ts:44 | the image is the first image's url, absent when there is none or it is empty |
| CartService.ToDisplay | src/lib/services/cart.ts:34-51 | a display line copies id, product and quantity; takes the product's name and seller; the variant's price when loaded and non-null, else the product's; the variant's stock when loaded, else the product's; the variant id or null |
| CartService.DisplayAll | src/lib/services/cart.ts:34-51 | one display line per stored line, in order |
| CartService.ConsSorted | src/lib/services/cart.ts:52 | a line no greater than every line of a sorted list can go in front of it |
| CartService.InsertByName | src/lib/services/cart.ts:52 | inserting into a sorted list keeps it sorted and adds exactly that line |
| CartService.SortByName | src/lib/services/cart.ts:52 | the sort is ordered by product name and a permutation of its input |
| CartService.GetUserCart | src/lib/services/cart.ts:4-53 | no cart gives []; otherwise one display line per stored line of the user's cart, as a permutation of the mapped lines, ordered by product name |
| CartService.GetUserCartPricing | src/lib/services/cart.ts:34-51 | every display line is the display of one stored line of the user's cart, and its seller is its product's seller |
| CartService.GetUserCartKeepsEveryLine | src/lib/services/cart.ts:34-52 | every stored line of the cart is displayed, inactive products included |
| CartService.EnsureCart | src/lib/services/cart.ts:55-67 | returns the user's existing cart with no table changed, or appends exactly the cart `CartIdOf(userId)` of the user to the carts; the store stays valid |
| CartService.UniqueUserFindsCart | src/lib/services/cart.ts:56-58 | with one cart per user, the lookup finds the user's only cart |
| CartService.CartAppendFind | src/lib/services/cart.ts:60-64 | a cart created for a user without one is the one found afterwards |
| CartService.EnsureCartTwice | src/lib/services/cart.ts:55-67 | two calls in a row return the same cart and create at most one |
| CartItemsRoute.Upsert | src/app/api/cart/items/route.ts:45-67 | on a match the line with the match's id gets the matched quantity plus the request; otherwise the insert of a new line with the identity and quantity |
| CartItemsRoute.UpsertKeepsConstraints | src/app/api/cart/items/route.ts:53-67 | an upsert with a fresh id on an existing cart keeps the line table's constraints |
| CartItemsRoute.UpsertInsertedKeepsConstraints | src/app/api/cart/items/route.ts:58-67 | the insert branch appends the line and keeps the constraints |
| CartItemsRoute.UpsertMatchedKeepsConstraints | src/app/api/cart/items/route.ts:53-57 | the update branch rewrites one quantity and keeps the constraints |
| CartItemsRoute.InsertKeepsConstraints | src/app/api/cart/items/route.ts:59-66 | an accepted insert of a line with a fresh id on an existing cart keeps the constraints |
| CartItemsRoute.SetQuantityKeepsConstraints | src/app/api/cart/items/route.ts:54-57 | rewriting a quantity keeps every id, key and link |
| CartItemsRoute.SetQuantityKeepsLinks | src/app/api/cart/items/route.ts:54-57 | rewriting a quantity keeps every line's links to products and carts |
| CartItemsRoute.ReplaceLines | src/app/api/cart/items/route.ts:53-67 | a new line table that keeps the line constraints keeps the store consistent |
| CartItemsRoute.AddLine | src/app/api/cart/items/route.ts:45-67 | the upsert against a fresh read of the cart's lines; `AddLineMatched` and `AddLineCreated` state its two outcomes |
| CartItemsRoute.AddLineMatched | src/app/api/cart/items/route.ts:45-57 | with a matching line, exactly that line's quantity grows by the request; the count and every other line stay |
| CartItemsRoute.FirstMatchIsFirstLine | src/app/api/cart/items/route.ts:45-51 | the first match among the cart's lines is the first matching line of the table |
| CartItemsRoute.AddLineCreated | src/app/api/cart/items/route.ts:58-67 | without a matching line exactly one new line with the request is appended and nothing else changes |
| CartItemsRoute.AppendFreshId | src/app/api/cart/items/route.ts:59-66 | appending a line with an unused id keeps line ids unique |
| CartItemsRoute.AddFirstTime | src/app/api/cart/items/route.ts:58-67 | the first add of a missing identity appends the cart's only line of it |
| CartItemsRoute.AddTwice | src/app/api/cart/items/route.ts:45-67 | adding q1 and then q2 of an identity the cart lacks leaves the old table followed by one line of that identity holding q1 + q2, and it is the cart's only line of it |
| CartItemsRoute.AddAgain | src/app/api/cart/items/route.ts:45-57 | the second add rewrites the line the first add appended to its quantity plus the new one, and leaves every other line as it was; no other line has the identity |
| CartItemsRoute.OnlyMatchIsLast | src/app/api/cart/items/route.ts:45-51 | when only the last line has the identity, every match is that line |
| CartItemsRoute.StoreLine | src/app/api/cart/items/route.ts:45-67 | one generated id, then the upsert's table when it is accepted and the old table when it is refused |
| CartItemsRoute.AddValidated | src/app/api/cart/items/route.ts:21-67 | the carts table gains the user's cart exactly when the user had none; the response is success exactly when the add is accepted, and the line table is the add's result or unchanged |
| CartItemsRoute.AddToCart | src/app/api/cart/items/route.ts:7-75 | 401 without a session and 400 for invalid input, both with no change; otherwise the user's cart is appended when missing, and the add's result is stored, with success exactly when it is accepted and 500 otherwise |
| CartSyncRoute.Merge | src/app/api/cart/sync/route.ts:28-50 | one upsert per incoming line against the fixed snapshot: at most one line added per incoming line, and an empty list changes nothing |
| CartSyncRoute.MergeKeepsLine | src/app/api/cart/sync/route.ts:28-50 | a stored line that no incoming match points at is kept as it was |
| CartSyncRoute.UnmatchedLineUnchanged | src/app/api/cart/sync/route.ts:23-50 | stored lines whose identity no incoming line has are unchanged |
| CartSyncRoute.MergeSingleMatch | src/app/api/cart/sync/route.ts:33-38 | a matching incoming line sets the stored quantity to the snapshot quantity plus its own |
| CartSyncRoute.MergeSingleNew | src/app/api/cart/sync/route.ts:39-49 | an unmatched incoming line is inserted with its quantity and a null-normalised variant |
| CartSyncRoute.MergeAddsToStored | src/app/api/cart/sync/route.ts:33-38 | three stored units and two incoming ones of one identity end at five |
| CartSyncRoute.MergeDuplicateIncomingLastWins | src/app/api/cart/sync/route.ts:23-38 | two incoming lines of one identity are both matched against the snapshot, so the second write wins: 3 + 4, not 3 + 2 + 4 |
| CartSyncRoute.MergeDuplicateNewLines | src/app/api/cart/sync/route.ts:39-49 | two incoming lines of a new product without variant both create a line, leaving two lines of one identity |
| CartSyncRoute.MergeDuplicateVariantFails | src/app/api/cart/sync/route.ts:39-49 | with a variant the key refuses the second insert and the first stays |
| CartSyncRoute.UpsertKeepsPositions | src/app/api/cart/sync/route.ts:29-49 | an upsert keeps every stored line at its position with at most its quantity changed, and only appends |
| CartSyncRoute.MergeSetsLastMatch | src/app/api/cart/sync/route.ts:28-38 | on any input list, after a successful merge a stored line matched by some incoming line, and by no later one, holds the snapshot quantity plus that incoming quantity |
| CartSyncRoute.MergeAddsLastOfIdentity | src/app/api/cart/sync/route.ts:23-38 | on any input list, after a successful merge the stored line of an incoming identity holds its stored quantity plus the quantity of the last incoming line of that identity |
| CartSyncRoute.MergeInsertsUnmatched | src/app/api/cart/sync/route.ts:39-49 | on any input list, after a successful merge every incoming line without a snapshot match is in the table as a new line with the i-th generated id, its identity and its quantity |
| CartSyncRoute.MergeUnfold | src/app/api/cart/sync/route.ts:28-50 | one turn of the loop: the upsert of the first incoming line, then the rest, or a stop on failure |
| CartSyncRoute.MergeStep | src/app/api/cart/sync/route.ts:28-50 | the turn at index i: a successful upsert leaves the rest of the list to merge from the new table, a failed one stops the merge with the table as it was |
| CartSyncRoute.MergeOne | src/app/api/cart/sync/route.ts:29-49 | one upsert against the snapshot carries the loop one line further, or stops it with the writes so far |
| CartSyncRoute.MergeLoop | src/app/api/cart/sync/route.ts:28-50 | the loop leaves the table, the counter and the success flag the merge specifies; the store stays valid |
| CartSyncRoute.Sync | src/app/api/cart/sync/route.ts:7-59 | 401 without a session and 400 without an array, both with no change; otherwise the user's cart is appended when missing, the merge applied, and the answer is the user's cart after the merge, or 500 if a write failed |
| OrderMath.Subtotal | src/app/api/orders/route.ts:41 | the `reduce` from the left over price × quantity; `SubtotalAppend`, `SubtotalPermutation` and `SubtotalNonNegative` state its properties |
| OrderMath.SubtotalAppend | src/app/api/orders/route.ts:41 | the subtotal of two lists one after the other is the sum of their subtotals |
| OrderMath.SubtotalPermutation | src/app/api/orders/route.ts:41 | the subtotal does not depend on the order of the lines |
| OrderMath.SubtotalSingle | src/app/api/orders/route.ts:41 | the subtotal of one line is its amount |
| OrderMath.SubtotalRemoveAt | src/app/api/orders/route.ts:41 | taking a line out takes its amount out of the subtotal |
| OrderMath.SplitAt | src/app/api/orders/route.ts:41 | a list is the part before an index, the element there and the part after |
| OrderMath.SubtotalSplit | src/app/api/orders/route.ts:41 | a line in the middle adds its amount to the subtotal of the rest |
| OrderMath.SubtotalNonNegative | src/app/api/orders/route.ts:41 | with no negative price or quantity the subtotal is not negative |
| OrderMath.Shipping | src/app/api/orders/route.ts:44 | free from a subtotal of 50, else 5.90; `OrderTotalsBounds` states the consequences |
| OrderMath.OrderTotals | src/app/api/orders/route.ts:41-51 | subtotal, shipping, tax at 20 % of the subtotal, and total = subtotal + shipping; `OrderTotalsBounds` states the bounds |
| OrderMath.OrderTotalsBounds | src/app/api/orders/route.ts:41-51 | the total is the subtotal plus at most 5.90, nothing on top exactly from 50 on, and the tax is 20 % of the subtotal and not added |
| OrderMath.OrderLine | src/app/api/orders/route.ts:69-80 | the frozen copy of a cart line with the 0.10 rate and its commission; `OrderLinesSums` states what the lines copy and sum to |
| OrderMath.OrderLines | src/app/api/orders/route.ts:69-80 | one order line per cart line, in order |
| OrderMath.OrderLinesSums | src/app/api/orders/route.ts:69-80 | the order lines sum to the subtotal and their commissions to 10 % of it; each copies product, variant, names, price, quantity and seller and carries the 0.10 rate |
| OrderMath.FirstShort | src/app/api/orders/route.ts:31-38 | the first line asking for more than its stock; none exactly when every line is within its stock |
| OrderMath.CounterOf | src/app/api/orders/route.ts:87 | a line with a non-empty variant id decrements that variant, any other its product; `CartStocksMatch` ties it to the shown stock |
| OrderMath.Decrement | src/app/api/orders/route.ts:86-103 | a decrement fails exactly when its row is missing; otherwise it lowers that one counter by the quantity and changes nothing else |
| OrderMath.DecrementAll | src/app/api/orders/route.ts:86-103 | the decrements in line order, stopping at the first missing row; `DecrementAllSucceeds`, `DecrementAllRows` and `DecrementAllAt` state its outcome |
| OrderMath.DecrementAllSucceeds | src/app/api/orders/route.ts:86-103 | the decrement loop succeeds exactly when every line's counter exists |
| OrderMath.SameRowsTransitive | src/app/api/orders/route.ts:86-103 | stock-only changes compose |
| OrderMath.DecrementAllRows | src/app/api/orders/route.ts:86-103 | the decrements change no row in anything but its stock |
| OrderMath.DecrementAllAt | src/app/api/orders/route.ts:86-103 | each counter ends lowered by the total quantity its lines take |
| OrderMath.QtyForDistinct | src/app/api/orders/route.ts:86-103 | with distinct counters a counter loses the quantity of its one line, or nothing |
| OrderMath.CheckoutKeepsStockNonNegative | src/app/api/orders/route.ts:31-103 | with distinct counters, each line within its own counter's stock, and no negative stock before, no stock is negative after |
| OrderMath.CartStocksMatch | src/lib/services/cart.ts:49 | a cart line's shown stock is the counter checkout decrements for it |
| OrderMath.DistinctCountersFromIdentities | src/app/api/orders/route.ts:87 | lines of distinct identities whose variants belong to their products decrement distinct counters |
| OrderMath.DuplicateLinesOversell | src/app/api/orders/route.ts:31-103 | two lines of one product without variant each pass the stock check against a stock of 5 and together take it to -1 |
| OrdersRoute.NewOrder | src/app/api/orders/route.ts:56-83 | the row `order.create` inserts; `PlacedOrder` states its fields |
| OrdersRoute.PlacedOrder | src/app/api/orders/route.ts:56-83 | the order is pending in both statuses, with the shipping address, billing equal to shipping unless `useSameAddress` is false, one line per cart line summing to the subtotal, 10 % commission, and total = subtotal + shipping |
| OrdersRoute.FindShort | src/app/api/orders/route.ts:31-38 | the loop finds the first line over its stock |
| OrdersRoute.ApplyDecrements | src/app/api/orders/route.ts:86-103 | the loop decrements the variant of a line with one, else the product, and fails on a missing row, as the decrement function says |
| OrdersRoute.StockOnlyKeepsConsistent | src/app/api/orders/route.ts:86-103 | changing stock values only keeps the store consistent |
| OrdersRoute.TransactKeepsConsistent | src/app/api/orders/route.ts:54-113 | the committed transaction keeps the store consistent |
| OrdersRoute.Transact | src/app/api/orders/route.ts:54-113 | all or nothing: a failed decrement changes no table; otherwise one order appended, the stocks decremented and the buyer's cart emptied |
| OrdersRoute.Checkout | src/app/api/orders/route.ts:7-121 | 401, 400 for invalid input, 400 for an empty cart and 409 with the first short line's product all change nothing; otherwise the transaction's result |
| OrdersRoute.PlacedEmptiesCart | src/app/api/orders/route.ts:107-110 | after a placed order the buyer's cart has no lines |
| OrdersRoute.CheckoutNeverOversells | src/app/api/orders/route.ts:31-103 | with distinct line identities and variants of their own products, a checkout past the stock check leaves no stock negative |
| PaymentIntentRoute.AmountCents | src/app/api/create-payment-intent/route.ts:24-26 | `Math.round((subtotal + shipping) * 100)`; `AmountMatchesCheckout` and `WholeCentsAmountExact` relate it to the checkout total |
| PaymentIntentRoute.CreatePaymentIntent | src/app/api/create-payment-intent/route.ts:13-26 | 401 exactly without a session, 400 exactly for an empty cart, else the amount |
| PaymentIntentRoute.AmountMatchesCheckout | src/app/api/create-payment-intent/route.ts:24-26 | the amount is the total of the order checkout would place for the same cart, in cents, rounded |
| PaymentIntentRoute.SubtotalInCents | src/app/api/create-payment-intent/route.ts:24 | with prices in whole cents the subtotal in cents is whole |
| PaymentIntentRoute.WholeCentsAmountExact | src/app/api/create-payment-intent/route.ts:24-26 | with prices in whole cents no rounding occurs: the amount is exactly 100 times the checkout total |
| CartStore.FindItem | src/lib/store/use-cart.ts:24-26 | the index of the first item with the identity; none exactly when no item has it |
| CartStore.AddToId | src/lib/store/use-cart.ts:56-60 | items with the id get their quantity increased, the others stay |
| CartStore.LocalId | src/lib/store/use-cart.ts:63 | `local-${Date.now()}`: "local-" followed by decimal digits whose value is the clock reading |
| CartStore.LocalIdInjective | src/lib/store/use-cart.ts:63 | lines added at different milliseconds get different local ids, and lines added at the same one get the same id |
| CartStore.Added | src/lib/store/use-cart.ts:22-64 | the list `addItem` leaves; `AddedMatched`, `AddedAppended` and `AddedKeepsUnique` state it |
| CartStore.AddedMatched | src/lib/store/use-cart.ts:24-61 | adding a present identity adds the new quantity to that item only, keeping the length |
| CartStore.AddedAppended | src/lib/store/use-cart.ts:62-64 | adding a missing identity appends the item at the end with its id, or a `local-` id when its id is empty |
| CartStore.AddedKeepsUnique | src/lib/store/use-cart.ts:22-64 | adding keeps at most one item per identity |
| CartStore.WithoutId | src/lib/store/use-cart.ts:72 | the filter keeps exactly the items with another id |
| CartStore.WithoutIdAppend | src/lib/store/use-cart.ts:72 | removing works piece by piece, so the items kept stay in order |
| CartStore.WithoutAbsentId | src/lib/store/use-cart.ts:72 | removing an id no item has changes nothing |
| CartStore.WithoutIdKeepsUnique | src/lib/store/use-cart.ts:72 | removing keeps at most one item per identity |
| CartStore.WithQuantity | src/lib/store/use-cart.ts:76 | items with the id get the quantity as given, the others stay |
| CartStore.WithQuantityKeepsUnique | src/lib/store/use-cart.ts:76 | setting a quantity keeps identities unique and stores the quantity without clamping |
| CartStore.Store.constructor | src/lib/store/use-cart.ts:19-20 | the store starts empty and not loading |
| CartStore.Store.AddItem | src/lib/store/use-cart.ts:22-64 | `addItem` leaves the added list and keeps at most one item per identity |
| CartStore.Store.RemoveItem | src/lib/store/use-cart.ts:71-73 | `removeItem` leaves the filtered list and keeps identities unique |
| CartStore.Store.UpdateQuantity | src/lib/store/use-cart.ts:75-77 | `updateQuantity` leaves the updated list and keeps identities unique |
| CartStore.Store.ClearCart | src/lib/store/use-cart.ts:79 | `clearCart` leaves no items |
| CartStore.Store.SyncWithUser | src/lib/store/use-cart.ts:81-103 | sends the local items; on an ok response takes the server's list, empty when absent, otherwise keeps the local one; not loading at the end |
| ProductActions.FindSellerOf | src/lib/actions/product.ts:15-17 | the profile found belongs to the user; none exactly when the user has none |
| ProductActions.GetSeller | src/lib/actions/product.ts:10-22 | Unauthorized exactly without a session, Forbidden exactly for a user without profile who is not an administrator, otherwise the profile, absent only for an administrator |
| ProductActions.StoredPrice | src/lib/actions/product.ts:60 | a missing or zero variant price is stored as null, any other price as given |
| ProductActions.StoredImages | src/lib/actions/product.ts:50-56 | the images are stored in submitted order with their url and alt text |
| ProductActions.StoredVariant | src/lib/actions/product.ts:58-62 | a submitted variant as stored: its name, its price or null, its stock; `AddVariantsStores` states where it goes |
| ProductActions.AddVariants | src/lib/actions/product.ts:128-135 | the insert keeps every stored variant and adds only rows under fresh ids |
| ProductActions.AddVariantsStores | src/lib/actions/product.ts:57-63 | the i-th submitted variant is stored under the i-th generated id |
| ProductActions.RemoveVariantsOf | src/lib/actions/product.ts:127 | the deletion keeps exactly the variants of other products |
| ProductActions.WithVariantsKeepsConsistent | src/lib/actions/product.ts:57-63 | storing variants under fresh ids keeps the store consistent |
| ProductActions.WithVariants | src/lib/actions/product.ts:57-63 | the variants insert when a list is given, else no change; `WithVariantsKeepsConsistent` states it keeps the store consistent |
| ProductActions.NewProduct | src/lib/actions/product.ts:35-56 | the row `product.create` stores, with the slug, the seller and the images in order; `CreateProduct` states the outcome |
| ProductActions.InsertProductKeepsConsistent | src/lib/actions/product.ts:35-65 | inserting a product under a fresh id, then its variants, keeps the store consistent |
| ProductActions.ReplaceProductKeepsConsistent | src/lib/actions/product.ts:88-137 | rewriting a product and replacing its variants keeps the store consistent |
| ProductActions.InsertKeepsUniqueSlugs | src/lib/actions/product.ts:35-38 | a product under a new id with an unused slug keeps slugs unique |
| ProductActions.InsertProduct | src/lib/actions/product.ts:35-65 | the product is stored under a fresh id and its variants after it; nothing else changes |
| ProductActions.CreateProduct | src/lib/actions/product.ts:24-69 | the seller check, the input check, the slug check in source order, each changing nothing; otherwise one product with the slug and the seller, and its variants; slugs stay unique |
| ProductActions.UpdatedProduct | src/lib/actions/product.ts:90-113 | the product after `product.update`; `UpdatedProductKeepsIdentity` states what it keeps and replaces |
| ProductActions.UpdatedProductKeepsIdentity | src/lib/actions/product.ts:90-113 | an update keeps slug and seller and replaces the images by the submitted ones in order |
| ProductActions.ReplaceProduct | src/lib/actions/product.ts:88-137 | the product is rewritten; its variants are replaced only when a list is given |
| ProductActions.UpdateProduct | src/lib/actions/product.ts:71-141 | the seller check, the input check, a missing product, and a non-owner all change nothing; otherwise the product fields and images are rewritten and the variants replaced only when given |
| ProductActions.DeleteProduct | src/lib/actions/product.ts:143-157 | Forbidden for a missing product or another seller's, with no change; otherwise the row stays and only its status becomes ARCHIVED |
| SellerActions.ValidSellerInput | src/lib/actions/seller.ts:10 | a store name of at least 3 code units; `RegisterSeller` refuses anything else |
| SellerActions.NewSeller | src/lib/actions/seller.ts:40-47 | the profile the transaction inserts, with the store name's slug; `RegisteredSellerAuthorised` states the product actions find it |
| SellerActions.FindSellerBySlug | src/lib/actions/seller.ts:33 | the profile found has the slug; none exactly when no profile has it |
| SellerActions.WithRole | src/lib/actions/seller.ts:48-51 | the user with the id gets the role and every other user stays |
| SellerActions.WithRoleKeepsUnique | src/lib/actions/seller.ts:48-51 | changing a role keeps user ids and e-mails unique |
| SellerActions.RegisterKeepsConsistent | src/lib/actions/seller.ts:38-52 | the committed registration keeps the store consistent |
| SellerActions.RegisterSeller | src/lib/actions/seller.ts:16-52 | no session, a name shorter than 3 code units, a taken slug, or a failed transaction change nothing; otherwise one profile with the slug and the user, and the user becomes SELLER, both together |
| SellerActions.RegisteredSellerAuthorised | src/lib/actions/seller.ts:38-52 | after registration the product actions find the new profile for the user |
| SellerActions.FoundLast | src/lib/actions/seller.ts:40-47 | the lookup reaches an appended profile when no earlier one is the user's |
| RegisterRoute.Forced | src/app/api/auth/register/route.ts:11-14 | the body with the confirmation forced to the password; `AuthValidation.RegisterForcedConfirmation` states its effect |
| RegisterRoute.NewUser | src/app/api/auth/register/route.ts:41-47 | the BUYER row `user.create` stores under the lower-cased e-mail; `Register` states the outcome |
| RegisterRoute.AddUserKeepsConsistent | src/app/api/auth/register/route.ts:41-47 | a user with a fresh id and an unused e-mail keeps the store consistent |
| RegisterRoute.Register | src/app/api/auth/register/route.ts:6-71 | 400 for invalid input and 409 for a stored lower-cased e-mail, with no change; otherwise one BUYER with the lower-cased e-mail, and a response without the password hash |
| RegisterRoute.EmailTakenIgnoresCase | src/app/api/auth/register/route.ts:26-35 | with stored e-mails lower-cased, an address is refused exactly when a stored one equals it up to case |
| RegisterRoute.RegisterTwiceRefused | src/app/api/auth/register/route.ts:26-47 | two spellings of one address differing in case cannot both be registered |
| ForgotPasswordRoute.IssuedToken | src/app/api/auth/forgot-password/route.ts:33-42 | the token is stored under the lower-cased e-mail and expires an hour after now |
| ForgotPasswordRoute.IssueKeepsKeys | src/app/api/auth/forgot-password/route.ts:36-42 | an insert with a new key keeps the token keys unique |
| ForgotPasswordRoute.ForgotPassword | src/app/api/auth/forgot-password/route.ts:6-61 | 400 for an invalid e-mail and the same 200 for an unknown or a known account; only a known account gets exactly one stored token |
| ResetPasswordRoute.FirstLiveToken | src/app/api/auth/reset-password/route.ts:21-27 | the first row with the token and an expiry strictly after now; none exactly when no such row exists |
| ResetPasswordRoute.WithHash | src/app/api/auth/reset-password/route.ts:39-42 | only the hash of the user with the e-mail changes |
| ResetPasswordRoute.WithoutToken | src/app/api/auth/reset-password/route.ts:45-52 | the deletion keeps exactly the rows with another key |
| ResetPasswordRoute.WithHashKeepsConsistent | src/app/api/auth/reset-password/route.ts:39-42 | setting a hash keeps the store consistent |
| ResetPasswordRoute.WithoutTokenKeepsKeys | src/app/api/auth/reset-password/route.ts:45-52 | the deletion keeps the token keys unique |
| ResetPasswordRoute.ResetPassword | src/app/api/auth/reset-password/route.ts:6-65 | 400 for invalid input or no live token, with no change; otherwise the token's account gets the new hash and the token is deleted |
| ResetPasswordRoute.Consume | src/app/api/auth/reset-password/route.ts:39-52 | the writes of a reset: the new hash for the token's account, then the token's deletion |
| ResetPasswordRoute.SecondResetRejected | src/app/api/auth/reset-password/route.ts:45-52 | after a reset consumed a token, a second reset with it is refused at any time |
| ResetPasswordRoute.IssuedTokenLifetime | src/app/api/auth/forgot-password/route.ts:34-42 | an issued token is accepted by a reset exactly while less than an hour has passed |

## Left out

- zod's `.email()`, `.url()` and `.datetime()` checks: these are the parameters `isEmail`, `isUrl` and `isDatetime`.
- `z.coerce` and JSON parsing: bodies arrive as already typed records. A failing `request.json()` and the routes' 500 catch-all for it are not modelled.
- `undefined` and `null`: both become `None`.
- `updateOrderStatusSchema`: no route in the modelled core uses it.
- The Intl formatters and `generateOrderNumber`: they depend on locale tables, the clock and `Math.random`. Checkout generates no order number, so the `orderNumber` of its response is not modelled.
- IEEE-754 floating point: money is exact `real`.
- Generated ids: cuids are replaced by the counter `FreshId(serial)`. A product's category is a bare id with no foreign key, and `createdAt` columns are not modelled.
- The sellers' names on display lines and order lines are not modelled.
- Concurrency and isolation: each transaction is one atomic step, and races between requests are out of scope.
- `bcrypt.hash`: the hash is the parameter `passwordHash`.
- `crypto.randomBytes`: the token is the parameter `token`.
- `Date.now()` and `new Date()`: the clock is the parameter `now`.
- The reset link's `console.log`, `revalidatePath`, `redirect` and every `console.error`.
- Stripe's `paymentIntents.create`: the route's result is the amount the intent would be created with.
- `fetch` in `syncWithUser`: its outcome is the parameter `SyncOutcome`. localStorage persistence and rehydration of the store are not modelled.
- The unused `findUnique` lookups in src/lib/actions/seller.ts:25-27 and src/app/api/cart/items/route.ts:27-42 read the store and write nothing, so they are not modelled.
- The Prisma schema file is not part of this model. The constraints in `Db.Consistent` (unique cart per user, the line key that does not apply to a null variant, unique e-mail, seller slug and owner, the token key) come from how the code relies on them.
- Cart ids: `Db.CartIdOf` derives a user's cart id from the user id.
- OrdersRoute.Transact: it clears the lines of the cart id `CartIdOf(userId)` rather than the id `getUserCart` found, which is the same cart when carts are created with that id.
- `localeCompare` is the lexicographic order `Text.StrLe`, and `toLowerCase` is ASCII-only case mapping.
- OrdersRoute.CheckoutNeverOversells: it also requires that every variant a line names belongs to the line's product. The database does not enforce this for cart lines, and `OrderMath.DuplicateLinesOversell` shows the oversell that duplicate identities allow.
- ResetPasswordRoute.SecondResetRejected: it is stated for a token string that no other row carries; the 64-hex-digit random token makes a repeat unlikely but nothing prevents one.
- ResetPasswordRoute.IssuedTokenLifetime: it is stated under the same uniqueness assumption on the token string.
- ResetPasswordRoute.ResetPassword: the update and the delete are separate writes, not one transaction as in checkout. A delete cannot fail once the token row was found, so the model has no half-done reset.
- Order status names: `OrderStatus.PENDING` and `PaymentStatus.PENDING` are qualified because the two enumerations share the name.
- Formatters.Utf16Slice: a Dafny `char` is a whole Unicode scalar value, so a string cannot hold a lone surrogate. When `slice(0, length)` ends between the two code units of one character, JavaScript keeps the high surrogate alone; the model drops that character. `Formatters.Truncate` inherits this, and equals JavaScript's result whenever the cut does not split a character.
- ProductActions.ReplaceProduct, ProductActions.UpdateProduct: `productVariant.deleteMany` removes the product's variants, and what happens to cart lines naming them depends on the relation's referential action in the Prisma schema, which is not part of this model. The model leaves such lines in place with their stale variant id (Prisma's default for an optional relation is to set it to null). Such a line is then priced from the product by `getUserCart`, and its decrement fails at checkout, which rolls back.
- CartItemsRoute.AddToCart, CartSyncRoute.Sync, OrdersRoute.Checkout: quantities and stocks are unbounded integers. The database's `Int` columns are signed 32-bit, and a write outside that range fails (a 500 through the routes' catch-alls); the model accepts such writes.
