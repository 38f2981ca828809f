# A verified model of the Adidas storefront core

This project is a Dafny model of the core of a PHP/MySQL clothing shop. It
covers:

- the session shopping cart and its helper functions;
- the cart page, which dispatches an action and reconciles the cart with the
  catalogue;
- the checkout transaction, which writes the order, its lines and the new
  stock levels, or rolls back;
- the search page: its inputs, the parameterised query, the ordering, and
  the pagination arithmetic and navigation;
- the password-reset page: the token check, the validation chain, the
  update, and the client-side strength meter;
- the profile page's update action and its password-change checks;
- the admin pages for categories and products (add, edit, delete);
- the chatbot's keyword classifier, its captures, its reply and the log.

Conventions:

- Money is an integer number of minor units.
- Strings are `seq<char>` with one character per byte.
- PHP's `empty()` on a string is `PhpText.Empty` (`""` or `"0"`).
- The session is a class `SessionCart.Session` whose `cart` field the cart
  functions reassign.
- The database is a class `Store.Database` whose tables are fields. Every
  write method states its new state through `Database.State()`.
- A storage failure is a `Storage.Fault` input naming which statement, in
  execution order, throws and with what message.
- Functions the model cannot see are parameters:
  - `sanitize`, `password_hash` and `password_verify`;
  - `number_format`;
  - `getProductSuggestions`;
  - the result of `uploadImage`.
- SQL statements whose shape the code builds at run time (search, product
  edit) are token lists. `Holes` counts their `?` placeholders, and the
  contracts tie that count to the bound parameter list.

## Model

| member | source | states |
|---|---|---|
| PhpText.SlugShape | admin/categories.php:20 | the slug has the name's length, spaces become `-`, other characters are lower-cased, and no space or capital letter remains |
| PhpText.SlugIdempotent | admin/products.php:20 | slugging a slug changes nothing |
| Catalog.Lookup | includes/functions.php:108-112 | a product found by id is a row of the table with that id |
| Catalog.LookupFinds | includes/functions.php:108-112 | the lookup by id succeeds exactly when some row has that id |
| Catalog.LookupUnique | includes/functions.php:108-112 | with unique ids, looking up a row's id returns that row |
| Catalog.SelectInRows | cart.php:42-51 | `WHERE id IN (...)` returns exactly the table rows whose id is in the cart, never more rows than the table |
| Catalog.SetStockEffect | checkout.php:97-98 | the stock update keeps the id set and id uniqueness, changes only the stock of the row with that id, and leaves every other lookup alone |
| Cart.AddEntry | includes/functions.php:67-77 | an absent id gets exactly the quantity (even zero or negative); a present one grows by it; other entries are untouched |
| Cart.AddTwice | includes/functions.php:67-77 | two adds to an absent id sum their quantities |
| Cart.ItemCountAfterAdd | includes/functions.php:59-77 | the item badge grows by exactly the quantity added |
| Cart.RemoveEntry | includes/functions.php:80-84 | the id is gone afterwards; removing an absent id changes nothing; other entries are untouched |
| Cart.ItemCountAfterRemove | includes/functions.php:80-84 | the badge drops by the removed entry's quantity |
| Cart.UpdateEntry | includes/functions.php:87-93 | a quantity of zero or less is exactly a removal; a positive one sets the entry; other entries are untouched |
| Cart.ItemCountAfterUpdate | includes/functions.php:87-93 | the badge counts the new quantity in place of the old |
| Cart.UpdateKeepsPositive | includes/functions.php:80-93 | update and remove preserve "every quantity is positive" |
| Cart.AddBreaksPositive | includes/functions.php:67-77 | add does not preserve it: adding 0, or a negative amount, leaves a non-positive quantity |
| Cart.EmptyCartSums | includes/functions.php:59-64 | an empty cart counts 0 items and totals 0 |
| Cart.MissingProductsAddNothing | includes/functions.php:107-115 | an entry whose product row is missing contributes nothing to the total |
| Cart.TotalSnoc | includes/functions.php:101-118 | a new product row with a fresh id adds its own line to the total and nothing else |
| SessionCart.Session.ItemsCount | includes/functions.php:59-64 | a missing or empty cart counts 0 items |
| SessionCart.Session.AddToCart | includes/functions.php:67-77 | the session cart becomes the cart-add of the old one, and the badge grows by the quantity |
| SessionCart.Session.RemoveFromCart | includes/functions.php:80-84 | the cart becomes the removal of the id, and a missing cart stays missing |
| SessionCart.Session.UpdateCartQuantity | includes/functions.php:87-93 | the cart becomes the update; a positive quantity leaves the id present and positive |
| SessionCart.Session.ClearCart | includes/functions.php:96-98 | the cart is set to the empty array |
| SessionCart.Session.CartTotal | includes/functions.php:101-118 | the loop over the cart computes the total: each found product's price times its quantity, summed |
| Reconcile.Rows | cart.php:45-51 | the fetched rows are exactly the catalogue rows whose id is in the cart |
| Reconcile.ReconcileCart | cart.php:53-62 | the loop builds the line items of the fetched rows, and its running total is their subtotal sum; with unique ids that is the cart total |
| Reconcile.ReconciledTotal | cart.php:53-62 | with unique ids, the page's summed subtotals equal the cart total of the helper functions |
| Reconcile.ReconciledLines | cart.php:53-62 | with unique ids, a cart id has a line exactly when its product exists, and every line is that product's price times the cart quantity |
| Reconcile.NothingResolves | checkout.php:37-46 | a cart none of whose products exists gives no lines and a total of 0 |
| CartPage.HandleCart | cart.php:9-66 | the cart after the request is the action's effect on the old cart; the view has the action's message, and either the reconciled lines and total or the read error |
| CartPage.UpdateWithoutQuantityRemoves | cart.php:18-21 | an update without a quantity field uses 0 and so removes the product |
| CartPage.RemoveAndClearActions | cart.php:24-32 | remove deletes the posted id (0 when missing); clear empties the cart |
| CartPage.OtherRequestsKeepCart | cart.php:14-34 | a GET, a POST without an action, or an unknown action changes nothing and sets no message |
| Checkout.PlaceOrder | checkout.php:13-116 | an empty cart redirects with no write; a GET or a missing field shows the page with no write; otherwise either the order, its lines and the new stock are written, the order id advances and nothing else changes, and the cart is cleared, or nothing is written and the error is shown, with the cart already cleared only when the commit itself fails |
| Checkout.Transaction | checkout.php:64-114 | it fails exactly when a statement up to the commit throws; success appends the order and its lines, applies the stock updates and advances the order id, and changes nothing else; failure restores every table |
| Checkout.WriteLines | checkout.php:87-99 | the loop writes only order lines and stock: one line and one stock update per item in order, and fails exactly when one of its statements throws |
| Checkout.StockAfterKeepsKeys | checkout.php:87-99 | the stock updates keep the set of product ids and their uniqueness |
| Checkout.StockAfterLookup | checkout.php:96-98 | after the updates a product's stock is its read stock minus its line's quantity, and products without a line are untouched |
| Checkout.CheckoutStock | checkout.php:96-98 | after a checkout, each cart product's stock is its old stock minus the cart quantity; every other product is untouched |
| Checkout.NegativeStockPossible | checkout.php:96-98 | nothing checks stock: one item in stock and three in the cart leave stock -2 |
| Checkout.OrderTotalMatchesLines | checkout.php:37-93 | the order's total amount equals the sum of its lines' price times quantity |
| Checkout.EmptyOrderPossible | checkout.php:25-49 | when the read fails or no cart product exists, the order that would be placed has no lines and a total of 0 |
| Search.Inputs | search.php:8-11 | the defaults: empty query, category 0, sort `relevance`, page 1; present fields are sanitized or converted |
| Search.BuildSearch | search.php:19-75 | the parameters are the filters' then the ordering's; both statements have one placeholder per parameter; the page query ends with the offset of the page |
| Search.OrderBy | search.php:41-64 | relevance ordering with a query binds the prefix and the contains pattern; every other case binds nothing; the placeholders match |
| Search.SortParams | search.php:28-64 | a fixed sort binds only the filters; relevance adds the two patterns exactly when there is a query |
| Search.EmptyQueryBindsOnlyCategory | search.php:28-38 | without a query the only parameter is the category, and only when it is non-zero |
| Search.TotalPages | search.php:71 | the ceiling of count / 12: enough pages for every row and no empty last page; 0 exactly when there are no rows |
| Search.Offset | search.php:74 | from page 1 on, the offset is a non-negative multiple of 12 that starts page `page`; below page 1 it is negative |
| Search.PageInRangeStartsAtARow | search.php:71-74 | a page from 1 to the last one starts at an existing row |
| Search.PageBeyondLastIsEmpty | search.php:71-74 | a page past the last one starts past every row |
| Search.PageRows | search.php:74-84 | the page shows at most 12 products, and some only when its offset lies inside the matching rows; below page 1 the rejected statement shows none |
| Search.PageHasRows | search.php:71-84 | a page shows products exactly when its number is between 1 and the last page |
| Search.Pagination | search.php:179-255 | a navigation exists exactly when the product list is not empty and there is more than one page; previous exactly when page > 1, next exactly when page < last; one link per page, and only the requested page is marked |
| Search.OutOfRangePageHasNoNavigation | search.php:179-255 | a page outside 1..last shows no products and therefore no navigation |
| Search.ShownNavigationMarksPage | search.php:229-251 | whenever a navigation is shown, the page is in range and is the one link marked current; "previous" is missing only on page 1 and "next" only on the last page |
| ResetPassword.CheckNewPassword | reset-password.php:36-41 | each message holds exactly under its own condition in chain order, and the password is accepted exactly when both fields are filled and equal with at least 8 bytes |
| ResetPassword.ResetUsers | reset-password.php:46-51 | rows holding the token get the new hash and lose token and expiry; all other rows are untouched |
| ResetPassword.HandleReset | reset-password.php:5-67 | the token is accepted exactly when it is non-empty, the query runs, and an unexpired row holds it; the table changes only for an accepted POST that passes the checks and whose update runs; each failure has its own message |
| ResetPassword.ResetLinkIsSingleUse | reset-password.php:13-51 | after a reset no row holds the token, so the link is refused at any later time |
| ResetPassword.ResetChangesOnlyTokenRows | reset-password.php:46-51 | a row changes only if it held the request's token, and then gets the hash of the new password and no token |
| ResetPassword.CheckPasswordStrength | reset-password.php:165-181 | the strength is the number of criteria met (length, digit, letter, other character), 0 to 4 |
| ResetPassword.CriteriaCount | reset-password.php:165-181 | the four criteria are distinct, so the count is the number that hold |
| ResetPassword.StrengthColour | reset-password.php:183-191 | green exactly at 4, orange exactly at 2 or 3, red below 2 |
| ResetPassword.ConfirmColour | reset-password.php:193-196 | green exactly when the fields are equal, red otherwise |
| ResetPassword.GreenPasswordIsAccepted | reset-password.php:36-41 | a password the meter shows green passes the server's checks once confirmed |
| ResetPassword.AcceptedButOrange | reset-password.php:165-191 | the two disagree the other way: `abcdefgh` passes the server but meets only 2 criteria |
| Profile.FindAccount | profile.php:18-20 | the row found has the user's id; none is found only when no row has it |
| Profile.ReadError | profile.php:16-35 | a failure of either read at the top of the page, and only that, leaves its "Error fetching user data" message |
| Profile.PasswordCheck | profile.php:48-63 | each of the four messages holds exactly under its own condition in chain order; the change passes exactly when the current password verifies and the new one is non-empty, confirmed and at least 8 bytes |
| Profile.UpdateAccount | profile.php:65-81 | only the user's row changes: names and email, and the password only in the shape that sets it |
| Profile.UpdateProfile | profile.php:16-97 | other requests change nothing and show only a read failure; a failed check or a failed update writes nothing and shows its message; a successful update writes the row, renames the session user and reports success, with the error of a read before it or of the refresh after it |
| Profile.FailedReadRefusesPasswordChange | profile.php:17-51 | when the first read throws, every password change is refused as "Current password is incorrect" and nothing is written |
| Profile.ProfileTouchesOwnRow | profile.php:65-81 | no other user's row changes, and a password changes only to the hash of the new password when the current field is filled |
| Profile.PasswordChangeNeedsProof | profile.php:17-72 | a changed password implies the user's own row, a successful first read, a verified current password, and a confirmed new one of at least 8 bytes |
| Profile.EmptyCurrentKeepsPasswords | profile.php:16-81 | with the current field empty no password changes, and the only possible error is a storage failure, raw or as a read error |
| AdminCategories.ParentOf | admin/categories.php:22 | no parent exactly when the field is `""` or `"0"`; otherwise its integer |
| AdminCategories.EditRows | admin/categories.php:43-48 | the row with the id gets the new name, description and parent; slug and id are kept; other rows are untouched |
| AdminCategories.Reparent | admin/categories.php:59-60 | exactly the children of the id lose their parent |
| AdminCategories.RemoveId | admin/categories.php:63-64 | the rows left are exactly those with another id |
| AdminCategories.RemoveIdKeepsKeys | admin/categories.php:63-64 | deleting keeps category ids unique |
| AdminCategories.AddCategory | admin/categories.php:18-34 | success appends a row with the next id, the sanitized name, its slug and the normalised parent; failure writes nothing; each has its message |
| AdminCategories.EditCategory | admin/categories.php:36-53 | success rewrites the one row; failure writes nothing; each has its message |
| AdminCategories.DeleteCategory | admin/categories.php:55-69 | success detaches the children and removes the row; if the second statement throws, the children stay detached from a category that still exists |
| AdminCategories.DeleteLeavesNoReference | admin/categories.php:59-64 | after a delete no category has the deleted id, or names it as parent |
| AdminCategories.DeleteKeepsOthers | admin/categories.php:59-64 | every other row survives, a former child changed only in its parent, and no row appears that was not there |
| AdminProducts.EditedImage | admin/products.php:57-63 | the edit sets an image exactly when the upload stored a truthy path |
| AdminProducts.EditRows | admin/products.php:66-71 | the row with the id gets the five form columns and the image if one is given; slug and id are kept; other rows are untouched |
| AdminProducts.DeleteRows | admin/products.php:81-82 | the rows left are exactly those with another id |
| AdminProducts.DeleteRowsKeepsKeys | admin/products.php:81-82 | deleting keeps product ids unique |
| AdminProducts.AddProduct | admin/products.php:18-42 | success appends a row with the next id, the sanitized name and description, the slug of that name, and the stored image or `''`; failure writes nothing; each has its message |
| AdminProducts.EditStatement | admin/products.php:53-70 | the statement has one placeholder per parameter: six without an image, seven with one |
| AdminProducts.EditProduct | admin/products.php:44-76 | success rewrites the one row with the sanitized form as the edit says; failure writes nothing; each has its message |
| AdminProducts.DeleteProduct | admin/products.php:78-87 | success removes the rows with the id; failure writes nothing; each has its message |
| AdminProducts.EditKeepsSlugAndImage | admin/products.php:57-71 | an edit never changes an id or a slug, and changes an image only to a truthy stored path |
| Chatbot.Classify | chatbot/chatbot.php:53-174 | the reply group is the first, in source order, one of whose keywords occurs in the message; the fallback exactly when none occurs |
| Chatbot.SkipSpace | chatbot/chatbot.php:148-151 | the `\s*` of a capture skips exactly the maximal run of white space |
| Chatbot.RunEnd | chatbot/chatbot.php:148-151 | a capture group is a maximal run of its character class |
| Chatbot.CaptureFrom | chatbot/chatbot.php:148-151 | a capture from a position exists exactly when the pattern matches at or after it, and is the group of the leftmost such match |
| Chatbot.Capture | chatbot/chatbot.php:148-151 | a capture exists exactly when the pattern matches somewhere, is the group of the leftmost match, and is a non-empty run of its class after the tag |
| Chatbot.RecommendMessage | chatbot/chatbot.php:153-158 | the incomplete-information sentence exactly when weight, height or sport is missing |
| Chatbot.ProductMessage | chatbot/chatbot.php:68-71 | the loop gives the header followed by one line per suggested product |
| Chatbot.HandleMessage | chatbot/chatbot.php:9-181 | an empty message gets the error reply and is not logged; any other gets the reply of its group and one log entry, unless the insert fails |
| Chatbot.ShippingIsGreeting | chatbot/chatbot.php:55-95 | "hi" occurs in "shipping", so a shipping question gets the greeting |
| Chatbot.ClothingNeverBySize | chatbot/chatbot.php:97-144 | the clothing group is never chosen by "size", which the size group takes first |
| Chatbot.DetailedRecommendationUnreachable | chatbot/chatbot.php:137-158 | a message in the recommendation group never holds "sport:", so its reply always asks for complete information |
| Chatbot.ProductsAreListed | chatbot/chatbot.php:68-71 | every suggested product's line occurs in the message |

## Left out

- `intval` and `floatval` are not modelled: the request types carry the integers they produce. A price is an integer number of minor units, not a float.
- `sanitize`, `password_hash`, `password_verify`, `number_format` and `getProductSuggestions` are parameters. Only their results flow through the model, not what they compute. The `LIMIT 3` of the suggestion query belongs to that parameter.
- `uploadImage` is not modelled: its outcome (no file, refused, stored path) is an input of the product actions. The file checks and the move are not modelled.
- SQL text is modelled only where the code builds it at run time (search, product edit), as tokens with normalised whitespace. What a statement does is stated by a function on the tables. Collation and case-insensitive `LIKE` and token comparison are not modelled.
- The queries that only fill a page are not modelled. These are the category list, the search results and their count, the order list, and the user row read after checkout. Their rows are not modelled either; the profile page's two reads appear only as statements that can fail. The `Error fetching search results` message is not modelled; a page below 1 shows no products, as its rejected query does.
- Login and admin guards, redirects other than the checkout's redirect to the cart, HTML rendering, link URLs and `urlencode` are not modelled.
- `sendEmail` and the JSON decoding and encoding of the chatbot are not modelled. The chatbot's `user_id` is an optional integer.
- The chatbot's `size:` capture is computed by the source but never used, so it is not modelled.
- Chatbot.HandleMessage: a failed log insert is a flag. Its `error_log` line is not modelled.
- Concurrency is not modelled: two checkouts that read the same stock can both write it. Each request runs alone against the tables.
- Integers are unbounded; PHP's 64-bit integers and float money never overflow here.
- The cart is a map, so the insertion order of PHP's session array is not kept. Totals do not depend on it, and the line order of the cart page follows the rows the query returns.
- Checkout.Transaction: a rollback also restores the next order id. MySQL does not give back auto-increment values, so the real next id may skip.
- ResetPassword.CheckPasswordStrength: the browser measures length in UTF-16 units, while the model counts one per character, as the server does per byte.
- The admin pages' `switch` on the posted action is not modelled as one dispatcher: each action is its own method.
