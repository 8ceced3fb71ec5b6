# Storefront demo: cart, catalog filter and checkout validation

This project models the three pieces of logic in a small single-page storefront:

- **Cart** (`cart.dfy`, module `CartPage`). The cart page holds an ordered list of lines
  `{id, name, price, quantity, image}`. A quantity button replaces the list by a `map` in which
  every line with the given id gets `max(1, quantity + change)`. The delete button replaces it by
  a `filter` that drops every line with that id. The total is a `reduce` of `price * quantity`
  from 0. The class `Cart` holds the list as a `seq<Line>` field. Its methods `ChangeQuantity` and
  `Remove` reassign that field. It has the functions `Total` and `IsEmpty`. Money is integer
  cents, so 99.99 is 9999 and sums are exact.
- **Catalog** (`catalog.dfy`, module `CatalogPage`). The page shows a fixed list of six products
  through a `filter`. A product is kept when its lower-cased name includes the lower-cased search
  term, and the category is `"all"` or equal to the product's category.
- **Checkout form** (`payment.dfy`, module `Payment`, with `regex.dfy`, module `Patterns`). The
  form has nine string fields. Four of them must match an anchored regular expression and be
  non-empty. The other five must only be non-empty. The regular expressions are written as
  values of a small regex language (`Patterns.Regex`) with a whole-string matching semantics.
  Each rule is then proved equal to a plain character-level description. The error report is
  the set of failing fields. Submission happens only when that set is empty.
- `seqs.dfy` (module `Seqs`) holds the generic `Filter` that both the cart and the catalog use,
  with its lemmas (subsequence of the input, membership, idempotence, congruence).

The catalog's add-to-cart handler only logs, so the code has no add-to-cart operation. The code
never checks the quantities it starts with, nor that ids are unique; a quantity change clamps the
changed line at 1. The model proves that every quantity change and removal preserves both
properties (every quantity at least 1, ids unique), and that the initial data has both.

## Model

| member | source | states |
|---|---|---|
| `Seqs.Filter` | src/pages/Cart.jsx:50 | The filter result is no longer than its input. An element is in the result iff it is in the input and satisfies the predicate (multiplicity is `Seqs.FilterMultiset`). |
| `Seqs.FilterMultiset` | src/pages/Cart.jsx:50 | Every occurrence of an element that satisfies the predicate is kept, and no occurrence of one that does not: its count in the result is its count in the input, or 0. |
| `Seqs.FilterIsSubsequence` | src/pages/Catalog.jsx:67-71 | A filter result is a subsequence of its input, so the input order is kept. |
| `Seqs.FilterKeepsAll` | src/pages/Cart.jsx:50 | When every element satisfies the predicate, the filter returns its input unchanged. |
| `Seqs.FilterIdempotent` | src/pages/Cart.jsx:50 | Filtering twice with one predicate gives the same result as filtering once. |
| `Seqs.FilterCongruent` | src/pages/Catalog.jsx:67-71 | Two predicates that agree on every element give the same filter result. |
| `CartPage.Cart.constructor` | src/pages/Cart.jsx:22-37 | The cart starts with the two initial lines. |
| `CartPage.Cart.ChangeQuantity` | src/pages/Cart.jsx:39-47 | The new list is `CartPage.QuantityChanged` of the old list. The change keeps quantities at 1 or more and keeps ids unique. |
| `CartPage.Cart.Remove` | src/pages/Cart.jsx:49-51 | The new list is `CartPage.Removed` of the old list (the old list without the id). Removal keeps quantities at 1 or more and keeps ids unique. |
| `CartPage.Cart.Total` | src/pages/Cart.jsx:53-55 | The `reduce` total (`CartPage.RunningTotal` from 0) equals the sum of `price * quantity` over the lines. It is 0 for an empty cart. |
| `CartPage.Cart.IsEmpty` | src/pages/Cart.jsx:67 | The cart is empty iff it has no lines. An empty cart has total 0. |
| `CartPage.RunningTotalIsSum` | src/pages/Cart.jsx:54 | The left-to-right `reduce`, `CartPage.RunningTotal`, from any start value `acc` gives `acc` plus the sum of subtotals. |
| `CartPage.InitialTotal` | src/pages/Cart.jsx:22-37 | The initial data totals 9999·1 + 14999·2 = 39997 cents. Its quantities are at least 1 and its ids are distinct. |
| `CartPage.QuantityChangedAt` | src/pages/Cart.jsx:41-45 | About `CartPage.QuantityChanged`, the `map` of the quantity button. Length is kept. A line with a matching id gets quantity `max(1, old + change)`, which is at least 1, and keeps its id, name, price and image. Every other line is unchanged. |
| `CartPage.QuantityChangedAbsent` | src/pages/Cart.jsx:41-45 | A quantity change for an id not in the cart leaves the list exactly unchanged. |
| `CartPage.ClampExample` | src/pages/Cart.jsx:43 | A change of -1000 on quantity 3 gives quantity 1. |
| `CartPage.RemovedMembers` | src/pages/Cart.jsx:50 | About `CartPage.Removed`, the `filter` of the delete button. A line is in the result of a removal iff it was in the cart and has another id. So no line with the removed id remains. |
| `CartPage.RemovedIsSubsequence` | src/pages/Cart.jsx:50 | The surviving lines keep their relative order, and the list does not grow. |
| `CartPage.RemovedAbsent` | src/pages/Cart.jsx:50 | Removing an id that is absent leaves the list exactly unchanged. |
| `CartPage.RemovedTwice` | src/pages/Cart.jsx:50 | Removing the same id twice equals removing it once. |
| `CartPage.RemovedKeepsInvariants` | src/pages/Cart.jsx:49-51 | Removal keeps every quantity at 1 or more and keeps ids unique. |
| `CartPage.RemovedTotal` | src/pages/Cart.jsx:50-54 | The old total is the new total plus the subtotals of the lines with the removed id. |
| `CartPage.ReplayKeepsInvariants` | src/pages/Cart.jsx:39-51 | After any sequence of quantity changes and removals, quantities are still at least 1 and ids still unique, if they were at the start. |
| `CatalogPage.Products` | src/pages/Catalog.jsx:22-65 | The catalog has six products with pairwise distinct ids. |
| `CatalogPage.FilteredIsSubsequence` | src/pages/Catalog.jsx:67-71 | The displayed list, `CatalogPage.FilteredProducts`, is a subsequence of the catalog, in catalog order, and no longer than the catalog. |
| `CatalogPage.FilteredMembers` | src/pages/Catalog.jsx:67-71 | Soundness and completeness of `CatalogPage.FilteredProducts` against its predicate `CatalogPage.IsShown`. A product is displayed iff it is in the catalog, its lower-cased name includes the lower-cased term, and the category is `"all"` or its own. |
| `CatalogPage.EmptyTermIsShown` | src/pages/Catalog.jsx:68-69 | The empty search term is included in every name, so only the category test decides. |
| `CatalogPage.EmptySearchShowsAll` | src/pages/Catalog.jsx:68-69 | An empty search with category `"all"` returns the whole catalog in order. |
| `CatalogPage.SearchIgnoresCase` | src/pages/Catalog.jsx:68 | Searching for a term gives the same list as searching for its lower-cased form. |
| `CatalogPage.UnknownCategoryShowsNothing` | src/pages/Catalog.jsx:69-70 | A category that is neither `"all"` nor any product's category returns the empty list. |
| `CatalogPage.EmptySearchFiltersByCategory` | src/pages/Catalog.jsx:67-71 | With an empty search, the result is the catalog filtered by category alone. |
| `Patterns.DigitRun` | src/pages/Payment.jsx:38-51 | `\d{lo,hi}` matches a whole string iff it is all digits and its length lies in `[lo, hi]`. |
| `Patterns.CatFixed` | src/pages/Payment.jsx:42-51 | If every match of the first part has length n, a match of the concatenation splits at position n. |
| `Patterns.Optional` | src/pages/Payment.jsx:51 | `x?` matches the empty string and exactly the matches of `x`. |
| `Payment.CardNumberRule` | src/pages/Payment.jsx:37-39 | Under `Payment.FieldValid` with `Payment.CardNumberPattern`, `cardNumber` is valid iff it has exactly 16 characters, all decimal digits. |
| `Payment.MonthRule` | src/pages/Payment.jsx:42 | The month group, `Payment.MonthPattern`, matches iff the string is `01`–`09` or `10`–`12`, so `00` and `13` fail. |
| `Payment.SlashYearRule` | src/pages/Payment.jsx:42 | `\/\d{2}` matches iff the string is a slash followed by two digits. |
| `Payment.ExpiryRule` | src/pages/Payment.jsx:41-43 | Under `Payment.FieldValid` with `Payment.ExpiryPattern`, `expiryDate` is valid iff it has 5 characters, a month 01–12 in the first two, `/` at index 2, and digits at indexes 3 and 4. |
| `Payment.CvvRule` | src/pages/Payment.jsx:44-46 | Under `Payment.FieldValid` with `Payment.CvvPattern`, `cvv` is valid iff it has length 3 or 4 and all characters are digits. |
| `Payment.PlusFourRule` | src/pages/Payment.jsx:51 | `(-\d{4})?` matches iff the string is empty or a dash followed by four digits. |
| `Payment.ZipRule` | src/pages/Payment.jsx:50-52 | Under `Payment.FieldValid` with `Payment.ZipPattern`, `zipCode` is valid iff it is 5 digits, or 5 digits then `-` then 4 digits. |
| `Payment.RequiredOnlyRule` | src/pages/Payment.jsx:40-53 | Under `Payment.FieldValid`, `cardName`, `address`, `city`, `state` and `country` are valid iff non-empty. |
| `Payment.EmptyFailsEveryRule` | src/pages/Payment.jsx:25-54 | The empty string fails all nine rules, so the initial values report all nine fields. |
| `Payment.InSchema` | src/pages/Payment.jsx:36-54 | The schema has a rule for every field of the form. |
| `Payment.ErrorsExact` | src/pages/Payment.jsx:36-54 | A field is in the error report `Payment.Errors` iff its own value breaks its own rule. |
| `Payment.ErrorsAreLocal` | src/pages/Payment.jsx:36-54 | Two forms with the same value in a field agree on whether that field is reported. |
| `Payment.NoErrorsIffAllValid` | src/pages/Payment.jsx:36-54 | The report is empty iff all nine rules hold. |
| `Payment.Submit` | src/pages/Payment.jsx:36-55 | The submit handler is reached, with the form values, iff all nine rules hold. Otherwise the non-empty set of every failing field is reported together. |
| `Payment.MonthThirteenExample` | src/pages/Payment.jsx:36-54 | The all-valid form with only `expiryDate` set to `"13/25"` reports `expiryDate` and nothing else. |

## Left out

- Rendering: the JSX, the MUI components, the `TextField` wiring and formik's `touched`/`handleChange` bookkeeping are UI and library internals.
- Navigation and I/O: `navigate(...)`, `console.log`, and the `try/catch` in the submit handler have no behaviour to state, since there is no backend.
- `handleAddToCart` in the catalog page only logs, so there is no add-to-cart operation to model.
- Floating-point prices and `toFixed(2)` formatting: money is modelled as exact integer cents instead.
- The catalog's `'$99.99'`-style price strings are display text and are not a field of `CatalogPage.Product`.
- Unicode case mapping: `toLowerCase` is modelled for ASCII letters only (`CatalogPage.Lower`).
- Which message Yup shows for a field ("required" or "format") is library behaviour and is not modelled. The model states validity only, and the report is the set of failing fields.
- `Patterns.Regex` covers only the constructs these four patterns use: character ranges, literals, concatenation, alternation and bounded repetition. It is not a general model of JavaScript regular expressions.
- The home page and the navigation bar hold display data and router links only.
