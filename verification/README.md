# Fraterno Amor site — a verified model of its core rules

The Fraterno Amor site is a Flask application for a church community. It has a
members' portal (courses, digital materials and notices, gated by permission
categories that carry a level), a canteen where visitors order through a browser
cart, and an admin back office. Two small lint scripts check that the CSS classes
used in the templates are defined in the stylesheet.

This project models the rules behind those features in Dafny and proves what they
guarantee:

- **Portal** (`portal.dfy`, `models.dfy`). The member dashboard of `backend/app.py`
  works in four steps:
  - the user's highest level (0 without categories);
  - the level expansion to every category at or below that level;
  - the course and material filters, and the grouping loops that build the
    per-category lists in first-seen order;
  - the latest notice, picked by *direct* membership rather than by level.
- **Canteen** (`canteen.dfy`). `finalizar_pedido` is a class over the product,
  customer, order and item tables. A loop accepts each cart line that the remaining
  stock covers. A pure fold over the cart states what that loop computes. The
  admin's order-status whitelist is modelled too.
- **Back office** (`admin.dfy`). Every route refuses a non-admin. The model covers
  the deletion guards, the unique material-category names and the self-guards on
  the admin toggle and on user deletion. It also covers registration, notice
  creation, category reassignment and the key/value settings upsert.
- **Small string rules** (`links.dfy`, `text.dfy`). `allowed_file`, WhatsApp number
  normalisation, and YouTube video-id extraction for the embed link.
- **Browser script** (`storefront.dfy`). From `backend/static/js/scripts.js`:
  - the cart (add, displayed total, checkout guards);
  - the product category filter;
  - the dashboard search, which hides cards, trilha sections and section titles.
- **CSS lint** (`css_classes.dfy`, `check_site.dfy`, `verificar_css.dfy`).
  `re.findall(r'\.([a-zA-Z0-9_-]+)', ...)` is modelled as a left-to-right,
  non-overlapping, greedy scanner. On top of it sit the html-minus-css difference,
  the site-wide verdict flag and the sorted report.

Modelling conventions:

- Prices are integer cents.
- Clock readings (`now`) are parameters.
- The logged-in user is an `Actor` parameter.
- A table that is looked up by id (products, users, orders, categories) is a map keyed
  by id. A table whose row order shows in a result is a sequence: customers, where
  `.first()` by name picks the earliest row; notices, where the latest one is picked;
  and the dashboard's query results (categories, courses, materials), whose order the
  grouping keeps. The configuration rows are a sequence too, but their keys are kept
  unique, so a lookup by key does not depend on their order.
- A URL arrives already split into host, path and query parameters.
- The html class sets of the templates are inputs.

## Model

| member | source | states |
|---|---|---|
| Portal.MaxLevel | backend/app.py:223-226 | 0 for a user without categories; otherwise the level of one of the user's categories, and no category of theirs is higher |
| Portal.DirectIds | backend/app.py:227 | the ids of the user's own categories, one per category, in order |
| Portal.DirectIdsAreAssigned | backend/app.py:52 | over the category rows a user's relationship loads, an id is direct iff it is one of the user's assigned ids |
| Portal.AccessibleIds | backend/app.py:229-231 | an id is listed iff some category with that id has a level at or below the given level |
| Portal.GateIsLevelExpansion | backend/app.py:229-236 | an item passes the gate iff it is untagged or tagged with a category whose level is at most the user's highest level |
| Portal.AllowedCourses | backend/app.py:234-236 | exactly the courses that are untagged or tagged with an accessible id, each kept as often as it occurs (order: AllowedCoursesAppend) |
| Portal.AllowedMaterials | backend/app.py:245-247 | the same filter over digital materials (order: AllowedMaterialsAppend) |
| Portal.AllowedCoursesAppend | backend/app.py:234-236 | the course listing of a concatenation is the listing of the first part followed by that of the second, so query order is kept |
| Portal.AllowedCoursesOne | backend/app.py:234-236 | a single course is listed iff it passes the gate |
| Portal.AllowedMaterialsAppend | backend/app.py:245-247 | the same order preservation for materials |
| Portal.AllowedMaterialsOne | backend/app.py:245-247 | a single material is listed iff it passes the gate |
| Portal.Grouped | backend/app.py:238-242 | the grouping specification, one appended item at a time: a new name opens a list and joins the order, a known name's list grows; GroupedKeys, GroupedOrder, GroupedFirstSeen and GroupedLists state its properties |
| Portal.GroupByCategory | backend/app.py:238-242 | the grouping loop builds exactly the name-to-list map and first-seen order of the grouping specification |
| Portal.GroupedKeys | backend/app.py:238-242 | a category name is a key iff some listed item belongs to a category with that name |
| Portal.GroupedOrder | backend/app.py:238-242 | the keys are exactly the names in the insertion order, and each name appears there once |
| Portal.GroupedFirstSeen | backend/app.py:238-242 | of two keys, the earlier in the order is named by some item before any item names the later one (first-seen order) |
| Portal.GroupedLists | backend/app.py:240-242 | each key's list is the items of that category name in their original order, and it is never empty |
| Portal.NamedEmpty | backend/app.py:240-242 | a name no item carries collects nothing |
| Portal.NamedCount | backend/app.py:240-242 | under its own name an item is listed as often as it occurs in the input; under any other name it is not listed |
| Portal.NamedNotIn | backend/app.py:240-242 | an item absent from the input is under no name |
| Portal.GroupedMember | backend/app.py:238-253 | an item is listed under a key iff it is in the input and its category carries that name |
| Portal.LatestNotice | backend/app.py:257-259 | None iff no notice is untagged or tagged with one of the user's own categories; otherwise such a notice with the greatest creation time |
| Portal.Dashboard | backend/app.py:221-268 | for permitted items that resolve their category, the dashboard view: courses and materials filtered by the level expansion and grouped by category name, and the latest directly addressed notice's text or the default text |
| Portal.NoCategoriesMeansLevelZero | backend/app.py:223-231 | without categories the level is 0, so only level-0-or-lower categories are accessible |
| Portal.LevelZeroIsFloor | backend/app.py:226-231 | with non-negative levels, every level-0 category is accessible to every user who has a category |
| Portal.CourseListed | backend/app.py:234-242 | a course appears in the dashboard groups iff it passes the level gate; it then sits under its category's name |
| Portal.MaterialListed | backend/app.py:245-253 | the same for materials |
| Portal.HiddenDanglingCourseIsServed | backend/app.py:234-242 | concrete case: a gated-out course naming a missing category is not listed, and the dashboard's precondition still holds |
| Portal.NoticeNeedsDirectMembership | backend/app.py:257-259 | a notice tagged with a category the user does not hold directly is never the one shown |
| Portal.ContentAndNoticeDiverge | backend/app.py:229-263 | concrete case: a user of level 5 can see content tagged with a level-2 category, yet a notice tagged with it is not shown and the default text is |
| Canteen.CartTotal | backend/app.py:140 | the submitted total, price times quantity summed over every line; CartTotalAppend states its additivity |
| Canteen.CartTotalAppend | backend/app.py:140 | the submitted total of a cart split in two is the sum of the halves' totals |
| Canteen.FindCustomer | backend/app.py:135 | None iff no customer has exactly that name; otherwise the first such customer in row order |
| Canteen.Fulfil | backend/app.py:144-149 | the stock fold keeps the set of product ids |
| Canteen.Accepts | backend/app.py:146 | a line is accepted iff its product exists and the current stock covers the quantity; FulfilSnoc states its effect |
| Canteen.Step | backend/app.py:145-149 | one iteration keeps the product ids, and leaves the state unchanged iff the line is refused |
| Canteen.FulfilSnoc | backend/app.py:144-149 | one more cart line is one more iteration: if the remaining stock accepts it, exactly one item (its product, quantity and the catalogue price) is appended and only that product's stock drops by the quantity; otherwise nothing changes |
| Canteen.AcceptedLines | backend/app.py:144-146 | the accepted lines, in cart order: no more of them than cart lines, each one a line of the cart |
| Canteen.FulfilItemsAreAcceptedLines | backend/app.py:144-149 | the items are the accepted lines one for one and in order, each for its product, with its quantity, at the catalogue price |
| Canteen.TakenMatchesLines | backend/app.py:147-149 | items that match lines one for one in product and quantity take from each product what the lines name |
| Canteen.FulfilTakesAcceptedQuantity | backend/app.py:144-149 | the stock taken from a product is the quantity summed over the accepted lines that name it |
| Canteen.FulfilConserves | backend/app.py:144-149 | no product is added or removed, no name, category or price changes, and each final stock is the initial stock minus the quantity its items take |
| Canteen.FulfilItems | backend/app.py:146-147 | at most one item per cart line; every item belongs to the order, names an existing product, and records the catalogue price |
| Canteen.FulfilUntouched | backend/app.py:144-149 | a product that no cart line names keeps its stock |
| Canteen.FulfilNonNegative | backend/app.py:146 | with non-negative stock and quantities, no stock goes below zero |
| Canteen.NegativeQuantityRaisesStock | backend/app.py:146-149 | a line with a negative quantity for an existing product is accepted and raises that product's stock |
| Canteen.DroppedLineStillCharged | backend/app.py:140-149 | concrete case: a line over stock creates no item and takes no stock, yet it still counts in the order total |
| Canteen.Canteen.FinalizeOrder | backend/app.py:131-151 | finds or creates the customer by exact name, records the order with the submitted total and status "Recebido", then applies the stock fold to the product and item tables |
| Canteen.Canteen.AcceptLines | backend/app.py:144-149 | the loop leaves the products and the new items exactly as the stock fold says, and nothing else changes |
| Canteen.Canteen.ChangeOrderStatus | backend/app.py:981-992 | outcomes: not an admin, unknown order, status not listed, changed. Only a listed status changes the order, and only its status; other tables stay as they were |
| Canteen.NextStatus | backend/app.py:986-987 | the result is the requested status iff it is one of the three allowed ones (or already current); otherwise the status stays |
| Admin.Selected | backend/app.py:358-360 | the categories assigned are exactly the selected ids that exist |
| Admin.Membership.DeleteCourseCategory | backend/app.py:644-654 | refused for a non-admin, an unknown id, or a category that still has courses; otherwise only that category is removed |
| Admin.Membership.DeleteMaterialCategory | backend/app.py:716-726 | the same guard over materials |
| Admin.Membership.DeletePermissionCategory | backend/app.py:748-762 | refused while any user holds the category; gated content does not block it |
| Admin.Membership.AddMaterialCategory | backend/app.py:699-711 | a name already in use is refused; otherwise a new category with a fresh id is added and nothing else changes |
| Admin.Membership.ToggleAdmin | backend/app.py:594-604 | flips another user's admin flag; refused when the target is the acting admin |
| Admin.Membership.DeleteUser | backend/app.py:608-618 | deletes another user; refused when the target is the acting admin |
| Admin.Membership.SetUserCategories | backend/app.py:547-560 | the user's categories become exactly the selected ids that exist |
| Admin.Membership.Register | backend/app.py:340-364 | the password mismatch is checked before the username; a new non-admin user gets a fresh id and the selected existing categories |
| Admin.Membership.CreateNotice | backend/app.py:183-201 | an empty message is refused; otherwise one notice is appended with the given target category (none means everyone) |
| Admin.DeletionIgnoresGatedContent | backend/app.py:748-762 | concrete case: a permission category nobody holds is deleted although a course is still tagged with it |
| Admin.KeyIndex | backend/app.py:392 | the first row with the key, or None iff no row has it |
| Admin.Upserted | backend/app.py:396-400 | the rows after an upsert: the key's row takes the value, or a new row is appended; UpsertedKeys, UpsertedSameKey, UpsertedOtherKey and UpsertReadsBack state its properties |
| Admin.UpsertedKeys | backend/app.py:396-400 | an upsert keeps every old key in place and appends the key only when it was absent |
| Admin.UpsertedSameKey | backend/app.py:396-400 | after an upsert the key reads back the stored value |
| Admin.UpsertedOtherKey | backend/app.py:396-400 | after an upsert every other key reads as before |
| Admin.UpsertReadsBack | backend/app.py:396-400 | read-back, other keys unchanged, a row added only for a new key, keys stay unique |
| Admin.Settings.Upsert | backend/app.py:520-528 | updates the key's row in place or appends a row with a fresh id, keeping keys unique |
| Admin.Settings.SetCanteenNotice | backend/app.py:389-403 | an admin upserts the "aviso_lanchonete" row, possibly to null, and the id counter advances iff a row was added; a non-admin changes nothing |
| Admin.Settings.SetCanteenStatus | backend/app.py:408-420 | an admin upserts the "lanchonete_status" row, and the id counter advances iff a row was added; a non-admin changes nothing |
| Admin.Settings.SavePage | backend/app.py:516-531 | an admin upserts the page's own key with its content, and the id counter advances iff a row was added; a non-admin changes nothing |
| Links.LastDot | backend/app.py:106 | None iff the name has no '.'; otherwise the position of its last '.' |
| Links.LastDotUnique | backend/app.py:106 | a '.' with no '.' after it is the last dot |
| Links.AllowedFile | backend/app.py:105-106 | an accepted name contains a '.'; AllowedFileIff states the whole rule |
| Links.AfterLastDot | backend/app.py:106 | a test of the text after the last '.' holds iff some '.' with no '.' after it is followed by text that passes (the `rsplit('.', 1)` step) |
| Links.AllowedFileIff | backend/app.py:105-106 | accepted iff the name has a '.' and the text after the last one, lower-cased, is png, jpg, jpeg or gif |
| Links.AllowedFileExamples | backend/app.py:105-106 | "a.PNG" is accepted; "a.png.x" and "png" are not |
| Links.Digits | backend/app.py:432 | never longer than the contact, and only digits (which digits: DigitsAppend, DigitsOne) |
| Links.DigitsAppend | backend/app.py:432 | the digits of a concatenation are the digits of each part, in order |
| Links.DigitsOne | backend/app.py:432 | one character is kept iff it is a digit |
| Links.DigitsOfDigits | backend/app.py:432 | a digit string keeps all its characters |
| Links.WhatsAppNumber | backend/app.py:432-434 | the number starts with 55 and consists of digits only |
| Links.WhatsAppKeepsDigits | backend/app.py:432-434 | the number is the contact's digits, with 55 put in front iff the digits do not already start with 55 |
| Links.WhatsAppIdempotent | backend/app.py:432-434 | normalising a normalised number changes nothing |
| Links.WhatsAppExamples | backend/app.py:432-434 | "(83)" becomes "5583"; "+55" becomes "55" |
| Links.VideoId | backend/app.py:286-295 | an id needs a host containing "youtube.com" or "youtu.be"; EmbedUrlIff states which id |
| Links.EmbedUrl | backend/app.py:286-299 | an embed link always starts with the embed prefix and carries a non-empty id |
| Links.EmbedUrlIff | backend/app.py:286-299 | a link embeds an id iff there is a host, the id is non-empty, and either the host contains "youtube.com" and the id is the first `v` value, or the host contains "youtu.be" and the id is the path after its first character |
| Links.WatchUrlExamples | backend/app.py:288-291 | a watch URL yields its `v` value; without `v`, or without a host, there is no embed link |
| Links.ShortUrlExamples | backend/app.py:292-293 | a youtu.be path yields the id after '/'; the bare "/" yields none |
| Text.LowerChar | backend/app.py:106 | the capitals A-Z and À-Þ (except ×) move 32 code points down to their small letters; every other character is unchanged; the result is never a capital, and it is an ASCII small letter iff the input was an ASCII letter |
| Text.Lower | backend/static/js/scripts.js:58 | lower-cases character by character and keeps the length |
| Text.LowerIdempotent | backend/static/js/scripts.js:228 | lower-casing twice is lower-casing once |
| Text.ContainsAt | backend/static/js/scripts.js:237 | `includes` holds iff the needle occurs at some position |
| Text.ContainsEmpty | backend/static/js/scripts.js:237 | the empty term is contained in every title |
| Seqs.Keep | backend/app.py:234-236 | the filter keeps exactly the elements satisfying the condition |
| Seqs.KeepCount | backend/app.py:234-236 | each kept element appears as often as in the input |
| Seqs.KeepAppend | backend/app.py:234-236 | filtering distributes over concatenation |
| Storefront.Ids | backend/static/js/scripts.js:150 | the cart's ids in order |
| Storefront.IndexOf | backend/static/js/scripts.js:150 | None iff no entry has the id; otherwise the position of the first entry that has it |
| Storefront.Added | backend/static/js/scripts.js:149-155 | the cart after an add; AddedEffect, AddedKeepsIdsDistinct and AddedTotal state its properties |
| Storefront.AddedEffect | backend/static/js/scripts.js:149-157 | an existing id gets its quantity raised by one; its name, price, the length and every other entry stay. A new id is appended with quantity 1 |
| Storefront.AddedKeepsIdsDistinct | backend/static/js/scripts.js:149-155 | ids in the cart stay unique |
| Storefront.AddedTotal | backend/static/js/scripts.js:149-157 | adding raises the total by one unit price: the stored price for a known id, the given price for a new one |
| Storefront.Total | backend/static/js/scripts.js:166-171 | the sum of price times quantity; AddedTotal, TotalBump and DisplayedTotal state its properties |
| Storefront.TotalBump | backend/static/js/scripts.js:152 | raising one entry's quantity raises the total by that entry's price |
| Storefront.Cart.Add | backend/static/js/scripts.js:149-157 | the cart becomes the specified addition and its ids stay unique |
| Storefront.Cart.DisplayedTotal | backend/static/js/scripts.js:159-174 | the displayed total is the sum of price times quantity, and 0 for an empty cart |
| Storefront.Cart.OpenCheckout | backend/static/js/scripts.js:96-101 | the name dialog opens iff the cart is not empty |
| Storefront.Cart.SubmitName | backend/static/js/scripts.js:106-141 | a blank name (only white space) is refused. Otherwise the cart is sent, and it is emptied iff the reply was handled |
| Storefront.ApplyCategoryFilter | backend/static/js/scripts.js:56-63 | card i is shown iff "todos" is selected or its lower-cased category equals the selected value |
| Storefront.UpperCaseSelectionHidesAll | backend/static/js/scripts.js:58-59 | a selected value (other than "todos") with a capital letter (A-Z or À-Þ) shows no card |
| Storefront.FilterSection | backend/static/js/scripts.js:232-249 | each card is shown iff its lower-cased title contains the term; the section flag is set iff some card is shown |
| Storefront.TitleVisible | backend/static/js/scripts.js:254-263 | the sibling walk finds a shown trilha section before the next main title iff the title-visibility rule holds |
| Storefront.Search | backend/static/js/scripts.js:227-270 | every section, card and main title gets exactly the visibility the search rules give for the lower-cased term; other elements are untouched |
| Storefront.EmptySearchShowsAll | backend/static/js/scripts.js:228-269 | with an empty box every card is shown, a section is shown iff it has a card, and a title is shown iff a non-empty section follows it before the next title |
| CssClasses.RunEnd | backend/check_site.py:26 | the run extends over class characters only, and stops at the end or at the first other character |
| CssClasses.Spans | backend/check_site.py:26 | every match is a '.' followed by a maximal non-empty run; matches come in order and do not overlap |
| CssClasses.FindAll | backend/verificar_css.py:27 | one captured name per match, taken from just after its '.' to the end of its run |
| CssClasses.SpansComplete | backend/check_site.py:26 | every '.' followed by a class character starts a match |
| CssClasses.ClassesSound | backend/check_site.py:26 | every extracted class is the maximal run after some '.' |
| CssClasses.ClassesComplete | backend/verificar_css.py:27 | every maximal run after a '.' is extracted |
| CssClasses.ClassesIff | backend/verificar_css.py:27 | a name is extracted iff it is the maximal class-character run right after some '.' |
| CssClasses.Classes | backend/check_site.py:26 | the set of captured names; ClassesIff and ClassShape state its properties |
| CssClasses.ClassShape | backend/verificar_css.py:27 | every extracted class is non-empty and uses only letters, digits, '_' and '-'; it occurs right after a '.', and the character after it is not a class character |
| CssClasses.NoDotNoClasses | backend/check_site.py:26 | content without a '.' yields no class |
| CssClasses.ClassesExample | backend/check_site.py:26 | ".btn.on" yields exactly "btn" and "on" |
| CssClasses.SkippedDotExample | backend/check_site.py:26 | a '.' not followed by a class character is skipped: "..x" yields "x" |
| CheckSite.Missing | backend/check_site.py:76 | the missing classes are the html classes that are not css classes: a subset of the html set, disjoint from the css set |
| CheckSite.CheckConsistency | backend/check_site.py:56-88 | None when the stylesheet is missing, before any template is looked at; otherwise true iff no template whose name ends in ".html" has a missing class |
| CheckSite.CheckExamples | backend/check_site.py:72-79 | an ".html" template with an undefined class is flagged; a ".txt" file, or a template whose classes are all defined, is not |
| VerifyCss.BeforeIrreflexive | backend/verificar_css.py:55 | no string sorts before itself |
| VerifyCss.BeforeTotal | backend/verificar_css.py:55 | of two different strings, one sorts first |
| VerifyCss.BeforeAsymmetric | backend/verificar_css.py:55 | two strings never each sort before the other |
| VerifyCss.BeforeTransitive | backend/verificar_css.py:55 | the string order is transitive |
| VerifyCss.Before | backend/verificar_css.py:55 | the code-point string order of `sorted`; BeforeIrreflexive, BeforeTotal, BeforeAsymmetric and BeforeTransitive state that it is a strict total order |
| VerifyCss.Least | backend/verificar_css.py:55 | a non-empty set has an element that sorts before all others |
| VerifyCss.LeastUnique | backend/verificar_css.py:55 | that least element exists and is unique |
| VerifyCss.Sorted | backend/verificar_css.py:55 | every element of the set is listed exactly once, in strictly ascending order |
| VerifyCss.SortedCons | backend/verificar_css.py:55 | the least element followed by the sorted rest is sorted |
| VerifyCss.EmptyDifference | backend/verificar_css.py:48-51 | nothing is missing iff every html class is a css class |
| VerifyCss.Compare | backend/verificar_css.py:33-57 | interrupted iff either extraction failed. Otherwise it reports both counts, and either success (every html class defined) or the missing classes: exactly html minus css, |missing| entries, ascending |
| VerifyCss.ListedDistinct | backend/verificar_css.py:55-56 | the report never lists a class twice |
| VerifyCss.CompareExample | backend/verificar_css.py:33-57 | a page using "card" and "hero" against ".hero" reports 2 and 1 classes and lists just "card" |

## Left out

- Flask routing, `render_template`, `flash`, `redirect` and the `login_required` session plumbing are not modelled: each route takes the current user as an `Actor` and returns an outcome naming the flash message it would show.
- bcrypt hashing and checking is not modelled. `alterar_senha` is left out with it, since the hash check is its first guard. `Register` models only the mismatch and duplicate-username checks around the hash.
- SQLAlchemy sessions, commits and migrations are replaced by in-memory tables. The CSV exports and the sales and chart aggregates of the admin dashboard are left out. So is the way `finalizar_pedido` commits the customer and the order before its loop, which can leave a partly saved order behind on failure.
- `get_or_404` is modelled as the `NotFound` outcome. Route CRUD that has no guard (products, customers, courses, materials, listing pages, `adicionar_categoria`, the permission-category add/edit, notice and order deletion) is not modelled.
- File uploads (`secure_filename`, `os.path`, saving files) are left out. Only the `allowed_file` name test is modelled.
- `urllib.parse.urlparse`/`parse_qs` are library code: a course link enters as its host, path and query. `urllib.parse.quote` and the `wa.me` link text are left out; only the number normalisation is modelled.
- Prices are integer cents rather than floats, and `toFixed(2)` formatting is not modelled.
- `datetime.utcnow` becomes the `now` parameter.
- Two orders racing for the same stock are not modelled (no concurrency).
- `backend/passenger_wsgj.py` (the WSGI entry point) is not part of this model.
- Browser effects are left out: the typing title, scroll reveal, mobile menu, image modal and the simulated contact form. So are the WhatsApp message text, `encodeURIComponent`, `window.open`, `alert`, dialog display and input reset. The HTTP request itself becomes a flag saying whether the reply was handled.
- The BeautifulSoup html extraction, `os.walk` and `os.path.relpath`, and all printing in the lint scripts are left out. Each template's html classes and name are inputs. The placeholder steps of `check_site.py` (file structure, folders, app integrity, routes) only print and are not modelled.
- Text.Lower: maps the capitals of Basic Latin and Latin-1 (A-Z, À-Þ except ×), which covers the Portuguese capitals (Á, Ã, Ç, É, Ê, Ó, ...). Python's `str.lower` and JavaScript's `toLowerCase` also lower-case Latin Extended, Greek, Cyrillic and other scripts, and a few characters to two. This is exact for `allowed_file`, because no other character lower-cases to the letters of png/jpg/jpeg/gif alone. For the category filter and the search it differs only on text outside Latin-1.
- Text.LowerChar: the same Latin-1 range as Text.Lower.
- Links.Digits: keeps ASCII 0-9 only, while `str.isdigit` also accepts other Unicode digits.
- Portal.Dashboard: requires every PERMITTED course and material to name an existing course or material category. Hidden items may name any category, since the source never reads theirs. The database does not enforce the reference: the add and edit routes store the form's category id unchecked, and SQLite leaves foreign keys off by default. A permitted item with a dangling category makes the source raise at `categoria.nome`, and that case is not modelled.
- Portal.LatestNotice: of notices with equal creation times, the earliest row wins. SQL leaves that order open.
- Canteen.Canteen.FinalizeOrder: cart line ids are integers, and malformed JSON (missing keys) is not modelled.
- Admin.Membership.SetUserCategories: the selected ids arrive as integers. A form value that is not numeric, which makes `int()` raise a ValueError before anything changes, is not modelled.
- Admin.Membership.CreateNotice: the message is a string and an absent field counts as empty. A target category that is not numeric, which makes `int()` raise, is not modelled.
- Storefront.Search: every card is given by its title text. A card without an `h4`, which would throw, is not modelled.
