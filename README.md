# Foodgram recipe store — a Dafny model

Foodgram is a recipe-sharing service. Users publish recipes built from
catalogue ingredients and tags. They can favourite recipes, put them in a
shopping cart and follow authors. They can also download a shopping list
that sums the ingredients of every recipe in their cart.

This project models the store behind that service and the operations its
API layer runs on it, and proves properties of the model:

- `common.dfy` (`Common`): generic sequence tools. These are order-preserving
  filtering, uniqueness of a key, ascending/descending order of an id,
  reversal and an insertion sort.
- `text.dfy` (`Text`): ASCII case mapping, `capitalize`, case-insensitive
  substring search, and decimal rendering of integers with its parser.
- `users.dfy` (`Users`): the `User` and `UserFollowing` rows. It covers their
  unique columns and length limits, the role column, the default orderings
  and the cascade when a user is deleted.
- `recipes.dfy` (`Recipes`): `Ingredient`, `Tag`, `Recipe`, `IngredientPass`,
  `TagPass`, `Favorite` and `ShopCart`. It defines the unique constraints and
  foreign keys as one `Valid` predicate on a database snapshot, the default
  orderings, and the `on_delete=CASCADE` deletions, which are proved to keep
  `Valid`.
- `marks.dfy` (`Marks`): `add_to` and `delete_from` as methods of a
  `MarkTable` class (a `Favorite` or `ShopCart` table changed in place),
  specified by outcome functions.
- `serializers.dfy` (`Serializers`): the username and ingredient validators,
  recipe `create` and `update` on a `RecipeStore` class, the
  favourite/cart/subscription flags, the author's recipe list with
  `recipes_limit`, and the follow validator.
- `views.dfy` (`Views`): `download_shopping_cart` (the group-and-sum query,
  then the text built line by line), the `favorite` and `shopping_cart`
  routing, and `subscribe` on a `FollowTable` class.
- `filters.dfy` (`Filters`): `RecipeFilter` and `IngredientFilter`.

Tables are sequences of rows in insertion order. Ids grow with insertion, so
a table ordered by `-id` is the reversed sequence. Tag links are a set,
because nothing reads their order. Status codes are a datatype (`Status`,
with `Code()`).

### Behaviour kept as the code has it

The model follows the code:

- `update` merges the ingredient lines: it upserts each payload entry and
  keeps lines the payload does not mention. `UpdateIsMergeNotReplace`
  exhibits this.
- The code has no positivity check on ingredient amounts, and accepts
  `cooking_time` 0 and an empty ingredient list. `NoPositivityChecks` shows
  this; `Create` and `Update` accept empty payloads.
- `subscribe` does not run `UserFollowersSerializer.validate`, so following
  oneself is accepted (`Subscribe`).
- `filter_is_in_shopping_cart` reads the favourites
  (`CartFilterReadsFavorites`).
- Both boolean filters ignore their value (`BooleanValueIgnored`).
- `add_to` tests for a duplicate with the mark's own id
  (`DuplicateTestKeysOnMarkId`).
- On PATCH, the author is not rewritten: a hidden field's default is not
  applied to a partial update, so `Patch` keeps the stored author.

### Defects modelled by their evident intent

- `UserFollowersSerializer.validate` looks users up by e-mail with a `User`
  instance (`backend/api/serializers.py:211`, `data.get('user')`) and with the
  followed user (`:213`, `self.instance`). Both compare e-mails with the
  user's string form, which is the username (`backend/users/models.py:41-42`),
  so on ordinary data the validator answers "not found" before the
  self-subscription test. `ValidateFollow` looks the subscriber up by their
  e-mail (`ValidateFollowDecides`).

- `backend/api/views.py:6` imports a `Recipes` model that does not exist. The
  recipe list is modelled as the `Recipe` table (`RecipeList`).
- `backend/api/filters.py:23` and `:28` read an undefined `user`. The model
  uses the request's user (`caller`).
- `backend/api/filters.py:16` filters on a `created` column that `Recipe` does
  not declare. `Recipe` carries `created` here.
- `backend/api/views.py:77` pins the shopping-list query to user id 1. The
  requesting user is a parameter of `DownloadShoppingCart`.
- Neither filter set is wired to a view. `RecipesViewSet` installs the
  filter backend (`backend/api/views.py:41`) but names no filter set or
  filter fields, and `IngridientViewSet` (`backend/api/views.py:29-34`) has
  no filter backend, so both lists come back unfiltered. The model applies
  `RecipeFilter` to the recipe list and `IngredientFilter` to the ingredient
  list as if they were wired (`RecipeListFiltered`, `IngredientFilterKeepsOrder`).

## Model

| member | source | states |
|---|---|---|
| Common.FilterKeepsUnique | backend/recipes/models.py:124-128 | removing rows from a table whose key is unique leaves it unique, which is the basis of every cascade proof |
| Common.FilterKeepsDescending | backend/recipes/models.py:95 | a filtered newest-first list is still newest first |
| Common.ReverseOfAscendingIsDescending | backend/recipes/models.py:95 | reading an id-ascending table backwards gives the `-id` order |
| Common.SortBy | backend/recipes/models.py:26 | sorting yields a name-sorted permutation of its input |
| Text.LowerStr | backend/api/serializers.py:34 | `lower()` keeps the length and maps each character through `Lower`, so no upper-case ASCII letter is left |
| Text.CapitalizeShape | backend/api/views.py:88 | `capitalize()` keeps the length, upper-cases the first character and lower-cases the rest |
| Text.CapitalizeSameLetters | backend/api/views.py:88 | capitalising changes only letter case |
| Text.CapitalizeIdempotent | backend/api/views.py:88 | capitalising twice is capitalising once |
| Text.NatToString | backend/api/views.py:88 | the rendered amount is a non-empty digit string with no leading zero |
| Text.IntToStringRoundTrip | backend/api/views.py:88 | the amount printed in a shopping-list line parses back to the same integer |
| Users.ParseRole | backend/users/models.py:10-12 | a role string is accepted iff it is `admin` or `user` |
| Users.RoleRoundTrip | backend/users/models.py:7-18 | each role is stored as `admin` or `user` and reads back as itself |
| Users.NewUser | backend/users/models.py:17-18 | a new user has the role `user` by default and the given fields |
| Users.UserList | backend/users/models.py:40 | the user list is sorted by username and is a permutation of the table |
| Users.SubscriptionsNewestFirst | backend/users/models.py:64 | a user's subscriptions are exactly their follow rows, newest first |
| Users.DropFollowsOfValid | backend/users/models.py:48-59 | deleting users removes every edge where they are subscriber or author and keeps edges unique per (user, author) |
| Users.DropUsersValid | backend/users/models.py:14-16 | deleting users keeps usernames and emails unique and within 150 and 254 characters, and removes exactly their ids |
| Recipes.NoPositivityChecks | backend/recipes/models.py:89-92 | `cooking_time` 0 and amounts 0 or −1 are valid rows: nothing demands positive values |
| Recipes.RecipeListNewestFirst | backend/recipes/models.py:95 | the recipe list is the table by descending id, as a permutation |
| Recipes.IngredientList | backend/recipes/models.py:26 | the ingredient list is sorted by name and is a permutation of the table |
| Recipes.RecipeIdsAfterDrop | backend/recipes/models.py:58-64 | dropping recipes removes exactly their ids |
| Recipes.MarksAfterDrop | backend/recipes/models.py:161-196 | a mark table whose users or recipes are deleted keeps its foreign keys and its one-row-per-(user, recipe) constraint |
| Recipes.CascadeValid | backend/recipes/models.py:103-196 | deleting users and recipes with all rows that reference them keeps every constraint and foreign key of the store |
| Recipes.DeleteRecipeCascades | backend/recipes/models.py:115-119 | deleting a recipe removes exactly that recipe and its lines, tag links, favourites and cart rows; every other recipe, line, link and mark stays, and users, follows, ingredients and tags are unchanged |
| Recipes.DeleteRecipeValid | backend/recipes/models.py:124-128 | the store is still valid after a recipe is deleted |
| Recipes.DeleteUserCascades | backend/recipes/models.py:59-64 | deleting a user removes exactly that user, their follow edges in both directions, their recipes with those recipes' lines and tag links, and every mark they own or that points at their recipes; every other row stays, and ingredients and tags are unchanged |
| Recipes.DeleteUserValid | backend/recipes/models.py:59-64 | the store is still valid after a user is deleted |
| Recipes.DeleteIngredientCascades | backend/recipes/models.py:104-109 | deleting an ingredient removes exactly that ingredient and its lines, leaves every other table unchanged, and keeps the store valid |
| Recipes.DeleteTagCascades | backend/recipes/models.py:137-141 | deleting a tag removes exactly that tag and its links to recipes, leaves every other table unchanged, and keeps the store valid |
| Marks.Unmark | backend/api/utils.py:22-24 | the delete removes the marks of that user on that recipe and keeps every other mark |
| Marks.AddKeepsUnique | backend/api/utils.py:13-14 | a created mark is the only new row, marks the pair, and keeps the table one-row-per-(user, recipe) |
| Marks.SecondDeleteFails | backend/api/utils.py:21-26 | after a successful delete the table is still unique and a second delete answers 400 |
| Marks.DeleteUndoesAdd | backend/api/utils.py:9-26 | deleting the mark a successful add created restores the table |
| Marks.DuplicateTestKeysOnMarkId | backend/api/utils.py:10-14 | the duplicate test compares the mark's id with `pk`: a re-add of a marked recipe reaches the unique constraint (500), an add whose `pk` equals an owned mark's id is refused with 400 |
| Marks.MarkTable.AddTo | backend/api/utils.py:9-16 | answers 400, 404, the constraint error or 201 in that order of checks; only 201 appends the one new mark, 400 and 404 leave the id counter alone, and the table stays valid |
| Marks.MarkTable.DeleteFrom | backend/api/utils.py:19-26 | answers 404 before looking at marks, then 204 with the pair removed, or 400 with nothing changed |
| Serializers.ValidateUsername | backend/api/serializers.py:33-45 | the result is the lower-cased input; `me` in any case is refused; otherwise the name is accepted iff it is non-empty and every character is a word character or `.@+-` |
| Serializers.MeInAnyCase | backend/api/serializers.py:34-41 | exactly `me`, `Me`, `mE` and `ME` are refused as reserved |
| Serializers.ValidatedIsFixpoint | backend/api/serializers.py:33-45 | validating an accepted name again accepts it unchanged |
| Serializers.ValidateIngredients | backend/api/serializers.py:150-157 | accepts iff the payload's ingredient ids are pairwise distinct, returning the payload unchanged; otherwise the duplicate error |
| Serializers.AmountsMeaning | backend/recipes/models.py:124-128 | on a one-line-per-(ingredient, recipe) table, the amount map holds `key ↦ a` iff that line with amount `a` is in the table |
| Serializers.CreateOneLinePerEntry | backend/api/serializers.py:163-171 | `create` makes exactly one line per payload entry, with its ingredient and amount, for the new recipe, and the lines are unique |
| Serializers.UpdateOrCreateAmounts | backend/api/serializers.py:179-185 | one `update_or_create` sets the pair's amount and leaves every other pair's amount as it was |
| Serializers.Retag | backend/api/serializers.py:175-177 | the recipe's tag links become exactly the given tags; other recipes' links are kept |
| Serializers.Patch | backend/api/serializers.py:177 | a partial update sets the given fields and keeps the id, author, creation day and the fields not given |
| Serializers.PatchRecipesValid | backend/recipes/models.py:58-95 | patching one recipe keeps every row valid, the id order and the set of ids |
| Serializers.RecipeStore.Create | backend/api/serializers.py:159-173 | the recipe is appended with a fresh id, its lines and tag links are added, and the amount map gains exactly the payload |
| Serializers.RecipeStore.UpsertLines | backend/api/serializers.py:178-185 | the upsert loop leaves amount map = old map overridden by the payload |
| Serializers.RecipeStore.Update | backend/api/serializers.py:175-186 | unknown recipe or missing `ingredients` change nothing; otherwise fields are patched, tags replaced when given, and lines merged |
| Serializers.UpdateWritesEachEntry | backend/api/serializers.py:178-185 | after an update each payload ingredient has exactly one line for the recipe, holding the payload amount |
| Serializers.UpdateKeepsOtherLines | backend/api/serializers.py:178-185 | a line of another recipe or of an ingredient not in the payload survives the update |
| Serializers.UpdateIsMergeNotReplace | backend/api/serializers.py:175-186 | updating lines (1, 100) and (2, 200) with payload [(1, 5)] keeps (2, 200) and writes (1, 5) |
| Serializers.AnonymousSeesNoFlags | backend/api/serializers.py:47-52 | an anonymous caller sees `is_favorited`, `is_in_shopping_cart` and `is_subscribed` false |
| Views.FlagsFollowMarks | backend/api/serializers.py:104-114 | the flags are true iff the mark exists: set after a created mark, false after a delete or a refused delete |
| Serializers.AuthorRecipes | backend/api/serializers.py:252 | the author's recipes are exactly the stored recipes with that author |
| Serializers.GetRecipes | backend/api/serializers.py:251-258 | a negative `recipes_limit` is an error (Django's negative-slice assertion, uncaught, so a server error rather than a validation answer); otherwise the result is the first min(limit, count) of the author's recipes |
| Serializers.GetRecipesNewestFirst | backend/api/serializers.py:251-258 | the returned recipes are the author's, newest first |
| Serializers.ValidateFollow | backend/api/serializers.py:209-226 | unknown subscriber email is not-found; an accepted subscriber exists with that email and is not the author; a self-follow refusal names a user with that email who is the author; when every user with the email differs from the author, the subscriber is accepted |
| Serializers.ValidateFollowDecides | backend/api/serializers.py:217-220 | with unique emails, the subscriber owning the email is refused as a self-follow exactly when they are the author, and accepted with their id otherwise |
| Views.CartLines | backend/api/views.py:76-77 | the lines considered are exactly those of recipes in the user's cart |
| Views.ShoppingRows | backend/api/views.py:76-84 | one row per ingredient used in the cart with its name, unit and summed amount; each row comes from a catalogue ingredient used in the cart |
| Views.ShoppingRowsUnique | backend/api/views.py:76-84 | rows are grouped by ingredient id: no ingredient appears twice |
| Views.ShoppingRowsOnlyUsed | backend/api/views.py:76-84 | only ingredients of cart recipes appear, and an empty cart gives no rows |
| Views.SameNameStaysSeparate | backend/api/views.py:76-84 | two ingredients both named `salt` give two rows |
| Views.CartMatchesAtMostOne | backend/recipes/models.py:192-196 | a recipe matches at most one cart row of the user |
| Views.QueryJoinCountsEachLineOnce | backend/api/views.py:76-79 | summing over the join with the cart equals summing the cart lines: each line is counted once |
| Views.RowLineHasOneNewline | backend/api/views.py:88 | each rendered line ends the only newline it holds |
| Views.LinesCount | backend/api/views.py:87-88 | the rendered rows hold one newline per row |
| Views.ShoppingTextLineCount | backend/api/views.py:85-88 | the text has one line for the header plus one per row |
| Views.EmptyCartIsHeaderOnly | backend/api/views.py:85 | an empty cart renders the header `Список покупок:` and nothing else |
| Views.RenderShoppingList | backend/api/views.py:85-88 | the `+=` loop yields the header followed by each row's line in order |
| Views.DownloadShoppingCart | backend/api/views.py:75-91 | the response is the rendered list of the user's cart as `text/plain`, as attachment `Shopping list.txt` |
| Views.Favorite | backend/api/views.py:53-58 | POST answers as `add_to`, DELETE as `delete_from` on the favourites; a 201 appends the new mark, a 204 removes the (user, recipe) mark, any other answer leaves the favourites as they were; the cart is untouched |
| Views.ShoppingCart | backend/api/views.py:65-69 | POST answers as `add_to`, DELETE as `delete_from` on the cart; a 201 appends the new mark, a 204 removes the (user, recipe) mark, any other answer leaves the cart as it was; the favourites are untouched |
| Views.GetOrCreate | backend/api/views.py:107 | afterwards the edge exists; every old row is kept and the only possible new row is the new edge |
| Views.Unfollow | backend/api/views.py:111 | afterwards the edge is gone and every other edge is kept |
| Views.SubscribeIdempotent | backend/api/views.py:106-109 | subscribing twice leaves the table as subscribing once |
| Views.SubscribeLeavesOneEdge | backend/users/models.py:65-67 | after subscribing exactly one edge joins the pair and edges stay unique |
| Views.UnsubscribeIdempotent | backend/api/views.py:110-112 | unsubscribing twice is unsubscribing once |
| Views.UnsubscribeUndoesSubscribe | backend/api/views.py:104-112 | unsubscribing after a fresh subscription restores the table |
| Views.FollowTable.Subscribe | backend/api/views.py:104-109 | 404 for an unknown author with the rows and id counter unchanged, otherwise 201 with the get-or-create applied; self-follow is not refused |
| Views.FollowTable.Unsubscribe | backend/api/views.py:110-112 | 404 for an unknown author, otherwise 204 with the edge removed whether or not it existed |
| Filters.TagFilter | backend/api/filters.py:7-11 | an unknown slug is an error; otherwise a recipe is kept iff it has a tag whose slug is asked for, and no slug keeps everything |
| Filters.AuthorFilter | backend/api/filters.py:18-20 | keeps exactly the recipes of the given author |
| Filters.CreatedFilter | backend/api/filters.py:16 | keeps exactly the recipes created on or after the day |
| Filters.FilterIsFavorited | backend/api/filters.py:22-25 | an absent parameter or anonymous caller keeps the input; otherwise exactly the caller's favourites are kept |
| Filters.FilterIsInShoppingCart | backend/api/filters.py:27-30 | as written, keeps the caller's favourites, not the cart |
| Filters.BooleanValueIgnored | backend/api/filters.py:13-15 | `false` filters the same as `true` |
| Filters.CartFilterReadsFavorites | backend/api/filters.py:27-29 | a cart recipe that is not a favourite is dropped and a favourite outside the cart is kept |
| Filters.ApplyRecipeFilter | backend/api/filters.py:6-30 | the errors are exactly unknown slugs or authors; the result is the input rows that pass every given filter, so a subset and the intersection |
| Filters.ApplyRecipeFilterKeepsOrder | backend/api/filters.py:6-30 | filtering a newest-first list keeps it newest first |
| Filters.RecipeListFiltered | backend/api/views.py:37-41 | with `RecipeFilter` wired to the recipe list as intended, the filtered list holds stored recipes, newest first |
| Filters.IngredientFilter | backend/api/filters.py:33-39 | keeps an ingredient iff its name contains the query ignoring case; no query keeps all |
| Filters.IngredientFilterKeepsOrder | backend/recipes/models.py:26 | the filtered ingredient list is still sorted by name |
| Filters.EmptyQueryMatchesAll | backend/api/filters.py:34 | an empty name query keeps every ingredient |

## Left out

- Images: the `image` columns and `Base64ImageField`. They are binary payloads handled by a foreign library.
- HTTP and DRF plumbing is left out: routing, serializer selection, `Response` bodies, authentication, 401 and 405 answers, djoser registration and tokens. Statuses are modelled as a datatype only.
- `backend/api/permissions.py` is not part of this model: its permission class is not wired into any view.
- Transactions, races between requests and database concurrency. Each operation is atomic on the store.
- Unicode: `\w`, `lower()` and `capitalize()` are modelled over ASCII. Other characters are left as they are.
- Collation: text order is character-code order.
- Shopping-list line order: the grouped query does not fix it. `ShoppingRows` follows the ingredient table's order, and only its contents and uniqueness are stated.
- Views.DownloadShoppingCart: the query is over the user's cart marks without a database join; `QueryJoinCountsEachLineOnce` connects the two.
- Serializers.GetRecipes: `recipes_limit` arrives already parsed. A non-numeric value fails in `int()` before slicing; that failure is not modelled.
- Serializers.ValidateFollow: the serializer's existence check on the author (`backend/api/serializers.py:213`) is not modelled: it looks the author up by e-mail, so it repeats the subscriber lookup's question about a different string (see the defects above). The "already subscribed" check (`:221`) queries `User` by `user` and `author`, fields `User` does not have, and is not modelled either. The action never runs this validator.
- Form validation of foreign keys in the recipe payload (tag and ingredient ids that name no row) is left out; `Create` and `Update` take ids as given.
- Serializers.RecipeStore.Create: ingredient and author foreign keys are not checked by the store. Its `requires` ask for a unique payload and amounts in the 32-bit column range, which the serializer and the database ensure before the write.
- Serializers.RecipeStore.Update: a missing `ingredients` key is an outcome (`MissingIngredients`) rather than an exception; the 32-bit amount range is a `requires`, as for `Create`.
- The tag list view, `me` and `subscriptions` are reads with no logic beyond the orderings modelled here. The recipe and ingredient list views are modelled through their filter sets, wired as intended (see the defects above).
- CSV import commands and admin registration are not part of this model.
- Integer widths: amounts are bounded to the 32-bit column by `requires`; `cooking_time` to 0..32767 by `RecipeRowValid`. Overflow is not modelled.
