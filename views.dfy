/**
 * The view actions: the shopping-list download (a group-and-sum query over
 * the ingredient lines of the recipes in the caller's cart, rendered line by
 * line under a fixed header), the favourite and cart actions that route to
 * the mark-table operations, and subscribing to an author.
 */
module Views {
  import opened Common
  import opened Text
  import opened Users
  import opened Recipes
  import opened Marks
  import opened Serializers

  // ---------------------------------------------------------------------
  // download_shopping_cart: the query

  /** One group of the query: an ingredient with its name, unit and summed amount. */
  datatype ShoppingRow = ShoppingRow(ingredient: IngredientId, name: string, measures: string, amount: int)

  function RowIngredient(row: ShoppingRow): IngredientId { row.ingredient }

  /** The recipes in `user`'s cart. */
  function CartRecipes(cart: seq<Mark>, user: UserId): set<RecipeId>
  {
    set m | m in cart && m.user == user :: m.recipe
  }

  function InRecipes(recipes: set<RecipeId>): IngredientPass -> bool
  {
    (l: IngredientPass) => l.recipe in recipes
  }

  /** The ingredient lines of the recipes in `user`'s cart. */
  function CartLines(lines: seq<IngredientPass>, cart: seq<Mark>, user: UserId): (r: seq<IngredientPass>)
    ensures forall l :: l in r <==> l in lines && exists m :: m in cart && m.user == user && m.recipe == l.recipe
  {
    Filter(InRecipes(CartRecipes(cart, user)), lines)
  }

  /** The total amount of ingredient `iid` over `lines`. */
  function SumFor(lines: seq<IngredientPass>, iid: IngredientId): int
  {
    if lines == [] then 0
    else (if lines[0].ingredient == iid then lines[0].amount else 0) + SumFor(lines[1..], iid)
  }

  /** Some line uses ingredient `iid`. */
  predicate Uses(lines: seq<IngredientPass>, iid: IngredientId)
  {
    exists l :: l in lines && l.ingredient == iid
  }

  /**
   * The query's result: the ingredients, in table order, that some cart line
   * uses, each with the sum of its amounts over the cart lines. The grouping
   * is by ingredient row, so two ingredients that share a name stay apart.
   */
  function ShoppingRows(ingredients: seq<Ingredient>, cartLines: seq<IngredientPass>): (r: seq<ShoppingRow>)
    ensures |r| <= |ingredients|
    ensures forall row :: row in r ==>
              && Uses(cartLines, row.ingredient)
              && row.amount == SumFor(cartLines, row.ingredient)
              && Ingredient(row.ingredient, row.name, row.measures) in ingredients
    ensures forall i :: i in ingredients && Uses(cartLines, i.id) ==> ShoppingRow(i.id, i.name, i.measures, SumFor(cartLines, i.id)) in r
  {
    if ingredients == [] then []
    else
      var i := ingredients[0];
      var rest := ShoppingRows(ingredients[1..], cartLines);
      assert forall x :: x in ingredients <==> x == i || x in ingredients[1..];
      if Uses(cartLines, i.id) then [ShoppingRow(i.id, i.name, i.measures, SumFor(cartLines, i.id))] + rest
      else rest
  }

  /** A row listed for a later ingredient never carries the first ingredient's id. */
  lemma HeadNotInRest(ingredients: seq<Ingredient>, cartLines: seq<IngredientPass>)
    requires ingredients != [] && UniqueBy(ingredients, IngredientIdOf)
    ensures forall k :: 0 <= k < |ShoppingRows(ingredients[1..], cartLines)| ==>
              RowIngredient(ShoppingRows(ingredients[1..], cartLines)[k]) != ingredients[0].id
  {
    var tail := ingredients[1..];
    var rest := ShoppingRows(tail, cartLines);
    forall k | 0 <= k < |rest| ensures RowIngredient(rest[k]) != ingredients[0].id {
      assert rest[k] in rest;
      var j :| 0 <= j < |tail| && tail[j] == Ingredient(rest[k].ingredient, rest[k].name, rest[k].measures);
      assert ingredients[j + 1] == tail[j];
    }
  }

  /** With unique ingredient ids, the list holds one row per ingredient. */
  lemma {:induction false} ShoppingRowsUnique(ingredients: seq<Ingredient>, cartLines: seq<IngredientPass>)
    requires UniqueBy(ingredients, IngredientIdOf)
    ensures UniqueBy(ShoppingRows(ingredients, cartLines), RowIngredient)
  {
    if ingredients != [] {
      var tail := ingredients[1..];
      UniqueTail(ingredients, IngredientIdOf);
      ShoppingRowsUnique(tail, cartLines);
      var rest := ShoppingRows(tail, cartLines);
      var r := ShoppingRows(ingredients, cartLines);
      if r != rest {
        var head := [r[0]];
        HeadNotInRest(ingredients, cartLines);
        assert r == head + rest;
        UniqueAppend(head, rest, RowIngredient);
      }
    }
  }

  /** Ingredients in no cart recipe are not listed, and an empty cart lists nothing. */
  lemma ShoppingRowsOnlyUsed(ingredients: seq<Ingredient>, lines: seq<IngredientPass>, cart: seq<Mark>, user: UserId)
    ensures forall row :: row in ShoppingRows(ingredients, CartLines(lines, cart, user)) ==>
              exists l, m :: l in lines && m in cart && m.user == user && m.recipe == l.recipe && l.ingredient == row.ingredient
    ensures CartRecipes(cart, user) == {} ==> ShoppingRows(ingredients, CartLines(lines, cart, user)) == []
  {
    var cl := CartLines(lines, cart, user);
    if CartRecipes(cart, user) == {} {
      FilterNone(InRecipes(CartRecipes(cart, user)), lines);
      EmptyCartLines(ingredients);
    }
  }

  lemma {:induction false} EmptyCartLines(ingredients: seq<Ingredient>)
    ensures ShoppingRows(ingredients, []) == []
  {
    if ingredients != [] {
      EmptyCartLines(ingredients[1..]);
    }
  }

  /**
   * Two ingredients named alike but stored as two rows are listed as two
   * rows, each with its own amount.
   */
  lemma SameNameStaysSeparate()
    ensures ShoppingRows([Ingredient(1, "salt", "g"), Ingredient(2, "salt", "kg")],
                         [IngredientPass(1, 5, 7), IngredientPass(2, 3, 7)])
            == [ShoppingRow(1, "salt", "g", 5), ShoppingRow(2, "salt", "kg", 3)]
  {
    var cl := [IngredientPass(1, 5, 7), IngredientPass(2, 3, 7)];
    assert cl[0] in cl && cl[1] in cl;
    assert cl[1..] == [IngredientPass(2, 3, 7)];
    assert Uses(cl, 1) && Uses(cl, 2);
    assert SumFor(cl, 1) == 5 && SumFor(cl, 2) == 3;
  }

  // The join as the database performs it: each line is counted once per cart
  // row of the user that points at its recipe.

  function MarkOn(user: UserId, rid: RecipeId): Mark -> bool
  {
    (m: Mark) => m.user == user && m.recipe == rid
  }

  /** The number of `user`'s cart rows on recipe `rid`. */
  function CartMatches(cart: seq<Mark>, user: UserId, rid: RecipeId): nat
  {
    |Filter(MarkOn(user, rid), cart)|
  }

  /** `Sum("recipe_pass__amount")` over the rows of the filtered join. */
  function JoinSum(lines: seq<IngredientPass>, cart: seq<Mark>, user: UserId, iid: IngredientId): int
  {
    if lines == [] then 0
    else
      (if lines[0].ingredient == iid then lines[0].amount * CartMatches(cart, user, lines[0].recipe) else 0)
      + JoinSum(lines[1..], cart, user, iid)
  }

  /** Under the unique (user, recipe) constraint of the cart, a recipe matches at most one cart row. */
  lemma CartMatchesAtMostOne(cart: seq<Mark>, user: UserId, rid: RecipeId)
    requires UniqueBy(cart, MarkKey)
    ensures CartMatches(cart, user, rid) == if rid in CartRecipes(cart, user) then 1 else 0
  {
    FilterAtMostOne(MarkOn(user, rid), cart, MarkKey, (user, rid));
  }

  /**
   * The summed amount of the query equals the sum over the cart lines: the
   * cart's unique constraint keeps the join from counting a line twice.
   */
  lemma {:induction false} QueryJoinCountsEachLineOnce(lines: seq<IngredientPass>, cart: seq<Mark>, user: UserId, iid: IngredientId)
    requires UniqueBy(cart, MarkKey)
    ensures JoinSum(lines, cart, user, iid) == SumFor(CartLines(lines, cart, user), iid)
  {
    if lines != [] {
      var p := InRecipes(CartRecipes(cart, user));
      QueryJoinCountsEachLineOnce(lines[1..], cart, user, iid);
      CartMatchesAtMostOne(cart, user, lines[0].recipe);
      var head := if p(lines[0]) then [lines[0]] else [];
      assert Filter(p, lines) == head + Filter(p, lines[1..]);
      if p(lines[0]) {
        assert (head + Filter(p, lines[1..]))[1..] == Filter(p, lines[1..]);
      } else {
        assert head + Filter(p, lines[1..]) == Filter(p, lines[1..]);
      }
    }
  }

  // ---------------------------------------------------------------------
  // download_shopping_cart: the text

  /** The first line of the shopping list. */
  const Title: string := "Список покупок:"
  const Header: string := Title + "\n"

  /** One line of the list: capitalized name, amount, unit, then a comma. */
  function RowLine(row: ShoppingRow): string
  {
    Capitalize(row.name) + " " + IntToString(row.amount) + " " + row.measures + ",\n"
  }

  /** The lines of `rows`, in order. */
  function Lines(rows: seq<ShoppingRow>): string
  {
    if rows == [] then "" else Lines(rows[..|rows| - 1]) + RowLine(rows[|rows| - 1])
  }

  function ShoppingText(rows: seq<ShoppingRow>): string
  {
    Header + Lines(rows)
  }

  predicate NoNewline(s: string)
  {
    forall c :: c in s ==> c != '\n'
  }

  function NewlineCount(s: string): nat
  {
    multiset(s)['\n']
  }

  lemma NewlineCountAppend(a: string, b: string)
    ensures NewlineCount(a + b) == NewlineCount(a) + NewlineCount(b)
  {
    assert multiset(a + b) == multiset(a) + multiset(b);
  }

  lemma NoNewlineCount(s: string)
    requires NoNewline(s)
    ensures NewlineCount(s) == 0
  {
    assert '\n' !in s;
    assert '\n' !in multiset(s);
  }

  lemma CapitalizeNoNewline(s: string)
    requires NoNewline(s)
    ensures NoNewline(Capitalize(s))
  {
    var cap := Capitalize(s);
    CapitalizeShape(s);
    forall c | c in cap ensures c != '\n' {
      var k :| 0 <= k < |cap| && cap[k] == c;
      assert s[k] in s;
      if k > 0 {
        assert cap[k] == LowerStr(s[1..])[k - 1];
      }
    }
  }

  lemma IntToStringNoNewline(n: int)
    ensures NoNewline(IntToString(n))
  {
    if n < 0 {
      assert IntToString(n) == "-" + NatToString(-n);
    }
  }

  /** A line built from three newline-free parts ends in its only newline. */
  lemma LineShapeCount(a: string, b: string, c: string)
    requires NoNewline(a) && NoNewline(b) && NoNewline(c)
    ensures NewlineCount(a + " " + b + " " + c + ",\n") == 1
  {
    NoNewlineCount(a);
    NoNewlineCount(b);
    NoNewlineCount(c);
    NewlineCountAppend(a, " ");
    NewlineCountAppend(a + " ", b);
    NewlineCountAppend(a + " " + b, " ");
    NewlineCountAppend(a + " " + b + " ", c);
    NewlineCountAppend(a + " " + b + " " + c, ",\n");
  }

  lemma RowLineHasOneNewline(row: ShoppingRow)
    requires NoNewline(row.name) && NoNewline(row.measures)
    ensures NewlineCount(RowLine(row)) == 1
  {
    CapitalizeNoNewline(row.name);
    IntToStringNoNewline(row.amount);
    LineShapeCount(Capitalize(row.name), IntToString(row.amount), row.measures);
  }

  lemma LinesStep(rows: seq<ShoppingRow>, i: nat)
    requires i < |rows|
    ensures Lines(rows[..i + 1]) == Lines(rows[..i]) + RowLine(rows[i])
  {
    assert rows[..i + 1][..i] == rows[..i];
  }

  /** Each row contributes exactly one line. */
  lemma {:induction false} LinesCount(rows: seq<ShoppingRow>)
    requires forall row :: row in rows ==> NoNewline(row.name) && NoNewline(row.measures)
    ensures NewlineCount(Lines(rows)) == |rows|
  {
    if rows != [] {
      var init := rows[..|rows| - 1];
      var last := rows[|rows| - 1];
      assert forall row :: row in init ==> row in rows;
      LinesCount(init);
      assert last in rows;
      RowLineHasOneNewline(last);
      assert Lines(rows) == Lines(init) + RowLine(last);
      NewlineCountAppend(Lines(init), RowLine(last));
    }
  }

  lemma TitleNoNewline()
    ensures NoNewline(Title)
  {
    forall c | c in Title ensures c != '\n' {
      var k :| 0 <= k < |Title| && Title[k] == c;
    }
  }

  lemma HeaderHasOneNewline()
    ensures NewlineCount(Header) == 1
  {
    TitleNoNewline();
    NoNewlineCount(Title);
    NewlineCountAppend(Title, "\n");
    assert NewlineCount("\n") == 1 by {
      assert multiset("\n") == multiset{'\n'};
    }
  }

  /** The text is the header and then one line per row: `|rows| + 1` newlines when no name or unit holds one. */
  lemma ShoppingTextLineCount(rows: seq<ShoppingRow>)
    requires forall row :: row in rows ==> NoNewline(row.name) && NoNewline(row.measures)
    ensures NewlineCount(ShoppingText(rows)) == |rows| + 1
  {
    LinesCount(rows);
    HeaderHasOneNewline();
    NewlineCountAppend(Header, Lines(rows));
  }

  /** An empty cart downloads as the header alone. */
  lemma EmptyCartIsHeaderOnly(ingredients: seq<Ingredient>, lines: seq<IngredientPass>, cart: seq<Mark>, user: UserId)
    requires forall m :: m in cart ==> m.user != user
    ensures ShoppingText(ShoppingRows(ingredients, CartLines(lines, cart, user))) == Header
  {
    assert CartRecipes(cart, user) == {};
    ShoppingRowsOnlyUsed(ingredients, lines, cart, user);
  }

  /** The loop of `download_shopping_cart`: the header, then each row's line appended. */
  method RenderShoppingList(rows: seq<ShoppingRow>) returns (text: string)
    ensures text == ShoppingText(rows)
  {
    text := Header;
    for i := 0 to |rows|
      invariant text == Header + Lines(rows[..i])
    {
      LinesStep(rows, i);
      AppendAssoc(Header, Lines(rows[..i]), RowLine(rows[i]));
      text := text + RowLine(rows[i]);
    }
    assert rows[..|rows|] == rows;
  }

  datatype FileResponse = FileResponse(content: string, contentType: string, disposition: string)

  /**
   * `download_shopping_cart` for the requesting `user`. The query in the
   * source is pinned to user id 1; the requesting user is evidently meant,
   * so the user is a parameter here.
   */
  method DownloadShoppingCart(ingredients: seq<Ingredient>, lines: seq<IngredientPass>, cart: seq<Mark>, user: UserId)
    returns (response: FileResponse)
    ensures response.content == ShoppingText(ShoppingRows(ingredients, CartLines(lines, cart, user)))
    ensures response.contentType == "text/plain"
    ensures response.disposition == "attachment; filename=Shopping list.txt"
  {
    var rows := ShoppingRows(ingredients, CartLines(lines, cart, user));
    var text := RenderShoppingList(rows);
    response := FileResponse(text, "text/plain", "attachment; filename=Shopping list.txt");
  }

  // ---------------------------------------------------------------------
  // favorite and shopping_cart

  datatype Verb = Post | Delete

  /** `favorite`: POST adds to the favourites, DELETE removes from them; the cart is left alone. */
  method Favorite(verb: Verb, favorites: MarkTable, cart: MarkTable, user: UserId, pk: int, recipeIds: set<RecipeId>)
    returns (status: Status)
    requires favorites != cart && favorites.Valid()
    modifies favorites
    ensures favorites.Valid()
    ensures status == if verb == Post then AddOutcome(old(favorites.rows), user, pk, recipeIds)
                      else DeleteOutcome(old(favorites.rows), user, pk, recipeIds)
    ensures favorites.rows == if status == Created then old(favorites.rows) + [Mark(old(favorites.nextId), user, pk)]
                              else if status == NoContent then Unmark(old(favorites.rows), user, pk)
                              else old(favorites.rows)
    ensures cart.rows == old(cart.rows)
  {
    if verb == Post {
      status := favorites.AddTo(user, pk, recipeIds);
    } else {
      status := favorites.DeleteFrom(user, pk, recipeIds);
    }
  }

  /** `shopping_cart`: the same routing on the cart; the favourites are left alone. */
  method ShoppingCart(verb: Verb, favorites: MarkTable, cart: MarkTable, user: UserId, pk: int, recipeIds: set<RecipeId>)
    returns (status: Status)
    requires favorites != cart && cart.Valid()
    modifies cart
    ensures cart.Valid()
    ensures status == if verb == Post then AddOutcome(old(cart.rows), user, pk, recipeIds)
                      else DeleteOutcome(old(cart.rows), user, pk, recipeIds)
    ensures cart.rows == if status == Created then old(cart.rows) + [Mark(old(cart.nextId), user, pk)]
                         else if status == NoContent then Unmark(old(cart.rows), user, pk)
                         else old(cart.rows)
    ensures favorites.rows == old(favorites.rows)
  {
    if verb == Post {
      status := cart.AddTo(user, pk, recipeIds);
    } else {
      status := cart.DeleteFrom(user, pk, recipeIds);
    }
  }

  /** The serializer's flags follow the mark operations: set after a created mark, clear after a delete. */
  lemma FlagsFollowMarks(marks: seq<Mark>, nextId: nat, user: UserId, pk: int, recipeIds: set<RecipeId>)
    ensures AddOutcome(marks, user, pk, recipeIds) == Created ==>
              pk >= 0 && IsFavorited(marks + [Mark(nextId, user, pk)], Some(user), pk)
    ensures pk >= 0 && DeleteOutcome(marks, user, pk, recipeIds) == NoContent ==>
              !IsInShoppingCart(Unmark(marks, user, pk), Some(user), pk)
    ensures pk >= 0 && DeleteOutcome(marks, user, pk, recipeIds) == BadRequest ==>
              !IsInShoppingCart(marks, Some(user), pk)
  {
    if AddOutcome(marks, user, pk, recipeIds) == Created {
      assert Mark(nextId, user, pk) in marks + [Mark(nextId, user, pk)];
    }
  }

  // ---------------------------------------------------------------------
  // subscribe

  function EdgeOf(user: UserId, author: UserId): Follow -> bool
  {
    (f: Follow) => f.user == user && f.author == author
  }

  function NotEdgeOf(user: UserId, author: UserId): Follow -> bool
  {
    (f: Follow) => f.user != user || f.author != author
  }

  /** The number of (user, author) edges. */
  function EdgeCount(rows: seq<Follow>, user: UserId, author: UserId): nat
  {
    |Filter(EdgeOf(user, author), rows)|
  }

  /** `get_or_create(author=author, user=user)`: an edge is added only when none exists. */
  function GetOrCreate(rows: seq<Follow>, nextId: nat, user: UserId, author: UserId): (r: seq<Follow>)
    ensures Follows(r, user, author)
    ensures forall f :: f in rows ==> f in r
    ensures forall f :: f in r ==> f in rows || f == Follow(nextId, user, author)
  {
    if Follows(rows, user, author) then rows
    else
      assert Follow(nextId, user, author) in rows + [Follow(nextId, user, author)];
      rows + [Follow(nextId, user, author)]
  }

  /** `filter(author=author, user=user).delete()`. */
  function Unfollow(rows: seq<Follow>, user: UserId, author: UserId): (r: seq<Follow>)
    ensures !Follows(r, user, author)
    ensures forall f :: f in r <==> f in rows && (f.user != user || f.author != author)
  {
    Filter(NotEdgeOf(user, author), rows)
  }

  /** Subscribing again changes nothing. */
  lemma SubscribeIdempotent(rows: seq<Follow>, n1: nat, n2: nat, user: UserId, author: UserId)
    ensures GetOrCreate(GetOrCreate(rows, n1, user, author), n2, user, author) == GetOrCreate(rows, n1, user, author)
  {
  }

  /** After subscribing a consistent table holds exactly one edge for the pair. */
  lemma SubscribeLeavesOneEdge(rows: seq<Follow>, nextId: nat, user: UserId, author: UserId)
    requires UniqueBy(rows, FollowKey)
    ensures UniqueBy(GetOrCreate(rows, nextId, user, author), FollowKey)
    ensures EdgeCount(GetOrCreate(rows, nextId, user, author), user, author) == 1
  {
    var r := GetOrCreate(rows, nextId, user, author);
    if !Follows(rows, user, author) {
      forall i, j | 0 <= i < |rows| && 0 <= j < 1 ensures FollowKey(rows[i]) != FollowKey([Follow(nextId, user, author)][j]) {
        assert rows[i] in rows;
      }
      UniqueAppend(rows, [Follow(nextId, user, author)], FollowKey);
    }
    FilterAtMostOne(EdgeOf(user, author), r, FollowKey, (user, author));
  }

  /** Unsubscribing twice is unsubscribing once. */
  lemma {:induction false} UnsubscribeIdempotent(rows: seq<Follow>, user: UserId, author: UserId)
    ensures Unfollow(Unfollow(rows, user, author), user, author) == Unfollow(rows, user, author)
  {
    var once := Unfollow(rows, user, author);
    FilterAll(NotEdgeOf(user, author), once);
  }

  /** Subscribing and then unsubscribing leaves no edge, and every other edge as it was. */
  lemma UnsubscribeUndoesSubscribe(rows: seq<Follow>, nextId: nat, user: UserId, author: UserId)
    requires !Follows(rows, user, author)
    ensures Unfollow(GetOrCreate(rows, nextId, user, author), user, author) == rows
  {
    var added := Follow(nextId, user, author);
    FilterAppend(NotEdgeOf(user, author), rows, [added]);
    assert Filter(NotEdgeOf(user, author), [added]) == [];
    FilterAll(NotEdgeOf(user, author), rows);
  }

  /** The follow table the `subscribe` action writes. */
  class FollowTable {
    var rows: seq<Follow>
    var nextId: nat

    ghost predicate Valid()
      reads this
    {
      UniqueBy(rows, FollowKey) && AscendingBy(rows, FollowIdOf) && forall f :: f in rows ==> f.id < nextId
    }

    constructor ()
      ensures Valid() && rows == []
    {
      rows := [];
      nextId := 1;
    }

    /**
     * `subscribe` on POST: 404 for an unknown author, otherwise the edge is
     * fetched or created and the answer is 201 either way. The action does
     * not run the serializer's self-subscription check.
     */
    method Subscribe(user: UserId, author: UserId, userIds: set<UserId>) returns (status: Status)
      requires Valid()
      modifies this
      ensures Valid()
      ensures status == if author in userIds then Created else NotFound
      ensures status == NotFound ==> rows == old(rows) && nextId == old(nextId)
      ensures status == Created ==> rows == GetOrCreate(old(rows), old(nextId), user, author)
    {
      if author !in userIds {
        return NotFound;
      }
      SubscribeLeavesOneEdge(rows, nextId, user, author);
      var added := GetOrCreate(rows, nextId, user, author);
      forall i, j | 0 <= i < j < |added| ensures FollowIdOf(added[i]) < FollowIdOf(added[j]) {
        if j == |rows| {
          assert added[i] in rows;
        }
      }
      if added != rows {
        rows := added;
        nextId := nextId + 1;
      }
      return Created;
    }

    /** `subscribe` on DELETE: 404 for an unknown author, otherwise the edge is removed if present and the answer is 204. */
    method Unsubscribe(user: UserId, author: UserId, userIds: set<UserId>) returns (status: Status)
      requires Valid()
      modifies this
      ensures Valid() && nextId == old(nextId)
      ensures status == if author in userIds then NoContent else NotFound
      ensures status == NotFound ==> rows == old(rows)
      ensures status == NoContent ==> rows == Unfollow(old(rows), user, author)
    {
      if author !in userIds {
        return NotFound;
      }
      FilterKeepsUnique(NotEdgeOf(user, author), rows, FollowKey);
      FilterKeepsAscending(NotEdgeOf(user, author), rows, FollowIdOf);
      rows := Unfollow(rows, user, author);
      return NoContent;
    }
  }
}
