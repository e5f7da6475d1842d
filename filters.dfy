/**
 * The query filters of the recipe and ingredient lists. Each filter takes a
 * query set (a sequence of rows in list order) and returns the rows that
 * match, in the same order; a parameter the request does not carry leaves
 * the query set as it is.
 */
module Filters {
  import opened Common
  import opened Text
  import opened Users
  import opened Recipes

  /** A parameter the form refuses: a slug or an author that names no row (400). */
  datatype FilterError = UnknownTag | UnknownAuthor

  /** The query parameters of the recipe list; `tags` may repeat, so it is a set of slugs. */
  datatype RecipeQuery = RecipeQuery(
    tags: set<string>,
    author: Option<UserId>,
    created: Option<Date>,
    isFavorited: Option<bool>,
    isInShoppingCart: Option<bool>)

  // ---------------------------------------------------------------------
  // tags: any of the given slugs

  /** Recipe `rid` carries a tag whose slug is one of `slugs`. */
  predicate HasTagIn(tags: seq<Tag>, links: set<TagPass>, rid: RecipeId, slugs: set<string>)
  {
    exists t :: t in tags && t.slug in slugs && TagPass(t.id, rid) in links
  }

  function TaggedWithAny(tags: seq<Tag>, links: set<TagPass>, slugs: set<string>): Recipe -> bool
  {
    (r: Recipe) => HasTagIn(tags, links, r.id, slugs)
  }

  /**
   * `tags`: each slug must name a tag; the recipes kept are those with at
   * least one of the tags, each once; no slug means no filtering.
   */
  function TagFilter(qs: seq<Recipe>, tags: seq<Tag>, links: set<TagPass>, slugs: set<string>): (r: Result<seq<Recipe>, FilterError>)
    ensures r.Err? <==> exists s :: s in slugs && forall t :: t in tags ==> t.slug != s
    ensures r.Ok? && slugs == {} ==> r.value == qs
    ensures r.Ok? && slugs != {} ==> forall x :: x in r.value <==> x in qs && HasTagIn(tags, links, x.id, slugs)
  {
    if exists s :: s in slugs && forall t :: t in tags ==> t.slug != s then Err(UnknownTag)
    else if slugs == {} then Ok(qs)
    else Ok(Filter(TaggedWithAny(tags, links, slugs), qs))
  }

  // ---------------------------------------------------------------------
  // author and created

  function ByAuthor(author: UserId): Recipe -> bool
  {
    (r: Recipe) => r.author == author
  }

  /** `author`: the recipes of exactly that user. */
  function AuthorFilter(qs: seq<Recipe>, author: UserId): (r: seq<Recipe>)
    ensures forall x :: x in r <==> x in qs && x.author == author
  {
    Filter(ByAuthor(author), qs)
  }

  function CreatedSince(day: Date): Recipe -> bool
  {
    (r: Recipe) => r.created >= day
  }

  /** `created` (lookup `gte`): the recipes created on `day` or later, `day` included. */
  function CreatedFilter(qs: seq<Recipe>, day: Date): (r: seq<Recipe>)
    ensures forall x :: x in r <==> x in qs && x.created >= day
  {
    Filter(CreatedSince(day), qs)
  }

  // ---------------------------------------------------------------------
  // is_favorited and is_in_shopping_cart

  function MarkedBy(marks: seq<Mark>, user: UserId): Recipe -> bool
  {
    (r: Recipe) => Marked(marks, user, r.id)
  }

  /**
   * `filter_is_favorited`: called whenever the parameter is present, whatever
   * its value; an authenticated caller keeps only the recipes they
   * favorited, an anonymous one keeps everything. The source tests an
   * undefined name `user`; the request's user is evidently meant and is
   * `caller` here.
   */
  function FilterIsFavorited(qs: seq<Recipe>, value: Option<bool>, caller: Option<UserId>, favorites: seq<Mark>): (r: seq<Recipe>)
    ensures value.None? || caller.None? ==> r == qs
    ensures value.Some? && caller.Some? ==> forall x :: x in r <==> x in qs && Marked(favorites, caller.value, x.id)
  {
    if value.None? then qs
    else if caller.Some? then Filter(MarkedBy(favorites, caller.value), qs)
    else qs
  }

  /**
   * `filter_is_in_shopping_cart` as written: it filters on the favourites
   * relation, so the cart it is given plays no part.
   */
  function FilterIsInShoppingCart(qs: seq<Recipe>, value: Option<bool>, caller: Option<UserId>,
                                  favorites: seq<Mark>, cart: seq<Mark>): (r: seq<Recipe>)
    ensures value.None? || caller.None? ==> r == qs
    ensures value.Some? && caller.Some? ==> forall x :: x in r <==> x in qs && Marked(favorites, caller.value, x.id)
  {
    FilterIsFavorited(qs, value, caller, favorites)
  }

  /** The boolean's value is ignored: `false` filters exactly as `true` does. */
  lemma BooleanValueIgnored(qs: seq<Recipe>, caller: Option<UserId>, favorites: seq<Mark>, cart: seq<Mark>)
    ensures FilterIsFavorited(qs, Some(false), caller, favorites) == FilterIsFavorited(qs, Some(true), caller, favorites)
    ensures FilterIsInShoppingCart(qs, Some(false), caller, favorites, cart)
            == FilterIsInShoppingCart(qs, Some(true), caller, favorites, cart)
  {
  }

  /**
   * The cart filter answers from the favourites: a recipe that user 1 has
   * in the cart but not among the favourites is dropped, and a favourite
   * that is not in the cart is kept.
   */
  lemma CartFilterReadsFavorites()
    ensures FilterIsInShoppingCart([Recipe(7, 2, "soup", "", 10, 0), Recipe(8, 2, "tea", "", 5, 0)],
                                   Some(true), Some(1), [Mark(1, 1, 8)], [Mark(1, 1, 7)])
            == [Recipe(8, 2, "tea", "", 5, 0)]
  {
    var favorites := [Mark(1, 1, 8)];
    assert favorites[0] in favorites;
    assert !Marked(favorites, 1, 7);
  }

  // ---------------------------------------------------------------------
  // The whole filter set

  /** A recipe passes every parameter of `q`. */
  predicate Matches(db: Db, q: RecipeQuery, caller: Option<UserId>, x: Recipe)
  {
    && (q.tags == {} || HasTagIn(db.tags, db.tagLinks, x.id, q.tags))
    && (q.isFavorited.Some? && caller.Some? ==> Marked(db.favorites, caller.value, x.id))
    && (q.isInShoppingCart.Some? && caller.Some? ==> Marked(db.favorites, caller.value, x.id))
    && (q.created.Some? ==> x.created >= q.created.value)
    && (q.author.Some? ==> x.author == q.author.value)
  }

  /**
   * `RecipeFilter` on the query set `qs`: the parameters are checked, then
   * the filters run one after another; each keeps a subset of its input, so
   * their order does not change the result.
   */
  function ApplyRecipeFilter(db: Db, qs: seq<Recipe>, q: RecipeQuery, caller: Option<UserId>): (r: Result<seq<Recipe>, FilterError>)
    ensures r.Err? <==> (exists s :: s in q.tags && forall t :: t in db.tags ==> t.slug != s)
                        || (q.author.Some? && q.author.value !in UserIds(db.users))
    ensures r.Ok? ==> forall x :: x in r.value <==> x in qs && Matches(db, q, caller, x)
  {
    var tagged := TagFilter(qs, db.tags, db.tagLinks, q.tags);
    if tagged.Err? then Err(UnknownTag)
    else if q.author.Some? && q.author.value !in UserIds(db.users) then Err(UnknownAuthor)
    else
      var favorited := FilterIsFavorited(tagged.value, q.isFavorited, caller, db.favorites);
      var inCart := FilterIsInShoppingCart(favorited, q.isInShoppingCart, caller, db.favorites, db.cart);
      var dated := if q.created.Some? then CreatedFilter(inCart, q.created.value) else inCart;
      Ok(if q.author.Some? then AuthorFilter(dated, q.author.value) else dated)
  }

  /** Filtering keeps the list order: a newest-first list stays newest first. */
  lemma ApplyRecipeFilterKeepsOrder(db: Db, qs: seq<Recipe>, q: RecipeQuery, caller: Option<UserId>)
    requires DescendingBy(qs, RecipeIdOf)
    requires ApplyRecipeFilter(db, qs, q, caller).Ok?
    ensures DescendingBy(ApplyRecipeFilter(db, qs, q, caller).value, RecipeIdOf)
  {
    var tagged := TagFilter(qs, db.tags, db.tagLinks, q.tags).value;
    if q.tags != {} {
      FilterKeepsDescending(TaggedWithAny(db.tags, db.tagLinks, q.tags), qs, RecipeIdOf);
    }
    var favorited := FilterIsFavorited(tagged, q.isFavorited, caller, db.favorites);
    if q.isFavorited.Some? && caller.Some? {
      FilterKeepsDescending(MarkedBy(db.favorites, caller.value), tagged, RecipeIdOf);
    }
    var inCart := FilterIsInShoppingCart(favorited, q.isInShoppingCart, caller, db.favorites, db.cart);
    if q.isInShoppingCart.Some? && caller.Some? {
      FilterKeepsDescending(MarkedBy(db.favorites, caller.value), favorited, RecipeIdOf);
    }
    var dated := if q.created.Some? then CreatedFilter(inCart, q.created.value) else inCart;
    if q.created.Some? {
      FilterKeepsDescending(CreatedSince(q.created.value), inCart, RecipeIdOf);
    }
    if q.author.Some? {
      FilterKeepsDescending(ByAuthor(q.author.value), dated, RecipeIdOf);
    }
  }

  /** On the recipe list, the filtered result is newest first and holds only stored recipes. */
  lemma RecipeListFiltered(db: Db, q: RecipeQuery, caller: Option<UserId>)
    requires Valid(db)
    requires ApplyRecipeFilter(db, RecipeList(db.recipes), q, caller).Ok?
    ensures DescendingBy(ApplyRecipeFilter(db, RecipeList(db.recipes), q, caller).value, RecipeIdOf)
    ensures forall x :: x in ApplyRecipeFilter(db, RecipeList(db.recipes), q, caller).value ==> x in db.recipes
  {
    RecipeListNewestFirst(db.recipes, UserIds(db.users));
    ApplyRecipeFilterKeepsOrder(db, RecipeList(db.recipes), q, caller);
    var listed := RecipeList(db.recipes);
    assert forall x :: x in listed ==> x in multiset(listed);
  }

  // ---------------------------------------------------------------------
  // IngredientFilter

  function NameContains(query: string): Ingredient -> bool
  {
    (i: Ingredient) => ContainsIgnoringCase(i.name, query)
  }

  /** `name` (lookup `icontains`): the ingredients whose name contains the query, ignoring case. */
  function IngredientFilter(qs: seq<Ingredient>, name: Option<string>): (r: seq<Ingredient>)
    ensures name.None? ==> r == qs
    ensures name.Some? ==> forall i :: i in r <==> i in qs && ContainsIgnoringCase(i.name, name.value)
  {
    if name.None? then qs else Filter(NameContains(name.value), qs)
  }

  /** The ingredient list filtered by name stays sorted by name. */
  lemma IngredientFilterKeepsOrder(ingredients: seq<Ingredient>, name: Option<string>)
    ensures SortedBy(IngredientFilter(IngredientList(ingredients), name), IngredientName)
    ensures forall i :: i in IngredientFilter(IngredientList(ingredients), name) ==> i in ingredients
  {
    var listed := IngredientList(ingredients);
    if name.Some? {
      FilterKeepsSorted(NameContains(name.value), listed, IngredientName);
    }
    assert forall i :: i in listed ==> i in multiset(listed);
  }

  /** An empty query matches every name. */
  lemma EmptyQueryMatchesAll(qs: seq<Ingredient>)
    ensures IngredientFilter(qs, Some("")) == qs
  {
    forall i | i in qs ensures ContainsIgnoringCase(i.name, "") {
      assert OccursAt(LowerStr(i.name), LowerStr(""), 0);
    }
    FilterAll(NameContains(""), qs);
  }
}
