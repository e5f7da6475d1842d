/**
 * The recipe catalogue: ingredients, tags, recipes, the join rows that give a
 * recipe its quantified ingredients (`IngredientPass`) and its tags
 * (`TagPass`), and the two per-user mark tables (`Favorite`, `ShopCart`).
 *
 * Every table is a sequence of rows in insertion order. The declared field
 * limits and UNIQUE constraints become predicates on the rows, collected with
 * the foreign keys into `Valid` on a snapshot of the whole database; the
 * `on_delete=CASCADE` foreign keys become `Cascade`, which is proved to keep
 * `Valid`.
 *
 * `NoPositivityChecks` is stated for its own sake: it records that the
 * declared column types admit a zero cooking time and non-positive amounts,
 * and no other member builds on it.
 */
module Recipes {
  import opened Common
  import opened Users

  type IngredientId = nat
  type TagId = nat
  type RecipeId = nat

  /** A calendar day, numbered; only compared with `>=` by the date filter. */
  type Date = int

  const ShortTextMaxLength: nat := 50
  const ColorMaxLength: nat := 7
  /** Upper bound of a PositiveSmallIntegerField; its lower bound is 0. */
  const SmallIntMax: int := 32767
  /** Bounds of an IntegerField column. */
  const IntMin: int := -2147483648
  const IntMax: int := 2147483647

  datatype Ingredient = Ingredient(id: IngredientId, name: string, measures: string)

  datatype Tag = Tag(id: TagId, name: string, color: string, slug: string)

  /**
   * A recipe row. The image column is not modelled. The model class declares
   * no `created` column although the recipe filter looks one up; the column
   * the filter evidently expects is added here as the creation day.
   */
  datatype Recipe = Recipe(id: RecipeId, author: UserId, name: string, text: string,
                           cookingTime: int, created: Date)

  /** One ingredient line of a recipe, with its amount. */
  datatype IngredientPass = IngredientPass(ingredient: IngredientId, amount: int, recipe: RecipeId)

  datatype TagPass = TagPass(tag: TagId, recipe: RecipeId)

  /** A row of the `Favorite` or of the `ShopCart` table: `user` marked `recipe`. */
  datatype Mark = Mark(id: nat, user: UserId, recipe: RecipeId)

  function IngredientIdOf(i: Ingredient): IngredientId { i.id }
  function IngredientName(i: Ingredient): string { i.name }
  function TagIdOf(t: Tag): TagId { t.id }
  function TagName(t: Tag): string { t.name }
  function TagColor(t: Tag): string { t.color }
  function TagSlug(t: Tag): string { t.slug }
  function RecipeIdOf(r: Recipe): int { r.id }
  function LineKey(l: IngredientPass): (IngredientId, RecipeId) { (l.ingredient, l.recipe) }
  function MarkKey(m: Mark): (UserId, RecipeId) { (m.user, m.recipe) }
  function MarkIdOf(m: Mark): int { m.id }

  // ---------------------------------------------------------------------
  // Field limits of single rows.

  predicate IngredientRowValid(i: Ingredient)
  {
    |i.name| <= ShortTextMaxLength && |i.measures| <= ShortTextMaxLength
  }

  predicate TagRowValid(t: Tag)
  {
    |t.name| <= ShortTextMaxLength && |t.color| <= ColorMaxLength && |t.slug| <= ShortTextMaxLength
  }

  /** `cooking_time` is a PositiveSmallIntegerField: 0 is accepted. */
  predicate RecipeRowValid(r: Recipe)
  {
    |r.name| <= ShortTextMaxLength && 0 <= r.cookingTime <= SmallIntMax
  }

  /** `amount` is a plain IntegerField: only the column width limits it. */
  predicate LineRowValid(l: IngredientPass)
  {
    IntMin <= l.amount <= IntMax
  }

  /** Neither column carries a positivity check: a zero cooking time and a zero or negative amount are stored. */
  lemma NoPositivityChecks(r: Recipe, l: IngredientPass)
    requires |r.name| <= ShortTextMaxLength && r.cookingTime == 0
    requires l.amount == 0 || l.amount == -1
    ensures RecipeRowValid(r) && LineRowValid(l)
  {
  }

  // ---------------------------------------------------------------------
  // Tables.

  function IngredientIds(ingredients: seq<Ingredient>): set<IngredientId>
  {
    set i | i in ingredients :: i.id
  }

  function TagIds(tags: seq<Tag>): set<TagId>
  {
    set t | t in tags :: t.id
  }

  function RecipeIds(recipes: seq<Recipe>): set<RecipeId>
  {
    set r | r in recipes :: r.id
  }

  ghost predicate IngredientsValid(ingredients: seq<Ingredient>)
  {
    (forall i :: i in ingredients ==> IngredientRowValid(i)) && UniqueBy(ingredients, IngredientIdOf)
  }

  /** Tag name, color and slug are each UNIQUE. */
  ghost predicate TagsValid(tags: seq<Tag>)
  {
    && (forall t :: t in tags ==> TagRowValid(t))
    && UniqueBy(tags, TagIdOf)
    && UniqueBy(tags, TagName)
    && UniqueBy(tags, TagColor)
    && UniqueBy(tags, TagSlug)
  }

  ghost predicate RecipesValid(recipes: seq<Recipe>, userIds: set<UserId>)
  {
    && (forall r :: r in recipes ==> RecipeRowValid(r) && r.author in userIds)
    && AscendingBy(recipes, RecipeIdOf)
  }

  /** At most one line per (ingredient, recipe): constraint `unique_Ingredient_recipe`. */
  ghost predicate LinesUnique(lines: seq<IngredientPass>)
  {
    UniqueBy(lines, LineKey)
  }

  ghost predicate LinesValid(lines: seq<IngredientPass>, ingredientIds: set<IngredientId>, recipeIds: set<RecipeId>)
  {
    && LinesUnique(lines)
    && (forall l :: l in lines ==> LineRowValid(l) && l.ingredient in ingredientIds && l.recipe in recipeIds)
  }

  /**
   * Tag links form a set of (tag, recipe) pairs, so constraint
   * `unique_tag_recipe` holds by construction; what remains are the foreign keys.
   */
  ghost predicate TagLinksValid(links: set<TagPass>, tagIds: set<TagId>, recipeIds: set<RecipeId>)
  {
    forall l :: l in links ==> l.tag in tagIds && l.recipe in recipeIds
  }

  /** At most one mark per (user, recipe), ids in insertion order. */
  ghost predicate MarksUnique(marks: seq<Mark>)
  {
    UniqueBy(marks, MarkKey) && AscendingBy(marks, MarkIdOf)
  }

  ghost predicate MarksValid(marks: seq<Mark>, userIds: set<UserId>, recipeIds: set<RecipeId>)
  {
    MarksUnique(marks) && (forall m :: m in marks ==> m.user in userIds && m.recipe in recipeIds)
  }

  /** `user` holds a mark on `recipe`: `Model.objects.filter(user=user, recipe=recipe).exists()`. */
  predicate Marked(marks: seq<Mark>, user: UserId, recipe: RecipeId)
  {
    exists m :: m in marks && m.user == user && m.recipe == recipe
  }

  /** A snapshot of the whole database. */
  datatype Db = Db(users: seq<User>, follows: seq<Follow>,
                   ingredients: seq<Ingredient>, tags: seq<Tag>, recipes: seq<Recipe>,
                   lines: seq<IngredientPass>, tagLinks: set<TagPass>,
                   favorites: seq<Mark>, cart: seq<Mark>)

  /** Every declared constraint and foreign key of both apps holds. */
  ghost predicate Valid(db: Db)
  {
    && UsersValid(db.users)
    && FollowsValid(db.follows, UserIds(db.users))
    && IngredientsValid(db.ingredients)
    && TagsValid(db.tags)
    && RecipesValid(db.recipes, UserIds(db.users))
    && LinesValid(db.lines, IngredientIds(db.ingredients), RecipeIds(db.recipes))
    && TagLinksValid(db.tagLinks, TagIds(db.tags), RecipeIds(db.recipes))
    && MarksValid(db.favorites, UserIds(db.users), RecipeIds(db.recipes))
    && MarksValid(db.cart, UserIds(db.users), RecipeIds(db.recipes))
  }

  // ---------------------------------------------------------------------
  // Default orderings.

  /** Recipes as the default manager lists them: `ordering = ('-id',)`. */
  function RecipeList(recipes: seq<Recipe>): seq<Recipe>
  {
    Reverse(recipes)
  }

  /** The recipe list is newest first and holds exactly the recipe rows. */
  lemma RecipeListNewestFirst(recipes: seq<Recipe>, userIds: set<UserId>)
    requires RecipesValid(recipes, userIds)
    ensures DescendingBy(RecipeList(recipes), RecipeIdOf)
    ensures multiset(RecipeList(recipes)) == multiset(recipes)
  {
    ReverseOfAscendingIsDescending(recipes, RecipeIdOf);
  }

  /** Ingredients as the default manager lists them: `ordering = ('name',)`. */
  function IngredientList(ingredients: seq<Ingredient>): (r: seq<Ingredient>)
    ensures SortedBy(r, IngredientName)
    ensures multiset(r) == multiset(ingredients)
  {
    SortBy(ingredients, IngredientName)
  }

  // ---------------------------------------------------------------------
  // Cascading deletes.

  function RecipeKept(gone: set<RecipeId>): Recipe -> bool
  {
    (r: Recipe) => r.id !in gone
  }

  function LineKept(gone: set<RecipeId>): IngredientPass -> bool
  {
    (l: IngredientPass) => l.recipe !in gone
  }

  function MarkKept(goneUsers: set<UserId>, gone: set<RecipeId>): Mark -> bool
  {
    (m: Mark) => m.user !in goneUsers && m.recipe !in gone
  }

  /** The recipes written by `uid`. */
  function AuthoredBy(recipes: seq<Recipe>, uid: UserId): set<RecipeId>
  {
    set r | r in recipes && r.author == uid :: r.id
  }

  /**
   * Deletes the users `goneUsers` and the recipes `gone` together with every
   * row whose foreign key points at one of them.
   */
  function Cascade(db: Db, goneUsers: set<UserId>, gone: set<RecipeId>): Db
  {
    Db(Filter(UserKept(goneUsers), db.users),
       DropFollowsOf(db.follows, goneUsers),
       db.ingredients, db.tags,
       Filter(RecipeKept(gone), db.recipes),
       Filter(LineKept(gone), db.lines),
       (set l | l in db.tagLinks && l.recipe !in gone),
       Filter(MarkKept(goneUsers, gone), db.favorites),
       Filter(MarkKept(goneUsers, gone), db.cart))
  }

  lemma RecipeIdsAfterDrop(recipes: seq<Recipe>, gone: set<RecipeId>)
    ensures RecipeIds(Filter(RecipeKept(gone), recipes)) == RecipeIds(recipes) - gone
  {
    var kept := Filter(RecipeKept(gone), recipes);
    forall id | id in RecipeIds(recipes) - gone ensures id in RecipeIds(kept) {
      var r :| r in recipes && r.id == id;
      assert r in kept;
    }
  }

  lemma MarksAfterDrop(marks: seq<Mark>, userIds: set<UserId>, recipeIds: set<RecipeId>,
                       goneUsers: set<UserId>, gone: set<RecipeId>)
    requires MarksValid(marks, userIds, recipeIds)
    ensures MarksValid(Filter(MarkKept(goneUsers, gone), marks), userIds - goneUsers, recipeIds - gone)
  {
    FilterKeepsUnique(MarkKept(goneUsers, gone), marks, MarkKey);
    FilterKeepsAscending(MarkKept(goneUsers, gone), marks, MarkIdOf);
  }

  /** A cascade that takes the recipes of every deleted user with it leaves a consistent database. */
  lemma CascadeValid(db: Db, goneUsers: set<UserId>, gone: set<RecipeId>)
    requires Valid(db)
    requires forall r :: r in db.recipes && r.author in goneUsers ==> r.id in gone
    ensures Valid(Cascade(db, goneUsers, gone))
  {
    var d := Cascade(db, goneUsers, gone);
    DropUsersValid(db.users, goneUsers);
    DropFollowsOfValid(db.follows, UserIds(db.users), goneUsers);
    RecipeIdsAfterDrop(db.recipes, gone);
    FilterKeepsAscending(RecipeKept(gone), db.recipes, RecipeIdOf);
    FilterKeepsUnique(LineKept(gone), db.lines, LineKey);
    MarksAfterDrop(db.favorites, UserIds(db.users), RecipeIds(db.recipes), goneUsers, gone);
    MarksAfterDrop(db.cart, UserIds(db.users), RecipeIds(db.recipes), goneUsers, gone);
    assert RecipesValid(d.recipes, UserIds(d.users));
  }

  /** Deleting a recipe. */
  function DeleteRecipe(db: Db, rid: RecipeId): Db
  {
    Cascade(db, {}, {rid})
  }

  /**
   * Deleting a recipe removes every ingredient line, tag link, favorite and
   * cart mark that refers to it and keeps every other row.
   */
  lemma DeleteRecipeCascades(db: Db, rid: RecipeId)
    ensures rid !in RecipeIds(DeleteRecipe(db, rid).recipes)
    ensures forall r :: r in DeleteRecipe(db, rid).recipes <==> r in db.recipes && r.id != rid
    ensures forall l :: l in DeleteRecipe(db, rid).lines <==> l in db.lines && l.recipe != rid
    ensures forall l :: l in DeleteRecipe(db, rid).tagLinks <==> l in db.tagLinks && l.recipe != rid
    ensures forall m :: m in DeleteRecipe(db, rid).favorites <==> m in db.favorites && m.recipe != rid
    ensures forall m :: m in DeleteRecipe(db, rid).cart <==> m in db.cart && m.recipe != rid
    ensures forall u :: !Marked(DeleteRecipe(db, rid).favorites, u, rid) && !Marked(DeleteRecipe(db, rid).cart, u, rid)
    ensures DeleteRecipe(db, rid).users == db.users && DeleteRecipe(db, rid).follows == db.follows
    ensures DeleteRecipe(db, rid).ingredients == db.ingredients && DeleteRecipe(db, rid).tags == db.tags
  {
    RecipeIdsAfterDrop(db.recipes, {rid});
    FilterAll(UserKept({}), db.users);
    FilterAll(TouchesNone({}), db.follows);
  }

  /** Deleting a recipe keeps the database consistent. */
  lemma DeleteRecipeValid(db: Db, rid: RecipeId)
    requires Valid(db)
    ensures Valid(DeleteRecipe(db, rid))
  {
    CascadeValid(db, {}, {rid});
  }

  /** Deleting a user; the recipes they wrote go with them. */
  function DeleteUser(db: Db, uid: UserId): Db
  {
    Cascade(db, {uid}, AuthoredBy(db.recipes, uid))
  }

  /** With unique recipe ids, a stored recipe's id is among the author's exactly when they wrote it. */
  lemma AuthoredByMeans(recipes: seq<Recipe>, uid: UserId)
    requires AscendingBy(recipes, RecipeIdOf)
    ensures forall r :: r in recipes ==> (r.id in AuthoredBy(recipes, uid) <==> r.author == uid)
  {
    forall r | r in recipes ensures r.id in AuthoredBy(recipes, uid) <==> r.author == uid {
      if r.id in AuthoredBy(recipes, uid) {
        var r' :| r' in recipes && r'.author == uid && r'.id == r.id;
        var i :| 0 <= i < |recipes| && recipes[i] == r;
        var j :| 0 <= j < |recipes| && recipes[j] == r';
        assert i == j;
      }
    }
  }

  /**
   * Deleting a user removes their follow edges on either side, their marks
   * and their recipes, and with those recipes every line, link and mark on them.
   */
  lemma DeleteUserCascades(db: Db, uid: UserId)
    requires AscendingBy(db.recipes, RecipeIdOf)
    ensures uid !in UserIds(DeleteUser(db, uid).users)
    ensures forall u :: u in DeleteUser(db, uid).users <==> u in db.users && u.id != uid
    ensures forall f :: f in DeleteUser(db, uid).follows <==> f in db.follows && f.user != uid && f.author != uid
    ensures forall r :: r in DeleteUser(db, uid).recipes <==> r in db.recipes && r.author != uid
    ensures forall m :: m in DeleteUser(db, uid).favorites <==> m in db.favorites && m.user != uid && m.recipe !in AuthoredBy(db.recipes, uid)
    ensures forall m :: m in DeleteUser(db, uid).cart <==> m in db.cart && m.user != uid && m.recipe !in AuthoredBy(db.recipes, uid)
    ensures forall l :: l in DeleteUser(db, uid).lines <==> l in db.lines && l.recipe !in AuthoredBy(db.recipes, uid)
    ensures forall l :: l in DeleteUser(db, uid).tagLinks <==> l in db.tagLinks && l.recipe !in AuthoredBy(db.recipes, uid)
    ensures DeleteUser(db, uid).ingredients == db.ingredients && DeleteUser(db, uid).tags == db.tags
  {
    var gone := AuthoredBy(db.recipes, uid);
    RecipeIdsAfterDrop(db.recipes, gone);
    AuthoredByMeans(db.recipes, uid);
  }

  /** Deleting a user keeps the database consistent. */
  lemma DeleteUserValid(db: Db, uid: UserId)
    requires Valid(db)
    ensures Valid(DeleteUser(db, uid))
  {
    CascadeValid(db, {uid}, AuthoredBy(db.recipes, uid));
  }

  function LineOfOther(iid: IngredientId): IngredientPass -> bool
  {
    (l: IngredientPass) => l.ingredient != iid
  }

  function IngredientKept(iid: IngredientId): Ingredient -> bool
  {
    (i: Ingredient) => i.id != iid
  }

  /** Deleting an ingredient from the catalogue. */
  function DeleteIngredient(db: Db, iid: IngredientId): Db
  {
    db.(ingredients := Filter(IngredientKept(iid), db.ingredients),
        lines := Filter(LineOfOther(iid), db.lines))
  }

  /** Deleting an ingredient removes exactly its lines and keeps the database consistent. */
  lemma DeleteIngredientCascades(db: Db, iid: IngredientId)
    requires Valid(db)
    ensures Valid(DeleteIngredient(db, iid))
    ensures forall l :: l in DeleteIngredient(db, iid).lines <==> l in db.lines && l.ingredient != iid
    ensures iid !in IngredientIds(DeleteIngredient(db, iid).ingredients)
    ensures forall i :: i in DeleteIngredient(db, iid).ingredients <==> i in db.ingredients && i.id != iid
    ensures var d := DeleteIngredient(db, iid);
            d.users == db.users && d.follows == db.follows && d.recipes == db.recipes && d.tags == db.tags
            && d.tagLinks == db.tagLinks && d.favorites == db.favorites && d.cart == db.cart
  {
    var d := DeleteIngredient(db, iid);
    FilterKeepsUnique(IngredientKept(iid), db.ingredients, IngredientIdOf);
    FilterKeepsUnique(LineOfOther(iid), db.lines, LineKey);
    forall l | l in d.lines ensures l.ingredient in IngredientIds(d.ingredients) {
      var i :| i in db.ingredients && i.id == l.ingredient;
      assert i in d.ingredients;
    }
  }

  function TagKept(tid: TagId): Tag -> bool
  {
    (t: Tag) => t.id != tid
  }

  /** Deleting a tag. */
  function DeleteTag(db: Db, tid: TagId): Db
  {
    db.(tags := Filter(TagKept(tid), db.tags),
        tagLinks := (set l | l in db.tagLinks && l.tag != tid))
  }

  /** Deleting a tag removes exactly its links to recipes and keeps the database consistent. */
  lemma DeleteTagCascades(db: Db, tid: TagId)
    requires Valid(db)
    ensures Valid(DeleteTag(db, tid))
    ensures forall l :: l in DeleteTag(db, tid).tagLinks <==> l in db.tagLinks && l.tag != tid
    ensures tid !in TagIds(DeleteTag(db, tid).tags)
    ensures forall t :: t in DeleteTag(db, tid).tags <==> t in db.tags && t.id != tid
    ensures var d := DeleteTag(db, tid);
            d.users == db.users && d.follows == db.follows && d.recipes == db.recipes && d.ingredients == db.ingredients
            && d.lines == db.lines && d.favorites == db.favorites && d.cart == db.cart
  {
    var d := DeleteTag(db, tid);
    FilterKeepsUnique(TagKept(tid), db.tags, TagIdOf);
    FilterKeepsUnique(TagKept(tid), db.tags, TagName);
    FilterKeepsUnique(TagKept(tid), db.tags, TagColor);
    FilterKeepsUnique(TagKept(tid), db.tags, TagSlug);
    forall l | l in d.tagLinks ensures l.tag in TagIds(d.tags) {
      var t :| t in db.tags && t.id == l.tag;
      assert t in d.tags;
    }
  }
}
