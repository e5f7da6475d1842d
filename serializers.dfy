/**
 * The serializers of the API: the username validator, the ingredient-list
 * validator, the recipe writer (`create` inserts one ingredient line per
 * payload entry, `update` upserts the payload's lines into the existing
 * ones), the per-caller flags `is_favorited`, `is_in_shopping_cart` and
 * `is_subscribed`, the author's recipe list with its `recipes_limit`, and
 * the self-subscription check.
 */
module Serializers {
  import opened Common
  import opened Text
  import opened Users
  import opened Recipes

  datatype ValidationError =
    | ReservedName          // the username `me`
    | InvalidCharacters     // a username outside `[\w.@+-]+`
    | DuplicateIngredient   // the same ingredient twice in one recipe
    | UserNotFound          // no user has the subscriber's e-mail (404)
    | SelfFollow            // subscribing to oneself
    | NegativeLimit         // a negative `recipes_limit`: Django's negative-slice assertion, uncaught, so a 500 rather than a 400

  // ---------------------------------------------------------------------
  // UserSerializer.validate_username

  /** A character the pattern `[\w.@+-]` accepts. */
  predicate IsUsernameChar(c: char)
  {
    IsWordChar(c) || c == '.' || c == '@' || c == '+' || c == '-'
  }

  lemma LoweredUsernameChars(value: string)
    ensures (forall c :: c in LowerStr(value) ==> IsUsernameChar(c)) <==> (forall c :: c in value ==> IsUsernameChar(c))
  {
    var lowered := LowerStr(value);
    if forall c :: c in lowered ==> IsUsernameChar(c) {
      forall c | c in value ensures IsUsernameChar(c) {
        var k :| 0 <= k < |value| && value[k] == c;
        assert lowered[k] in lowered;
      }
    }
    if forall c :: c in value ==> IsUsernameChar(c) {
      forall c | c in lowered ensures IsUsernameChar(c) {
        var k :| 0 <= k < |lowered| && lowered[k] == c;
        assert value[k] in value;
      }
    }
  }

  /**
   * The username is lower-cased; `me` is reserved; what remains must be one
   * or more characters of `[\w.@+-]`. A valid name comes back lower-cased.
   */
  function ValidateUsername(value: string): (r: Result<string, ValidationError>)
    ensures r.Ok? ==> r.value == LowerStr(value)
    ensures r == Err(ReservedName) <==> LowerStr(value) == "me"
    ensures r.Ok? <==> LowerStr(value) != "me" && |value| > 0 && forall c :: c in value ==> IsUsernameChar(c)
  {
    var lowered := LowerStr(value);
    LoweredUsernameChars(value);
    if lowered == "me" then Err(ReservedName)
    else if |lowered| > 0 && forall c :: c in lowered ==> IsUsernameChar(c) then Ok(lowered)
    else Err(InvalidCharacters)
  }

  /** `me` is refused in each of its four spellings and no other name is refused as reserved. */
  lemma MeInAnyCase(s: string)
    ensures ValidateUsername(s) == Err(ReservedName) <==> s == "me" || s == "Me" || s == "mE" || s == "ME"
  {
    var lowered := LowerStr(s);
    if lowered == "me" {
      assert |s| == 2;
      assert Lower(s[0]) == 'm' && Lower(s[1]) == 'e';
      assert s == [s[0], s[1]];
    }
    if s == "me" || s == "Me" || s == "mE" || s == "ME" {
      assert lowered == [Lower(s[0]), Lower(s[1])];
    }
  }

  /** A validated username validates again to itself. */
  lemma ValidatedIsFixpoint(value: string)
    requires ValidateUsername(value).Ok?
    ensures ValidateUsername(ValidateUsername(value).value) == ValidateUsername(value)
  {
    var lowered := LowerStr(value);
    assert LowerStr(lowered) == lowered;
  }

  // ---------------------------------------------------------------------
  // CreateOrUpdateRecipes.validate_ingredients

  /** One entry of the `ingredients` payload: an ingredient id and its amount. */
  datatype IngredientEntry = IngredientEntry(ingredient: IngredientId, amount: int)

  function EntryIngredient(e: IngredientEntry): IngredientId { e.ingredient }

  /** Walks the payload collecting the ids seen so far; the first repeated id rejects it. */
  method ValidateIngredients(value: seq<IngredientEntry>) returns (r: Result<seq<IngredientEntry>, ValidationError>)
    ensures r.Ok? <==> UniqueBy(value, EntryIngredient)
    ensures r.Ok? ==> r.value == value
    ensures r.Err? ==> r.error == DuplicateIngredient
  {
    var existing: seq<IngredientId> := [];
    for i := 0 to |value|
      invariant |existing| == i
      invariant forall k :: 0 <= k < i ==> existing[k] == value[k].ingredient
      invariant UniqueBy(value[..i], EntryIngredient)
    {
      if value[i].ingredient in existing {
        var k :| 0 <= k < |existing| && existing[k] == value[i].ingredient;
        assert EntryIngredient(value[k]) == EntryIngredient(value[i]);
        return Err(DuplicateIngredient);
      }
      existing := existing + [value[i].ingredient];
      assert value[..i + 1] == value[..i] + [value[i]];
    }
    assert value[..|value|] == value;
    return Ok(value);
  }

  // ---------------------------------------------------------------------
  // The ingredient lines seen as a map from (ingredient, recipe) to amount.

  function LineKeys(lines: seq<IngredientPass>): set<(IngredientId, RecipeId)>
  {
    set l | l in lines :: LineKey(l)
  }

  ghost function AmountOf(lines: seq<IngredientPass>, key: (IngredientId, RecipeId)): int
    requires key in LineKeys(lines)
  {
    var l :| l in lines && LineKey(l) == key; l.amount
  }

  /** The amount stored for each (ingredient, recipe) pair that has a line. */
  ghost function Amounts(lines: seq<IngredientPass>): map<(IngredientId, RecipeId), int>
  {
    map key | key in LineKeys(lines) :: AmountOf(lines, key)
  }

  lemma LineOfKey(lines: seq<IngredientPass>)
    requires LinesUnique(lines)
    ensures forall a, b :: a in lines && b in lines && LineKey(a) == LineKey(b) ==> a == b
  {
    forall a, b | a in lines && b in lines && LineKey(a) == LineKey(b) ensures a == b {
      var i :| 0 <= i < |lines| && lines[i] == a;
      var j :| 0 <= j < |lines| && lines[j] == b;
      assert i == j;
    }
  }

  /** Under the unique constraint, the map gives every line's amount. */
  lemma AmountsLookup(lines: seq<IngredientPass>, l: IngredientPass)
    requires LinesUnique(lines) && l in lines
    ensures LineKey(l) in Amounts(lines) && Amounts(lines)[LineKey(l)] == l.amount
  {
    LineOfKey(lines);
    assert LineKey(l) in LineKeys(lines);
  }

  /** Under the unique constraint, a key maps to an amount exactly when a line holds it. */
  lemma AmountsMeaning(lines: seq<IngredientPass>, key: (IngredientId, RecipeId), a: int)
    requires LinesUnique(lines)
    ensures key in Amounts(lines) && Amounts(lines)[key] == a <==> IngredientPass(key.0, a, key.1) in lines
  {
    var line := IngredientPass(key.0, a, key.1);
    if line in lines {
      AmountsLookup(lines, line);
    }
    if key in Amounts(lines) {
      var l :| l in lines && LineKey(l) == key;
      AmountsLookup(lines, l);
      assert Amounts(lines)[key] == a ==> l == line;
    }
  }

  lemma UniqueParts(a: seq<IngredientPass>, b: seq<IngredientPass>)
    requires LinesUnique(a + b)
    ensures LinesUnique(a) && LinesUnique(b)
  {
    var s := a + b;
    forall i, j | 0 <= i < j < |a| ensures LineKey(a[i]) != LineKey(a[j]) {
      assert a[i] == s[i] && a[j] == s[j];
    }
    forall i, j | 0 <= i < j < |b| ensures LineKey(b[i]) != LineKey(b[j]) {
      assert b[i] == s[|a| + i] && b[j] == s[|a| + j];
    }
  }

  lemma AmountsAppendAt(a: seq<IngredientPass>, b: seq<IngredientPass>, key: (IngredientId, RecipeId))
    requires LinesUnique(a + b) && LinesUnique(a) && LinesUnique(b)
    requires key in LineKeys(a + b)
    ensures key in Amounts(a) + Amounts(b)
    ensures Amounts(a + b)[key] == (Amounts(a) + Amounts(b))[key]
  {
    var s := a + b;
    if key in LineKeys(b) {
      var l :| l in b && LineKey(l) == key;
      AmountsLookup(b, l);
      AmountsLookup(s, l);
    } else {
      var l :| l in a && LineKey(l) == key;
      AmountsLookup(a, l);
      AmountsLookup(s, l);
    }
  }

  /** The lines of two disjoint batches hold the amounts of both. */
  lemma AmountsAppend(a: seq<IngredientPass>, b: seq<IngredientPass>)
    requires LinesUnique(a + b)
    ensures LinesUnique(a) && LinesUnique(b)
    ensures Amounts(a + b) == Amounts(a) + Amounts(b)
  {
    var s := a + b;
    UniqueParts(a, b);
    assert LineKeys(s) == LineKeys(a) + LineKeys(b);
    assert Amounts(s).Keys == (Amounts(a) + Amounts(b)).Keys;
    forall key | key in LineKeys(s) ensures Amounts(s)[key] == (Amounts(a) + Amounts(b))[key] {
      AmountsAppendAt(a, b, key);
    }
  }

  // ---------------------------------------------------------------------
  // CreateOrUpdateRecipes.create and update

  /** The amounts a payload writes for recipe `rid`; a later entry for the same ingredient wins. */
  function PayloadAmounts(rid: RecipeId, payload: seq<IngredientEntry>): map<(IngredientId, RecipeId), int>
  {
    if payload == [] then map[]
    else
      var e := payload[|payload| - 1];
      PayloadAmounts(rid, payload[..|payload| - 1])[(e.ingredient, rid) := e.amount]
  }

  lemma {:induction false} PayloadAmountsKeys(rid: RecipeId, payload: seq<IngredientEntry>)
    ensures PayloadAmounts(rid, payload).Keys == set e | e in payload :: (e.ingredient, rid)
  {
    if payload != [] {
      var init := payload[..|payload| - 1];
      PayloadAmountsKeys(rid, init);
      assert payload == init + [payload[|payload| - 1]];
    }
  }

  /** In a payload without repeated ingredients every entry's amount is the one written. */
  lemma {:induction false} PayloadAmountsLookup(rid: RecipeId, payload: seq<IngredientEntry>, e: IngredientEntry)
    requires UniqueBy(payload, EntryIngredient) && e in payload
    ensures (e.ingredient, rid) in PayloadAmounts(rid, payload)
    ensures PayloadAmounts(rid, payload)[(e.ingredient, rid)] == e.amount
  {
    var n := |payload|;
    var init := payload[..n - 1];
    if e != payload[n - 1] {
      var k :| 0 <= k < n && payload[k] == e;
      assert k < n - 1;
      assert init[k] == e;
      PayloadAmountsLookup(rid, init, e);
    }
  }

  lemma PayloadAmountsStep(rid: RecipeId, payload: seq<IngredientEntry>, i: nat)
    requires i < |payload|
    ensures PayloadAmounts(rid, payload[..i + 1]) ==
            PayloadAmounts(rid, payload[..i])[(payload[i].ingredient, rid) := payload[i].amount]
  {
    assert payload[..i + 1][..i] == payload[..i];
  }

  lemma MergeThenSet<K, V>(m: map<K, V>, p: map<K, V>, k: K, v: V)
    ensures (m + p)[k := v] == m + p[k := v]
  {
  }

  /** The lines `create` bulk-inserts for recipe `rid`: one per payload entry, in payload order. */
  function LinesFor(rid: RecipeId, payload: seq<IngredientEntry>): (r: seq<IngredientPass>)
    ensures |r| == |payload|
  {
    seq(|payload|, k requires 0 <= k < |payload| => IngredientPass(payload[k].ingredient, payload[k].amount, rid))
  }

  lemma LinesForMembership(rid: RecipeId, payload: seq<IngredientEntry>)
    ensures forall e :: e in payload <==> IngredientPass(e.ingredient, e.amount, rid) in LinesFor(rid, payload)
    ensures forall l :: l in LinesFor(rid, payload) ==> l.recipe == rid
  {
    var lines := LinesFor(rid, payload);
    forall e: IngredientEntry | IngredientPass(e.ingredient, e.amount, rid) in lines ensures e in payload {
      var k :| 0 <= k < |lines| && lines[k] == IngredientPass(e.ingredient, e.amount, rid);
      assert payload[k] == e;
    }
    forall e | e in payload ensures IngredientPass(e.ingredient, e.amount, rid) in lines {
      var k :| 0 <= k < |payload| && payload[k] == e;
      assert lines[k] == IngredientPass(e.ingredient, e.amount, rid);
    }
  }

  lemma LinesForUnique(rid: RecipeId, payload: seq<IngredientEntry>)
    requires UniqueBy(payload, EntryIngredient)
    ensures LinesUnique(LinesFor(rid, payload))
  {
    var lines := LinesFor(rid, payload);
    forall i, j | 0 <= i < j < |lines| ensures LineKey(lines[i]) != LineKey(lines[j]) {
      assert EntryIngredient(payload[i]) != EntryIngredient(payload[j]);
    }
  }

  /**
   * `create` writes one line per entry carrying the entry's ingredient and
   * amount; the lines are unique and hold exactly the payload's amounts.
   */
  lemma CreateOneLinePerEntry(rid: RecipeId, payload: seq<IngredientEntry>)
    requires UniqueBy(payload, EntryIngredient)
    ensures LinesUnique(LinesFor(rid, payload))
    ensures forall e :: e in payload <==> IngredientPass(e.ingredient, e.amount, rid) in LinesFor(rid, payload)
    ensures forall l :: l in LinesFor(rid, payload) ==> l.recipe == rid
    ensures Amounts(LinesFor(rid, payload)) == PayloadAmounts(rid, payload)
  {
    var lines := LinesFor(rid, payload);
    LinesForMembership(rid, payload);
    LinesForUnique(rid, payload);
    PayloadAmountsKeys(rid, payload);
    assert LineKeys(lines) == PayloadAmounts(rid, payload).Keys;
    forall key | key in LineKeys(lines) ensures Amounts(lines)[key] == PayloadAmounts(rid, payload)[key] {
      var l :| l in lines && LineKey(l) == key;
      AmountsLookup(lines, l);
      PayloadAmountsLookup(rid, payload, IngredientEntry(l.ingredient, l.amount));
    }
  }

  /** `IngredientPass.objects.update_or_create(recipe, ingredient, defaults={'amount': amount})`. */
  function UpdateOrCreate(lines: seq<IngredientPass>, ingredient: IngredientId, rid: RecipeId, amount: int): seq<IngredientPass>
  {
    if (ingredient, rid) in LineKeys(lines) then
      seq(|lines|, k requires 0 <= k < |lines| =>
        if LineKey(lines[k]) == (ingredient, rid) then lines[k].(amount := amount) else lines[k])
    else
      lines + [IngredientPass(ingredient, amount, rid)]
  }

  /** An upsert keeps the lines unique, adds the pair's key, and changes no line but the pair's. */
  lemma UpdateOrCreateKeys(lines: seq<IngredientPass>, ingredient: IngredientId, rid: RecipeId, amount: int)
    requires LinesUnique(lines)
    ensures LinesUnique(UpdateOrCreate(lines, ingredient, rid, amount))
    ensures LineKeys(UpdateOrCreate(lines, ingredient, rid, amount)) == LineKeys(lines) + {(ingredient, rid)}
    ensures forall l :: l in UpdateOrCreate(lines, ingredient, rid, amount) ==>
              l in lines || l == IngredientPass(ingredient, amount, rid)
    ensures forall l :: l in UpdateOrCreate(lines, ingredient, rid, amount) && LineKey(l) != (ingredient, rid) ==> l in lines
  {
    var key := (ingredient, rid);
    var r := UpdateOrCreate(lines, ingredient, rid, amount);
    if key in LineKeys(lines) {
      assert forall k :: 0 <= k < |r| ==> LineKey(r[k]) == LineKey(lines[k]);
      forall k | k in LineKeys(r) ensures k in LineKeys(lines) {
        var l :| l in r && LineKey(l) == k;
        var i :| 0 <= i < |r| && r[i] == l;
        assert lines[i] in lines;
      }
      forall k | k in LineKeys(lines) ensures k in LineKeys(r) {
        var l :| l in lines && LineKey(l) == k;
        var i :| 0 <= i < |lines| && lines[i] == l;
        assert r[i] in r;
      }
    } else {
      UniqueAppend(lines, [IngredientPass(ingredient, amount, rid)], LineKey);
      assert r[|lines|] in r;
    }
  }

  /** An upsert sets the pair's amount and leaves every other pair's amount. */
  lemma UpdateOrCreateAmounts(lines: seq<IngredientPass>, ingredient: IngredientId, rid: RecipeId, amount: int)
    requires LinesUnique(lines)
    ensures LinesUnique(UpdateOrCreate(lines, ingredient, rid, amount))
    ensures Amounts(UpdateOrCreate(lines, ingredient, rid, amount)) == Amounts(lines)[(ingredient, rid) := amount]
    ensures forall l :: l in UpdateOrCreate(lines, ingredient, rid, amount) ==>
              l in lines || l == IngredientPass(ingredient, amount, rid)
  {
    var key := (ingredient, rid);
    var r := UpdateOrCreate(lines, ingredient, rid, amount);
    UpdateOrCreateKeys(lines, ingredient, rid, amount);
    forall k | k in LineKeys(r) ensures Amounts(r)[k] == Amounts(lines)[key := amount][k] {
      var l :| l in r && LineKey(l) == k;
      AmountsLookup(r, l);
      if k != key {
        AmountsLookup(lines, l);
      }
    }
  }

  function TagLinksFor(rid: RecipeId, tags: seq<TagId>): set<TagPass>
  {
    set t | t in tags :: TagPass(t, rid)
  }

  /** `recipe.tags.set(tags)`: the recipe's links become exactly the given tags; other recipes keep theirs. */
  function Retag(links: set<TagPass>, rid: RecipeId, tags: seq<TagId>): (r: set<TagPass>)
    ensures forall l :: l in r && l.recipe != rid <==> l in links && l.recipe != rid
    ensures forall t :: TagPass(t, rid) in r <==> t in tags
  {
    (set l | l in links && l.recipe != rid) + TagLinksFor(rid, tags)
  }

  /** The fields a partial update sets; an absent field keeps its value. */
  function Patch(r: Recipe, name: Option<string>, text: Option<string>, cookingTime: Option<int>): (p: Recipe)
    ensures p.id == r.id && p.author == r.author && p.created == r.created
    ensures p.name == (if name.Some? then name.value else r.name)
    ensures p.text == (if text.Some? then text.value else r.text)
    ensures p.cookingTime == (if cookingTime.Some? then cookingTime.value else r.cookingTime)
  {
    r.(name := if name.Some? then name.value else r.name,
       text := if text.Some? then text.value else r.text,
       cookingTime := if cookingTime.Some? then cookingTime.value else r.cookingTime)
  }

  /** The recipe rows after a partial update of recipe `rid`. */
  function PatchRecipes(rows: seq<Recipe>, rid: RecipeId, name: Option<string>, text: Option<string>,
                        cookingTime: Option<int>): (r: seq<Recipe>)
    ensures |r| == |rows|
    ensures forall k :: 0 <= k < |rows| && rows[k].id != rid ==> r[k] == rows[k]
    ensures forall k :: 0 <= k < |rows| && rows[k].id == rid ==> r[k] == Patch(rows[k], name, text, cookingTime)
  {
    seq(|rows|, k requires 0 <= k < |rows| =>
      if rows[k].id == rid then Patch(rows[k], name, text, cookingTime) else rows[k])
  }

  /** Patching keeps every id where it was and keeps every row within its field limits. */
  lemma PatchRecipesValid(rows: seq<Recipe>, rid: RecipeId, name: Option<string>, text: Option<string>,
                          cookingTime: Option<int>, nextId: nat)
    requires forall r :: r in rows ==> RecipeRowValid(r) && r.id < nextId
    requires AscendingBy(rows, RecipeIdOf)
    requires name.Some? ==> |name.value| <= ShortTextMaxLength
    requires cookingTime.Some? ==> 0 <= cookingTime.value <= SmallIntMax
    ensures forall r :: r in PatchRecipes(rows, rid, name, text, cookingTime) ==> RecipeRowValid(r) && r.id < nextId
    ensures AscendingBy(PatchRecipes(rows, rid, name, text, cookingTime), RecipeIdOf)
    ensures RecipeIds(PatchRecipes(rows, rid, name, text, cookingTime)) == RecipeIds(rows)
  {
    var patched := PatchRecipes(rows, rid, name, text, cookingTime);
    assert forall k :: 0 <= k < |patched| ==> patched[k].id == rows[k].id;
    forall r | r in patched ensures RecipeRowValid(r) && r.id < nextId {
      var k :| 0 <= k < |patched| && patched[k] == r;
      assert rows[k] in rows;
    }
    forall id | id in RecipeIds(rows) ensures id in RecipeIds(patched) {
      var r :| r in rows && r.id == id;
      var k :| 0 <= k < |rows| && rows[k] == r;
      assert patched[k] in patched;
    }
    forall id | id in RecipeIds(patched) ensures id in RecipeIds(rows) {
      var r :| r in patched && r.id == id;
      var k :| 0 <= k < |patched| && patched[k] == r;
      assert rows[k] in rows;
    }
  }

  datatype UpdateOutcome = Updated | RecipeNotFound | MissingIngredients

  /**
   * The recipe-side tables the writer changes: recipes, their ingredient
   * lines and their tag links, with the next id the database will assign.
   */
  class RecipeStore {
    var recipes: seq<Recipe>
    var lines: seq<IngredientPass>
    var tagLinks: set<TagPass>
    var nextId: nat

    ghost predicate Valid()
      reads this
    {
      && (forall r :: r in recipes ==> RecipeRowValid(r) && r.id < nextId)
      && AscendingBy(recipes, RecipeIdOf)
      && LinesUnique(lines)
      && (forall l :: l in lines ==> LineRowValid(l) && l.recipe in RecipeIds(recipes))
      && (forall l :: l in tagLinks ==> l.recipe in RecipeIds(recipes))
    }

    constructor ()
      ensures Valid() && recipes == [] && lines == [] && tagLinks == {}
    {
      recipes := [];
      lines := [];
      tagLinks := {};
      nextId := 1;
    }

    /**
     * `create`: the recipe row, its tag links and then one line per entry of
     * an ingredient list that `validate_ingredients` accepted.
     */
    method Create(author: UserId, name: string, text: string, cookingTime: int, created: Date,
                  tags: seq<TagId>, ingredients: seq<IngredientEntry>) returns (id: RecipeId)
      requires Valid()
      requires |name| <= ShortTextMaxLength && 0 <= cookingTime <= SmallIntMax
      requires UniqueBy(ingredients, EntryIngredient)
      requires forall e :: e in ingredients ==> IntMin <= e.amount <= IntMax
      modifies this
      ensures Valid()
      ensures id == old(nextId) && id !in RecipeIds(old(recipes))
      ensures recipes == old(recipes) + [Recipe(id, author, name, text, cookingTime, created)]
      ensures lines == old(lines) + LinesFor(id, ingredients)
      ensures tagLinks == old(tagLinks) + TagLinksFor(id, tags)
      ensures Amounts(lines) == Amounts(old(lines)) + PayloadAmounts(id, ingredients)
    {
      id := nextId;
      var recipe := Recipe(id, author, name, text, cookingTime, created);
      var added := LinesFor(id, ingredients);
      CreateOneLinePerEntry(id, ingredients);
      forall i, j | 0 <= i < |lines| && 0 <= j < |added| ensures LineKey(lines[i]) != LineKey(added[j]) {
        assert lines[i] in lines;
      }
      UniqueAppend(lines, added, LineKey);
      AmountsAppend(lines, added);
      forall i, j | 0 <= i < j < |recipes| + 1 ensures RecipeIdOf((recipes + [recipe])[i]) < RecipeIdOf((recipes + [recipe])[j]) {
        assert (recipes + [recipe])[i] in recipes;
      }
      recipes := recipes + [recipe];
      lines := lines + added;
      tagLinks := tagLinks + TagLinksFor(id, tags);
      nextId := nextId + 1;
    }

    /** The loop of `update`: each entry upserted in turn into the line table. */
    method UpsertLines(rid: RecipeId, payload: seq<IngredientEntry>)
      requires Valid() && rid in RecipeIds(recipes)
      requires forall e :: e in payload ==> IntMin <= e.amount <= IntMax
      modifies this
      ensures Valid()
      ensures recipes == old(recipes) && tagLinks == old(tagLinks) && nextId == old(nextId)
      ensures Amounts(lines) == Amounts(old(lines)) + PayloadAmounts(rid, payload)
    {
      for i := 0 to |payload|
        invariant Valid()
        invariant recipes == old(recipes) && tagLinks == old(tagLinks) && nextId == old(nextId)
        invariant Amounts(lines) == Amounts(old(lines)) + PayloadAmounts(rid, payload[..i])
      {
        var e := payload[i];
        assert e in payload;
        UpdateOrCreateAmounts(lines, e.ingredient, rid, e.amount);
        PayloadAmountsStep(rid, payload, i);
        MergeThenSet(Amounts(old(lines)), PayloadAmounts(rid, payload[..i]), (e.ingredient, rid), e.amount);
        lines := UpdateOrCreate(lines, e.ingredient, rid, e.amount);
      }
      assert payload[..|payload|] == payload;
    }

    /**
     * `update` on a PATCH: the given fields are set, the tags (when given)
     * replaced, and each payload entry upserted into the recipe's lines;
     * lines of ingredients absent from the payload stay.
     */
    method Update(rid: RecipeId, name: Option<string>, text: Option<string>, cookingTime: Option<int>,
                  tags: Option<seq<TagId>>, ingredients: Option<seq<IngredientEntry>>) returns (outcome: UpdateOutcome)
      requires Valid()
      requires name.Some? ==> |name.value| <= ShortTextMaxLength
      requires cookingTime.Some? ==> 0 <= cookingTime.value <= SmallIntMax
      requires ingredients.Some? ==> forall e :: e in ingredients.value ==> IntMin <= e.amount <= IntMax
      modifies this
      ensures Valid() && nextId == old(nextId)
      ensures outcome == RecipeNotFound <==> rid !in RecipeIds(old(recipes))
      ensures outcome == MissingIngredients <==> rid in RecipeIds(old(recipes)) && ingredients.None?
      ensures outcome != Updated ==> recipes == old(recipes) && lines == old(lines) && tagLinks == old(tagLinks)
      ensures outcome == Updated ==> recipes == PatchRecipes(old(recipes), rid, name, text, cookingTime)
      ensures outcome == Updated ==> tagLinks == if tags.Some? then Retag(old(tagLinks), rid, tags.value) else old(tagLinks)
      ensures outcome == Updated ==> Amounts(lines) == Amounts(old(lines)) + PayloadAmounts(rid, ingredients.value)
    {
      if rid !in RecipeIds(recipes) {
        return RecipeNotFound;
      }
      if ingredients.None? {
        // `validated_data.pop('ingredients')` raises before anything is written
        return MissingIngredients;
      }
      var payload := ingredients.value;
      var patched := PatchRecipes(recipes, rid, name, text, cookingTime);
      PatchRecipesValid(recipes, rid, name, text, cookingTime, nextId);
      recipes := patched;
      if tags.Some? {
        tagLinks := Retag(tagLinks, rid, tags.value);
      }
      UpsertLines(rid, payload);
      return Updated;
    }
  }

  /**
   * After an update every entry of a validated payload has exactly one line
   * for the recipe, holding the entry's amount.
   */
  lemma UpdateWritesEachEntry(before: seq<IngredientPass>, after: seq<IngredientPass>, rid: RecipeId,
                              payload: seq<IngredientEntry>, e: IngredientEntry)
    requires LinesUnique(after) && UniqueBy(payload, EntryIngredient) && e in payload
    requires Amounts(after) == Amounts(before) + PayloadAmounts(rid, payload)
    ensures IngredientPass(e.ingredient, e.amount, rid) in after
    ensures forall l :: l in after && l.ingredient == e.ingredient && l.recipe == rid ==> l.amount == e.amount
  {
    PayloadAmountsLookup(rid, payload, e);
    AmountsMeaning(after, (e.ingredient, rid), e.amount);
    forall l | l in after && l.ingredient == e.ingredient && l.recipe == rid ensures l.amount == e.amount {
      AmountsLookup(after, l);
    }
  }

  /** After an update every line of another recipe, or of an ingredient the payload does not name, survives. */
  lemma UpdateKeepsOtherLines(before: seq<IngredientPass>, after: seq<IngredientPass>, rid: RecipeId,
                              payload: seq<IngredientEntry>, l: IngredientPass)
    requires LinesUnique(before) && LinesUnique(after) && l in before
    requires Amounts(after) == Amounts(before) + PayloadAmounts(rid, payload)
    requires l.recipe != rid || forall e :: e in payload ==> e.ingredient != l.ingredient
    ensures l in after
  {
    PayloadAmountsKeys(rid, payload);
    AmountsLookup(before, l);
    assert LineKey(l) !in PayloadAmounts(rid, payload);
    AmountsMeaning(after, LineKey(l), l.amount);
  }

  /**
   * The update merges: a recipe with lines for ingredients 1 and 2, patched
   * with a payload naming only ingredient 1, still has its line for 2.
   */
  lemma UpdateIsMergeNotReplace(after: seq<IngredientPass>)
    requires LinesUnique(after)
    requires Amounts(after) == Amounts([IngredientPass(1, 100, 7), IngredientPass(2, 200, 7)])
                                + PayloadAmounts(7, [IngredientEntry(1, 5)])
    ensures IngredientPass(2, 200, 7) in after
    ensures IngredientPass(1, 5, 7) in after
  {
    var before := [IngredientPass(1, 100, 7), IngredientPass(2, 200, 7)];
    var payload := [IngredientEntry(1, 5)];
    assert before[0] != before[1];
    assert LinesUnique(before);
    UpdateKeepsOtherLines(before, after, 7, payload, IngredientPass(2, 200, 7));
    UpdateWritesEachEntry(before, after, 7, payload, IngredientEntry(1, 5));
  }

  // ---------------------------------------------------------------------
  // Per-caller flags. `caller` is None for an anonymous request.

  /** `get_is_favorited`: true exactly for an authenticated caller who favorited the recipe. */
  predicate IsFavorited(favorites: seq<Mark>, caller: Option<UserId>, recipe: RecipeId)
  {
    caller.Some? && Marked(favorites, caller.value, recipe)
  }

  /** `get_is_in_shopping_cart`: the same test on the cart table. */
  predicate IsInShoppingCart(cart: seq<Mark>, caller: Option<UserId>, recipe: RecipeId)
  {
    caller.Some? && Marked(cart, caller.value, recipe)
  }

  /** `get_is_subscribed`: true exactly for an authenticated caller following the author. */
  predicate IsSubscribed(follows: seq<Follow>, caller: Option<UserId>, author: UserId)
  {
    caller.Some? && Follows(follows, caller.value, author)
  }

  /** An anonymous caller sees every flag false, whatever the tables hold. */
  lemma AnonymousSeesNoFlags(favorites: seq<Mark>, cart: seq<Mark>, follows: seq<Follow>, recipe: RecipeId, author: UserId)
    ensures !IsFavorited(favorites, None, recipe)
    ensures !IsInShoppingCart(cart, None, recipe)
    ensures !IsSubscribed(follows, None, author)
  {
  }

  // ---------------------------------------------------------------------
  // FollowGetSerializer

  function AuthorIs(author: UserId): Recipe -> bool
  {
    (r: Recipe) => r.author == author
  }

  /** `author.recipes.all()`: the author's recipes in the default newest-first order. */
  function AuthorRecipes(recipes: seq<Recipe>, author: UserId): (r: seq<Recipe>)
    ensures forall x :: x in r <==> x in recipes && x.author == author
  {
    var listed := RecipeList(recipes);
    ReverseMultiset(recipes);
    assert forall x :: x in listed <==> x in multiset(listed);
    Filter(AuthorIs(author), listed)
  }

  /** `get_recipes_count`. */
  function RecipesCount(recipes: seq<Recipe>, author: UserId): nat
  {
    |AuthorRecipes(recipes, author)|
  }

  /**
   * `get_recipes`: the author's recipes, cut to the first `recipes_limit`
   * when one is given; a negative limit trips Django's negative-slice
   * assertion, which nothing catches (a 500, not a validation answer).
   */
  function GetRecipes(recipes: seq<Recipe>, author: UserId, limit: Option<int>): (r: Result<seq<Recipe>, ValidationError>)
    ensures r.Err? <==> limit.Some? && limit.value < 0
    ensures r.Err? ==> r.error == NegativeLimit
    ensures r.Ok? ==> |r.value| == (if limit.Some? && limit.value < RecipesCount(recipes, author) then limit.value else RecipesCount(recipes, author))
    ensures r.Ok? ==> r.value == AuthorRecipes(recipes, author)[..|r.value|]
  {
    var all := AuthorRecipes(recipes, author);
    if limit.None? then Ok(all)
    else if limit.value < 0 then Err(NegativeLimit)
    else if limit.value < |all| then Ok(all[..limit.value])
    else Ok(all)
  }

  /** The listed recipes are the author's, newest first. */
  lemma GetRecipesNewestFirst(recipes: seq<Recipe>, author: UserId, limit: Option<int>)
    requires AscendingBy(recipes, RecipeIdOf)
    requires GetRecipes(recipes, author, limit).Ok?
    ensures DescendingBy(GetRecipes(recipes, author, limit).value, RecipeIdOf)
    ensures forall x :: x in GetRecipes(recipes, author, limit).value ==> x in recipes && x.author == author
  {
    ReverseOfAscendingIsDescending(recipes, RecipeIdOf);
    FilterKeepsDescending(AuthorIs(author), RecipeList(recipes), RecipeIdOf);
    var all := AuthorRecipes(recipes, author);
    var r := GetRecipes(recipes, author, limit).value;
    forall x | x in r ensures x in all {
      var k :| 0 <= k < |r| && r[k] == x;
      assert all[k] == x;
    }
  }

  // ---------------------------------------------------------------------
  // UserFollowersSerializer.validate

  function EmailIs(email: string): User -> bool
  {
    (u: User) => u.email == email
  }

  /**
   * Looks up the subscriber by e-mail (404 when none) and refuses a
   * subscription to oneself; answers the subscriber's id. The source passes
   * a `User` to the e-mail lookup, which compares with the username; the
   * subscriber's e-mail is evidently meant and is `subscriberEmail` here.
   */
  function ValidateFollow(users: seq<User>, subscriberEmail: string, author: UserId): (r: Result<UserId, ValidationError>)
    ensures r.Err? ==> r.error == UserNotFound || r.error == SelfFollow
    ensures r.Err? && r.error == UserNotFound <==> forall u :: u in users ==> u.email != subscriberEmail
    ensures r.Ok? ==> r.value != author && exists u :: u in users && u.email == subscriberEmail && u.id == r.value
    ensures r == Err(SelfFollow) ==> exists u :: u in users && u.email == subscriberEmail && u.id == author
    ensures ((exists u :: u in users && u.email == subscriberEmail)
             && (forall u :: u in users && u.email == subscriberEmail ==> u.id != author)) ==> r.Ok?
  {
    var found := Filter(EmailIs(subscriberEmail), users);
    if found == [] then
      assert forall u :: u in users ==> (u in found <==> u.email == subscriberEmail);
      Err(UserNotFound)
    else
      assert found[0] in found;
      if found[0].id == author then Err(SelfFollow) else Ok(found[0].id)
  }

  /**
   * With unique e-mails the validator decides on the one user who owns the
   * e-mail: refused as a self-subscription exactly when that user is the
   * author, accepted with that user's id otherwise.
   */
  lemma ValidateFollowDecides(users: seq<User>, subscriber: User, author: UserId)
    requires UsersValid(users) && subscriber in users
    ensures ValidateFollow(users, subscriber.email, author)
            == if subscriber.id == author then Err(SelfFollow) else Ok(subscriber.id)
  {
    var found := Filter(EmailIs(subscriber.email), users);
    assert subscriber in found;
    assert found[0] in users && found[0].email == subscriber.email;
    var i :| 0 <= i < |users| && users[i] == found[0];
    var j :| 0 <= j < |users| && users[j] == subscriber;
    assert i == j;
  }
}
