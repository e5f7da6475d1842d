/**
 * The two mark-set operations shared by the favourite and shopping-cart
 * endpoints: `add_to` inserts a (user, recipe) mark into a mark table and
 * `delete_from` removes it, each answering with an HTTP status.
 *
 * A mark table (`Favorite.objects` or `ShopCart.objects`) is an object whose
 * rows the two methods change in place. What each call answers and leaves
 * behind is given by the functions `AddOutcome`, `DeleteOutcome` and
 * `Unmark`, about which the lemmas below are stated.
 */
module Marks {
  import opened Common
  import opened Users
  import opened Recipes

  /** The responses of the endpoints; `IntegrityError` is the uncaught database error (500). */
  datatype Status = Created | NoContent | BadRequest | NotFound | IntegrityError
  {
    function Code(): int
    {
      match this
      case Created => 201
      case NoContent => 204
      case BadRequest => 400
      case NotFound => 404
      case IntegrityError => 500
    }
  }

  /** `user` owns a mark whose own primary key is `pk`: the duplicate test `filter(user=user, id=pk)`. */
  predicate OwnsMarkWithId(marks: seq<Mark>, user: UserId, pk: int)
  {
    exists m :: m in marks && m.user == user && m.id == pk
  }

  /**
   * What `add_to` answers: 400 when the user owns a mark whose id is `pk`,
   * 404 when no recipe has id `pk`, the database's unique-constraint error
   * when the pair is already marked under another id, and 201 otherwise.
   */
  function AddOutcome(marks: seq<Mark>, user: UserId, pk: int, recipeIds: set<RecipeId>): Status
  {
    if OwnsMarkWithId(marks, user, pk) then BadRequest
    else if pk < 0 || pk !in recipeIds then NotFound
    else if Marked(marks, user, pk) then IntegrityError
    else Created
  }

  /** What `delete_from` answers: 404 for an unknown recipe, 204 when a mark was there, 400 otherwise. */
  function DeleteOutcome(marks: seq<Mark>, user: UserId, pk: int, recipeIds: set<RecipeId>): Status
  {
    if pk < 0 || pk !in recipeIds then NotFound
    else if Marked(marks, user, pk) then NoContent
    else BadRequest
  }

  function NotMarkOf(user: UserId, recipe: RecipeId): Mark -> bool
  {
    (m: Mark) => m.user != user || m.recipe != recipe
  }

  /** `filter(user=user, recipe=recipe).delete()`: every other mark stays, in order. */
  function Unmark(marks: seq<Mark>, user: UserId, recipe: RecipeId): (r: seq<Mark>)
    ensures forall m :: m in r <==> m in marks && (m.user != user || m.recipe != recipe)
    ensures !Marked(r, user, recipe)
  {
    Filter(NotMarkOf(user, recipe), marks)
  }

  /** A created mark is the only new row, it marks the pair, and the table stays free of duplicate pairs. */
  lemma AddKeepsUnique(marks: seq<Mark>, nextId: nat, user: UserId, pk: int, recipeIds: set<RecipeId>)
    requires MarksUnique(marks) && forall m :: m in marks ==> m.id < nextId
    requires AddOutcome(marks, user, pk, recipeIds) == Created
    ensures pk in recipeIds
    ensures MarksUnique(marks + [Mark(nextId, user, pk)])
    ensures Marked(marks + [Mark(nextId, user, pk)], user, pk)
  {
    var r := marks + [Mark(nextId, user, pk)];
    forall i, j | 0 <= i < j < |r| ensures MarkKey(r[i]) != MarkKey(r[j]) && MarkIdOf(r[i]) < MarkIdOf(r[j]) {
      if j == |marks| {
        assert r[i] in marks;
      }
    }
    assert r[|marks|] in r;
  }

  /** Removing the pair keeps the table free of duplicates, and a second removal answers 400. */
  lemma SecondDeleteFails(marks: seq<Mark>, user: UserId, pk: int, recipeIds: set<RecipeId>)
    requires MarksUnique(marks)
    requires DeleteOutcome(marks, user, pk, recipeIds) == NoContent
    ensures MarksUnique(Unmark(marks, user, pk))
    ensures DeleteOutcome(Unmark(marks, user, pk), user, pk, recipeIds) == BadRequest
  {
    FilterKeepsUnique(NotMarkOf(user, pk), marks, MarkKey);
    FilterKeepsAscending(NotMarkOf(user, pk), marks, MarkIdOf);
  }

  /** Removing the mark a successful add created gives back the table as it was. */
  lemma DeleteUndoesAdd(marks: seq<Mark>, nextId: nat, user: UserId, pk: int, recipeIds: set<RecipeId>)
    requires AddOutcome(marks, user, pk, recipeIds) == Created
    ensures DeleteOutcome(marks + [Mark(nextId, user, pk)], user, pk, recipeIds) == NoContent
    ensures Unmark(marks + [Mark(nextId, user, pk)], user, pk) == marks
  {
    var added := Mark(nextId, user, pk);
    assert added in marks + [added];
    FilterAppend(NotMarkOf(user, pk), marks, [added]);
    assert Filter(NotMarkOf(user, pk), [added]) == [];
    FilterAll(NotMarkOf(user, pk), marks);
  }

  /**
   * The duplicate test keys on the mark's own id, not on the recipe: with
   * user 1 holding mark 5 on recipe 7, adding recipe 7 again slips past it
   * and is stopped only by the unique constraint, while adding the unmarked
   * recipe 5 is refused as a duplicate.
   */
  lemma DuplicateTestKeysOnMarkId()
    ensures AddOutcome([Mark(5, 1, 7)], 1, 7, {5, 7}) == IntegrityError
    ensures AddOutcome([Mark(5, 1, 7)], 1, 5, {5, 7}) == BadRequest
    ensures !Marked([Mark(5, 1, 7)], 1, 5)
  {
    assert Mark(5, 1, 7) in [Mark(5, 1, 7)];
  }

  class MarkTable {
    var rows: seq<Mark>
    var nextId: nat

    ghost predicate Valid()
      reads this
    {
      MarksUnique(rows) && forall m :: m in rows ==> m.id < nextId
    }

    constructor ()
      ensures Valid() && rows == []
    {
      rows := [];
      nextId := 1;
    }

    /** `add_to(model, request, user, pk)`. */
    method AddTo(user: UserId, pk: int, recipeIds: set<RecipeId>) returns (status: Status)
      requires Valid()
      modifies this
      ensures Valid()
      ensures status == AddOutcome(old(rows), user, pk, recipeIds)
      ensures status == Created ==> pk >= 0 && rows == old(rows) + [Mark(old(nextId), user, pk)]
      ensures status != Created ==> rows == old(rows)
      ensures status == BadRequest || status == NotFound ==> nextId == old(nextId)
      ensures status == Created ==> Marked(rows, user, pk)
    {
      if exists m :: m in rows && m.user == user && m.id == pk {
        return BadRequest;
      }
      if pk < 0 || pk !in recipeIds {
        return NotFound;
      }
      if exists m :: m in rows && m.user == user && m.recipe == pk {
        // `objects.create` violates constraint unique_user_recipe
        return IntegrityError;
      }
      AddKeepsUnique(rows, nextId, user, pk, recipeIds);
      rows := rows + [Mark(nextId, user, pk)];
      nextId := nextId + 1;
      return Created;
    }

    /** `delete_from(model, user, pk, request)`. */
    method DeleteFrom(user: UserId, pk: int, recipeIds: set<RecipeId>) returns (status: Status)
      requires Valid()
      modifies this
      ensures Valid() && nextId == old(nextId)
      ensures status == DeleteOutcome(old(rows), user, pk, recipeIds)
      ensures status == NoContent ==> pk >= 0 && rows == Unmark(old(rows), user, pk)
      ensures status != NoContent ==> rows == old(rows)
      ensures status != NotFound ==> !Marked(rows, user, pk)
    {
      if pk < 0 || pk !in recipeIds {
        return NotFound;
      }
      if exists m :: m in rows && m.user == user && m.recipe == pk {
        SecondDeleteFails(rows, user, pk, recipeIds);
        rows := Unmark(rows, user, pk);
        return NoContent;
      }
      return BadRequest;
    }
  }
}
