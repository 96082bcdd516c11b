/** Uses of the screen as a person would go through it, from a freshly mounted
    component, with what the list and the form hold at the end. Each follows
    from the handlers' contracts alone.
 */
module Scenarios {
  import opened Recipes
  import opened RecipeApp

  /** Opening the form, typing a recipe and saving it lists exactly that recipe. */
  method CreateOne(now: string, title: string, ingredients: string, preparation: string)
    returns (listed: seq<Recipe>, shown: View)
    requires title != ""
    ensures listed == [Recipe(now, title, ingredients, preparation)]
    ensures shown == List
  {
    var app := new App();
    app.ShowForm();
    app.ChangeTitle(title);
    app.ChangeIngredients(ingredients);
    app.ChangePreparation(preparation);
    app.AddRecipe(now);
    listed, shown := app.recipes, app.view;
  }

  /** Saving with an empty title keeps the form open with what was typed, and
      adds nothing. */
  method EmptyTitleIgnored(now: string, ingredients: string)
    returns (listed: seq<Recipe>, shown: View, kept: string)
    ensures listed == [] && shown == Form && kept == ingredients
  {
    var app := new App();
    app.ShowForm();
    app.ChangeIngredients(ingredients);
    app.AddRecipe(now);
    listed, shown, kept := app.recipes, app.view, app.ingredients;
  }

  /** Creating a recipe, editing it and saving keeps one record with the same
      id and the new fields. */
  method CreateThenEdit(now: string, later: string, title: string, ingredients: string, newIngredients: string)
    returns (listed: seq<Recipe>, editing: Option<string>)
    requires title != "" && now != ""
    ensures listed == [Recipe(now, title, newIngredients, "")]
    ensures editing == None
  {
    var app := new App();
    app.ShowForm();
    app.ChangeTitle(title);
    app.ChangeIngredients(ingredients);
    app.AddRecipe(now);
    var r := app.recipes[0];
    app.EditRecipe(r);
    app.ChangeIngredients(newIngredients);
    app.AddRecipe(later);
    listed, editing := app.recipes, app.editingId;
  }

  /** Leaving the edit form with its cancel button does not end the edit: the
      next save, even one started from the "add new" button, updates the
      record instead of creating one. */
  method CancelledEditStillUpdates(now: string, later: string, title: string, newTitle: string)
    returns (listed: seq<Recipe>)
    requires title != "" && newTitle != "" && now != ""
    ensures listed == [Recipe(now, newTitle, "", "")]
  {
    var app := new App();
    app.ShowForm();
    app.ChangeTitle(title);
    app.AddRecipe(now);
    app.EditRecipe(app.recipes[0]);
    app.CancelForm();
    app.ShowForm();
    app.ChangeTitle(newTitle);
    app.AddRecipe(later);
    listed := app.recipes;
  }

  /** Cancelling the dialog keeps the record; confirming it removes the record. */
  method CancelThenConfirmDelete(now: string, title: string)
    returns (afterCancel: seq<Recipe>, afterConfirm: seq<Recipe>, dialog: bool)
    requires title != ""
    ensures afterCancel == [Recipe(now, title, "", "")]
    ensures afterConfirm == [] && !dialog
  {
    var app := new App();
    app.ShowForm();
    app.ChangeTitle(title);
    app.AddRecipe(now);
    var r := app.recipes[0];
    app.DeleteRecipe(r);
    app.CancelDelete();
    afterCancel := app.recipes;
    app.DeleteRecipe(r);
    app.ConfirmDelete();
    afterConfirm, dialog := app.recipes, app.modalVisible;
  }

  /** Two recipes saved one after the other are listed in that order; their ids
      are the two clock readings, so they are distinct only when the readings
      differ, and one deletion then removes both records. */
  method TwoCreates(now1: string, now2: string, title1: string, title2: string)
    returns (listed: seq<Recipe>, afterDelete: seq<Recipe>)
    requires title1 != "" && title2 != ""
    ensures listed == [Recipe(now1, title1, "", ""), Recipe(now2, title2, "", "")]
    ensures UniqueIds(listed) <==> now1 != now2
    ensures now1 == now2 ==> afterDelete == []
    ensures now1 != now2 ==> afterDelete == [Recipe(now2, title2, "", "")]
  {
    var app := new App();
    app.ShowForm();
    app.ChangeTitle(title1);
    app.AddRecipe(now1);
    app.ShowForm();
    app.ChangeTitle(title2);
    app.AddRecipe(now2);
    listed := app.recipes;
    app.DeleteRecipe(listed[0]);
    app.ConfirmDelete();
    afterDelete := app.recipes;
  }
}
