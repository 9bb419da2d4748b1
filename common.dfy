/** Failure-carrying values shared by every module of the pricing engine. */
module Wrappers {

  datatype Option<T> = None | Some(value: T)

  /** The exceptions the pricing scripts raise, one constructor per raise site. */
  datatype Error =
    | InvalidWeight(ingredient: string)             // ValueError from Ingredient.price_per_kg
    | UnknownUnit(unit: string, ingredient: string) // ValueError from read_ingredients
    | MissingIngredient(ingredient: string)         // KeyError from Recipe.cost
    | InvalidRatio                                  // ValueError from suggest_price
    | NonPositivePrice                              // ValueError from gross_margin
    | EmptyTiers                                    // IndexError from tiers[-1]

  datatype Result<T> = Ok(value: T) | Err(error: Error)
}
