/**
  The static lunch catalog: a fixed table from dietary preference and food
  type to an ordered list of menu items. It is built once and never changes.
 */
module Catalog {

  /** The three dietary preferences, in the order the catalog declares them. */
  datatype Diet = Veg | NonVeg | Vegan

  /** The two food types, in the order each diet's entry declares them. */
  datatype FoodType = Healthy | Comfort

  datatype MenuItem = MenuItem(name: string, cuisine: string)

  /** The list the catalog holds for one (diet, food type) pair, in declaration order. */
  function Menu(diet: Diet, food: FoodType): (r: seq<MenuItem>)
  {
    match (diet, food)
    case (Veg, Healthy) =>
      [ MenuItem("Greek Salad", "Mediterranean"),
        MenuItem("Quinoa Buddha Bowl", "International"),
        MenuItem("Roasted Vegetable Wrap", "International"),
        MenuItem("Lentil Soup", "Mediterranean"),
        MenuItem("Steamed Vegetable Dumplings", "Asian") ]
    case (Veg, Comfort) =>
      [ MenuItem("Margherita Pizza", "Italian"),
        MenuItem("Mac and Cheese", "American"),
        MenuItem("Paneer Tikka Masala", "Indian"),
        MenuItem("Mushroom Risotto", "Italian"),
        MenuItem("Vegetable Biryani", "Indian") ]
    case (NonVeg, Healthy) =>
      [ MenuItem("Grilled Chicken Salad", "International"),
        MenuItem("Baked Salmon", "International"),
        MenuItem("Turkey Lettuce Wraps", "Asian"),
        MenuItem("Chicken Quinoa Bowl", "International"),
        MenuItem("Tuna Poke Bowl", "Japanese") ]
    case (NonVeg, Comfort) =>
      [ MenuItem("Beef Burger", "American"),
        MenuItem("Butter Chicken", "Indian"),
        MenuItem("BBQ Ribs", "American"),
        MenuItem("Chicken Alfredo", "Italian"),
        MenuItem("Fish & Chips", "British") ]
    case (Vegan, Healthy) =>
      [ MenuItem("Acai Bowl", "International"),
        MenuItem("Chickpea Buddha Bowl", "International"),
        MenuItem("Kale and Quinoa Salad", "International"),
        MenuItem("Raw Veggie Sushi Rolls", "Japanese"),
        MenuItem("Mediterranean Falafel Bowl", "Mediterranean") ]
    case (Vegan, Comfort) =>
      [ MenuItem("Beyond Meat Burger", "American"),
        MenuItem("Vegan Mac and Cheese", "American"),
        MenuItem("Chickpea Curry", "Indian"),
        MenuItem("Vegan Pizza", "Italian"),
        MenuItem("Black Bean Tacos", "Mexican") ]
  }

  /** Everything one diet offers: its healthy list followed by its comfort list. */
  function ItemsOf(diet: Diet): (r: seq<MenuItem>)
  {
    Menu(diet, Healthy) + Menu(diet, Comfort)
  }

  /**
    The whole catalog flattened in declaration order: diets veg, nonVeg,
    vegan, each contributing healthy then comfort. Both the cuisine list and
    the no-diet branch of the decision walk the catalog in this order.
   */
  function AllItems(): (r: seq<MenuItem>)
  {
    ItemsOf(Veg) + ItemsOf(NonVeg) + ItemsOf(Vegan)
  }

  /** Every (diet, food type) list holds exactly five items. */
  lemma MenuSizes(diet: Diet, food: FoodType)
    ensures |Menu(diet, food)| == 5
  {
  }

  /** A diet offers ten items and the whole catalog thirty. */
  lemma CatalogSizes(diet: Diet)
    ensures |ItemsOf(diet)| == 10
    ensures |AllItems()| == 30
  {
    MenuSizes(diet, Healthy);
    MenuSizes(diet, Comfort);
    forall d: Diet ensures |ItemsOf(d)| == 10 {
      MenuSizes(d, Healthy);
      MenuSizes(d, Comfort);
    }
  }

  /** An item is in the flattened catalog exactly when some (diet, food type) list holds it. */
  lemma AllItemsCoversCatalog(x: MenuItem)
    ensures x in AllItems() <==> exists d: Diet, f: FoodType :: x in Menu(d, f)
  {
    if x in AllItems() {
      if x in Menu(Veg, Healthy) {
      } else if x in Menu(Veg, Comfort) {
      } else if x in Menu(NonVeg, Healthy) {
      } else if x in Menu(NonVeg, Comfort) {
      } else if x in Menu(Vegan, Healthy) {
      } else {
        assert x in Menu(Vegan, Comfort);
      }
    }
  }
}
