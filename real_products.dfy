/** The sixteen products taken from the shop's spreadsheet, with their average
    daily sales and food-cost ratio. The same table appears in
    analyze_real_data.py, real_menu_pricing.py and (ratios only) in
    menu_pricing.py; it is declared once here. */
module RealProducts {

  datatype Product = Product(name: string, dailySales: real, costRatio: real)

  const Products: seq<Product> := [
    Product("시그니처양념치킨", 82.075, 0.536),
    Product("시그니처통살치킨", 77.775, 0.596),
    Product("마늘간장치킨", 74.75, 0.539),
    Product("윙봉콤보", 77.175, 0.520),
    Product("단호박오리구이", 46.05, 0.477),
    Product("칠리깐쇼새우", 36.45, 0.618),
    Product("매콤칠리나시고랭", 32.475, 0.334),
    Product("오징어튀김", 34.975, 0.467),
    Product("잡채", 25.3, 0.364),
    Product("크림새우", 34.15, 0.611),
    Product("스파이시깐풍치킨", 36.475, 0.555),
    Product("게살볶음밥", 21.925, 0.223),
    Product("새우볶음밥", 19.0, 0.429),
    Product("치즈소떡소떡", 24.15, 0.500),
    Product("해산물빠에야", 20.125, 0.482),
    Product("마늘간장미트볼", 27.225, 0.412)
  ]

  /** The product names are distinct, so the Python dict keeps all sixteen
      in the order written, and every ratio lies between 0.223 and 0.618. */
  lemma ProductsWellFormed()
    ensures |Products| == 16
    ensures forall i, j :: 0 <= i < j < |Products| ==> Products[i].name != Products[j].name
    ensures forall i :: 0 <= i < |Products| ==> 0.223 <= Products[i].costRatio <= 0.618
  {
  }
}
