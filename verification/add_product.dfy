/** The add-product form: the schema's field rules and the submit handler. */
module AddProduct {
  import opened Wrappers

  /** The form as parsed: `price` and `inventory` are what `parseFloat` (in cents)
      and `parseInt` make of the fields, `None` for NaN; `isFlagship` is absent
      when the checkbox never reported a value. */
  datatype ProductForm = ProductForm(
    name: string,
    description: string,
    price: Option<int>,
    inventory: Option<int>,
    isFlagship: Option<bool>)

  datatype FieldError = NameRequired | DescriptionRequired | PriceRejected | InventoryRejected

  /** The validated fields. */
  datatype ProductData = ProductData(name: string, description: string, price: int, inventory: int, isFlagship: bool)

  predicate PriceValid(p: Option<int>)
  {
    p.Some? && p.value > 0
  }

  predicate InventoryValid(n: Option<int>)
  {
    n.Some? && n.value >= 0
  }

  /** `productSchema`: every field checked, every failure reported. */
  function Validate(f: ProductForm): (r: Result<ProductData, seq<FieldError>>)
    ensures r.Ok? <==> f.name != [] && f.description != [] && PriceValid(f.price) && InventoryValid(f.inventory)
    ensures r.Ok? ==> r.value.name == f.name && r.value.description == f.description
    ensures r.Ok? ==> r.value.price > 0 && r.value.price == f.price.value
    ensures r.Ok? ==> r.value.inventory >= 0 && r.value.inventory == f.inventory.value
    ensures r.Ok? ==> r.value.isFlagship == (f.isFlagship.Some? && f.isFlagship.value)
    ensures r.Err? ==> |r.error| > 0
    ensures r.Err? ==> (NameRequired in r.error <==> f.name == [])
    ensures r.Err? ==> (DescriptionRequired in r.error <==> f.description == [])
    ensures r.Err? ==> (PriceRejected in r.error <==> !PriceValid(f.price))
    ensures r.Err? ==> (InventoryRejected in r.error <==> !InventoryValid(f.inventory))
  {
    var errors :=
      (if f.name == [] then [NameRequired] else [])
      + (if f.description == [] then [DescriptionRequired] else [])
      + (if PriceValid(f.price) then [] else [PriceRejected])
      + (if InventoryValid(f.inventory) then [] else [InventoryRejected]);
    if |errors| > 0 then Err(errors)
    else
      var flagship := match f.isFlagship case Some(b) => b case None => false;
      Ok(ProductData(f.name, f.description, f.price.value, f.inventory.value, flagship))
  }

  /** The document written to the products collection. */
  datatype NewProduct = NewProduct(
    name: string, description: string, price: int, inventory: int, isFlagship: bool, image: string)

  /** The products written so far, and the uploaded image (a data URL, empty when none). */
  datatype FormState = FormState(products: seq<NewProduct>, imageUrl: string)

  datatype SubmitOutcome = DatabaseUnavailable | ImageMissing | Added

  /** `onSubmit` on validated data; `connected` stands for the database being available. */
  function Submit(connected: bool, st: FormState, data: ProductData): (r: (FormState, SubmitOutcome))
    ensures r.1 == Added <==> connected && st.imageUrl != []
    ensures !connected ==> r == (st, DatabaseUnavailable)
    ensures connected && st.imageUrl == [] ==> r == (st, ImageMissing)
    ensures r.1 == Added ==> r.0.imageUrl == []
    ensures r.1 == Added ==> |r.0.products| == |st.products| + 1 && r.0.products[..|st.products|] == st.products
    ensures r.1 == Added ==>
      r.0.products[|st.products|] == NewProduct(data.name, data.description, data.price, data.inventory, data.isFlagship, st.imageUrl)
  {
    if !connected then (st, DatabaseUnavailable)
    else if st.imageUrl == [] then (st, ImageMissing)
    else
      var p := NewProduct(data.name, data.description, data.price, data.inventory, data.isFlagship, st.imageUrl);
      var products := st.products + [p];
      assert products[..|st.products|] == st.products;
      (FormState(products, ""), Added)
  }

  /** A stored product satisfies the schema and has an image. */
  predicate WellFormed(p: NewProduct)
  {
    p.name != [] && p.description != [] && p.price > 0 && p.inventory >= 0 && p.image != []
  }

  /** Validating and then submitting only ever writes well-formed products. */
  lemma SubmitKeepsCatalogWellFormed(connected: bool, st: FormState, f: ProductForm)
    requires forall i :: 0 <= i < |st.products| ==> WellFormed(st.products[i])
    requires Validate(f).Ok?
    ensures var r := Submit(connected, st, Validate(f).value);
      forall i :: 0 <= i < |r.0.products| ==> WellFormed(r.0.products[i])
  {
  }
}
