/** What the dish routes promise: which error each chain reports first, the
    status codes the chains answer with, and what a later read of the table
    returns after a create or an update. */
module DishesProperties {
  import opened JsValues
  import opened DishesController

  // ---------------------------------------------------------------------------
  // Validation order

  /** `create` passes exactly on a body with a truthy name, description and
      image_url and a price that is an integer greater than zero. */
  lemma CreatePassesIffValidBody(data: Object)
    ensures CreateChain(data) == Pass <==> ValidDishBody(data)
  {
  }

  /** `create` only ever fails with a 400. */
  lemma CreateErrorsAreBadRequests(data: Object)
    ensures CreateChain(data).Fail? ==> CreateChain(data).error.Status() == 400
  {
  }

  /** `update` fails with a 404 exactly when no stored dish has the route id,
      and with a 400 otherwise. */
  lemma UpdateErrorStatus(dishes: seq<Dish>, dishId: string, data: Object)
    ensures UpdateChain(dishes, dishId, data).Fail? ==>
      (UpdateChain(dishes, dishId, data).error.Status() == 404 <==>
       forall k :: 0 <= k < |dishes| ==> dishes[k].id != dishId)
  {
  }

  /** A price of 0 is falsy, so it is reported as a missing price, not an
      invalid one. */
  lemma ZeroPriceIsReportedMissing(data: Object)
    requires Truthy(Get(data, "name")) && Truthy(Get(data, "description"))
    requires Get(data, "price") == Num(0.0)
    ensures CreateChain(data) == Fail(MissingField("price"))
  {
  }

  /** With every field present, a price that is negative, fractional or not a
      number is reported as an invalid price. */
  lemma BadPriceIsReportedInvalid(data: Object)
    requires Truthy(Get(data, "name")) && Truthy(Get(data, "description"))
    requires Truthy(Get(data, "price")) && Truthy(Get(data, "image_url"))
    requires !IsInteger(Get(data, "price")) || Get(data, "price").x < 0.0
    ensures CreateChain(data) == Fail(InvalidPrice)
  {
  }

  /** A body id that names another dish is rejected only after every other
      check has passed. */
  lemma MismatchedIdIsReportedLast(dishes: seq<Dish>, dishId: string, data: Object)
    requires exists k :: 0 <= k < |dishes| && dishes[k].id == dishId
    requires ValidDishBody(data)
    requires Get(data, "id").Str? && Get(data, "id").s != "" && Get(data, "id").s != dishId
    ensures UpdateChain(dishes, dishId, data) == Fail(IdMismatch(Get(data, "id"), dishId))
  {
  }

  // ---------------------------------------------------------------------------
  // Lookup after a change to the table

  /** With unique ids, the lookup of a stored dish's id finds that very dish. */
  lemma FindUnique(dishes: seq<Dish>, k: nat)
    requires UniqueIds(dishes) && k < |dishes|
    ensures FindDish(dishes, dishes[k].id) == Some(k)
  {
  }

  /** Appending a dish with a fresh id: the lookup finds it at the end, and every
      other id is found where it was before. */
  lemma {:induction false} FindAfterAppend(dishes: seq<Dish>, d: Dish, dishId: string)
    requires forall k :: 0 <= k < |dishes| ==> dishes[k].id != d.id
    ensures FindDish(dishes + [d], dishId) ==
      if dishId == d.id then Some(|dishes|) else FindDish(dishes, dishId)
    decreases |dishes|
  {
    if dishes == [] {
      assert ([] + [d])[1..] == [];
    } else {
      assert (dishes + [d])[1..] == dishes[1..] + [d];
      FindAfterAppend(dishes[1..], d, dishId);
    }
  }

  /** Overwriting a dish while keeping its id changes no lookup result. */
  lemma {:induction false} FindAfterReplace(dishes: seq<Dish>, i: nat, d: Dish, dishId: string)
    requires i < |dishes| && d.id == dishes[i].id
    ensures FindDish(dishes[i := d], dishId) == FindDish(dishes, dishId)
    decreases |dishes|
  {
    if i > 0 {
      assert dishes[i := d][1..] == dishes[1..][i - 1 := d];
      FindAfterReplace(dishes[1..], i - 1, d, dishId);
    }
  }

  /** Reading the id a successful `create` handed out returns the created dish,
      and reading any other id returns what it returned before. */
  lemma ReadAfterCreate(dishes: seq<Dish>, d: Dish, dishId: string)
    requires forall k :: 0 <= k < |dishes| ==> dishes[k].id != d.id
    ensures ReadResponse(dishes + [d], dishId) ==
      if dishId == d.id then Done(200, d) else ReadResponse(dishes, dishId)
  {
    FindAfterAppend(dishes, d, dishId);
  }

  /** Reading after a successful `update` returns the updated dish for the
      updated id and what it returned before for any other id. */
  lemma ReadAfterUpdate(dishes: seq<Dish>, dishId: string, d: Dish, readId: string)
    requires FindDish(dishes, dishId).Some?
    requires d.id == dishId
    ensures var i := FindDish(dishes, dishId).value;
      ReadResponse(dishes[i := d], readId) ==
        if readId == dishId then Done(200, d) else ReadResponse(dishes, readId)
  {
  }

  /** A dish stored by a successful `create` or `update` is well formed. */
  lemma StoredFieldsAreValid(data: Object)
    requires CreateChain(data) == Pass
    ensures Truthy(Get(data, "name")) && Truthy(Get(data, "description")) && Truthy(Get(data, "image_url"))
    ensures IsInteger(Get(data, "price")) && Get(data, "price").x >= 1.0
  {
  }

  // ---------------------------------------------------------------------------
  // Clients of the table

  /** Two reads with no update in between return the same response. */
  method ReadTwice(store: DishStore, dishId: string) returns (first: Response, second: Response)
    ensures first == second
    ensures first == ReadResponse(store.dishes, dishId)
  {
    first := store.Read(dishId);
    second := store.Read(dishId);
  }

  /** The body of the sample request `{name: "Pasta", description: "x", price: 10,
      image_url: "u"}` passes every field check. */
  lemma PastaBodyIsValid()
    ensures ValidDishBody(map["name" := Str("Pasta"), "description" := Str("x"), "price" := Num(10.0), "image_url" := Str("u")])
  {
    assert Num(10.0) == IntValue(10);
  }

  /** Create a dish from a valid body, read it back with its new id, then try to
      update it with the same body naming another id. */
  method CreateReadMismatch(body: Object, freshId: string, otherId: string)
    returns (created: Response, read: Response, mismatched: Response)
    requires ValidDishBody(body)
    requires otherId != "" && otherId != freshId
    ensures created.Done? && created.status == 201 && created.dish.id == freshId
    ensures read == Done(200, created.dish)
    ensures mismatched == Failed(IdMismatch(Str(otherId), freshId)) && mismatched.error.Status() == 400
  {
    var store := new DishStore([]);
    CreatePassesIffValidBody(body);
    created := store.Create(body, freshId);
    assert store.dishes == [created.dish];
    read := store.Read(freshId);
    var edit := body["id" := Str(otherId)];
    assert ValidDishBody(edit) by {
      assert forall f :: f != "id" ==> Get(edit, f) == Get(body, f);
    }
    MismatchedIdIsReportedLast(store.dishes, freshId, edit);
    mismatched := store.Update(freshId, edit);
  }
}
