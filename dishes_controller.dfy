/** The dish controller of the restaurant backend: the request-body validators,
    the ordered validation chains the routes run, the lookup by id, and the
    in-memory dish table that `create` appends to and `update` edits in place. */
module DishesController {
  import opened JsValues

  datatype Option<T> = None | Some(value: T)

  /** A stored dish. The id is assigned by the server; the other four fields hold
      whatever the request body carried for them. */
  datatype Dish = Dish(id: string, name: Value, description: Value, price: Value, imageUrl: Value)

  /** The errors the validators hand to `next`. */
  datatype Error =
    | MissingField(field: string)
    | InvalidPrice
    | IdMismatch(bodyId: Value, routeId: string)
    | DishNotFound(dishId: string)
  {
    /** The HTTP status the error is sent with. */
    function Status(): nat {
      if DishNotFound? then 404 else 400
    }
  }

  /** What one validator does: call `next()` or `next(error)`. */
  datatype Check = Pass | Fail(error: Error)

  /** What a handler sends: a status and the dish, or an error. */
  datatype Response = Done(status: nat, dish: Dish) | Failed(error: Error)

  // ---------------------------------------------------------------------------
  // Validators

  /** `bodyDataHas(field)`: the property must be present and truthy. */
  function BodyDataHas(field: string, data: Object): (r: Check)
    ensures r == Pass <==> field in data && Truthy(data[field])
    ensures r != Pass ==> r == Fail(MissingField(field))
  {
    var v := Get(data, field);
    if Truthy(v) && v != Str("") then Pass else Fail(MissingField(field))
  }

  /** A value that is a whole number greater than zero. */
  ghost predicate PositiveInteger(v: Value) {
    exists n :: n > 0 && v == IntValue(n)
  }

  /** `priceIsValid`: the price must be an integer greater than zero. */
  function PriceIsValid(data: Object): (r: Check)
    ensures r == Pass <==> PositiveInteger(Get(data, "price"))
    ensures r != Pass ==> r == Fail(InvalidPrice)
  {
    var price := Get(data, "price");
    if Truthy(price) && IsInteger(price) && price.x > 0.0 then
      assert price == IntValue(price.x.Floor);
      Pass
    else
      Fail(InvalidPrice)
  }

  /** `idIsValid`: a body id, when given, must be the route's id. The id is taken
      as not given when it is falsy; otherwise only the very same string passes,
      so a number never matches the route id even when it spells it. */
  function IdIsValid(dishId: string, data: Object): (r: Check)
    ensures r == Pass <==>
      match Get(data, "id")
      case Undefined => true
      case Null => true
      case Bool(b) => !b
      case Num(x) => x == 0.0
      case Str(s) => s == "" || s == dishId
      case Obj => false
    ensures r != Pass ==> "id" in data && r == Fail(IdMismatch(data["id"], dishId))
  {
    var id := Get(data, "id");
    if !Truthy(id) || id == Str(dishId) then Pass else Fail(IdMismatch(id, dishId))
  }

  // ---------------------------------------------------------------------------
  // Validation chains

  /** One validator of a chain. */
  datatype Step = Has(field: string) | ValidPrice | ValidId

  function Apply(step: Step, dishId: string, data: Object): Check {
    match step
    case Has(field) => BodyDataHas(field, data)
    case ValidPrice => PriceIsValid(data)
    case ValidId => IdIsValid(dishId, data)
  }

  /** Runs the validators in order and stops at the first that fails. */
  function RunChain(steps: seq<Step>, dishId: string, data: Object): (r: Check)
    ensures r == Pass <==> forall k :: 0 <= k < |steps| ==> Apply(steps[k], dishId, data) == Pass
    ensures r.Fail? ==> exists k :: 0 <= k < |steps| && Apply(steps[k], dishId, data) == r &&
                                    forall j :: 0 <= j < k ==> Apply(steps[j], dishId, data) == Pass
    decreases |steps|
  {
    if steps == [] then Pass
    else
      var first := Apply(steps[0], dishId, data);
      if first.Fail? then first
      else
        var rest := RunChain(steps[1..], dishId, data);
        assert forall k :: 1 <= k < |steps| ==> steps[k] == steps[1..][k - 1];
        rest
  }

  /** The four fields a dish body must carry, in the order they are checked. */
  const RequiredFields: seq<string> := ["name", "description", "price", "image_url"]

  /** The validators of `create`, in the exported order. */
  const CreateSteps: seq<Step> := [Has("name"), Has("description"), Has("price"), Has("image_url"), ValidPrice]

  /** The validators of `update` that follow `dishExists`, in the exported order. */
  const UpdateSteps: seq<Step> := [Has("name"), Has("description"), Has("price"), Has("image_url"), ValidPrice, ValidId]

  /** The first of `fields` whose value in `data` is falsy. */
  function FirstMissing(fields: seq<string>, data: Object): (r: Option<string>)
    ensures r.None? <==> forall k :: 0 <= k < |fields| ==> Truthy(Get(data, fields[k]))
    ensures r.Some? ==> exists k :: 0 <= k < |fields| && fields[k] == r.value && !Truthy(Get(data, r.value)) &&
                                    forall j :: 0 <= j < k ==> Truthy(Get(data, fields[j]))
    decreases |fields|
  {
    if fields == [] then None
    else if !Truthy(Get(data, fields[0])) then Some(fields[0])
    else
      var rest := FirstMissing(fields[1..], data);
      assert forall k :: 1 <= k < |fields| ==> fields[k] == fields[1..][k - 1];
      rest
  }

  /** The body a valid `create` or `update` request carries. */
  ghost predicate ValidDishBody(data: Object) {
    && Truthy(Get(data, "name"))
    && Truthy(Get(data, "description"))
    && PositiveInteger(Get(data, "price"))
    && Truthy(Get(data, "image_url"))
  }

  /** The chain of `create`: it reports the first of name, description, price,
      image_url that is missing or falsy; with all four present it reports a bad
      price; otherwise it passes. (The POST route has no id parameter, and no
      step of this chain reads one.) */
  function CreateChain(data: Object): (r: Check)
    ensures r ==
      match FirstMissing(RequiredFields, data)
      case Some(f) => Fail(MissingField(f))
      case None => if PositiveInteger(Get(data, "price")) then Pass else Fail(InvalidPrice)
  {
    RunChain(CreateSteps, "", data)
  }

  // ---------------------------------------------------------------------------
  // Lookup

  /** `dishes.find(dish => dish.id === dishId)`, as the index of the first match. */
  function FindDish(dishes: seq<Dish>, dishId: string): (r: Option<nat>)
    ensures r.None? <==> forall k :: 0 <= k < |dishes| ==> dishes[k].id != dishId
    ensures r.Some? ==> r.value < |dishes| && dishes[r.value].id == dishId &&
                        forall k :: 0 <= k < r.value ==> dishes[k].id != dishId
    decreases |dishes|
  {
    if dishes == [] then None
    else if dishes[0].id == dishId then Some(0)
    else
      match FindDish(dishes[1..], dishId)
      case None => None
      case Some(i) => Some(i + 1)
  }

  /** `dishExists`: passes when a stored dish has the route's id, else a 404. */
  function DishExists(dishes: seq<Dish>, dishId: string): (r: Check)
    ensures r == Pass <==> exists k :: 0 <= k < |dishes| && dishes[k].id == dishId
    ensures r != Pass ==> r == Fail(DishNotFound(dishId))
  {
    if FindDish(dishes, dishId).Some? then Pass else Fail(DishNotFound(dishId))
  }

  /** The chain of `read`: `dishExists`, then the handler. */
  function ReadResponse(dishes: seq<Dish>, dishId: string): (r: Response)
    ensures r.Done? <==> exists k :: 0 <= k < |dishes| && dishes[k].id == dishId
    ensures r.Done? ==> r.status == 200 && r.dish in dishes && r.dish.id == dishId
    ensures r.Failed? ==> r.error == DishNotFound(dishId)
  {
    match FindDish(dishes, dishId)
    case None => Failed(DishNotFound(dishId))
    case Some(i) => Done(200, dishes[i])
  }

  /** The chain of `update` up to its handler: a 404 before the body is looked
      at; then exactly what the `create` chain reports, in the same order; only
      then the comparison of ids. */
  function UpdateChain(dishes: seq<Dish>, dishId: string, data: Object): (r: Check)
    ensures r ==
      if FindDish(dishes, dishId).None? then Fail(DishNotFound(dishId))
      else if CreateChain(data).Fail? then CreateChain(data)
      else IdIsValid(dishId, data)
  {
    var found := DishExists(dishes, dishId);
    if found.Fail? then found else RunChain(UpdateSteps, dishId, data)
  }

  // ---------------------------------------------------------------------------
  // The dish table

  /** No two dishes share an id. */
  ghost predicate UniqueIds(dishes: seq<Dish>) {
    forall i, j :: 0 <= i < j < |dishes| ==> dishes[i].id != dishes[j].id
  }

  /** The in-memory `dishes` array of the controller. */
  class DishStore {
    var dishes: seq<Dish>

    ghost predicate Valid()
      reads this
    {
      UniqueIds(dishes)
    }

    /** The table starts out holding the seed dishes. */
    constructor (seed: seq<Dish>)
      requires UniqueIds(seed)
      ensures Valid() && dishes == seed
    {
      dishes := seed;
    }

    /** `list`: every dish, in insertion order. */
    method List() returns (r: seq<Dish>)
      ensures r == dishes
    {
      r := dishes;
    }

    /** The `read` chain: the first dish with the route's id, or a 404. */
    method Read(dishId: string) returns (r: Response)
      ensures r == ReadResponse(dishes, dishId)
    {
      var found := FindDish(dishes, dishId);
      if found.None? {
        return Failed(DishNotFound(dishId));
      }
      r := Done(200, dishes[found.value]);
    }

    /** The `create` chain. `freshId` is the id `nextId()` hands out. Nothing is
        stored unless every validator passes; then the new dish is appended. */
    method Create(data: Object, freshId: string) returns (r: Response)
      requires Valid()
      requires forall k :: 0 <= k < |dishes| ==> dishes[k].id != freshId
      modifies this
      ensures Valid()
      ensures CreateChain(data).Fail? ==> r == Failed(CreateChain(data).error) && dishes == old(dishes)
      ensures CreateChain(data) == Pass ==>
        && r == Done(201, Dish(freshId, Get(data, "name"), Get(data, "description"),
                               Get(data, "price"), Get(data, "image_url")))
        && dishes == old(dishes) + [r.dish]
    {
      var check := RunChain(CreateSteps, "", data);
      if check.Fail? {
        return Failed(check.error);
      }
      var newDish := Dish(freshId, Get(data, "name"), Get(data, "description"),
                          Get(data, "price"), Get(data, "image_url"));
      dishes := dishes + [newDish];
      r := Done(201, newDish);
    }

    /** The `update` chain. Nothing changes unless every validator passes; then
        the four fields of the first dish with the route's id are overwritten,
        its id is kept, and every other dish stays as it was. */
    method Update(dishId: string, data: Object) returns (r: Response)
      requires Valid()
      modifies this
      ensures Valid()
      ensures UpdateChain(old(dishes), dishId, data).Fail? ==>
        r == Failed(UpdateChain(old(dishes), dishId, data).error) && dishes == old(dishes)
      ensures UpdateChain(old(dishes), dishId, data) == Pass ==>
        && FindDish(old(dishes), dishId).Some?
        && var i := FindDish(old(dishes), dishId).value;
        && |dishes| == |old(dishes)|
        && dishes[i] == Dish(old(dishes)[i].id, Get(data, "name"), Get(data, "description"),
                             Get(data, "price"), Get(data, "image_url"))
        && (forall k :: 0 <= k < |dishes| && k != i ==> dishes[k] == old(dishes)[k])
        && r == Done(200, dishes[i])
    {
      var found := FindDish(dishes, dishId);
      if found.None? {
        return Failed(DishNotFound(dishId));
      }
      var check := RunChain(UpdateSteps, dishId, data);
      if check.Fail? {
        return Failed(check.error);
      }
      var i := found.value;
      var dish := dishes[i].(name := Get(data, "name"), description := Get(data, "description"),
                             price := Get(data, "price"), imageUrl := Get(data, "image_url"));
      dishes := dishes[i := dish];
      r := Done(200, dish);
    }
  }
}
