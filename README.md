# Dish controller of a restaurant ordering backend, in Dafny

This project models the dish controller of a small REST backend for a
restaurant ("GrubDash"). Dishes live in an in-memory array. Each route is an ordered
chain of validators followed by a handler. A validator either passes the
request on or stops the chain with an error that carries an HTTP status.

- `js_values.dfy` (module `JsValues`) models the JavaScript values a request
  body can carry: `undefined`, `null`, booleans, numbers, strings and objects.
  It defines their truthiness, `Number.isInteger` and property lookup.
- `dishes_controller.dfy` (module `DishesController`) holds the rest of the
  controller:
  - the validators `bodyDataHas`, `priceIsValid`, `idIsValid` and `dishExists`;
  - the exported chains of `create`, `read` and `update`, each a list of steps
    that stops at the first failure;
  - the lookup `dishes.find(...)`;
  - the class `DishStore`, which owns the dish array. Its `Create` appends to
    the array and its `Update` overwrites one record's fields in place. Both
    keep ids unique, and their contracts state that the table changes only
    when every validator passes.
- `dishes_properties.dfy` (module `DishesProperties`) proves the following:
  - the order in which errors are reported;
  - the status codes the chains can return;
  - what a later read returns after a create or an update.

Some behaviour follows directly from the code:

- A price of `0` is falsy. `bodyDataHas("price")` runs before `priceIsValid`,
  so a price of `0` is reported as a missing price, not as an invalid one.
- A body id passes `idIsValid` when it is falsy or is the very same string as
  the route id. So a numeric body id `5` does not match the route id `"5"`.
- The update chain looks the dish up first. An unknown id gets a 404 whatever
  the body holds.

## Model

| member | source | states |
|---|---|---|
| `JsValues.FalsyValues` | src/dishes/dishes.controller.js:22 | the values a truthiness test rejects are exactly `undefined`, `null`, `false`, `0` and `""` |
| `JsValues.IsIntegerIffIntValue` | src/dishes/dishes.controller.js:40 | `Number.isInteger` holds exactly of the numbers that denote a mathematical integer |
| `DishesController.BodyDataHas` | src/dishes/dishes.controller.js:16-31 | passes iff the property is present and truthy (the extra `!== ""` test adds nothing); otherwise fails with a missing-field error naming the property |
| `DishesController.PriceIsValid` | src/dishes/dishes.controller.js:36-48 | passes iff the price is a whole number greater than zero; otherwise fails with the invalid-price error |
| `DishesController.IdIsValid` | src/dishes/dishes.controller.js:52-66 | passes iff the body id is absent or falsy, or is the route id as a string; a non-empty other string, a non-zero number, `true` or an object fails with an id-mismatch error carrying both ids |
| `DishesController.RunChain` | src/dishes/dishes.controller.js:131-151 | a chain passes iff every step passes; when it fails, the error is that of a failing step all of whose predecessors passed (halt at the first failure) |
| `DishesController.FindDish` | src/dishes/dishes.controller.js:91 | `find` by id: none iff no stored dish has the id; otherwise the index of the first dish with that id |
| `DishesController.DishExists` | src/dishes/dishes.controller.js:87-104 | passes iff some stored dish has the route id; otherwise a not-found error for that id |
| `DishesController.ReadResponse` | src/dishes/dishes.controller.js:107-112 | the read chain succeeds iff a dish has the id, with status 200 and a stored dish of that id; otherwise the not-found error |
| `DishesController.DishStore.constructor` | src/dishes/dishes.controller.js:4 | the table starts as the seed dishes, whose ids are unique |
| `DishesController.DishStore.List` | src/dishes/dishes.controller.js:10-12 | returns the whole table in insertion order and changes nothing |
| `DishesController.DishStore.Read` | src/dishes/dishes.controller.js:141 | returns the read chain's response for the current table and changes nothing |
| `DishesController.DishStore.Create` | src/dishes/dishes.controller.js:69-84 | if the create chain fails, returns its error and leaves the table as it was; otherwise appends exactly one dish (fresh id, the body's name, description, price and image_url), leaves earlier dishes unchanged, answers 201 with it, and keeps ids unique |
| `DishesController.DishStore.Update` | src/dishes/dishes.controller.js:116-129 | if the update chain fails, returns its error and leaves the table as it was; otherwise overwrites exactly the four fields of the first dish with the route id, keeps its id, leaves every other dish and the length unchanged, and answers 200 with the updated dish |
| `DishesController.CreateChain` | src/dishes/dishes.controller.js:133-139 | the create chain reports the first of name, description, price, image_url that is falsy; with all four present it reports an invalid price unless the price is a positive integer, and then it passes |
| `DishesProperties.CreatePassesIffValidBody` | src/dishes/dishes.controller.js:133-140 | the create chain passes exactly on bodies with a truthy name, description and image_url and a positive integer price |
| `DishesProperties.CreateErrorsAreBadRequests` | src/dishes/dishes.controller.js:133-140 | every error of the create chain has status 400 |
| `DishesController.UpdateChain` | src/dishes/dishes.controller.js:142-150 | the update chain reports not-found first; for an existing dish it reports exactly what the create chain would, and only if that passes does it check the id |
| `DishesProperties.UpdateErrorStatus` | src/dishes/dishes.controller.js:100-103 | a failed update has status 404 iff no stored dish has the route id, and 400 otherwise |
| `DishesProperties.ZeroPriceIsReportedMissing` | src/dishes/dishes.controller.js:136-138 | with name and description present, a price of 0 is reported as a missing price, before the price check runs |
| `DishesProperties.BadPriceIsReportedInvalid` | src/dishes/dishes.controller.js:40-47 | with all four fields present, a fractional, negative or non-numeric price is reported as an invalid price |
| `DishesProperties.MismatchedIdIsReportedLast` | src/dishes/dishes.controller.js:148-149 | for an existing dish and a valid body, a body id naming another dish yields the id-mismatch error |
| `DishesProperties.FindUnique` | src/dishes/dishes.controller.js:91 | with unique ids, looking up a stored dish's id finds that very dish |
| `DishesProperties.FindAfterAppend` | src/dishes/dishes.controller.js:81 | after appending a dish with a fresh id, its id is found at the end and every other id is found where it was |
| `DishesProperties.FindAfterReplace` | src/dishes/dishes.controller.js:123-126 | overwriting a dish while keeping its id changes no lookup result |
| `DishesProperties.ReadAfterCreate` | src/dishes/dishes.controller.js:81-83 | after a create, reading the new id returns the created dish with status 200; reading any other id is unaffected |
| `DishesProperties.ReadAfterUpdate` | src/dishes/dishes.controller.js:123-128 | after an update, reading the updated id returns the updated dish; reading any other id is unaffected |
| `DishesProperties.StoredFieldsAreValid` | src/dishes/dishes.controller.js:71-79 | a body that passes the create chain gives a dish with a truthy name, description and image_url and an integer price of at least 1 |
| `DishesProperties.ReadTwice` | src/dishes/dishes.controller.js:107-112 | two reads of one id with no update in between return the same response |
| `DishesProperties.PastaBodyIsValid` | src/dishes/dishes.controller.js:133-138 | the sample body `{name: "Pasta", description: "x", price: 10, image_url: "u"}` passes every field check |
| `DishesProperties.CreateReadMismatch` | src/dishes/dishes.controller.js:131-151 | on an empty table: creating a dish from a valid body answers 201 with the fresh id; reading that id answers 200 with the same dish; updating it with a body that names another id answers 400 with an id-mismatch error |

## Left out

- The orders controller (`src/orders/orders.controller.js`) is left out. Every handler in it is an empty stub, so there is no order behaviour to model.
- The orders router, the `methodNotAllowed` handler and the Express wiring are left out. They are framework plumbing.
- Express's `req`, `res`, `next` and `res.locals` are left out. A response is the value a method returns: a status and the dish, or an error whose status is given by `Error.Status`. The `{ data: ... }` envelope and JSON serialisation are left out too.
- Error message strings are left out. An error keeps only its kind and its data: the field name, or the two ids.
- `nextId` (src/utils/nextId) is not part of this model. `DishStore.Create` takes the id it would hand out as a parameter, and requires that no stored dish already has that id.
- The seed data (src/data/dishes-data) is not part of this model. The constructor takes it as a parameter with unique ids.
- JavaScript values are cut down to `undefined`, `null`, booleans, numbers, strings and objects. NaN and the infinities are not represented.
- JavaScript numbers are IEEE doubles; the model holds them as exact reals. Nothing is lost: every finite double is an exact real, and the controller only tests numbers for truthiness, `Number.isInteger` and `> 0`.
- A request body whose `data` is not an object (for example `null`, on which the handlers would throw) is not modelled. A body with no `data` is the empty object, as the `data = {}` default gives.
- `DishStore.Update`: the JavaScript handler mutates the stored record object, and `res.locals.dish` aliases that object. The model replaces the table's element with the updated record. Sharing of that object between earlier responses and the table is not modelled.
- Concurrency is not modelled. Requests run one at a time, as in the single-threaded server.
