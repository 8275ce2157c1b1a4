# Catalog backend: validation, persistence hooks and handlers

This project models the core of a small catalog REST backend (brands, categories, products,
variants and product images) and proves properties of that model. Collections are in-memory maps
and the schema validator is a small interpreter. What is modelled:

- **Validator** (`Joi`, `NameRule`). Checks the four request-body rule objects (`BrandDto`,
  `CategoryDto`):
  - Declared keys are checked in schema order.
  - Then undeclared keys are checked, unless the caller allows them.
  - Last comes the object's `min(1)` rule.
  - Abort-early reports only the first error; collect-all reports the whole list.
  - `.allow('')` and `.default('')` are modelled.
  - Each of a rule's messages is modelled, with `{#limit}` filled in by
    `Number.prototype.toString` (`Numerals`).
- **Documents** (`VariantSchema`, `ProductSchema`, `ProductImageSchema`, `CategorySchema`, and
  the Brand record in `BrandController`). Each is a datatype plus:
  - a constructor function that applies the schema's defaults;
  - a validity predicate for what a save checks: required strings are non-empty, required
    references are present, `price >= 0`, `quantity` lies in 0..255.
- **Category save hook** (`CategorySchema.CategoryDocument.PreSave`). A class whose method
  updates `color` in place. When the colour is missing or blank, it becomes `'#'` followed by the
  base-16 digits of a draw from 0..16777258.
- **`setAsMainImage`** (`ProductImageSchema.Catalog.SetAsMainImage`). A class over the image and
  product collections:
  - The receiver is saved with `isMain` set.
  - A loop clears the flag on every other image of the same product.
  - The owning product's `mainImage` is then pointed at the receiver.
  - The loop is proved against the specification functions `MarkedMain` and `Repointed`. The
    lemmas beside them prove that, afterwards, exactly one image of the product is main and the
    product points at it.
- **Handlers** (`CategoryController`, `BrandController`). Each is a class over a collection map,
  its natural order and the next id. For each of create, update, remove, getAll and getById, it
  gives the first response sent: status, message, data, rows, count, operation and status. The
  `{id, name}` projection of referenced products is in `Populate`.

Facts about the code that the model follows:

- **`name` is required on update.** Both update rule objects declare `name: ...required()`, so an
  update body without `name` is rejected.
- **Unknown keys are rejected on create.** `validate(body)` with no options runs with
  `allowUnknown: false`, so an undeclared key is an `object.unknown` error
  (`BrandDto.CreateRejectsUnknown`, `CategoryDto.CreateAccepted`).
- **Unknown keys are reported in `Object.keys` order.** Keys that are array indices come first,
  ascending; the other keys follow in order of first occurrence, and a repeated key is reported
  once (`ObjectKeys.OwnKeysOrdered`, `ObjectKeys.OwnKeysNamed`, `Joi.UnknownErrorsOrder`). So
  `{"name": "Nike", "zz": 1, "7": 2}` on brand create is answered `"7" is not allowed`
  (`BrandDto.IndexKeyReportedFirst`).
- **A JSON array body is not an object.** The body parser hands an array to the handler; the
  object rule then reports `"value" must be of type object`, and create and update answer 400
  (`Joi.ValidateRequest`).
- **Lengths are counted in UTF-16 code units.** `min(3)` and `max(64)` compare JavaScript's
  `length`, so a character outside the Basic Multilingual Plane counts twice
  (`NameRule.LengthInCodeUnits`).
- **The `min(1)` message is never reported.** In every schema `name` is required, and the object
  rule runs only after the key checks pass. So the empty body draws "… ismi zorunludur." alone
  (`CategoryDto.EmptyBodyRejected`, `BrandDto.UpdateEmptyBody`).
- **An update can store an empty colour.** The colour hook runs only on `save`, not on
  `findByIdAndUpdate`, and the update rule allows `''` (`CategoryController.UpdateCanBlankColor`).
- **The generated colour is not padded.** It has 1 to 7 hex digits, for example `#0`, `#ff` and
  `#100002a`.
- **A variant's `quantity` need not be an integer.** The variant schema declares only `min: 0`
  and `max: 255`, so the model takes it as a real number.

## Model

| member | source | states |
|---|---|---|
| NameRule.Errors | server/api/1.0/dto/category/create-category.dto.js:4-10 | The name rule fails exactly when the value is not a string of 3 to 64 UTF-16 code units (JavaScript `length`). Each failure has its own message: missing gives "… ismi zorunludur.", non-string gives the base message, '' gives the empty message, and too short or too long gives the min or max message with 3 or 64 written in. The same rule, with subject "Marka", is declared in the two brand rule objects. |
| Joi.FieldErrors | server/api/1.0/dto/category/create-category.dto.js:4-13 | Every error of one key's string rule is tagged with that key, and none is an object-rule error. |
| Joi.Validate | server/api/1.0/controllers/category.controller.js:58-59 | A rejection carries at least one detail, and exactly one under abort-early. An accepted value is the body's fields plus the defaults. |
| Joi.MessagesOf | server/api/1.0/controllers/category.controller.js:61 | The message list has one entry per detail, in order, each that detail's message. |
| Joi.AcceptedIff | server/api/1.0/dto/category/create-category.dto.js:3-18 | A body is accepted iff every declared key's rule passes, every key is declared (unless unknown keys are allowed), and the value has at least `min` keys. |
| Joi.ValidateRequest | server/api/1.0/controllers/category.controller.js:22-24 | A JSON object body is validated by its rules. A JSON array is rejected with the single `object.base` detail `"value" must be of type object`. |
| Joi.Utf16Length | server/api/1.0/dto/category/create-category.dto.js:4 | A string's length in code units is at least its character count and at most twice it. |
| Joi.AstralLength | server/api/1.0/dto/category/create-category.dto.js:4 | A string of characters outside the Basic Multilingual Plane has twice as many code units as characters. |
| NameRule.LengthInCodeUnits | server/api/1.0/dto/brand/create-brand.dto.js:4 | An emoji and a letter (three code units) pass `min(3)`. Thirty-three emoji (66 code units) fail `max(64)`. |
| Joi.UnknownKeysMembers | server/api/1.0/dto/brand/create-brand.dto.js:3-11 | The unknown keys are exactly the body's keys that the schema does not declare. |
| Joi.UnknownKeysOrdered | server/api/1.0/controllers/brand.controller.js:21 | The unknown keys are listed once each, with array-index keys first and ascending. |
| Joi.UnknownErrorsOrder | server/api/1.0/controllers/brand.controller.js:21 | There is one `object.unknown` error per undeclared key, no key twice, in the order of the unknown keys: array-index keys first and ascending, then the other keys in the order they first occur in the body. |
| Joi.UnknownIndexFirst | server/api/1.0/controllers/brand.controller.js:21-23 | When an undeclared key is an array index, the first unknown error is an array index no larger than it. |
| ObjectKeys.OwnKeysMembers | server/api/1.0/controllers/brand.controller.js:21 | `Object.keys` of a parsed body lists exactly the keys written in it. |
| ObjectKeys.OwnKeysOrdered | server/api/1.0/controllers/brand.controller.js:21 | `Object.keys` lists every key once, array indices first and in ascending order. |
| ObjectKeys.OutsideKeeps | server/api/1.0/controllers/brand.controller.js:21 | Leaving out the declared keys keeps the others once each, with array indices first and ascending. |
| ObjectKeys.OwnKeysNamed | server/api/1.0/controllers/brand.controller.js:21 | The keys of `Object.keys` that are not array indices are the body's such keys, each at its first occurrence, in that order. |
| ObjectKeys.InsertIndexNamed | server/api/1.0/controllers/brand.controller.js:21 | Setting an array-index key leaves the order of the other keys unchanged. |
| ObjectKeys.OutsideNamed | server/api/1.0/controllers/brand.controller.js:21 | Leaving out the declared keys keeps the non-index keys in their relative order. |
| Joi.UnknownKeysNamed | server/api/1.0/controllers/brand.controller.js:21 | The unknown keys that are not array indices are the body's undeclared such keys, in order of first occurrence. |
| ObjectKeys.IndexKeysFirst | server/api/1.0/controllers/brand.controller.js:21 | For the keys `name`, `zz`, `7`, `Object.keys` gives `7`, `name`, `zz`, and the keys outside `{name}` are `7`, `zz`. |
| ObjectKeys.RepeatedKeyOnce | server/api/1.0/controllers/brand.controller.js:21 | For the keys `name`, `zz`, `zz`, `Object.keys` gives `name`, `zz`: a repeated key is listed once. |
| BrandDto.IndexKeyReportedFirst | server/api/1.0/controllers/brand.controller.js:21-23 | With a valid name and an array-index key in the body, create is rejected, and the first error is `object.unknown` for an array-index key no larger than that one. |
| Joi.FirstKeyReportedFirst | server/api/1.0/controllers/category.controller.js:22-24 | When the first declared key fails, its first error heads the report under any options. |
| Joi.AcceptedKeepsSupplied | server/api/1.0/dto/category/create-category.dto.js:3-14 | An accepted value keeps every supplied field exactly as supplied. |
| Joi.ValueLookup | server/api/1.0/dto/category/update-category.dto.js:11-13 | A key without a default is in the value iff the body supplies it, and then as supplied. |
| Joi.ValueDefault | server/api/1.0/dto/category/create-category.dto.js:13 | A key with a default is always in the value: the supplied value, or else the default. |
| Joi.ObjectMinNeverReported | server/api/1.0/dto/brand/update-brand.dto.js:3-15 | With a required key and `min` at most 1, no reported error is the object's `min` error. |
| Joi.BoundedRequiredRule | server/api/1.0/dto/brand/create-brand.dto.js:4 | A required, bounded string rule passes exactly the strings whose length in UTF-16 code units is within its bounds. |
| CategoryDto.OptionalRule | server/api/1.0/dto/category/update-category.dto.js:11-13 | An optional string key passes absent values and strings. '' passes iff `.allow('')` is given. |
| CategoryDto.CreateKeysPass | server/api/1.0/dto/category/create-category.dto.js:3-14 | The create keys pass iff name is 3 to 64 UTF-16 code units and icon, color and image are each absent or non-empty strings. |
| CategoryDto.CreateAccepted | server/api/1.0/dto/category/create-category.dto.js:3-18 | A create body is accepted iff the keys pass and, unless unknown keys are allowed, it has no key besides name, icon, color and image. |
| CategoryDto.UpdateKeysPass | server/api/1.0/dto/category/update-category.dto.js:3-14 | The update keys pass iff name is 3 to 64 UTF-16 code units and icon, color and image are each absent or strings, '' included. |
| CategoryDto.UpdateAccepted | server/api/1.0/dto/category/update-category.dto.js:3-18 | Under the handler's `allowUnknown`, an update body is accepted iff the update keys pass. A body without `name` is rejected. |
| CategoryDto.MinKeysMet | server/api/1.0/dto/category/create-category.dto.js:15-18 | A body holding `name` meets the object's `min(1)`. |
| CategoryDto.NameReportedFirst | server/api/1.0/dto/category/create-category.dto.js:4-10 | A failing name is the first error reported, on create and on update. |
| CategoryDto.CreateImageDefault | server/api/1.0/dto/category/create-category.dto.js:13 | An accepted create value holds `image`: the supplied one, or ''. |
| CategoryDto.UpdateNoImageDefault | server/api/1.0/dto/category/update-category.dto.js:13 | An accepted update value has no `image` when the body supplies none. |
| CategoryDto.CreateValue | server/api/1.0/dto/category/create-category.dto.js:3-14 | An accepted create value has the body's name, its icon and color exactly when supplied, and its image or ''. |
| CategoryDto.UpdateValue | server/api/1.0/dto/category/update-category.dto.js:3-14 | An accepted update value has the body's name, and its icon, color and image exactly when supplied, '' included. |
| CategoryDto.EmptyBodyKeyErrors | server/api/1.0/dto/category/create-category.dto.js:3-14 | For an empty body, the four keys report only "Kategori ismi zorunludur.". |
| CategoryDto.EmptyBodyRejected | server/api/1.0/dto/category/update-category.dto.js:3-18 | An empty body is rejected, on create and on update under any options, with only the missing-name detail. The `min(1)` message is not among the errors. |
| CategoryDto.ObjectMinUnreachable | server/api/1.0/dto/category/update-category.dto.js:15-18 | No category body is ever reported for the object's `min(1)`. |
| BrandDto.OnlyName | server/api/1.0/dto/brand/create-brand.dto.js:3-11 | `name` is the only declared key of both brand rule objects, and the key errors are that key's errors. |
| BrandDto.CreateAccepted | server/api/1.0/dto/brand/create-brand.dto.js:3-11 | A create body is accepted iff the name holds and, unless unknown keys are allowed, `name` is its only key. |
| BrandDto.UpdateAccepted | server/api/1.0/dto/brand/update-brand.dto.js:3-15 | Under `allowUnknown`, an update body is accepted iff its name holds. Every other key passes unexamined. |
| BrandDto.AcceptedName | server/api/1.0/dto/brand/update-brand.dto.js:4-10 | An accepted brand body holds a valid name, and the value carries it as supplied. |
| BrandDto.UpdateKeepsUnknown | server/api/1.0/controllers/brand.controller.js:57-58 | With unknown keys allowed, an accepted update value carries every undeclared key as given. |
| BrandDto.NameReportedFirst | server/api/1.0/dto/brand/create-brand.dto.js:4-9 | A failing name is the first error reported. A missing name draws "Marka ismi zorunludur.". |
| BrandDto.CreateRejectsUnknown | server/api/1.0/dto/brand/create-brand.dto.js:3-11 | On create, any member other than `name` makes the body rejected. With a valid name, the one error reported is `object.unknown`. |
| BrandDto.UpdateEmptyBody | server/api/1.0/dto/brand/update-brand.dto.js:3-15 | An empty update body is rejected with only "Marka ismi zorunludur.". The `min(1)` message is never reached. |
| BrandDto.ObjectMinUnreachable | server/api/1.0/dto/brand/update-brand.dto.js:12-15 | No update body is ever reported for the object's `min(1)`. |
| VariantSchema.Construct | server/api/1.0/schemas/variant.schema.js:3-23 | `priceModifier` and `quantity` default to 0. Every supplied field, the option strings included, is kept as given. |
| VariantSchema.ConstructValid | server/api/1.0/schemas/variant.schema.js:3-23 | A new variant is valid iff both option strings are given non-empty and any quantity given lies in 0..255. |
| ProductSchema.Variants | server/api/1.0/schemas/product.schema.js:42-45 | Each embedded variant is built from its input, one for one. |
| ProductSchema.Construct | server/api/1.0/schemas/product.schema.js:4-57 | `richDescription` defaults to '', price, rating and numReviews to 0, `isFeatured` to false, and images and variants to []. Every supplied field is kept as given, each variant built from its input, and references are kept. |
| ProductSchema.ConstructValid | server/api/1.0/schemas/product.schema.js:4-45 | A new product is valid iff name and description are non-empty, brand and category are given, the price is at least 0, and every variant is valid. |
| ProductImageSchema.Construct | server/api/1.0/schemas/product-images.schema.js:3-32 | Width and height default to 100, alt and title to '', `isMain` to false. Every supplied field is kept as given, and so is the product reference. |
| ProductImageSchema.ConstructValid | server/api/1.0/schemas/product-images.schema.js:4-7 | A new image is valid iff it has a non-empty url. |
| ProductImageSchema.ReceiverIsMain | server/api/1.0/schemas/product-images.schema.js:35-36 | Afterwards the receiver is stored with `isMain` true and is otherwise as given. |
| ProductImageSchema.SameImages | server/api/1.0/schemas/product-images.schema.js:38-46 | No image is added except the receiver, and none is removed. |
| ProductImageSchema.SiblingsCleared | server/api/1.0/schemas/product-images.schema.js:43-46 | Every other image of the receiver's product has `isMain` false, and nothing else of it changes. |
| ProductImageSchema.OtherProductsUntouched | server/api/1.0/schemas/product-images.schema.js:38-41 | Images of other products are unchanged. |
| ProductImageSchema.ExactlyOneMain | server/api/1.0/schemas/product-images.schema.js:34-48 | Among the images of the receiver's product, the set flagged main is exactly the receiver. |
| ProductImageSchema.ProductRepointed | server/api/1.0/schemas/product-images.schema.js:48 | The owning product, when stored, gets `mainImage` = receiver. Every other product is unchanged, and none is added or removed. |
| ProductImageSchema.MainImageConsistent | server/api/1.0/schemas/product-images.schema.js:34-49 | The owning product points at the receiver, and an image of that product is main iff `mainImage` points at it. |
| ProductImageSchema.Idempotent | server/api/1.0/schemas/product-images.schema.js:34-49 | A second call on the same image changes neither collection. |
| ProductImageSchema.ValidityPreserved | server/api/1.0/schemas/product-images.schema.js:36-45 | With a valid receiver, every stored image stays valid. |
| ProductImageSchema.Catalog.SetAsMainImage | server/api/1.0/schemas/product-images.schema.js:34-49 | The call succeeds iff the receiver validates. If not, nothing changes. If so, the images become `MarkedMain` and the products `Repointed`, and stored images stay valid. |
| CategorySchema.Construct | server/api/1.0/schemas/category.schema.js:3-29 | `image` defaults to '' and `products` to []. Icon and color are kept as given. |
| CategorySchema.ConstructValid | server/api/1.0/schemas/category.schema.js:5-8 | A new category is valid iff it has a non-empty name. |
| CategorySchema.GeneratedColorShape | server/api/1.0/schemas/category.schema.js:33 | A generated colour is '#' and then 1 to 7 lower-case hex digits that read back as the draw. It is never blank. |
| CategorySchema.GeneratedColorExamples | server/api/1.0/schemas/category.schema.js:33 | The top draw gives "#100002a" (seven digits), 255 gives "#ff" and 0 gives "#0": the digits are not padded. |
| CategorySchema.WithDefaultColor | server/api/1.0/schemas/category.schema.js:31-36 | Only the colour can change. A colour that is present and not blank is kept. A missing or blank one becomes the generated colour. |
| CategorySchema.ColorPresentAfterHook | server/api/1.0/schemas/category.schema.js:31-36 | After the hook the colour is present and not blank. |
| CategorySchema.HookIdempotent | server/api/1.0/schemas/category.schema.js:32 | A second save never changes the colour again, whatever its draw. |
| CategorySchema.CategoryDocument.PreSave | server/api/1.0/schemas/category.schema.js:31-36 | The document after the hook is `WithDefaultColor` of the document before it. |
| Numerals.ToString | server/api/1.0/schemas/category.schema.js:33 | `toString(radix)` writes at least one digit, all digits of the radix, with a leading '0' only for 0. |
| Numerals.ParseToString | server/api/1.0/schemas/category.schema.js:33 | Reading back the digits gives the number. |
| Numerals.ToStringLength | server/api/1.0/schemas/category.schema.js:33 | A number below radix^k takes at most k digits. |
| Populate.ProductRefs | server/api/1.0/controllers/brand.controller.js:113-122 | Each `{id, name}` is a referenced, existing product with its name, and there are no more of them than references. |
| Populate.ProductRefsComplete | server/api/1.0/controllers/category.controller.js:114-123 | Every referenced product that exists appears in the projection. |
| Populate.ProductRefsAllPresent | server/api/1.0/controllers/brand.controller.js:159-162 | When every reference resolves, the projection keeps length and order. |
| Documents.Without | server/api/1.0/controllers/category.controller.js:91 | Deleting an id keeps exactly the other ids. Deleting an id that is not stored leaves the order as it was. |
| Documents.WithoutConcat | server/api/1.0/controllers/category.controller.js:91 | Deleting from two runs deletes from each run, so the ids kept stay in their relative order. |
| Documents.IncreasingDetermined | server/api/1.0/controllers/category.controller.js:114 | Two natural orders of the same ids are equal: after a delete, the order is that of the remaining ids. |
| Documents.WithoutIncreasing | server/api/1.0/controllers/category.controller.js:91 | Deleting keeps the natural order free of repeats. |
| Documents.IncreasingCard | server/api/1.0/controllers/category.controller.js:135 | The natural order lists each stored document once, so its length is the collection size. |
| Documents.AppendIncreasing | server/api/1.0/controllers/category.controller.js:27-28 | A newly saved document goes last in the natural order. |
| CategoryController.Views | server/api/1.0/controllers/category.controller.js:119-133 | One row per stored category, in order, each the `{id, name, icon, color, image, products}` projection. |
| CategoryController.CreatedCategory | server/api/1.0/controllers/category.controller.js:27-29 | A created category is valid. It has the body's name, its image or '', and no products. Its colour is non-blank, and is the body's own when that was not blank. |
| CategoryController.UpdatedCategory | server/api/1.0/controllers/category.controller.js:64 | An update sets the name and replaces each of icon, color and image that the body supplies. Every other field is kept. |
| CategoryController.UpdateCanBlankColor | server/api/1.0/controllers/category.controller.js:58-64 | The update body `{name: "Abc", color: ""}` is accepted and stores the colour ''. |
| CategoryController.Controller.Save | server/api/1.0/controllers/category.controller.js:27-28 | The document, with the hook applied, joins the collection under a fresh id, last in order. |
| CategoryController.Controller.Create | server/api/1.0/controllers/category.controller.js:20-34 | A rejected body gives 400 with the first message, and the store is unchanged. A JSON array gives 400 `"value" must be of type object`. An accepted one gives 201 with the stored document, and adds exactly that one category. |
| CategoryController.Controller.FindByIdAndUpdate | server/api/1.0/controllers/category.controller.js:64 | Only the target entry changes, to `Merge` of it with the value. |
| CategoryController.Controller.Update | server/api/1.0/controllers/category.controller.js:50-70 | A missing id gives 404. A rejected body gives 400 with every message; a JSON array gives 400 with `["\"value\" must be of type object"]`. An accepted one gives 200 with the merged document. Only the target entry changes. |
| CategoryController.Controller.FindByIdAndDelete | server/api/1.0/controllers/category.controller.js:91 | The id leaves the collection and its order, and nothing else changes. |
| CategoryController.Controller.Remove | server/api/1.0/controllers/category.controller.js:84-97 | A missing id gives 404 with the store unchanged. A present id gives 200 "Category deleted", and the id is removed with the other entries unchanged. |
| CategoryController.Controller.GetAll | server/api/1.0/controllers/category.controller.js:112-144 | An empty store gives 404 with count 0. Otherwise the whole reply is stated: 200 "Categories fetched" with one projected row per category, count = rows = store size, and no data, operation or status. |
| CategoryController.Controller.GetById | server/api/1.0/controllers/category.controller.js:160-185 | A missing id gives 404. Otherwise it gives 200 with the projection. |
| BrandController.Views | server/api/1.0/controllers/brand.controller.js:118-129 | One row per stored brand, in order, each `{id, name, products}`. |
| BrandController.CreatedBrand | server/api/1.0/controllers/brand.controller.js:21-28 | A created brand is valid, has the body's name, and has no products. |
| BrandController.UpdatedBrand | server/api/1.0/controllers/brand.controller.js:57-63 | An update replaces the name with the body's and keeps the product list. The brand stays valid. |
| BrandController.Controller.Save | server/api/1.0/controllers/brand.controller.js:26-27 | The document joins the collection under a fresh id, last in order. |
| BrandController.Controller.Create | server/api/1.0/controllers/brand.controller.js:19-35 | A rejected body gives 400 with the first message, and nothing is stored. A JSON array gives 400 `"value" must be of type object`. An accepted one gives 201 and adds exactly one brand. |
| BrandController.Controller.FindByIdAndUpdate | server/api/1.0/controllers/brand.controller.js:63 | Only the target entry changes, to `Merge` of it with the value. |
| BrandController.Controller.Update | server/api/1.0/controllers/brand.controller.js:49-69 | A missing id gives 404 with the store unchanged. A rejected body gives 400 with every message; a JSON array gives 400 with `["\"value\" must be of type object"]`. An accepted one gives 200, and only that entry changes. |
| BrandController.Controller.FindByIdAndDelete | server/api/1.0/controllers/brand.controller.js:90 | The id leaves the collection and its order, and nothing else changes. |
| BrandController.Controller.Remove | server/api/1.0/controllers/brand.controller.js:83-98 | As written: every id, stored or not, gives 200 "Brand deleted" with operation "Remove" and status "Success", and the id is absent afterwards. |
| BrandController.Controller.RemoveChecked | server/api/1.0/controllers/brand.controller.js:85-93 | With the lookup awaited: a missing id gives 404 with the store unchanged, and a present id gives the delete response. |
| BrandController.RemoveOfMissingBrand | server/api/1.0/controllers/brand.controller.js:86-89 | On an empty store, remove still answers 200 "Brand deleted". |
| BrandController.RemoveCheckedOfMissingBrand | server/api/1.0/controllers/brand.controller.js:86-89 | With the lookup awaited, the same request is answered 404 "Brand not found". |
| BrandController.Controller.GetAll | server/api/1.0/controllers/brand.controller.js:111-138 | An empty store gives 404 with count 0. Otherwise the whole reply is stated: 200 "Brands fetched" with one `{id, name, products}` row per brand, count = rows = store size, and no data, operation or status. |
| BrandController.Controller.GetById | server/api/1.0/controllers/brand.controller.js:151-175 | A missing id gives 404. Otherwise it gives 200 with `{id, name, products: [{id, name}]}`. |

## Left out

- HTTP, Express, dotenv, logging and the database connection (`server/app.js`, routes) are not modelled. Each handler is a method from request parameters to its first response.
- The second response after a failed create is not modelled. Create responds and then throws, and the catch block tries to respond again after the headers are sent; only the first response is modelled.
- The catch blocks are not modelled: a malformed id (CastError), a database failure, and the 400 or 500 they answer.
- `Math.random()` is taken as the parameter `draw`, with `draw < 16777259`.
- `Date.now` and the `dateCreated` field of the Product are not modelled.
- Concurrency and atomicity are not modelled. `setAsMainImage`'s writes are one sequential method, and no crash can happen between them.
- ProductImageSchema.Catalog.SetAsMainImage: a sibling image's save is taken to succeed. The siblings in the store passed validation when saved (`Stored`), and clearing `isMain` keeps them valid. The order in which the siblings are cleared is left open.
- `populate` is a pure projection. A reference to a missing product drops out.
- CategoryController.Merge and BrandController.Merge apply only the declared fields. Under `allowUnknown`, an undeclared key such as `products` also passes validation, and Mongoose would cast and apply it; that is not modelled.
- A JSON body that is neither an object nor an array is not modelled. A bare string, number, `true`, `false` or `null` is refused by the body parser before a handler runs.
- An array index is recognised through its canonical decimal numeral (`Numerals.ToString` of a number below 2^32 - 1). Other exotic property keys cannot come from parsed JSON.
- Mongoose type casting is not modelled. A body value that is not a string is a validation error, and numbers are `real`.
- The product controller, its route, and the brand schema as a file of its own are not modelled. The controller's handlers are empty or hard-coded stubs. The Brand record is declared in `BrandController`.

## Findings

| source | as written | input that shows it | evidently intended | confidence | as-written member | corrected member |
|---|---|---|---|---|---|---|
| server/api/1.0/controllers/brand.controller.js:86-89 | `Brand.findById(id)` is not awaited, so `brand` is a query object, always truthy, and the 404 branch never runs | DELETE /brands/:id on an empty collection answers 200 "Brand deleted" | a missing brand answers 404 "Brand not found", as the category handler does | not executed | BrandController.RemoveOfMissingBrand | BrandController.RemoveCheckedOfMissingBrand |
