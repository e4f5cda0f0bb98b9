# Course catalogue and its ordering field

This project models the data layer of a small e-learning site. Subjects group
courses. A course holds modules, and a module holds contents. Each content
points to one item: a text, a file, an image or a video.

The one piece of behaviour is `OrderField`, a non-negative integer column
that numbers rows by itself. A row saved without an order gets one more than
the largest order among the stored rows that share the values of the field's
`for_fields` relations, or 0 when there are none. A row saved with an order
keeps that order. Modules are numbered within their course, and contents
within their module.

Files:

- `wrappers.dfy` (`Wrappers`): `Option` and `Result`.
- `strings.dfy` (`Strings`): decimal rendering of a natural number and its parse; the lexicographic order on strings.
- `listing.dfy` (`Listing`): sorting a sequence by a comparison. This is used for the models' default listing order.
- `fields.dfy`:
  - `Fields` covers the ordering rule: the pure computation `AutoOrder`, the classes `Instance`, `OrderField` (`PreSave`) and `Table` (`Save`), and `pre_save` followed by the insert.
  - `FieldsProperties` holds the properties that relate several saves or several tables.
- `models.dfy` (`Models`): the records, the content-type restriction, the string forms, the order of modules within a course and of contents within a module, and the default listing orders.

How the model reads the code:

- A stored row is reduced to the keys of its relations (by attribute name) and its order. `Key` is the primary key of the related row.
- `for_fields` is `None`, the empty list or a list of names. Only a non-empty list filters. Building the filter evaluates the names in list order. The first name that fails decides the outcome:
  - A name that is not an attribute of the model raises an attribute error. That error is not caught, so the save fails with `NoSuchAttribute`.
  - A relation that is unset raises "related object does not exist". That exception is a kind of "object does not exist", so `pre_save` catches it and the order becomes 0.
  - A relation whose key names no stored row raises the related model's "does not exist" when it is loaded. The same handler catches it and the order becomes 0. The model does not represent such keys (see "## Left out").
- `latest(order)` of the filtered rows followed by `+ 1` is modelled as the largest order among them plus 1. When there are no rows, `latest` raises "does not exist" and the order is 0.
- A save is `pre_save` followed by the insert. An order given by the caller may be any integer: `pre_save` passes it on unchanged (`courses/fields.py:45-46`). The model has the insert fail in two cases (a third case in the source, a key that names no stored row, is listed under "## Left out"):
  - with `NullRelation` when a relation of the model is unset;
  - with `NegativeOrder` when the order is negative, because the column holds non-negative integers only.

  When both apply, the model reports the unset relation. The instance keeps the order `pre_save` wrote into it, and the stored rows do not change.
- The field's docstring (`courses/fields.py:9-12`) says an order is assigned "based on the last object's order". Its example is rows ordered 1 and 2, after which a third row gets 3. The value 0 for an empty scope comes from the handler at `courses/fields.py:40-41`. The code does two more things. An unset scoping relation is caught by the same handler and also gives 0. An unknown scoping name fails the save. The model follows the code.

## Model

| member | source | states |
|---|---|---|
| Fields.OrderField.constructor | courses/fields.py:18-23 | the field remembers the `for_fields` it was given |
| Fields.BuildQuery | courses/fields.py:34 | the filter exists exactly when every scoping name is an attribute and every scoping relation is set; it then maps exactly those names to the instance's keys; otherwise the first name that fails, in list order, decides: an unknown name is reported by name, and an unset relation as such |
| Fields.Filter | courses/fields.py:35 | a row is selected exactly when it is stored and agrees with every condition of the filter |
| Fields.MaxOrder | courses/fields.py:38 | no result exactly for no rows; otherwise the result is the order of some row and no row's order exceeds it |
| Fields.AutoOrder | courses/fields.py:28-41 | the result is an error exactly when the first scoping name that is unknown or unset is unknown, and the error names it; when that first failing name is an unset relation, the order is 0; when every scoping name is an attribute there is no error; a computed order is above every sibling's order, and is 0 or one more than some sibling's order |
| Fields.OrderField.PreSave | courses/fields.py:25-46 | an instance with an order keeps it, and that order is returned; otherwise the computed order is returned, and on success it is written into the instance, so the returned and the stored value agree |
| Fields.Table.Save | courses/fields.py:43-44 | a successful save appends exactly the new row, carrying the order `pre_save` assigned, and leaves every stored row as it was; a failed save (unknown name, unset relation, negative order) stores nothing; the instance's order is the one `pre_save` wrote; every stored row keeps a key for every relation |
| Fields.Siblings | courses/fields.py:31-35 | the rows kept are exactly the stored rows that agree with the instance on every scoping relation |
| FieldsProperties.NextOrderUnique | courses/fields.py:38-41 | the next order is determined by the set of sibling rows alone |
| FieldsProperties.SameSiblingsSameOrder | courses/fields.py:31-35 | two tables with the same sibling rows give the same result, whatever rows of other scopes they hold |
| FieldsProperties.OnlySiblingsCount | courses/fields.py:31-35 | computing the order over all rows gives the same result as computing it over the siblings only |
| FieldsProperties.OtherScopeRowIgnored | courses/fields.py:31-35 | storing a row of another scope does not change the order computed for this scope |
| FieldsProperties.FilterNoConditions | courses/fields.py:29 | a filter with no conditions keeps every stored row, in table order |
| FieldsProperties.NoScopeUsesAllRows | courses/fields.py:29-39 | with `for_fields` None or empty, the order is 0 for an empty table and otherwise the largest order of all rows plus 1 |
| FieldsProperties.SaveUnordered | courses/fields.py:38-44 | `n` saves without an order each succeed, and each one adds one row after the rows stored before |
| FieldsProperties.NextAfterNumbered | courses/fields.py:38-41 | after siblings numbered 0 to k-1, the next order is k |
| FieldsProperties.SaveContinuesNumbering | courses/fields.py:38-44 | one more save without an order succeeds and keeps the siblings numbered consecutively |
| FieldsProperties.SequentialSavesCountFromZero | courses/fields.py:38-41 | saving `n` rows without an order into a scope that has no rows yet gives them the orders 0, 1, ..., n-1, in save order, and leaves the earlier rows outside the scope |
| FieldsProperties.FirstFailureDecides | courses/fields.py:34-41 | with scoping names `course` then `module`, where only `course` is an attribute and no relation is set, the order is 0; with the names the other way round, the save fails naming `module` |
| FieldsProperties.GivenOrderStored | courses/fields.py:45-46 | an order the caller gives is stored as given when it is not negative and every relation is set; a negative one is never stored |
| FieldsProperties.NumberedOrders | courses/fields.py:38-41 | siblings numbered from a position on carry the orders 0, 1, 2, ... |
| FieldsProperties.SavesFromZeroOrders | courses/fields.py:38-44 | the orders of `n` saves without an order into a scope with no stored rows are 0, 1, ..., n-1 |
| FieldsProperties.SaveNext | courses/fields.py:25-44 | one more save through the table of an instance without an order appends the next row of the sequence of saves and returns its order |
| FieldsProperties.SaveMany | courses/fields.py:38-44 | `n` saves through the table of instances without an order leave the table as the `n` sequential saves do and return the orders of the new rows; into a scope with no stored rows those orders are 0, 1, ..., n-1 |
| FieldsProperties.ExampleNextOrder | courses/fields.py:9-12 | rows of one course ordered 1 and 2 are followed by 3 |
| FieldsProperties.DocumentedExample | courses/fields.py:9-12 | through the table: after two saves with orders 1 and 2 in one course, a third save without an order returns 3 |
| Models.KindName | courses/models.py:59-63 | every content kind names one of the four allowed models |
| Models.KindOfModel | courses/models.py:59-63 | a model name selects a kind exactly when it is `text`, `video`, `image` or `file`, and the kind selected carries that name |
| Models.KindNameRoundTrip | courses/models.py:59-63 | each kind is selected by its own name, so kinds and allowed names correspond one to one |
| Models.ItemKind | courses/models.py:100-129 | each item class (text, file, image, video) has its own kind, and that kind's model is an allowed content type |
| Models.ItemKindsAreAllowed | courses/models.py:59-63 | a name is allowed exactly when it is the model name of some item |
| Models.SubjectStr | courses/models.py:17-18 | a subject shows as its title |
| Models.CourseStr | courses/models.py:32-33 | a course shows as its title |
| Models.ItemStr | courses/models.py:96-97 | every kind of item shows as its title |
| Models.OrderText | courses/models.py:47 | an unset order is formatted as `None`, a set one as its canonical decimal digits (`Strings.NatToString`); the text contains no dot |
| Models.ModuleStr | courses/models.py:47 | a module shows as its formatted order, a dot, a space and its title; that string reads back into the module's order (or `None`) and its title |
| Models.ModuleStrExamples | courses/models.py:47 | modules of order 7, 10 and none show as `7. t`, `10. t` and `None. t` |
| Strings.NatToString | courses/models.py:47 | an order is formatted as one or more decimal digits, with no leading zero unless it is 0 |
| Strings.ParseNatToString | courses/models.py:47 | the decimal digits of a number read back as that number |
| Models.ScopedNext | courses/models.py:41 | an OrderField scoped by one relation gives a value above every order stored for the same key, and 0 or one more than one of them |
| Models.NextModuleOrder | courses/models.py:41 | a new module's order is above the order of every module of its course, and 0 or one more than one of them; so it is 0 for a course without modules, otherwise the largest order plus 1 |
| Models.NextContentOrder | courses/models.py:72 | a new content's order is above the order of every content of its module, and 0 or one more than one of them |
| Models.SaveModule | courses/models.py:41 | a saved module has an order; only the order may change; a given order is kept; a missing one becomes the next order of the module's course |
| Models.SaveContent | courses/models.py:72 | a saved content has an order; only the order may change; a given order is kept; a missing one becomes the next order of the content's module |
| Models.ModuleOrderOnlySameCourse | courses/models.py:41 | a module's automatic order depends only on the stored modules of the same course |
| Models.ContentOrderOnlySameModule | courses/models.py:72 | a content's automatic order depends only on the stored contents of the same module |
| Models.SubjectBeforePreorder | courses/models.py:15 | ordering subjects by title is total and transitive |
| Models.ListModules | courses/models.py:44 | modules are listed as a permutation of the stored ones, by ascending order |
| Models.ListContents | courses/models.py:75 | contents are listed as a permutation of the stored ones, by ascending order |
| Models.ListCourses | courses/models.py:30 | courses are listed as a permutation of the stored ones, newest first |
| Models.ListSubjects | courses/models.py:15 | subjects are listed as a permutation of the stored ones, by title |

## Left out

- Views, URL routing and admin registration (`courses/views.py`, `courses/urls.py`, `courses/admin.py`) are framework configuration and are not part of this model. This includes the reorder endpoints and the content create, update and delete views.
- Saves are strictly sequential. Concurrent saves without an order can read the same latest row and produce the same order in the real system. This model has no concurrency, so that race is not modelled.
- Persistence, the query set, and the mechanics of `latest()` (including how it breaks ties) are reduced to a filtered maximum over a sequence of rows.
- Updates are not modelled. `pre_save` runs on every save, inserts and updates alike, and its `add` flag is ignored. The model saves new rows only, by appending them.
- Resolution of the generic relation from content type and object id to an item row is not modelled. A content stores its kind and the item's id.
- The content type is a relation to a content-type row, and the restriction compares only its model name, whatever application defines it. The model keeps the kind rather than that relation, so a content's stored row holds only its `module` relation.
- The content-type restriction (`limit_choices_to`) limits form and admin choices and validation. A plain save does not apply it. The model makes the kind a closed datatype, so the restriction holds by construction, including for saves that would bypass it.
- Scoping by a plain attribute that is not a relation is not modelled. Every scoping name is treated as a relation, compared by the key of the related row.
- Fields.Table.Save: referential integrity is not modelled. Every relation key is taken to name a stored row, and the model has no parent tables. In the source, a key that names no row gives order 0 through the handler at `courses/fields.py:40-41`, and then the insert fails on the foreign-key constraint and stores nothing. The model stores that row.
- The column's upper bound as a 32-bit positive integer is not modelled. Stored orders are unbounded natural numbers.
- Models.SaveModule: a module's order is a natural number, so a negative order given by the caller cannot be expressed here. In the source it passes `pre_save` and the insert refuses it. That path is modelled by `Fields.Table.Save` and `FieldsProperties.GivenOrderStored`.
- Models.SaveContent: the same holds for a content's order.
- File uploads, URL validation, slug uniqueness, maximum lengths and the automatic `created`/`updated` timestamps are framework behaviour. Timestamps are plain parameters.
- Title order uses code-point comparison. A database collation may order titles differently.
- Listing order among rows with equal sort keys is left unspecified, as it is in the database.
- Line 39 of `courses/fields.py` reads the attribute `order` of the latest row instead of the field's own attribute name. The model treats the order field as the `order` attribute, which it is in both uses.
- Models.ListModules: the order of a module that has none (it comes first) is not promised by the source. Stored modules always have one.
- Models.ListContents: the same holds for contents without an order.
