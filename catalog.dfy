/** The category actions of src/actions/categories.ts: create and rename with a
    validated, trimmed name, and delete guarded by a check that no product still
    refers to the category.

    The store is a class with the categories table (id ↦ name) and the products
    table. Every answer the store gives (an insert, update or delete error; the
    generated id) is a parameter of the action.

    The reference check filters products on the column `category_id`, but the
    products table's column is `categories_id` (src/interface/index.ts:8, written by
    src/actions/products.ts:39 and 59). A filter on a column the table does not have
    is answered with an error, so as written the check fails on every call and no
    category can be deleted. `DeleteCategoryAsWritten` models that code;
    `DeleteCategory` is the check on `categories_id` the code evidently intends. */
module Catalog {
  import opened Domain
  import opened Text

  /** `{ error: message }` or `{ success: true }`. */
  datatype ActionResult = Error(message: string) | Success

  const BlankName := "Nama kategori tidak boleh kosong"
  const StillInUse := "Kategori tidak dapat dihapus karena masih digunakan oleh produk"

  /** `!name || name.trim() === ''`: the form field is missing, or holds only
      whitespace. */
  predicate IsBlankName(name: Option<string>)
  {
    name.None? || Trim(name.value) == ""
  }

  /** The columns a products row has, and what a row holds in each of them. */
  function ColumnValue(p: Product, column: string): Option<string>
  {
    if column == "id" then Some(p.id)
    else if column == "name" then Some(p.name)
    else if column == "categories_id" then Some(p.categoriesId)
    else None
  }

  predicate IsProductColumn(column: string)
  {
    column in {"id", "name", "categories_id"}
  }

  /** What `.from('products').select('id').eq(column, id).limit(1)` answers. */
  datatype QueryAnswer = QueryError(message: string) | Rows(count: nat)

  /** The number of products whose `column` holds `id`. */
  function CountMatching(products: seq<Product>, column: string, id: Id): (n: nat)
    ensures n <= |products|
    ensures n == 0 <==> forall i :: 0 <= i < |products| ==> ColumnValue(products[i], column) != Some(id)
  {
    if products == [] then 0
    else
      var rest := CountMatching(products[1..], column, id);
      if ColumnValue(products[0], column) == Some(id) then rest + 1
      else
        assert forall i :: 1 <= i < |products| ==> products[i] == products[1..][i - 1];
        rest
  }

  /** The reference check: a transport error, an error for a column the products
      table does not have (the store's "column ... does not exist"), or at most one
      matching row. */
  function UsageQuery(products: seq<Product>, column: string, id: Id, transportError: Option<string>): (a: QueryAnswer)
    ensures transportError.None? && !IsProductColumn(column) ==> a.QueryError?
    ensures transportError.None? && IsProductColumn(column) ==>
              a.Rows? && a.count <= 1
              && (a.count == 0 <==> forall i :: 0 <= i < |products| ==> ColumnValue(products[i], column) != Some(id))
  {
    if transportError.Some? then QueryError(transportError.value)
    else if !IsProductColumn(column) then QueryError("column products." + column + " does not exist")
    else Rows(if CountMatching(products, column, id) == 0 then 0 else 1)
  }

  /** Some product refers to the category `id`. */
  predicate Referenced(products: seq<Product>, id: Id)
  {
    exists i :: 0 <= i < |products| && products[i].categoriesId == id
  }

  /** `createCategory(formData)`: the result and the new categories table. */
  function CreateSpec(categories: map<Id, string>, name: Option<string>, insertError: Option<string>, newId: Id)
    : (map<Id, string>, ActionResult)
  {
    if IsBlankName(name) then (categories, Error(BlankName))
    else if insertError.Some? then (categories, Error(insertError.value))
    else (categories[newId := Trim(name.value)], Success)
  }

  /** `updateCategory(id, formData)`: `.update({ name }).eq('id', id)` touches the row
      with that id, if there is one. */
  function UpdateSpec(categories: map<Id, string>, id: Id, name: Option<string>, updateError: Option<string>)
    : (map<Id, string>, ActionResult)
  {
    if IsBlankName(name) then (categories, Error(BlankName))
    else if updateError.Some? then (categories, Error(updateError.value))
    else if id in categories then (categories[id := Trim(name.value)], Success)
    else (categories, Success)
  }

  /** `deleteCategory(id)` with the reference check run on `column`. */
  function DeleteSpec(categories: map<Id, string>, products: seq<Product>, column: string, id: Id,
                      checkError: Option<string>, deleteError: Option<string>): (map<Id, string>, ActionResult)
  {
    match UsageQuery(products, column, id, checkError)
    case QueryError(message) => (categories, Error(message))
    case Rows(n) =>
      if n > 0 then (categories, Error(StillInUse))
      else if deleteError.Some? then (categories, Error(deleteError.value))
      else (categories - {id}, Success)
  }

  /** The column the source filters on, and the one the products table has. */
  const WrittenColumn := "category_id"
  const ProductCategoryColumn := "categories_id"

  class CategoryStore {
    var categories: map<Id, string>
    var products: seq<Product>

    constructor (products: seq<Product>)
      ensures categories == map[] && this.products == products
    {
      categories := map[];
      this.products := products;
    }

    /** `createCategory`. The store gives the new row a key no row has yet. */
    method CreateCategory(name: Option<string>, insertError: Option<string>, newId: Id) returns (r: ActionResult)
      requires newId !in categories
      modifies this`categories
      ensures (categories, r) == CreateSpec(old(categories), name, insertError, newId)
    {
      if IsBlankName(name) {
        return Error(BlankName);
      }
      if insertError.Some? {
        return Error(insertError.value);
      }
      categories := categories[newId := Trim(name.value)];
      return Success;
    }

    /** `updateCategory`. */
    method UpdateCategory(id: Id, name: Option<string>, updateError: Option<string>) returns (r: ActionResult)
      modifies this`categories
      ensures (categories, r) == UpdateSpec(old(categories), id, name, updateError)
    {
      if IsBlankName(name) {
        return Error(BlankName);
      }
      if updateError.Some? {
        return Error(updateError.value);
      }
      if id in categories {
        categories := categories[id := Trim(name.value)];
      }
      return Success;
    }

    /** `deleteCategory`, its reference check on `column`. */
    method DeleteCategoryBy(column: string, id: Id, checkError: Option<string>, deleteError: Option<string>)
      returns (r: ActionResult)
      modifies this`categories
      ensures (categories, r) == DeleteSpec(old(categories), products, column, id, checkError, deleteError)
    {
      var usage := UsageQuery(products, column, id, checkError);
      if usage.QueryError? {
        return Error(usage.message);
      }
      if usage.count > 0 {
        return Error(StillInUse);
      }
      if deleteError.Some? {
        return Error(deleteError.value);
      }
      categories := categories - {id};
      return Success;
    }

    /** `deleteCategory` as written: the check filters on `category_id`. */
    method DeleteCategoryAsWritten(id: Id, checkError: Option<string>, deleteError: Option<string>)
      returns (r: ActionResult)
      modifies this`categories
      ensures (categories, r) == DeleteSpec(old(categories), products, WrittenColumn, id, checkError, deleteError)
    {
      r := DeleteCategoryBy(WrittenColumn, id, checkError, deleteError);
    }

    /** `deleteCategory` with the check on the products' `categories_id`. */
    method DeleteCategory(id: Id, checkError: Option<string>, deleteError: Option<string>)
      returns (r: ActionResult)
      modifies this`categories
      ensures (categories, r) == DeleteSpec(old(categories), products, ProductCategoryColumn, id, checkError, deleteError)
    {
      r := DeleteCategoryBy(ProductCategoryColumn, id, checkError, deleteError);
    }
  }

  /** A missing or whitespace-only name is refused and nothing is inserted, whatever
      the store would have answered. */
  lemma CreateRejectsBlank(categories: map<Id, string>, name: Option<string>, insertError: Option<string>, newId: Id)
    requires name.None? || AllWhitespace(name.value)
    ensures CreateSpec(categories, name, insertError, newId) == (categories, Error(BlankName))
  {
    if name.Some? {
      TrimEmptyIffBlank(name.value);
    }
  }

  /** A created category's stored name is the given name trimmed: non-empty, with no
      whitespace at either end, and a slice of what was typed; no other row changes. */
  lemma CreateStoresTrimmed(categories: map<Id, string>, name: string, newId: Id)
    requires !AllWhitespace(name)
    ensures var (after, r) := CreateSpec(categories, Some(name), None, newId);
            r == Success && newId in after && after[newId] == Trim(name)
            && after[newId] != "" && Trim(after[newId]) == after[newId]
            && (forall k :: k in categories && k != newId ==> k in after && after[k] == categories[k])
  {
    TrimEmptyIffBlank(name);
    TrimIdempotent(name);
  }

  /** A store error on create is returned as the action's error. */
  lemma CreateStoreErrorSurfaces(categories: map<Id, string>, name: string, message: string, newId: Id)
    requires !AllWhitespace(name)
    ensures CreateSpec(categories, Some(name), Some(message), newId) == (categories, Error(message))
  {
    TrimEmptyIffBlank(name);
  }

  /** The name is checked before the store is asked: a blank name gives the same
      refusal whatever the store would answer, and changes nothing. */
  lemma UpdateValidatesFirst(categories: map<Id, string>, id: Id, name: Option<string>, e1: Option<string>, e2: Option<string>)
    requires name.None? || AllWhitespace(name.value)
    ensures UpdateSpec(categories, id, name, e1) == UpdateSpec(categories, id, name, e2) == (categories, Error(BlankName))
  {
    if name.Some? {
      TrimEmptyIffBlank(name.value);
    }
  }

  /** An accepted rename writes the trimmed name to the row with that id and to no
      other row; renaming an id that has no row changes nothing and still succeeds. */
  lemma UpdateWritesOnlyThatRow(categories: map<Id, string>, id: Id, name: string)
    requires !AllWhitespace(name)
    ensures var (after, r) := UpdateSpec(categories, id, Some(name), None);
            r == Success
            && after.Keys == categories.Keys
            && (id in categories ==> after[id] == Trim(name) && after[id] != "")
            && (forall k :: k in categories && k != id ==> after[k] == categories[k])
  {
    TrimEmptyIffBlank(name);
  }

  /** With the check on `categories_id`: a category some product refers to is
      refused and stays. */
  lemma DeleteRefusesReferenced(categories: map<Id, string>, products: seq<Product>, id: Id, deleteError: Option<string>)
    requires Referenced(products, id)
    ensures DeleteSpec(categories, products, ProductCategoryColumn, id, None, deleteError) == (categories, Error(StillInUse))
  {
    var i :| 0 <= i < |products| && products[i].categoriesId == id;
    assert ColumnValue(products[i], ProductCategoryColumn) == Some(id);
  }

  /** A failing reference check is returned as the error and nothing is deleted. */
  lemma DeleteCheckErrorDeletesNothing(categories: map<Id, string>, products: seq<Product>, column: string, id: Id,
                                       message: string, deleteError: Option<string>)
    ensures DeleteSpec(categories, products, column, id, Some(message), deleteError) == (categories, Error(message))
  {
  }

  /** With the check on `categories_id`: a category no product refers to is deleted,
      and no other category is; a store error on the delete is returned and
      nothing is deleted. */
  lemma DeleteRemovesOnlyUnreferenced(categories: map<Id, string>, products: seq<Product>, id: Id, deleteError: Option<string>)
    requires !Referenced(products, id)
    ensures var (after, r) := DeleteSpec(categories, products, ProductCategoryColumn, id, None, deleteError);
            (deleteError.None? ==> r == Success && id !in after
                                   && forall k :: k in categories && k != id ==> k in after && after[k] == categories[k])
            && (deleteError.Some? ==> after == categories && r == Error(deleteError.value))
  {
    assert forall i :: 0 <= i < |products| ==> ColumnValue(products[i], ProductCategoryColumn) != Some(id);
  }

  /** As written, the reference check names a column the products table lacks, so
      every delete is refused, even of a category no product refers to. */
  lemma AsWrittenNeverDeletes(categories: map<Id, string>, products: seq<Product>, id: Id,
                              checkError: Option<string>, deleteError: Option<string>)
    ensures var (after, r) := DeleteSpec(categories, products, WrittenColumn, id, checkError, deleteError);
            after == categories && r.Error?
  {
    assert !IsProductColumn(WrittenColumn);
  }

  /** The discrepancy on one input: an unused category, no store errors. The
      written check refuses; the intended one deletes. */
  lemma AsWrittenRefusesUnusedCategory()
    ensures var categories := map["c1" := "Minuman"];
            DeleteSpec(categories, [], WrittenColumn, "c1", None, None).1
              == Error("column products.category_id does not exist")
            && DeleteSpec(categories, [], ProductCategoryColumn, "c1", None, None) == (map[], Success)
  {
    var categories := map["c1" := "Minuman"];
    assert !IsProductColumn(WrittenColumn) && IsProductColumn(ProductCategoryColumn);
    assert "column products." + WrittenColumn + " does not exist" == "column products.category_id does not exist";
    assert CountMatching([], ProductCategoryColumn, "c1") == 0;
    assert categories - {"c1"} == map[];
  }
}
