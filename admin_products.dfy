/**
 * admin/products.php: add, edit and delete of products. The image upload
 * is an input: its outcome is given, the file handling is not modelled.
 */
module AdminProducts {
  import opened Wrappers
  import opened PhpText
  import opened Storage
  import opened Catalog
  import opened Store
  import opened Search

  /** What `uploadImage` gave: no file (or an upload error), a file it
      refused (false), or the path it stored the file under. */
  datatype Upload = NoFile | Rejected | Stored(path: string)

  /** The posted fields; price (in minor units), stock and category are
      already numbers, name and description are raw text. */
  datatype ProductForm = ProductForm(
    name: string, description: string, price: int, stock: int, categoryId: int)

  /** The form as the actions use it: name and description sanitized. */
  function Sanitized(form: ProductForm, sanitize: string -> string): ProductForm {
    form.(name := sanitize(form.name), description := sanitize(form.description))
  }

  /** The image column on insert: the stored path, or '' for no file or a
      refused one. */
  function AddedImage(upload: Upload): string {
    if upload.Stored? then upload.path else ""
  }

  /** The image the edit writes: only a truthy stored path. */
  function EditedImage(upload: Upload): (r: Option<string>)
    ensures r.Some? <==> upload.Stored? && !Empty(upload.path)
    ensures r.Some? ==> r.value == upload.path
  {
    if upload.Stored? && !Empty(upload.path) then Some(upload.path) else None
  }

  /** The edit's parameter list in binding order. */
  function EditParams(id: int, form: ProductForm, upload: Upload): seq<Param> {
    [Str(form.name), Str(form.description), Num(form.price), Num(form.stock), Num(form.categoryId)] +
    (if EditedImage(upload).Some? then [Str(EditedImage(upload).value)] else []) +
    [Num(id)]
  }

  /** The edit's UPDATE on the table: the five form columns, and the image
      when one is given; the slug is never touched. */
  function EditRows(rows: seq<Product>, id: int, form: ProductForm, image: Option<string>)
    : (r: seq<Product>)
    ensures |r| == |rows|
    ensures forall i :: 0 <= i < |rows| && rows[i].id == id ==>
      r[i] == Product(id, form.name, rows[i].slug, form.description, form.price, form.stock,
                      form.categoryId, image.GetOr(rows[i].image))
    ensures forall i :: 0 <= i < |rows| && rows[i].id != id ==> r[i] == rows[i]
  {
    seq(|rows|, i requires 0 <= i < |rows| =>
      if rows[i].id == id
      then rows[i].(name := form.name, description := form.description, price := form.price,
                    stock := form.stock, categoryId := form.categoryId,
                    image := if image.Some? then image.value else rows[i].image)
      else rows[i])
  }

  /** The delete statement on the products table: the rows left, in order. */
  function DeleteRows(rows: seq<Product>, id: int): (r: seq<Product>)
    ensures forall p :: p in r <==> p in rows && p.id != id
  {
    if rows == [] then []
    else
      var rest := DeleteRows(rows[..|rows| - 1], id);
      var last := rows[|rows| - 1];
      assert rows == rows[..|rows| - 1] + [last];
      if last.id == id then rest else rest + [last]
  }

  lemma {:induction false} DeleteRowsKeepsKeys(rows: seq<Product>, id: int)
    requires UniqueIds(rows)
    ensures UniqueIds(DeleteRows(rows, id))
  {
    if rows != [] {
      var front := rows[..|rows| - 1];
      var last := rows[|rows| - 1];
      assert UniqueIds(front);
      DeleteRowsKeepsKeys(front, id);
      forall p | p in DeleteRows(front, id) ensures p.id != last.id {
        var j :| 0 <= j < |front| && front[j] == p;
        assert rows[j] == p;
      }
    }
  }

  /** The add action (admin/products.php:18-42). */
  method AddProduct(db: Database, form: ProductForm, sanitize: string -> string,
                    upload: Upload, fault: Fault)
    returns (message: string, error: string)
    requires db.Valid()
    modifies db
    ensures db.Valid()
    ensures !Fails(fault, 0) ==>
      && db.State() == old(db.State()).(
           products := old(db.products) +
             [Product(old(db.nextProductId), sanitize(form.name), Slug(sanitize(form.name)),
                      sanitize(form.description), form.price, form.stock, form.categoryId,
                      AddedImage(upload))],
           nextProductId := old(db.nextProductId) + 1)
      && message == "Product added successfully" && error == ""
    ensures Fails(fault, 0) ==>
      db.State() == old(db.State()) && message == "" &&
      error == "Error adding product: " + fault.message
  {
    message, error := "", "";
    var name := sanitize(form.name);
    var slug := Lower(ReplaceChar(name, ' ', '-'));
    var description := sanitize(form.description);
    var image := "";
    if upload != NoFile {
      image := if upload.Stored? then upload.path else "";
    }
    if Fails(fault, 0) {
      error := "Error adding product: " + fault.message;
      return;
    }
    var row := Product(db.nextProductId, name, slug, description, form.price,
                       form.stock, form.categoryId, image);
    assert forall p :: p in db.products ==> p.id != row.id;
    db.products := db.products + [row];
    db.nextProductId := db.nextProductId + 1;
    message := "Product added successfully";
  }

  /** The edit statement (admin/products.php:53-70): the parameter list and
      the SET clause grow together, so the statement always has one
      placeholder per parameter, six without an image and seven with one. */
  method EditStatement(id: int, form: ProductForm, upload: Upload)
    returns (sql: seq<SqlToken>, params: seq<Param>, image: Option<string>)
    ensures params == EditParams(id, form, upload)
    ensures image == EditedImage(upload)
    ensures Holes(sql) == |params|
    ensures |params| == if image.Some? then 7 else 6
  {
    var imageSql: seq<SqlToken> := [];
    params := [Str(form.name), Str(form.description), Num(form.price), Num(form.stock),
               Num(form.categoryId)];
    image := None;
    if upload != NoFile {
      if upload.Stored? && !Empty(upload.path) {
        imageSql := Bind(", image = ");
        params := params + [Str(upload.path)];
        image := Some(upload.path);
      }
    }
    params := params + [Num(id)];
    var name, description := Bind("UPDATE products SET name = "), Bind(", description = ");
    var price, stock, category := Bind(", price = "), Bind(", stock = "), Bind(", category_id = ");
    HolesAppend(name, description);
    HolesAppend(name + description, price);
    HolesAppend(name + description + price, stock);
    HolesAppend(name + description + price + stock, category);
    var columns := name + description + price + stock + category;
    var where := Bind(" WHERE id = ");
    HolesAppend(columns, imageSql);
    HolesAppend(columns + imageSql, where);
    sql := columns + imageSql + where;
  }

  /** The edit action (admin/products.php:44-76). */
  method EditProduct(db: Database, id: int, form: ProductForm, sanitize: string -> string,
                     upload: Upload, fault: Fault)
    returns (message: string, error: string)
    requires db.Valid()
    modifies db
    ensures db.Valid()
    ensures !Fails(fault, 0) ==>
      && db.State() == old(db.State()).(
           products := EditRows(old(db.products), id, Sanitized(form, sanitize), EditedImage(upload)))
      && message == "Product updated successfully" && error == ""
    ensures Fails(fault, 0) ==>
      db.State() == old(db.State()) && message == "" &&
      error == "Error updating product: " + fault.message
  {
    message, error := "", "";
    var clean := Sanitized(form, sanitize);
    var sql, params, image := EditStatement(id, clean, upload);
    if Fails(fault, 0) {
      error := "Error updating product: " + fault.message;
      return;
    }
    EditKeepsSlugAndImage(db.products, id, clean, upload);
    db.products := EditRows(db.products, id, clean, image);
    message := "Product updated successfully";
  }

  /** The delete action (admin/products.php:78-87). */
  method DeleteProduct(db: Database, id: int, fault: Fault)
    returns (message: string, error: string)
    requires db.Valid()
    modifies db
    ensures db.Valid()
    ensures !Fails(fault, 0) ==>
      db.State() == old(db.State()).(products := DeleteRows(old(db.products), id)) &&
      message == "Product deleted successfully" && error == ""
    ensures Fails(fault, 0) ==>
      db.State() == old(db.State()) && message == "" &&
      error == "Error deleting product: " + fault.message
  {
    message, error := "", "";
    if Fails(fault, 0) {
      error := "Error deleting product: " + fault.message;
      return;
    }
    DeleteRowsKeepsKeys(db.products, id);
    db.products := DeleteRows(db.products, id);
    message := "Product deleted successfully";
  }

  /** An edit never changes a slug or an id, and changes an image only to
      a truthy stored path. */
  lemma EditKeepsSlugAndImage(rows: seq<Product>, id: int, form: ProductForm, upload: Upload)
    ensures Ids(EditRows(rows, id, form, EditedImage(upload))) == Ids(rows)
    ensures forall i :: 0 <= i < |rows| ==>
      EditRows(rows, id, form, EditedImage(upload))[i].slug == rows[i].slug
    ensures forall i :: 0 <= i < |rows| &&
                        EditRows(rows, id, form, EditedImage(upload))[i].image != rows[i].image ==>
      upload.Stored? && !Empty(upload.path) &&
      EditRows(rows, id, form, EditedImage(upload))[i].image == upload.path
  {
    var r := EditRows(rows, id, form, EditedImage(upload));
    forall x | x in Ids(rows) ensures x in Ids(r) {
      var i :| 0 <= i < |rows| && rows[i].id == x;
      assert r[i].id == x;
    }
  }
}
