/**
 * admin/categories.php: add, edit and delete of categories. The statements
 * run without a transaction, so the two statements of a delete can be
 * separated by a failure.
 */
module AdminCategories {
  import opened Wrappers
  import opened PhpText
  import opened Storage
  import opened Store

  /** The posted parent field: its raw text ("" when missing) and its integer value. */
  datatype ParentField = ParentField(raw: string, asInt: int)

  /** The parent a category gets: none for an empty field, else the field's integer. */
  function ParentOf(f: ParentField): (r: Option<int>)
    ensures r.None? <==> f.raw == "" || f.raw == "0"
    ensures r.Some? ==> r.value == f.asInt
  {
    if Empty(f.raw) then None else Some(f.asInt)
  }

  /** The edit's update: name, description and parent of the row with that id. */
  function EditRows(rows: seq<Category>, id: int, name: string, description: string,
                    parent: Option<int>): (r: seq<Category>)
    ensures |r| == |rows|
    ensures forall i :: 0 <= i < |rows| && rows[i].id == id ==>
      r[i] == Category(id, name, rows[i].slug, description, parent)
    ensures forall i :: 0 <= i < |rows| && rows[i].id != id ==> r[i] == rows[i]
  {
    seq(|rows|, i requires 0 <= i < |rows| =>
      if rows[i].id == id
      then rows[i].(name := name, description := description, parentId := parent)
      else rows[i])
  }

  /** The first statement of a delete: the children of the id lose their parent. */
  function Reparent(rows: seq<Category>, id: int): (r: seq<Category>)
    ensures |r| == |rows|
    ensures forall i :: 0 <= i < |rows| ==>
      r[i] == if rows[i].parentId == Some(id) then rows[i].(parentId := None) else rows[i]
  {
    seq(|rows|, i requires 0 <= i < |rows| =>
      if rows[i].parentId == Some(id) then rows[i].(parentId := None) else rows[i])
  }

  /** The second statement of a delete: the rows left, in order. */
  function RemoveId(rows: seq<Category>, id: int): (r: seq<Category>)
    ensures forall c :: c in r <==> c in rows && c.id != id
    ensures |r| <= |rows|
  {
    if rows == [] then []
    else
      var rest := RemoveId(rows[..|rows| - 1], id);
      var last := rows[|rows| - 1];
      assert rows == rows[..|rows| - 1] + [last];
      if last.id == id then rest else rest + [last]
  }

  lemma {:induction false} RemoveIdKeepsKeys(rows: seq<Category>, id: int)
    requires UniqueCategoryIds(rows)
    ensures UniqueCategoryIds(RemoveId(rows, id))
  {
    if rows != [] {
      var front := rows[..|rows| - 1];
      var last := rows[|rows| - 1];
      assert UniqueCategoryIds(front);
      RemoveIdKeepsKeys(front, id);
      var rest := RemoveId(front, id);
      forall c | c in rest ensures c.id != last.id {
        var j :| 0 <= j < |front| && front[j] == c;
        assert rows[j] == c;
      }
    }
  }

  lemma ReparentKeepsKeys(rows: seq<Category>, id: int)
    requires UniqueCategoryIds(rows)
    ensures UniqueCategoryIds(Reparent(rows, id))
  {
  }

  /** The add action (admin/categories.php:18-34): the new row gets the next
      id, the slug of the sanitized name, and the normalised parent. */
  method AddCategory(db: Database, name: string, description: string, parent: ParentField,
                     sanitize: string -> string, fault: Fault)
    returns (message: string, error: string)
    requires db.Valid()
    modifies db
    ensures db.Valid()
    ensures !Fails(fault, 0) ==>
      && db.State() == old(db.State()).(
           categories := old(db.categories) +
             [Category(old(db.nextCategoryId), sanitize(name), Slug(sanitize(name)),
                       sanitize(description), ParentOf(parent))],
           nextCategoryId := old(db.nextCategoryId) + 1)
      && message == "Category added successfully" && error == ""
    ensures Fails(fault, 0) ==>
      db.State() == old(db.State()) && message == "" &&
      error == "Error adding category: " + fault.message
  {
    var n := sanitize(name);
    var slug := Lower(ReplaceChar(n, ' ', '-'));
    var d := sanitize(description);
    var parentId := if !Empty(parent.raw) then Some(parent.asInt) else None;
    message, error := "", "";
    if Fails(fault, 0) {
      error := "Error adding category: " + fault.message;
      return;
    }
    db.categories := db.categories + [Category(db.nextCategoryId, n, slug, d, parentId)];
    db.nextCategoryId := db.nextCategoryId + 1;
    message := "Category added successfully";
  }

  /** The edit action (admin/categories.php:36-53): only name, description
      and parent of the row with that id change. */
  method EditCategory(db: Database, id: int, name: string, description: string,
                      parent: ParentField, sanitize: string -> string, fault: Fault)
    returns (message: string, error: string)
    requires db.Valid()
    modifies db
    ensures db.Valid()
    ensures !Fails(fault, 0) ==>
      && db.State() == old(db.State()).(
           categories := EditRows(old(db.categories), id, sanitize(name), sanitize(description),
                                  ParentOf(parent)))
      && message == "Category updated successfully" && error == ""
    ensures Fails(fault, 0) ==>
      db.State() == old(db.State()) && message == "" &&
      error == "Error updating category: " + fault.message
  {
    message, error := "", "";
    if Fails(fault, 0) {
      error := "Error updating category: " + fault.message;
      return;
    }
    var parentId := if !Empty(parent.raw) then Some(parent.asInt) else None;
    db.categories := EditRows(db.categories, id, sanitize(name), sanitize(description), parentId);
    message := "Category updated successfully";
  }

  /** The delete action (admin/categories.php:55-69): statement 0 detaches
      the children, statement 1 removes the row. A failure of statement 1
      leaves the children detached from a category that still exists. */
  method DeleteCategory(db: Database, id: int, fault: Fault)
    returns (message: string, error: string)
    requires db.Valid()
    modifies db
    ensures db.Valid()
    ensures !Fails(fault, 0) && !Fails(fault, 1) ==>
      && db.State() == old(db.State()).(categories := RemoveId(Reparent(old(db.categories), id), id))
      && message == "Category deleted successfully" && error == ""
    ensures Fails(fault, 0) ==> db.State() == old(db.State())
    ensures Fails(fault, 1) ==>
      db.State() == old(db.State()).(categories := Reparent(old(db.categories), id))
    ensures fault.FailAt? && fault.step <= 1 ==>
      message == "" && error == "Error deleting category: " + fault.message
  {
    message, error := "", "";
    if Fails(fault, 0) {
      error := "Error deleting category: " + fault.message;
      return;
    }
    ReparentKeepsKeys(db.categories, id);
    db.categories := Reparent(db.categories, id);
    if Fails(fault, 1) {
      error := "Error deleting category: " + fault.message;
      return;
    }
    RemoveIdKeepsKeys(db.categories, id);
    db.categories := RemoveId(db.categories, id);
    message := "Category deleted successfully";
  }

  /** After a delete no category names the deleted one as its parent, and
      the deleted id is gone. */
  lemma DeleteLeavesNoReference(rows: seq<Category>, id: int)
    ensures forall c :: c in RemoveId(Reparent(rows, id), id) ==> c.parentId != Some(id) && c.id != id
  {
    var r := Reparent(rows, id);
    forall c | c in r ensures c.parentId != Some(id) {
      var i :| 0 <= i < |r| && r[i] == c;
    }
  }

  /** A delete removes exactly the row with that id: every other row stays,
      a former child loses only its parent, and nothing else is altered. */
  lemma DeleteKeepsOthers(rows: seq<Category>, id: int)
    ensures forall c :: c in rows && c.id != id ==>
      (if c.parentId == Some(id) then c.(parentId := None) else c) in RemoveId(Reparent(rows, id), id)
    ensures forall c :: c in RemoveId(Reparent(rows, id), id) ==>
      c in rows || (c.parentId.None? && c.(parentId := Some(id)) in rows)
  {
    var r := Reparent(rows, id);
    forall c | c in rows && c.id != id
      ensures (if c.parentId == Some(id) then c.(parentId := None) else c) in r
    {
      var i :| 0 <= i < |rows| && rows[i] == c;
      assert r[i] in r;
    }
    forall c | c in r ensures c in rows || (c.parentId.None? && c.(parentId := Some(id)) in rows) {
      var i :| 0 <= i < |r| && r[i] == c;
      if rows[i].parentId == Some(id) {
        assert c.(parentId := Some(id)) == rows[i];
      }
    }
  }
}
