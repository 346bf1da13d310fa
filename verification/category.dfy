/** The category entity. */
module Categories {
  import opened Common

  const StatusActive: string := "active"
  const StatusInactive: string := "inactive"

  /** The values of one category. A root category has no parent. */
  datatype CategoryRecord = CategoryRecord(
    id: Uuid,
    name: string,
    description: string,
    parentId: Option<Uuid>,
    status: string,
    createdAt: Time,
    updatedAt: Time)

  /** A category entity whose status is updated in place. */
  class Category {
    var ID: Uuid
    var Name: string
    var Description: string
    var ParentID: Option<Uuid>
    var Status: string
    var CreatedAt: Time
    var UpdatedAt: Time

    function Record(): CategoryRecord
      reads this
    {
      CategoryRecord(ID, Name, Description, ParentID, Status, CreatedAt, UpdatedAt)
    }

    /** A new category: active, created and updated now, with the given parent (if any). */
    constructor NewCategory(id: Uuid, name: string, description: string, parentId: Option<Uuid>, now: Time)
      ensures Record() == CategoryRecord(id, name, description, parentId, StatusActive, now, now)
      ensures IsSubCategory() <==> parentId.Some?
    {
      ID, Name, Description, ParentID := id, name, description, parentId;
      Status, CreatedAt, UpdatedAt := StatusActive, now, now;
    }

    /** A category with a parent. */
    predicate IsSubCategory()
      reads this
    {
      ParentID.Some?
    }

    /** Marks the category inactive; only Status and UpdatedAt change. */
    method Deactivate(now: Time)
      modifies this
      ensures Record() == old(Record()).(status := StatusInactive, updatedAt := now)
      ensures IsSubCategory() == old(IsSubCategory())
    {
      Status := StatusInactive;
      UpdatedAt := now;
    }

    /** Marks the category active; only Status and UpdatedAt change. */
    method Activate(now: Time)
      modifies this
      ensures Record() == old(Record()).(status := StatusActive, updatedAt := now)
      ensures IsSubCategory() == old(IsSubCategory())
    {
      Status := StatusActive;
      UpdatedAt := now;
    }
  }
}
