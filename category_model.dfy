/** The Category record. */
module CategoryModel {
  import opened Common
  import Text

  datatype Category = Category(id: Id, name: string, description: string, active: bool)

  /** Name and description are required, so non-empty. */
  predicate ValidCategory(c: Category)
  {
    c.name != [] && c.description != []
  }

  /** A category as the schema builds it: both strings trimmed, `active`
      true unless given. */
  function NewCategory(id: Id, name: string, description: string, active: Option<bool>): (c: Category)
    ensures c.id == id && c.name == Text.Trim(name) && c.description == Text.Trim(description)
    ensures Text.IsTrimmed(c.name) && Text.IsTrimmed(c.description)
    ensures c.active <==> active != Some(false)
    ensures Text.Trim(name) != [] && Text.Trim(description) != [] ==> ValidCategory(c)
  {
    Category(id, Text.Trim(name), Text.Trim(description), if active.Some? then active.value else true)
  }
}
