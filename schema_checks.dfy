/** How the request schemas relate to the record constraints of the models:
    a body the schema accepts builds a record that meets them, once its
    strings are trimmed to something non-empty. The schemas count length
    before trimming and the models trim before checking, so a blank string
    of the right length passes the first and fails the second. */
module SchemaChecks {
  import opened Common
  import opened ValidationSchemas
  import Text
  import CategoryModel
  import ClientModel
  import ServiceModel
  import PriceSheetModel
  import UserModel
  import PriceSheetController

  /** The materials of a service body, as the model stores them. */
  function Materials(b: ServiceBody): (r: seq<ServiceModel.Material>)
    ensures b.materials.None? ==> r == []
    ensures b.materials.Some? ==> |r| == |b.materials.value|
  {
    if b.materials.None? then []
    else Map(b.materials.value, (m: MaterialBody) => ServiceModel.Material(Some(m.name), Some(m.cost)))
  }

  /** A service body the schema accepts builds a valid service, whose
      duration is the requested one or 60 minutes. */
  lemma ServiceSchemaBuildsValidService(b: ServiceBody, id: Id, now: Millis)
    requires ServiceSchema(b)
    requires Text.Trim(b.name) != [] && Text.Trim(b.location) != [] && Text.Trim(b.description) != []
    ensures var s := ServiceModel.NewService(id, b.name, b.category, b.location, b.basePrice, b.description,
                                             None, b.duration, Materials(b), now);
            && ServiceModel.ValidService(s)
            && s.duration == (if b.duration.Some? then b.duration.value else 60.0)
  {
  }

  /** A price-sheet body the schema accepts builds a valid sheet. */
  lemma PriceSheetSchemaBuildsValidSheet(b: PriceSheetBody, id: Id, now: Millis)
    requires PriceSheetSchema(b)
    requires Text.Trim(b.name) != [] && Text.Trim(b.description) != []
    ensures PriceSheetModel.ValidSheet(
              PriceSheetModel.NewPriceSheet(id, b.name, b.description, None, PriceSheetController.StoredEntries(b.services), now))
  {
    var entries := PriceSheetController.StoredEntries(b.services);
    forall i | 0 <= i < |entries|
      ensures entries[i].price >= 0.0
    {
      assert entries[i].price == b.services[i].price;
    }
    var s := PriceSheetModel.NewPriceSheet(id, b.name, b.description, None, entries, now);
    assert s.services == entries;
  }

  /** A client body the schema accepts builds a valid client with
      `customPricing` as requested, false by default. */
  lemma ClientSchemaBuildsValidClient(b: ClientBody, isEmail: string -> bool, id: Id)
    requires ClientSchema(b, isEmail)
    requires Text.Trim(b.name) != [] && Text.Trim(b.email) != []
    ensures var c := ClientModel.NewClient(id, b.name, b.email, b.customPricing, b.phone, b.address, None, b.notes);
            && ClientModel.ValidClient(c)
            && c.customPricing == ClientModel.Flag(b.customPricing == Some(true))
  {
  }

  /** A register body the schema accepts asks for a role of the enum, if
      any, and has a password the model accepts. */
  lemma RegisterSchemaFitsUser(b: RegisterBody, isEmail: string -> bool)
    requires RegisterSchema(b, isEmail)
    ensures |b.password| >= UserModel.MinPasswordLength
    ensures b.role.Some? ==> UserModel.RoleLabel(UserModel.ParseRole(b.role.value).value) == b.role.value
  {
  }

  /** Two spaces meet the schema's minimum name length of 2, yet the stored
      category name is empty, which the model's `required` refuses. */
  lemma BlankNamePassesCategorySchema(id: Id)
    ensures CategorySchema(CategoryBody("  ", "Excursions"))
    ensures !CategoryModel.ValidCategory(CategoryModel.NewCategory(id, "  ", "Excursions", None))
  {
    assert Text.IsWhiteSpace(' ');
    assert Text.Trim("  ") == [] by {
      var t := Text.Trim("  ");
      assert t == [] || t == " " || t == "  ";
    }
  }
}
