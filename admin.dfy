/** The guards of the staff administration screens (rentals/admin.py): the create-time check
    that an asset is not already assigned, the fields a hire form may not edit, the fields a
    payment form may not edit, and what saving a hire form does to the tables. */
module Admin {
  import opened Wrappers
  import opened Models

  const AlreadyAssigned := "This asset is already assigned."

  // ---------------------------------------------------------------------------
  // HireAdminForm.clean_asset
  // ---------------------------------------------------------------------------

  /** clean_asset for the hire form. instancePk is the primary key of the hire being edited,
      None while a hire is being created; asset is the submitted asset as currently stored. */
  function CleanAsset(instancePk: Option<HireId>, asset: Asset): (r: Result<Asset, string>)
    ensures r.Ok? ==> r.value == asset
    ensures r.Err? ==> r.error == AlreadyAssigned
  {
    if instancePk.None? && asset.status == Assigned then Err(AlreadyAssigned) else Ok(asset)
  }

  /** A hire being created may not take an asset that is already assigned. */
  lemma CleanAssetRejectsAssignedOnCreate(asset: Asset)
    requires asset.status == Assigned
    ensures CleanAsset(None, asset) == Err(AlreadyAssigned)
  {
  }

  /** On create, every asset that is not assigned is accepted unchanged. */
  lemma CleanAssetAcceptsFreeOnCreate(asset: Asset)
    requires asset.status != Assigned
    ensures CleanAsset(None, asset) == Ok(asset)
  {
  }

  /** When an existing hire is edited, any asset is accepted unchanged, whatever its status. */
  lemma CleanAssetAcceptsOnEdit(pk: HireId, asset: Asset)
    ensures CleanAsset(Some(pk), asset) == Ok(asset)
  {
  }

  // ---------------------------------------------------------------------------
  // Read-only fields
  // ---------------------------------------------------------------------------

  /** HireAdmin.get_readonly_fields: obj is the hire being edited, None on the add page. */
  function HireReadonlyFields(obj: Option<Hire>): (r: seq<string>)
    ensures forall f :: f in r <==> f == "reference_id" || (obj.Some? && f == "asset")
  {
    if obj.Some? then ["reference_id", "asset"] else ["reference_id"]
  }

  /** PaymentAdmin.readonly_fields. */
  const PaymentReadonlyFields: seq<string> := ["mpesa_receipt", "paid_at", "hire_reference"]

  /** The hire a submitted form produces: a read-only field keeps the instance's value (the
      stored hire when editing; on the add page a new hire, whose reference comes from outside
      the form as generated), every other field takes the submitted value. */
  function FormHire(existing: Option<Hire>, submitted: Hire, generated: string): Hire {
    var readonly := HireReadonlyFields(existing);
    var instance := if existing.Some? then existing.value else submitted.(reference := generated);
    submitted.(reference := if "reference_id" in readonly then instance.reference else submitted.reference,
               asset := if "asset" in readonly then instance.asset else submitted.asset)
  }

  /** Editing a hire can change neither its reference nor its asset; the rest is as submitted. */
  lemma EditKeepsReferenceAndAsset(existing: Hire, submitted: Hire, generated: string)
    ensures FormHire(Some(existing), submitted, generated) ==
            submitted.(reference := existing.reference, asset := existing.asset)
  {
  }

  /** A hire added through the form takes the submitted asset and the generated reference,
      never a reference typed into the form. */
  lemma CreateTakesGeneratedReference(submitted: Hire, generated: string)
    ensures FormHire(None, submitted, generated) == submitted.(reference := generated)
  {
  }

  /** The payment a submitted form produces: receipt, settlement time and hire reference keep the
      instance's values (the stored payment when editing; on the add page no receipt, no
      settlement time and the owning hire's reference), every other field is as submitted. */
  function FormPayment(existing: Option<Payment>, submitted: Payment, ownerReference: string): Payment {
    var instance := if existing.Some? then existing.value
                    else submitted.(mpesaReceipt := None, paidAt := None, hireReference := ownerReference);
    submitted.(mpesaReceipt := if "mpesa_receipt" in PaymentReadonlyFields then instance.mpesaReceipt else submitted.mpesaReceipt,
               paidAt := if "paid_at" in PaymentReadonlyFields then instance.paidAt else submitted.paidAt,
               hireReference := if "hire_reference" in PaymentReadonlyFields then instance.hireReference else submitted.hireReference)
  }

  /** Editing a payment never changes its receipt, its settlement time or its hire reference. */
  lemma PaymentEditKeepsSettlement(existing: Payment, submitted: Payment, ownerReference: string)
    ensures var p := FormPayment(Some(existing), submitted, ownerReference);
      p.mpesaReceipt == existing.mpesaReceipt && p.paidAt == existing.paidAt && p.hireReference == existing.hireReference &&
      p == submitted.(mpesaReceipt := existing.mpesaReceipt, paidAt := existing.paidAt, hireReference := existing.hireReference)
  {
  }

  /** A payment added through the form has no receipt and no settlement time, and carries its
      hire's reference, whatever was submitted. */
  lemma PaymentCreateUnsettled(submitted: Payment, ownerReference: string)
    ensures var p := FormPayment(None, submitted, ownerReference);
      p.mpesaReceipt.None? && p.paidAt.None? && p.hireReference == ownerReference
  {
  }

  // ---------------------------------------------------------------------------
  // Saving the hire form
  // ---------------------------------------------------------------------------

  /** The hire form's save: the form is cleaned (clean_asset), the hire is built from the form
      and its read-only fields, and Hire.save runs. pk is the hire being edited, None on add. */
  function AdminSaveHire(db: Db, pk: Option<HireId>, submitted: Hire, generated: string): Result<Db, string>
    requires Valid(db)
    requires pk.Some? ==> pk.value < |db.hires|
    requires pk.None? ==> submitted.asset < |db.assets|
  {
    var h := FormHire(if pk.Some? then Some(db.hires[pk.value]) else None, submitted, generated);
    match CleanAsset(pk, db.assets[h.asset])
      case Err(e) => Err(e)
      case Ok(_) => Ok(Saved(db, pk, h))
  }

  /** Adding a hire on an assigned asset is refused, and so nothing is written. */
  lemma AdminCreateOnAssignedRefused(db: Db, submitted: Hire, generated: string)
    requires Valid(db) && submitted.asset < |db.assets|
    requires db.assets[submitted.asset].status == Assigned
    ensures AdminSaveHire(db, None, submitted, generated) == Err(AlreadyAssigned)
  {
  }

  /** An accepted add of an active or paid hire takes an asset that was not assigned and leaves
      it assigned. */
  lemma AdminCreateAssigns(db: Db, submitted: Hire, generated: string)
    requires Valid(db) && submitted.asset < |db.assets|
    requires submitted.status == Active || submitted.status == Paid
    requires AdminSaveHire(db, None, submitted, generated).Ok?
    ensures db.assets[submitted.asset].status != Assigned
    ensures AdminSaveHire(db, None, submitted, generated).value.assets[submitted.asset].status == Assigned
  {
  }

  /** Saving the hire form keeps the database valid, given a person that exists and, on add, a
      generated reference that no hire uses: on edit the read-only reference and asset are what
      keep every payment's copied reference right. */
  lemma AdminSavePreservesValid(db: Db, pk: Option<HireId>, submitted: Hire, generated: string)
    requires Valid(db)
    requires pk.Some? ==> pk.value < |db.hires|
    requires pk.None? ==> submitted.asset < |db.assets|
    requires submitted.person < |db.persons|
    requires pk.None? ==> forall j :: 0 <= j < |db.hires| ==> db.hires[j].reference != generated
    ensures AdminSaveHire(db, pk, submitted, generated).Ok? ==> Valid(AdminSaveHire(db, pk, submitted, generated).value)
  {
  }
}
