/** The records of the rentals application (rentals/models.py) as values: Person, Asset, Hire
    and Payment, their status enumerations and defaults, the uniqueness constraints the
    database enforces, and the asset-status projection that Hire.save performs. */
module Models {
  import opened Wrappers

  /** Row positions stand for primary keys: the n-th row of a table is the record with pk n + 1. */
  type PersonId = nat
  type AssetId = nat
  type HireId = nat

  /** A hirer. national_id is unique; unique_id is optional and unique when present. */
  datatype Person = Person(
    fullName: string,
    nationalId: string,
    uniqueId: Option<string>,
    phone: string,
    email: Option<string>)

  datatype AssetStatus = Available | Assigned | Repossessed

  /** A rentable item; registration_number is unique. */
  datatype Asset = Asset(name: string, brand: string, registrationNumber: string, status: AssetStatus)

  /** The four choices of Hire.status, plus any other text the column may hold: the column is a
      plain character field, and Hire.save has a behaviour for a value outside the choices. */
  datatype HireStatus = Active | Paid | Overdue | Repossessed | Unlisted(raw: string)

  /** A hire agreement. Money is in cents; dates are opaque instants. reference is the billing
      reference a payer quotes; it is unique and never changes once the hire exists. */
  datatype Hire = Hire(
    person: PersonId,
    asset: AssetId,
    hireDate: int,
    dueDatetime: int,
    dailyRate: int,
    status: HireStatus,
    reference: string)

  datatype PaymentStatus = Pending | Success | Failed

  /** One recorded payment. hireReference is the owning hire's reference, copied at creation;
      mpesaReceipt is nullable and unique when present. */
  datatype Payment = Payment(
    hire: HireId,
    hireReference: string,
    amount: int,
    phone: string,
    mpesaReceipt: Option<string>,
    status: PaymentStatus,
    paidAt: Option<int>)

  /** The four tables. */
  datatype Db = Db(persons: seq<Person>, assets: seq<Asset>, hires: seq<Hire>, payments: seq<Payment>)

  // ---------------------------------------------------------------------------
  // Defaults of a freshly created record
  // ---------------------------------------------------------------------------

  /** An asset as created without an explicit status: it starts out available. */
  function NewAsset(name: string, brand: string, registrationNumber: string): Asset {
    Asset(name, brand, registrationNumber, Available)
  }

  /** A hire as created without an explicit status: it starts out active. */
  function NewHire(person: PersonId, asset: AssetId, hireDate: int, dueDatetime: int, dailyRate: int, reference: string): Hire {
    Hire(person, asset, hireDate, dueDatetime, dailyRate, Active, reference)
  }

  /** A payment as created without status, receipt or settlement time: pending, unsettled. */
  function NewPayment(hire: HireId, hireReference: string, amount: int, phone: string): Payment {
    Payment(hire, hireReference, amount, phone, None, Pending, None)
  }

  // ---------------------------------------------------------------------------
  // Integrity: foreign keys, the copied reference and the unique columns
  // ---------------------------------------------------------------------------

  /** Every foreign key points at an existing row, and every payment carries its hire's reference. */
  predicate Linked(db: Db) {
    (forall i :: 0 <= i < |db.hires| ==> db.hires[i].person < |db.persons| && db.hires[i].asset < |db.assets|) &&
    (forall i :: 0 <= i < |db.payments| ==>
       db.payments[i].hire < |db.hires| && db.payments[i].hireReference == db.hires[db.payments[i].hire].reference)
  }

  predicate PersonsUnique(persons: seq<Person>) {
    forall i, j :: 0 <= i < j < |persons| ==>
      persons[i].nationalId != persons[j].nationalId &&
      (persons[i].uniqueId.Some? ==> persons[i].uniqueId != persons[j].uniqueId)
  }

  predicate RegistrationsUnique(assets: seq<Asset>) {
    forall i, j :: 0 <= i < j < |assets| ==> assets[i].registrationNumber != assets[j].registrationNumber
  }

  predicate ReferencesUnique(hires: seq<Hire>) {
    forall i, j :: 0 <= i < j < |hires| ==> hires[i].reference != hires[j].reference
  }

  /** Non-null receipts are pairwise distinct; any number of payments may have none. */
  predicate ReceiptsUnique(payments: seq<Payment>) {
    forall i, j :: 0 <= i < j < |payments| && payments[i].mpesaReceipt.Some? ==>
      payments[i].mpesaReceipt != payments[j].mpesaReceipt
  }

  /** The invariant the database keeps on every committed state. */
  predicate Valid(db: Db) {
    Linked(db) && PersonsUnique(db.persons) && RegistrationsUnique(db.assets) &&
    ReferencesUnique(db.hires) && ReceiptsUnique(db.payments)
  }

  // ---------------------------------------------------------------------------
  // Lookups
  // ---------------------------------------------------------------------------

  /** The first hire (in primary-key order) whose reference is ref. */
  function FindByReference(hires: seq<Hire>, ref: string): (r: Option<HireId>)
    ensures r.Some? ==> r.value < |hires| && hires[r.value].reference == ref
    ensures r.Some? ==> forall j :: 0 <= j < r.value ==> hires[j].reference != ref
    ensures r.None? ==> forall j :: 0 <= j < |hires| ==> hires[j].reference != ref
  {
    if |hires| == 0 then None
    else if hires[0].reference == ref then Some(0)
    else match FindByReference(hires[1..], ref)
      case None => None
      case Some(i) => Some(i + 1)
  }

  /** Some payment has exactly this receipt; for None that is a payment without a receipt,
      as a database filter on a null value matches null columns. */
  predicate HasReceipt(payments: seq<Payment>, receipt: Option<string>) {
    exists i :: 0 <= i < |payments| && payments[i].mpesaReceipt == receipt
  }

  /** How many payments carry this receipt. */
  function CountReceipt(payments: seq<Payment>, receipt: Option<string>): nat {
    if payments == [] then 0
    else CountReceipt(payments[..|payments| - 1], receipt) + (if payments[|payments| - 1].mpesaReceipt == receipt then 1 else 0)
  }

  lemma {:induction false} CountReceiptPositive(payments: seq<Payment>, receipt: Option<string>)
    ensures CountReceipt(payments, receipt) > 0 <==> HasReceipt(payments, receipt)
  {
    if payments != [] {
      var init := payments[..|payments| - 1];
      CountReceiptPositive(init, receipt);
      if HasReceipt(payments, receipt) && payments[|payments| - 1].mpesaReceipt != receipt {
        var i :| 0 <= i < |payments| && payments[i].mpesaReceipt == receipt;
        assert init[i].mpesaReceipt == receipt;
      }
      if HasReceipt(init, receipt) {
        var i :| 0 <= i < |init| && init[i].mpesaReceipt == receipt;
        assert payments[i].mpesaReceipt == receipt;
      }
    }
  }

  /** Under the unique index, a non-null receipt occurs at most once. */
  lemma {:induction false} ReceiptAtMostOnce(payments: seq<Payment>, receipt: Option<string>)
    requires ReceiptsUnique(payments) && receipt.Some?
    ensures CountReceipt(payments, receipt) <= 1
  {
    if payments != [] {
      var init := payments[..|payments| - 1];
      assert ReceiptsUnique(init) by {
        forall i, j | 0 <= i < j < |init| && init[i].mpesaReceipt.Some?
          ensures init[i].mpesaReceipt != init[j].mpesaReceipt
        {
          assert init[i] == payments[i] && init[j] == payments[j];
        }
      }
      ReceiptAtMostOnce(init, receipt);
      if payments[|payments| - 1].mpesaReceipt == receipt {
        CountReceiptPositive(init, receipt);
        assert !HasReceipt(init, receipt) by {
          forall i | 0 <= i < |init| ensures init[i].mpesaReceipt != receipt {
            assert init[i] == payments[i];
          }
        }
      }
    }
  }

  /** With unique references, any hire carrying ref is the one the lookup finds. */
  lemma FindByUniqueReference(hires: seq<Hire>, i: HireId)
    requires ReferencesUnique(hires) && i < |hires|
    ensures FindByReference(hires, hires[i].reference) == Some(i)
  {
  }

  // ---------------------------------------------------------------------------
  // Inserting a payment
  // ---------------------------------------------------------------------------

  /** The database with one more payment row. */
  function WithPayment(db: Db, p: Payment): Db {
    db.(payments := db.payments + [p])
  }

  /** What the database accepts as a new payment row: an existing hire whose reference the
      payment copies, and a receipt that is null or not yet recorded (the unique index). */
  predicate Insertable(db: Db, p: Payment) {
    p.hire < |db.hires| && p.hireReference == db.hires[p.hire].reference &&
    (p.mpesaReceipt.Some? ==> !HasReceipt(db.payments, p.mpesaReceipt))
  }

  /** Every payment insert the database accepts keeps it valid, in particular the receipts distinct. */
  lemma InsertPreservesValid(db: Db, p: Payment)
    requires Valid(db) && Insertable(db, p)
    ensures Valid(WithPayment(db, p))
  {
  }

  /** A payment created with the defaults has no receipt, so the unique index never refuses it. */
  lemma NewPaymentInsertable(db: Db, hire: HireId, amount: int, phone: string)
    requires Valid(db) && hire < |db.hires|
    ensures var p := NewPayment(hire, db.hires[hire].reference, amount, phone);
      Insertable(db, p) && p.status == Pending && p.mpesaReceipt.None? && p.paidAt.None? && Valid(WithPayment(db, p))
  {
  }

  // ---------------------------------------------------------------------------
  // Hire.save
  // ---------------------------------------------------------------------------

  /** The asset status Hire.save leaves behind, given the hire's status and the asset's prior
      status. The two tests are applied one after the other, as in the source; a status in
      neither list leaves the asset as it was. */
  function Project(s: HireStatus, prior: AssetStatus): AssetStatus {
    var afterAssign := if s == Active || s == Paid then Assigned else prior;
    if s == Overdue || s == HireStatus.Repossessed then AssetStatus.Repossessed else afterAssign
  }

  /** The row a save writes: an existing row for a hire with a primary key, a new last row otherwise. */
  function SavedId(db: Db, pk: Option<HireId>): HireId {
    if pk.Some? then pk.value else |db.hires|
  }

  /** The database after saving hire h: first its asset's status is projected from h.status,
      then h is written (updated in place when pk is given, inserted otherwise). */
  function Saved(db: Db, pk: Option<HireId>, h: Hire): Db
    requires h.asset < |db.assets|
    requires pk.Some? ==> pk.value < |db.hires|
  {
    var a := db.assets[h.asset];
    db.(assets := db.assets[h.asset := a.(status := Project(h.status, a.status))],
        hires := if pk.Some? then db.hires[pk.value := h] else db.hires + [h])
  }

  /** What a caller must supply for a save to keep the database valid: existing person and
      asset, an existing row when updating, and a reference that is unchanged on update and
      used by no other hire. */
  predicate Saveable(db: Db, pk: Option<HireId>, h: Hire) {
    h.person < |db.persons| && h.asset < |db.assets| &&
    (pk.Some? ==> pk.value < |db.hires| && db.hires[pk.value].reference == h.reference) &&
    (forall j :: 0 <= j < |db.hires| && pk != Some(j) ==> db.hires[j].reference != h.reference)
  }

  /** A hire saved as active or paid leaves its asset assigned, whatever the asset was. */
  lemma SaveAssigns(db: Db, pk: Option<HireId>, h: Hire)
    requires h.asset < |db.assets| && (pk.Some? ==> pk.value < |db.hires|)
    requires h.status == Active || h.status == Paid
    ensures Saved(db, pk, h).assets[h.asset].status == Assigned
  {
  }

  /** A hire saved as overdue or repossessed leaves its asset repossessed, whatever it was. */
  lemma SaveRepossesses(db: Db, pk: Option<HireId>, h: Hire)
    requires h.asset < |db.assets| && (pk.Some? ==> pk.value < |db.hires|)
    requires h.status == Overdue || h.status == HireStatus.Repossessed
    ensures Saved(db, pk, h).assets[h.asset].status == AssetStatus.Repossessed
  {
  }

  /** A status outside the four choices triggers neither branch: no asset changes. */
  lemma SaveUnlistedKeepsAssets(db: Db, pk: Option<HireId>, h: Hire)
    requires h.asset < |db.assets| && (pk.Some? ==> pk.value < |db.hires|)
    requires h.status.Unlisted?
    ensures Saved(db, pk, h).assets == db.assets
  {
  }

  /** Saving touches only the saved hire's row and its asset's status: persons, payments, every
      other hire and every other asset are as before, and the asset keeps its other fields. */
  lemma SaveFrame(db: Db, pk: Option<HireId>, h: Hire)
    requires h.asset < |db.assets| && (pk.Some? ==> pk.value < |db.hires|)
    ensures var s := Saved(db, pk, h);
      s.persons == db.persons && s.payments == db.payments &&
      |s.assets| == |db.assets| &&
      (forall k :: 0 <= k < |db.assets| && k != h.asset ==> s.assets[k] == db.assets[k]) &&
      s.assets[h.asset] == db.assets[h.asset].(status := s.assets[h.asset].status) &&
      |s.hires| == (if pk.Some? then |db.hires| else |db.hires| + 1) &&
      s.hires[SavedId(db, pk)] == h &&
      (forall j :: 0 <= j < |db.hires| && pk != Some(j) ==> s.hires[j] == db.hires[j])
  {
  }

  /** Saving the same hire a second time (now as an update of the row the first save wrote)
      changes nothing further. */
  lemma SaveIdempotent(db: Db, pk: Option<HireId>, h: Hire)
    requires h.asset < |db.assets| && (pk.Some? ==> pk.value < |db.hires|)
    ensures SavedId(db, pk) < |Saved(db, pk, h).hires|
    ensures Saved(Saved(db, pk, h), Some(SavedId(db, pk)), h) == Saved(db, pk, h)
  {
  }

  /** A save the caller is entitled to make keeps the database valid. */
  lemma SavePreservesValid(db: Db, pk: Option<HireId>, h: Hire)
    requires Valid(db) && Saveable(db, pk, h)
    ensures Valid(Saved(db, pk, h))
  {
  }

  /** A hire created with the defaults is active, and saving it assigns its asset. */
  lemma NewHireAssignsAsset(db: Db, person: PersonId, asset: AssetId, hireDate: int, dueDatetime: int, dailyRate: int, reference: string)
    requires asset < |db.assets|
    ensures var s := Saved(db, None, NewHire(person, asset, hireDate, dueDatetime, dailyRate, reference));
      s.hires[|db.hires|].status == Active && s.assets[asset].status == Assigned
  {
  }
}
