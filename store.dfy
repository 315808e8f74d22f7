/** The persisted tables of rentals/models.py as a mutable store: the queries the callback
    makes, the inserts the unique indexes guard, and Hire.save, which writes the hire's asset
    and then the hire itself. */
module Persistence {
  import opened Wrappers
  import opened Models

  class Store {
    var persons: seq<Person>
    var assets: seq<Asset>
    var hires: seq<Hire>
    var payments: seq<Payment>

    /** The tables as one value. */
    function State(): Db
      reads this
    {
      Db(persons, assets, hires, payments)
    }

    /** The integrity the database keeps between operations. */
    predicate Valid()
      reads this
    {
      Models.Valid(State())
    }

    constructor ()
      ensures Valid()
      ensures State() == Db([], [], [], [])
    {
      persons, assets, hires, payments := [], [], [], [];
    }

    // -------------------------------------------------------------------------
    // Queries
    // -------------------------------------------------------------------------

    /** Hire.objects.filter(reference_id=ref).first(): the first hire in primary-key order
        whose reference is ref, or None when no hire carries it. */
    method FindHire(ref: string) returns (r: Option<HireId>)
      ensures r == FindByReference(hires, ref)
      ensures r.Some? ==> r.value < |hires| && hires[r.value].reference == ref
      ensures r.None? <==> forall j :: 0 <= j < |hires| ==> hires[j].reference != ref
    {
      var i := 0;
      while i < |hires|
        invariant 0 <= i <= |hires|
        invariant forall j :: 0 <= j < i ==> hires[j].reference != ref
      {
        if hires[i].reference == ref {
          return Some(i);
        }
        i := i + 1;
      }
      return None;
    }

    /** Payment.objects.filter(mpesa_receipt=receipt).exists(); for None the filter is on null. */
    method ReceiptExists(receipt: Option<string>) returns (b: bool)
      ensures b == HasReceipt(payments, receipt)
    {
      var i := 0;
      while i < |payments|
        invariant 0 <= i <= |payments|
        invariant forall j :: 0 <= j < i ==> payments[j].mpesaReceipt != receipt
      {
        if payments[i].mpesaReceipt == receipt {
          return true;
        }
        i := i + 1;
      }
      return false;
    }

    /** Whether an asset already holds this registration number. */
    method RegistrationTaken(registrationNumber: string) returns (b: bool)
      ensures b <==> exists k :: 0 <= k < |assets| && assets[k].registrationNumber == registrationNumber
    {
      var k := 0;
      while k < |assets|
        invariant 0 <= k <= |assets|
        invariant forall j :: 0 <= j < k ==> assets[j].registrationNumber != registrationNumber
      {
        if assets[k].registrationNumber == registrationNumber {
          return true;
        }
        k := k + 1;
      }
      return false;
    }

    /** Whether a person already holds this national id, or this unique id when one is given. */
    method PersonKeyTaken(nationalId: string, uniqueId: Option<string>) returns (b: bool)
      ensures b <==> (exists k :: 0 <= k < |persons| &&
                        (persons[k].nationalId == nationalId || (uniqueId.Some? && persons[k].uniqueId == uniqueId)))
    {
      var k := 0;
      while k < |persons|
        invariant 0 <= k <= |persons|
        invariant forall j :: 0 <= j < k ==>
          persons[j].nationalId != nationalId && (uniqueId.None? || persons[j].uniqueId != uniqueId)
      {
        if persons[k].nationalId == nationalId || (uniqueId.Some? && persons[k].uniqueId == uniqueId) {
          return true;
        }
        k := k + 1;
      }
      return false;
    }

    // -------------------------------------------------------------------------
    // Inserts guarded by the unique indexes
    // -------------------------------------------------------------------------

    /** Creates a person; the unique indexes on national_id and unique_id refuse a clash,
        and then nothing is written. */
    method AddPerson(fullName: string, nationalId: string, uniqueId: Option<string>, phone: string, email: Option<string>)
      returns (r: Option<PersonId>)
      requires Valid()
      modifies this
      ensures Valid()
      ensures r.None? <==> (exists k :: 0 <= k < |old(persons)| &&
                              (old(persons)[k].nationalId == nationalId || (uniqueId.Some? && old(persons)[k].uniqueId == uniqueId)))
      ensures r.None? ==> State() == old(State())
      ensures r.Some? ==> (r.value == |old(persons)| &&
                           State() == old(State()).(persons := old(persons) + [Person(fullName, nationalId, uniqueId, phone, email)]))
    {
      var taken := PersonKeyTaken(nationalId, uniqueId);
      if taken {
        return None;
      }
      r := Some(|persons|);
      persons := persons + [Person(fullName, nationalId, uniqueId, phone, email)];
    }

    /** Creates an asset with the default status (available); the unique index on
        registration_number refuses a clash, and then nothing is written. */
    method AddAsset(name: string, brand: string, registrationNumber: string) returns (r: Option<AssetId>)
      requires Valid()
      modifies this
      ensures Valid()
      ensures r.None? <==> exists k :: 0 <= k < |old(assets)| && old(assets)[k].registrationNumber == registrationNumber
      ensures r.None? ==> State() == old(State())
      ensures r.Some? ==> (r.value == |old(assets)| &&
                           State() == old(State()).(assets := old(assets) + [NewAsset(name, brand, registrationNumber)]) &&
                           assets[r.value].status == Available)
    {
      var taken := RegistrationTaken(registrationNumber);
      if taken {
        return None;
      }
      r := Some(|assets|);
      assets := assets + [NewAsset(name, brand, registrationNumber)];
    }

    /** Payment.objects.create with every field given. */
    method InsertPayment(p: Payment) returns (id: nat)
      requires Valid() && Insertable(State(), p)
      modifies this
      ensures Valid()
      ensures id == |old(payments)|
      ensures State() == WithPayment(old(State()), p)
    {
      InsertPreservesValid(State(), p);
      id := |payments|;
      payments := payments + [p];
    }

    /** Payment.objects.create with only hire, amount and phone: the defaults make it a pending
        payment with no receipt and no settlement time; its reference is copied from the hire. */
    method AddPayment(hire: HireId, amount: int, phone: string) returns (id: nat)
      requires Valid() && hire < |hires|
      modifies this
      ensures Valid()
      ensures id == |old(payments)|
      ensures State() == WithPayment(old(State()), NewPayment(hire, old(hires)[hire].reference, amount, phone))
      ensures payments[id].status == Pending && payments[id].mpesaReceipt.None? && payments[id].paidAt.None?
    {
      NewPaymentInsertable(State(), hire, amount, phone);
      id := InsertPayment(NewPayment(hire, hires[hire].reference, amount, phone));
    }

    // -------------------------------------------------------------------------
    // Hire.save
    // -------------------------------------------------------------------------

    /** Hire.save: when the hire is active or paid its asset becomes assigned, when it is
        overdue or repossessed its asset becomes repossessed (each written back), and then the
        hire row is written: updated when pk is given, inserted as a new row otherwise. */
    method SaveHire(pk: Option<HireId>, h: Hire) returns (id: HireId)
      requires Valid() && Saveable(State(), pk, h)
      modifies this
      ensures Valid()
      ensures id == SavedId(old(State()), pk)
      ensures State() == Saved(old(State()), pk, h)
      ensures h.status == Active || h.status == Paid ==> assets[h.asset].status == Assigned
      ensures h.status == Overdue || h.status == HireStatus.Repossessed ==> assets[h.asset].status == AssetStatus.Repossessed
      ensures h.status.Unlisted? ==> assets == old(assets)
    {
      SavePreservesValid(State(), pk, h);
      if h.status == Active || h.status == Paid {
        assets := assets[h.asset := assets[h.asset].(status := Assigned)];
      }
      if h.status == Overdue || h.status == HireStatus.Repossessed {
        assets := assets[h.asset := assets[h.asset].(status := AssetStatus.Repossessed)];
      }
      if pk.Some? {
        id := pk.value;
        hires := hires[id := h];
      } else {
        id := |hires|;
        hires := hires + [h];
      }
    }

    /** Creates a hire with the default status (active) under a reference supplied from outside,
        which must be unused; saving it assigns its asset. */
    method AddHire(person: PersonId, asset: AssetId, hireDate: int, dueDatetime: int, dailyRate: int, reference: string)
      returns (id: HireId)
      requires Valid() && person < |persons| && asset < |assets|
      requires forall j :: 0 <= j < |hires| ==> hires[j].reference != reference
      modifies this
      ensures Valid()
      ensures id == |old(hires)|
      ensures State() == Saved(old(State()), None, NewHire(person, asset, hireDate, dueDatetime, dailyRate, reference))
      ensures hires[id].status == Active && assets[asset].status == Assigned
    {
      id := SaveHire(None, NewHire(person, asset, hireDate, dueDatetime, dailyRate, reference));
    }
  }
}
