/**
 * The certification store (src/services/api/certificationService.js): the quality
 * certificates in memory, with lookup by Id and create/update/delete.
 */
module CertificationService {
  import opened Wrappers
  import opened JsValue
  import opened EntityTable

  const NotFound := "Certification not found"

  class CertificationService {
    var certifications: seq<Record>

    /** Every certification carries a numeric Id, which `create` takes the maximum of. */
    ghost predicate Valid()
      reads this
    {
      AllNumericIds(certifications)
    }

    /** The store seeded with the fixture (loading it is not modelled). */
    constructor (seed: seq<Record>)
      requires AllNumericIds(seed)
      ensures Valid() && certifications == seed
    {
      certifications := seed;
    }

    /** `getAll`: a copy of the whole table. */
    function GetAll(): (r: seq<Record>)
      reads this
      ensures r == certifications
    {
      certifications
    }

    /** `getById`: the first certification with that Id, or "Certification not found". */
    function GetById(id: int): (r: Result<Record>)
      reads this
      ensures r.Failure? <==> forall i :: 0 <= i < |certifications| ==> !HasId(certifications[i], id)
      ensures r.Failure? ==> r.error == NotFound
      ensures r.Success? ==> exists i :: 0 <= i < |certifications| && certifications[i] == r.value
                                         && HasId(r.value, id)
                                         && forall j :: 0 <= j < i ==> !HasId(certifications[j], id)
    {
      var i := FindIndex(certifications, id);
      if i < 0 then Failure(NotFound) else Success(certifications[i])
    }

    /** `create`: the certification with the next Id, appended at the end. */
    method Create(certification: Record) returns (created: Record)
      requires Valid()
      modifies this
      ensures Valid()
      ensures created == certification["Id" := Num(NextId(old(certifications)))]
      ensures certifications == old(certifications) + [created]
    {
      created := certification["Id" := Num(NextId(certifications))];
      certifications := certifications + [created];
    }

    /** `update`: the patch merged over the first certification with that Id, its Id kept. */
    method Update(id: int, patch: Record) returns (r: Result<Record>)
      requires Valid()
      modifies this
      ensures Valid()
      ensures var i := FindIndex(old(certifications), id);
              if i < 0 then r == Failure(NotFound) && certifications == old(certifications)
              else r == Success(Merge(old(certifications)[i], patch))
                   && certifications == old(certifications)[i := r.value]
    {
      var i := FindIndex(certifications, id);
      if i < 0 {
        r := Failure(NotFound);
        return;
      }
      var updated := Merge(certifications[i], patch);
      certifications := certifications[i := updated];
      r := Success(updated);
    }

    /** `delete`: the first certification with that Id spliced out and returned. */
    method Delete(id: int) returns (r: Result<Record>)
      requires Valid()
      modifies this
      ensures Valid()
      ensures var i := FindIndex(old(certifications), id);
              if i < 0 then r == Failure(NotFound) && certifications == old(certifications)
              else r == Success(old(certifications)[i]) && certifications == RemoveAt(old(certifications), i)
    {
      var i := FindIndex(certifications, id);
      if i < 0 {
        r := Failure(NotFound);
        return;
      }
      r := Success(certifications[i]);
      DeleteKeepsNumericIds(certifications, i);
      certifications := RemoveAt(certifications, i);
    }
  }
}
