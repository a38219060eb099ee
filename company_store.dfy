/** The companies list of src/stores/companyStore.js. */
module CompanyStore {

  /** A company record: `carrier_id` identifies it; its other fields are carried along unread. */
  datatype Company = Company(carrierId: string, fields: map<string, string>)

  /** `Array.prototype.findIndex` with the test `c.carrier_id === id`: the first match, or -1. */
  function FindIndex(cs: seq<Company>, id: string): (i: int)
    ensures -1 <= i < |cs|
    ensures i == -1 <==> forall j :: 0 <= j < |cs| ==> cs[j].carrierId != id
    ensures 0 <= i ==> cs[i].carrierId == id && forall j :: 0 <= j < i ==> cs[j].carrierId != id
  {
    if cs == [] then -1
    else if cs[0].carrierId == id then 0
    else
      var k := FindIndex(cs[1..], id);
      if k == -1 then -1 else k + 1
  }

  /** The list `updateCompany(c)` leaves: `c` in place of the first company with its id. */
  function UpdateFirst(cs: seq<Company>, c: Company): (r: seq<Company>)
    ensures |r| == |cs|
    ensures (forall j :: 0 <= j < |cs| ==> cs[j].carrierId != c.carrierId) ==> r == cs
    ensures forall i :: 0 <= i < |cs| && cs[i].carrierId == c.carrierId
                        && (forall j :: 0 <= j < i ==> cs[j].carrierId != c.carrierId) ==>
      r == cs[i := c]
  {
    var i := FindIndex(cs, c.carrierId);
    if i == -1 then cs else cs[i := c]
  }

  /** Later companies that share the id are left as they were. */
  lemma {:induction false} UpdateKeepsLaterDuplicates(cs: seq<Company>, c: Company, i: nat, k: nat)
    requires i < k < |cs|
    requires cs[i].carrierId == c.carrierId && cs[k].carrierId == c.carrierId
    ensures UpdateFirst(cs, c)[k] == cs[k]
  {
  }

  class Store {
    var companies: seq<Company>

    constructor ()
      ensures companies == []
    {
      companies := [];
    }

    /** `setCompanies`: the list is replaced wholesale. */
    method SetCompanies(data: seq<Company>)
      modifies this
      ensures companies == data
    {
      companies := data;
    }

    /** `addCompany`: `push` at the end. */
    method AddCompany(company: Company)
      modifies this
      ensures companies == old(companies) + [company]
      ensures |companies| == |old(companies)| + 1 && companies[..|old(companies)|] == old(companies)
    {
      companies := companies + [company];
    }

    /** `updateCompany`: overwrite the first company with the same `carrier_id`, if any. */
    method UpdateCompany(updatedCompany: Company)
      modifies this
      ensures companies == UpdateFirst(old(companies), updatedCompany)
    {
      var index := FindIndex(companies, updatedCompany.carrierId);
      if index != -1 {
        companies := companies[index := updatedCompany];
      }
    }
  }
}
