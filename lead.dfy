/** The lead record shared by search, contacts, import and export
    (`src/types/lead.ts`), with the tracking fields the application code
    reads and writes beyond the declared interface: `notInterested`,
    `notInterestedDate`, `rejectionReason` and `isManual`. */
module Leads {
  import opened Common

  /** The closed set of lead categories. */
  datatype LeadType = Pool | Hoa | Neighborhood | Other

  /** The category's wire name, as stored and exported. */
  function TypeName(t: LeadType): (r: string)
    ensures r in {"pool", "hoa", "neighborhood", "other"}
  {
    match t
    case Pool => "pool"
    case Hoa => "hoa"
    case Neighborhood => "neighborhood"
    case Other => "other"
  }

  datatype Location = Location(lat: real, lng: real)

  /** Optional fields are `Option`s; dates are the ISO strings the
      application stores. */
  datatype Lead = Lead(
    id: string,
    name: string,
    address: string,
    location: Location,
    leadType: LeadType,
    phone: Option<string>,
    website: Option<string>,
    rating: Option<real>,
    reviewCount: Option<int>,
    businessStatus: Option<string>,
    distance: Option<real>,
    notes: Option<string>,
    photos: Option<seq<string>>,
    contactPerson: Option<string>,
    email: Option<string>,
    contacted: Option<bool>,
    contactedDate: Option<string>,
    contactNotes: Option<string>,
    notInterested: Option<bool>,
    notInterestedDate: Option<string>,
    rejectionReason: Option<string>,
    isManual: Option<bool>)

  /** The leads of a list that carry the given id. */
  function CountId(leads: seq<Lead>, id: string): (n: nat)
    ensures n <= |leads|
  {
    if leads == [] then 0
    else (if leads[0].id == id then 1 else 0) + CountId(leads[1..], id)
  }
}
